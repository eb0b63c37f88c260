/** What a messages stream means, read off the upstream events by position, and that the translator delivers it. */
module MessagesMeaning {
  import opened Text
  import opened ResponsesEvents
  import opened MessagesStream
  import opened MessagesIndices
  import opened MessagesGrammar

  predicate StartsItem(e: MsgEvent) {
    e.BlockStart? && IsItem(e.block)
  }

  /** The positions at which items start. */
  function Openings(events: seq<MsgEvent>): (r: seq<nat>)
    ensures forall x | x in r :: x < |events| && StartsItem(events[x])
  {
    if events == [] then []
    else
      var n := |events| - 1;
      var before := Openings(events[..n]);
      if StartsItem(events[n]) then before + [n] else before
  }

  predicate Ends(e: MsgEvent, i: int) {
    e.Error? || (e.BlockStop? && e.index == i)
  }

  /** What comes before the first stop of block `i` or upstream error. */
  function Span(rest: seq<MsgEvent>, i: int): (r: seq<MsgEvent>)
    ensures |r| <= |rest|
  {
    if rest == [] || Ends(rest[0], i) then [] else [rest[0]] + Span(rest[1..], i)
  }

  /** The non-empty fragments of the right kind addressed to block `i`. */
  function Fragments(es: seq<MsgEvent>, i: int, tool: bool): seq<string> {
    if es == [] then []
    else
      var before, e := Fragments(es[..|es| - 1], i, tool), es[|es| - 1];
      if e.BlockDelta? && e.index == i && Piece(e.delta, tool) != "" then before + [Piece(e.delta, tool)] else before
  }

  /** The deltas meant for the item that starts at `j`. */
  function DeltasOf(events: seq<MsgEvent>, j: nat): seq<string>
    requires j < |events| && StartsItem(events[j])
  {
    Fragments(Span(events[j + 1..], events[j].index), events[j].index, events[j].block.ToolBlock?)
  }

  /** The finished item that starts at `j`, as output item number `k`: its seed, then its deltas. */
  function ItemAt(events: seq<MsgEvent>, j: nat, k: nat): ResponsesEvents.Item
    requires j < |events| && StartsItem(events[j])
  {
    var content := Join(Seed(events[j].block) + DeltasOf(events, j));
    match events[j].block
    case TextBlock(_) => Message(k, Completed, content)
    case ToolBlock(name, _) => FunctionCall(k, Completed, SyntheticCallId(k), name, OrEmptyObject(content))
  }

  function Denote(events: seq<MsgEvent>): seq<ResponsesEvents.Item> {
    var js := Openings(events);
    seq(|js|, k requires 0 <= k < |js| => assert js[k] in js; ItemAt(events, js[k], k))
  }

  // ----- The slots of the machine -----

  ghost predicate SlotMeans(events: seq<MsgEvent>, s: Slot, j: nat) {
    && j < |events| && StartsItem(events[j])
    && s.block == events[j].index
    && s.tool == events[j].block.ToolBlock?
    && (s.tool ==> s.name == events[j].block.name)
    && s.pieces == Seed(events[j].block) + DeltasOf(events, j)
    && s.hidden == (if s.tool then |Seed(events[j].block)| else 0)
    && (s.closed <==> Span(events[j + 1..], s.block) != events[j + 1..])
  }

  ghost predicate Means(events: seq<MsgEvent>, slots: seq<Slot>) {
    && |slots| == |Openings(events)|
    && forall k | 0 <= k < |slots| :: SlotMeans(events, slots[k], Openings(events)[k])
  }

  lemma {:induction false} SpanSnoc(rest: seq<MsgEvent>, i: int, e: MsgEvent)
    ensures Span(rest + [e], i) == if Span(rest, i) != rest then Span(rest, i) else if Ends(e, i) then rest else rest + [e]
  {
    if rest == [] {
      assert [e][1..] == [];
    } else {
      assert (rest + [e])[1..] == rest[1..] + [e];
      SpanSnoc(rest[1..], i, e);
      assert rest == [rest[0]] + rest[1..];
      assert Span(rest, i) != rest && !Ends(rest[0], i) ==> Span(rest[1..], i) != rest[1..];
    }
  }

  /** How one more event changes the meaning of an item that has started. */
  lemma SlotMeansSnoc(events: seq<MsgEvent>, e: MsgEvent, s: Slot, s': Slot, j: nat)
    requires SlotMeans(events, s, j)
    requires s' == s.(pieces := s'.pieces, closed := s'.closed)
    requires s'.closed <==> s.closed || Ends(e, s.block)
    requires s'.pieces ==
      if !s.closed && e.BlockDelta? && e.index == s.block && Piece(e.delta, s.tool) != "" then s.pieces + [Piece(e.delta, s.tool)]
      else s.pieces
    ensures SlotMeans(events + [e], s', j)
  {
    hide Fragments, Piece, Seed, Span;
    var rest, i := events[j + 1..], s.block;
    assert (events + [e])[j + 1..] == rest + [e];
    SpanSnoc(rest, i, e);
    SpanShort(rest, i);
    FragmentsSnoc(rest, e, i, s.tool);
  }

  lemma SpanShort(rest: seq<MsgEvent>, i: int)
    ensures |Span(rest, i)| <= |rest|
  {
  }

  lemma FragmentsSnoc(es: seq<MsgEvent>, e: MsgEvent, i: int, tool: bool)
    ensures Fragments(es + [e], i, tool) ==
      if e.BlockDelta? && e.index == i && Piece(e.delta, tool) != "" then Fragments(es, i, tool) + [Piece(e.delta, tool)]
      else Fragments(es, i, tool)
  {
    assert (es + [e])[..|es|] == es;
  }

  lemma SlotMeansFirst(events: seq<MsgEvent>, e: MsgEvent, index: nat)
    requires StartsItem(e)
    ensures SlotMeans(events + [e], Opened(e.block, e.index, index), |events|)
  {
    assert (events + [e])[|events| + 1..] == [];
  }

  lemma OpeningsSnoc(events: seq<MsgEvent>, e: MsgEvent)
    ensures Openings(events + [e]) == if StartsItem(e) then Openings(events) + [|events|] else Openings(events)
  {
    assert (events + [e])[..|events|] == events;
  }

  /** What one event does to the slots of a state in which no item is lost. */
  ghost predicate SlotsMove(a: seq<Slot>, b: seq<Slot>, e: MsgEvent) {
    && |b| == |a| + (if StartsItem(e) then 1 else 0)
    && (forall k | 0 <= k < |a| ::
      && b[k] == a[k].(pieces := b[k].pieces, closed := b[k].closed)
      && (b[k].closed <==> a[k].closed || Ends(e, a[k].block))
      && b[k].pieces ==
        if !a[k].closed && e.BlockDelta? && e.index == a[k].block && Piece(e.delta, a[k].tool) != ""
        then a[k].pieces + [Piece(e.delta, a[k].tool)]
        else a[k].pieces)
    && (StartsItem(e) ==> b[|a|] == Opened(e.block, e.index, b[|a|].index))
  }

  lemma StepMoves(st: State, responseId: string, e: MsgEvent)
    requires Basic(st) && Numbered(st)
    ensures SlotsMove(st.slots, Step(st, responseId, e).slots, e)
  {
    match e
    case BlockStart(i, b) =>
    case BlockDelta(i, d) => DeltaMoves(st, i, d);
    case BlockStop(i) => StopMoves(st, i);
    case Error(detail) =>
      SettleNumbered(st);
      BasicCloseAll(st, st.order);
    case MessageDelta(_) =>
    case MessageStart =>
    case Ignored =>
  }

  lemma DeltaMoves(st: State, i: int, d: Delta)
    requires Basic(st) && Numbered(st)
    ensures SlotsMove(st.slots, OnDelta(st, i, d).slots, BlockDelta(i, d))
  {
    forall k | 0 <= k < |st.slots| && !st.slots[k].closed && st.slots[k].block == i
      ensures Open(st, i) && st.blocks[i] == Item(k)
    {
    }
  }

  lemma StopMoves(st: State, i: int)
    requires Basic(st) && Numbered(st)
    ensures SlotsMove(st.slots, OnStop(st, i).slots, BlockStop(i))
  {
    forall k | 0 <= k < |st.slots| && !st.slots[k].closed && st.slots[k].block == i
      ensures Open(st, i) && st.blocks[i] == Item(k)
    {
    }
  }

  lemma MoveMeans(events: seq<MsgEvent>, e: MsgEvent, a: seq<Slot>, b: seq<Slot>)
    requires Means(events, a) && SlotsMove(a, b, e)
    ensures Means(events + [e], b)
  {
    hide SlotMeans;
    OpeningsSnoc(events, e);
    forall k | 0 <= k < |b|
      ensures SlotMeans(events + [e], b[k], Openings(events + [e])[k])
    {
      if k < |a| {
        SlotMeansSnoc(events, e, a[k], b[k], Openings(events)[k]);
      } else {
        SlotMeansFirst(events, e, b[k].index);
      }
    }
  }

  lemma ConflictFreePrefix(events: seq<MsgEvent>, n: nat)
    requires ConflictFree(events) && n <= |events|
    ensures ConflictFree(events[..n])
  {
    forall m | 0 <= m < n
      ensures !Conflict(events[..n][..m], events[..n][m])
    {
      assert events[..n][..m] == events[..m];
    }
  }

  lemma {:induction false} ReachMeans(responseId: string, events: seq<MsgEvent>)
    requires ConflictFree(events)
    ensures Means(events, Reach(responseId, events).slots)
  {
    hide *;
    if events == [] {
      NothingMeans(responseId);
    } else {
      var front, e := events[..|events| - 1], events[|events| - 1];
      ConflictFreePrefix(events, |front|);
      ReachMeans(responseId, front);
      ConflictFreeIsNumbered(responseId, front);
      ReachBasic(responseId, front);
      StepMoves(Reach(responseId, front), responseId, e);
      assert front + [e] == events;
      ReachSnoc(responseId, front, e);
      MoveMeans(front, e, Reach(responseId, front).slots, Reach(responseId, events).slots);
    }
  }

  lemma NothingMeans(responseId: string)
    ensures Means([], Reach(responseId, []).slots)
  {
  }

  lemma ReachSnoc(responseId: string, events: seq<MsgEvent>, e: MsgEvent)
    ensures Reach(responseId, events + [e]) == Step(Reach(responseId, events), responseId, e)
  {
    hide Step;
    assert (events + [e])[..|events|] == events;
  }

  lemma SlotItem(events: seq<MsgEvent>, s: Slot, j: nat, k: nat)
    requires SlotMeans(events, s, j)
    ensures FinalItem(s, k) == ItemAt(events, j, k)
  {
  }

  /** Without index conflicts the snapshot lists the started items in order, each with its seed and the deltas sent to
      its block up to the block's stop. */
  lemma SnapshotIsMeaning(responseId: string, events: seq<MsgEvent>, end: StreamEnd)
    requires ConflictFree(events)
    ensures Snapshot(Final(responseId, events, end)) == Denote(events)
  {
    hide SlotMeans, ConflictFree, Numbered, Basic, BodyGrammar, Snapshot;
    var st0, st := Reach(responseId, events), Final(responseId, events, end);
    ReachMeans(responseId, events);
    ConflictFreeIsWellNumbered(responseId, events, end);
    ReachBasic(responseId, events);
    BasicCloseAll(st0, st0.order);
    forall k | 0 <= k < |st.slots|
      ensures Snapshot(st)[k] == Denote(events)[k]
    {
      SlotItem(events, st0.slots[k], Openings(events)[k], k);
      assert FinalItem(st.slots[k], k) == FinalItem(st0.slots[k], k);
    }
  }

  // ----- What is sent as deltas -----

  /** The fragments in the delta events of a trace. */
  function Sent(es: seq<Event>): seq<string> {
    if es == [] then []
    else
      var before, e := Sent(es[..|es| - 1]), es[|es| - 1];
      if e.TextDelta? || e.ArgsDelta? then before + [e.delta] else before
  }

  lemma {:induction false} SentConcat(a: seq<Event>, b: seq<Event>)
    ensures Sent(a + b) == Sent(a) + Sent(b)
  {
    if b == [] {
      assert a + b == a;
    } else {
      var front := b[..|b| - 1];
      assert (a + b)[..|a + b| - 1] == a + front;
      SentConcat(a, front);
    }
  }

  lemma {:induction false} SentDeltas(s: Slot, k: nat, pieces: seq<string>)
    ensures Sent(DeltaEvents(s, k, pieces)) == pieces
  {
    if pieces != [] {
      var front := pieces[..|pieces| - 1];
      assert DeltaEvents(s, k, pieces)[..|pieces| - 1] == DeltaEvents(s, k, front);
      SentDeltas(s, k, front);
    }
  }

  lemma {:induction false} SentNothing(es: seq<Event>)
    requires forall e | e in es :: !e.TextDelta? && !e.ArgsDelta?
    ensures Sent(es) == []
  {
    if es != [] {
      SentNothing(es[..|es| - 1]);
    }
  }

  lemma SilentEnds(s: Slot, k: nat)
    ensures Sent(Opening(s, k)) == [] && Sent(ClosingEvents(s, k)) == [] && Sent([]) == []
  {
    SentNothing(Opening(s, k));
    SentNothing(ClosingEvents(s, k));
  }

  lemma SentExpected(s: Slot, k: nat)
    requires s.hidden <= |s.pieces|
    ensures Sent(Expected(s, k)) == Shown(s)
  {
    hide Sent, Opening, ClosingEvents, DeltaEvents, Shown;
    var mid := DeltaEvents(s, k, Shown(s));
    var closing := if s.closed then ClosingEvents(s, k) else [];
    SentConcat(Opening(s, k) + mid, closing);
    SentConcat(Opening(s, k), mid);
    SentDeltas(s, k, Shown(s));
    SilentEnds(s, k);
    assert [] + Shown(s) + [] == Shown(s);
  }

  lemma FinalTraced(responseId: string, events: seq<MsgEvent>, end: StreamEnd)
    requires ConflictFree(events)
    ensures Traced(Final(responseId, events, end))
  {
    var st := Reach(responseId, events);
    ReachTraced(responseId, events);
    ConflictFreeIsNumbered(responseId, events);
    FinishTraced(st, responseId, OutcomeOf(st, end));
  }

  /** Item `k` is streamed as its text seed and its deltas, fragment by fragment; the initial input of a tool is never
      sent as a delta. */
  lemma SentFragments(responseId: string, events: seq<MsgEvent>, end: StreamEnd, k: nat)
    requires ConflictFree(events) && k < |Openings(events)|
    ensures Openings(events)[k] < |events| && StartsItem(events[Openings(events)[k]])
    ensures Sent(Project(Translate(responseId, events, end), k)) == ShownContent(events, Openings(events)[k])
  {
    hide *;
    var st0, st := Reach(responseId, events), Final(responseId, events, end);
    SlotAt(responseId, events, k);
    ReachBasic(responseId, events);
    FinalTraced(responseId, events, end);
    FinalSlots(responseId, events, end, k);
    FinalProjection(responseId, events, end, k);
    SentExpected(st.slots[k], k);
    SlotShown(events, st0.slots[k], st.slots[k], Openings(events)[k]);
  }

  function ShownContent(events: seq<MsgEvent>, j: nat): seq<string>
    requires j < |events| && StartsItem(events[j])
  {
    (if events[j].block.ToolBlock? then [] else Seed(events[j].block)) + DeltasOf(events, j)
  }

  lemma SlotAt(responseId: string, events: seq<MsgEvent>, k: nat)
    requires ConflictFree(events) && k < |Openings(events)|
    ensures k < |Reach(responseId, events).slots|
    ensures SlotMeans(events, Reach(responseId, events).slots[k], Openings(events)[k])
    ensures Openings(events)[k] < |events| && StartsItem(events[Openings(events)[k]])
  {
    hide ConflictFree, SlotMeans;
    ReachMeans(responseId, events);
    assert Openings(events)[k] in Openings(events);
  }

  lemma SlotShown(events: seq<MsgEvent>, s: Slot, s': Slot, j: nat)
    requires SlotMeans(events, s, j) && s' == s.(closed := s'.closed)
    ensures s'.hidden <= |s'.pieces| && j < |events| && StartsItem(events[j]) && Shown(s') == ShownContent(events, j)
  {
  }

  lemma FinalProjection(responseId: string, events: seq<MsgEvent>, end: StreamEnd, k: nat)
    requires Traced(Final(responseId, events, end)) && k < |Final(responseId, events, end).slots|
    ensures var s := Final(responseId, events, end).slots[k];
      s.hidden <= |s.pieces| && Project(Translate(responseId, events, end), k) == Expected(s, k)
  {
    hide Final, Expected;
    FramedProjection(responseId, Final(responseId, events, end).trace);
  }

  lemma FinalSlots(responseId: string, events: seq<MsgEvent>, end: StreamEnd, k: nat)
    requires Basic(Reach(responseId, events)) && k < |Reach(responseId, events).slots|
    ensures var st0, st := Reach(responseId, events), Final(responseId, events, end);
      k < |st.slots| && st.slots[k] == st0.slots[k].(closed := st.slots[k].closed)
  {
    BasicCloseAll(Reach(responseId, events), Reach(responseId, events).order);
  }

  // ----- Terminal events -----

  function Terminals(es: seq<Event>): nat {
    if es == [] then 0 else Terminals(es[..|es| - 1]) + (if es[|es| - 1].Terminal? then 1 else 0)
  }

  function Errors(events: seq<MsgEvent>): nat {
    if events == [] then 0 else Errors(events[..|events| - 1]) + (if events[|events| - 1].Error? then 1 else 0)
  }

  lemma {:induction false} TerminalsConcat(a: seq<Event>, b: seq<Event>)
    ensures Terminals(a + b) == Terminals(a) + Terminals(b)
  {
    if b == [] {
      assert a + b == a;
    } else {
      assert (a + b)[..|a + b| - 1] == a + b[..|b| - 1];
      TerminalsConcat(a, b[..|b| - 1]);
    }
  }

  lemma {:induction false} NoTerminals(es: seq<Event>)
    ensures Terminals(es) == 0 <==> forall e | e in es :: !e.Terminal?
  {
    if es != [] {
      NoTerminals(es[..|es| - 1]);
      assert forall e :: e in es <==> e in es[..|es| - 1] || e == es[|es| - 1];
    }
  }

  lemma StopTerminals(st: State, i: int)
    ensures Terminals(OnStop(st, i).trace) == Terminals(st.trace)
  {
    if Open(st, i) {
      var k := st.blocks[i].slot;
      NoTerminals(ClosingEvents(st.slots[k], k));
      TerminalsConcat(st.trace, ClosingEvents(st.slots[k], k));
    }
  }

  lemma {:induction false} CloseAllTerminals(st: State, order: seq<int>)
    ensures Terminals(CloseAll(st, order).trace) == Terminals(st.trace)
  {
    if order != [] {
      CloseAllTerminals(st, order[..|order| - 1]);
      StopTerminals(CloseAll(st, order[..|order| - 1]), order[|order| - 1]);
    }
  }

  lemma FinishTerminals(st: State, responseId: string, outcome: Outcome)
    ensures Terminals(Finish(st, responseId, outcome).trace) == Terminals(st.trace) + 1
  {
    CloseAllTerminals(st, st.order);
    var last := Terminal(outcome, responseId, Snapshot(Settle(st)));
    assert Terminals([last]) == 1;
    TerminalsConcat(Settle(st).trace, [last]);
  }

  lemma StepTerminals(st: State, responseId: string, e: MsgEvent)
    ensures Terminals(Step(st, responseId, e).trace) == Terminals(st.trace) + (if e.Error? then 1 else 0)
  {
    match e
    case BlockStart(i, b) =>
      if IsItem(b) {
        var es := OpeningEvents(b, NextIndex(st), |st.slots|);
        NoTerminals(es);
        TerminalsConcat(st.trace, es);
      }
    case BlockDelta(i, d) =>
      if OnDelta(st, i, d) != st {
        var k := st.blocks[i].slot;
        var es := [DeltaEvent(st.slots[k], k, Piece(d, st.slots[k].tool))];
        NoTerminals(es);
        TerminalsConcat(st.trace, es);
      }
    case BlockStop(i) => StopTerminals(st, i);
    case Error(detail) => FinishTerminals(st, responseId, Failed(detail));
    case MessageDelta(_) =>
    case MessageStart =>
    case Ignored =>
  }

  lemma {:induction false} ReachTerminals(responseId: string, events: seq<MsgEvent>)
    ensures Terminals(Reach(responseId, events).trace) == Errors(events)
  {
    if events != [] {
      hide Step;
      var front, e := events[..|events| - 1], events[|events| - 1];
      ReachTerminals(responseId, front);
      StepTerminals(Reach(responseId, front), responseId, e);
    }
  }

  /** Every upstream error adds a terminal event to the one at the end. */
  lemma TerminalCount(responseId: string, events: seq<MsgEvent>, end: StreamEnd)
    ensures var t := Translate(responseId, events, end);
      t[|t| - 1].Terminal? && Terminals(t) == 1 + Errors(events)
  {
    var st := Reach(responseId, events);
    ReachTerminals(responseId, events);
    FinishTerminals(st, responseId, OutcomeOf(st, end));
    TerminalsConcat([Created(responseId)], Final(responseId, events, end).trace);
    assert Terminals([Created(responseId)]) == 0;
  }

  // ----- When the whole stream is a well-formed Responses stream -----

  lemma {:induction false} ErrorFree(events: seq<MsgEvent>)
    ensures Errors(events) == 0 <==> forall e | e in events :: !e.Error?
  {
    if events != [] {
      ErrorFree(events[..|events| - 1]);
      assert forall e :: e in events <==> e in events[..|events| - 1] || e == events[|events| - 1];
    }
  }

  lemma FinalShape(responseId: string, events: seq<MsgEvent>, end: StreamEnd)
    ensures var st0, st := Reach(responseId, events), Final(responseId, events, end);
      && st.trace == Settle(st0).trace + [Terminal(OutcomeOf(st0, end), responseId, Snapshot(st))]
      && Terminals(Settle(st0).trace) == Errors(events)
      && forall e | e in Settle(st0).trace :: !e.Created?
  {
    var st0 := Reach(responseId, events);
    ReachTerminals(responseId, events);
    CloseAllTerminals(st0, st0.order);
    ReachTraceOk(responseId, events);
    CloseAllTraceOk(st0, st0.order);
    assert forall e | e in Settle(st0).trace :: EventOk(e, Settle(st0).slots);
  }

  /** The translator emits a well-formed Responses stream, one created event, one terminal event, and items numbered in
      start order, exactly when the upstream has no index conflict and no error event. */
  lemma StreamGrammarIff(responseId: string, events: seq<MsgEvent>, end: StreamEnd)
    ensures StreamGrammar(Translate(responseId, events, end), responseId) <==>
            ConflictFree(events) && forall e | e in events :: !e.Error?
  {
    hide ConflictFree, Reach, Finish, Snapshot, ItemTrace, Settle;
    var st0, st := Reach(responseId, events), Final(responseId, events, end);
    var t := Translate(responseId, events, end);
    var body := Settle(st0).trace;
    var output := Snapshot(st);
    FinalShape(responseId, events, end);
    NoTerminals(body);
    ErrorFree(events);
    WellNumberedIffConflictFree(responseId, events, end);
    assert t == [Created(responseId)] + body + [Terminal(OutcomeOf(st0, end), responseId, output)];
    FramedProjection(responseId, st.trace);
    if StreamGrammar(t, responseId) {
      assert forall i | 0 <= i < |body| :: t[i + 1] == body[i];
      assert BodyGrammar(st.trace, output);
    }
    if ConflictFree(events) && Errors(events) == 0 {
      forall i | 0 < i < |t| - 1
        ensures Indexed(t[i]) && t[i].index < |output|
      {
        assert t[i] == body[i - 1] && body[i - 1] in body && body[i - 1] in st.trace;
      }
    }
  }

  lemma FramedProjection(responseId: string, trace: seq<Event>)
    ensures forall k: nat :: Project([Created(responseId)] + trace, k) == Project(trace, k)
  {
    forall k: nat
      ensures Project([Created(responseId)] + trace, k) == Project(trace, k)
    {
      ProjectConcat([Created(responseId)], trace, k);
      assert Project([Created(responseId)], k) == [];
    }
  }

  // ----- How a stream ends -----

  /** The last stop reason that says anything is that the limit was reached. */
  ghost predicate EndsAtLimit(events: seq<MsgEvent>) {
    exists k :: 0 <= k < |events| && events[k] == MessageDelta("max_tokens") && Silent(events, k + 1)
  }

  /** No stop reason is given from position `n` on. */
  ghost predicate Silent(events: seq<MsgEvent>, n: nat) {
    forall j | n <= j < |events| && events[j].MessageDelta? :: events[j].stopReason == ""
  }

  lemma StopReasonStep(st: State, responseId: string, e: MsgEvent)
    ensures Step(st, responseId, e).stopReason == if e.MessageDelta? && e.stopReason != "" then e.stopReason else st.stopReason
  {
    if e.Error? {
      CloseAllReason(st, st.order);
    } else if e.BlockStop? {
      assert OnStop(st, e.index).stopReason == st.stopReason;
    }
  }

  lemma {:induction false} CloseAllReason(st: State, order: seq<int>)
    ensures CloseAll(st, order).stopReason == st.stopReason
  {
    if order != [] {
      CloseAllReason(st, order[..|order| - 1]);
    }
  }

  lemma {:induction false} LimitReached(responseId: string, events: seq<MsgEvent>)
    ensures Reach(responseId, events).stopReason == "max_tokens" <==> EndsAtLimit(events)
  {
    if events != [] {
      hide Step, EndsAtLimit;
      var front, e := events[..|events| - 1], events[|events| - 1];
      assert front + [e] == events;
      LimitReached(responseId, front);
      StopReasonStep(Reach(responseId, front), responseId, e);
      LimitSnoc(front, e);
    } else {
      assert !EndsAtLimit(events);
    }
  }

  lemma LimitSnoc(front: seq<MsgEvent>, e: MsgEvent)
    ensures EndsAtLimit(front + [e]) <==>
      if e.MessageDelta? && e.stopReason != "" then e.stopReason == "max_tokens" else EndsAtLimit(front)
  {
    var events, n := front + [e], |front|;
    if !(e.MessageDelta? && e.stopReason != "") {
      if k :| 0 <= k < n && front[k] == MessageDelta("max_tokens") && Silent(front, k + 1) {
        assert events[k] == front[k] && Silent(events, k + 1);
      }
      if k :| 0 <= k <= n && events[k] == MessageDelta("max_tokens") && Silent(events, k + 1) {
        assert front[k] == events[k];
        forall j | k + 1 <= j < n && front[j].MessageDelta?
          ensures front[j].stopReason == ""
        {
          assert events[j] == front[j];
        }
      }
    } else {
      assert events[n] == e && Silent(events, n + 1);
    }
  }

  /** The last event tells how the upstream ended: failed with the reader's error, incomplete if the limit had the last word,
      and completed otherwise. */
  lemma EndingReported(responseId: string, events: seq<MsgEvent>, end: StreamEnd)
    ensures var t := Translate(responseId, events, end);
      && t != [] && t[|t| - 1].Terminal? && t[|t| - 1].responseId == responseId
      && (end.ReadError? ==> t[|t| - 1].outcome == Failed(end.detail))
      && (end.Clean? ==> t[|t| - 1].outcome == if EndsAtLimit(events) then Incomplete else Complete)
  {
    hide Reach, Settle, Snapshot, EndsAtLimit;
    LimitReached(responseId, events);
  }

  // ----- What goes wrong otherwise -----

  /** An upstream error in an otherwise empty stream: the client sees two terminal events. */
  lemma ErrorEndsTwice(responseId: string)
    ensures Translate(responseId, [Error("overloaded")], ChatStream.Clean) ==
      [Created(responseId), Terminal(Failed("overloaded"), responseId, []), Terminal(Complete, responseId, [])]
  {
    var events := [Error("overloaded")];
    assert events[..0] == [];
    assert Settle(Init) == Init;
    assert Reach(responseId, events) == Finish(Init, responseId, Failed("overloaded"));
  }

  lemma CountsTwice(st: State, i: int)
    requires st.order == [i, i] && Open(st, i)
    ensures NextIndex(st) == |st.output| + 2
  {
    assert LiveCount(st, 1) == 1;
  }

  /** The output indices under which items are announced. */
  function AddedIndices(es: seq<Event>): seq<nat> {
    if es == [] then []
    else
      var before, e := AddedIndices(es[..|es| - 1]), es[|es| - 1];
      if e.ItemAdded? then before + [e.index] else before
  }

  lemma {:induction false} AddedConcat(a: seq<Event>, b: seq<Event>)
    ensures AddedIndices(a + b) == AddedIndices(a) + AddedIndices(b)
  {
    if b == [] {
      assert a + b == a;
    } else {
      assert (a + b)[..|a + b| - 1] == a + b[..|b| - 1];
      AddedConcat(a, b[..|b| - 1]);
    }
  }

  lemma {:induction false} NothingAnnounced(es: seq<Event>)
    requires forall e | e in es :: !e.ItemAdded?
    ensures AddedIndices(es) == []
  {
    if es != [] {
      NothingAnnounced(es[..|es| - 1]);
    }
  }

  lemma StartAnnounces(st: State, i: int)
    ensures AddedIndices(OnStart(st, i, TextBlock("")).trace) == AddedIndices(st.trace) + [NextIndex(st)]
  {
    hide NextIndex;
    var k, index := |st.slots|, NextIndex(st);
    var added, part := ItemAdded(index, Message(k, InProgress, "")), PartAdded(index, k);
    assert OpeningEvents(TextBlock(""), index, k) == [added] + [part];
    AddedConcat(st.trace, [added] + [part]);
    AddedConcat([added], [part]);
    assert [added][..0] == [] && [part][..0] == [];
  }

  lemma StopAnnounces(st: State, i: int)
    ensures AddedIndices(OnStop(st, i).trace) == AddedIndices(st.trace)
  {
    if Open(st, i) {
      var k := st.blocks[i].slot;
      NothingAnnounced(ClosingEvents(st.slots[k], k));
      AddedConcat(st.trace, ClosingEvents(st.slots[k], k));
    }
  }

  lemma {:induction false} CloseAllAnnounces(st: State, order: seq<int>)
    ensures AddedIndices(CloseAll(st, order).trace) == AddedIndices(st.trace)
  {
    if order != [] {
      CloseAllAnnounces(st, order[..|order| - 1]);
      StopAnnounces(CloseAll(st, order[..|order| - 1]), order[|order| - 1]);
    }
  }

  lemma FinishAnnounces(responseId: string, events: seq<MsgEvent>, end: StreamEnd)
    ensures AddedIndices(Translate(responseId, events, end)) == AddedIndices(Reach(responseId, events).trace)
  {
    hide AddedIndices, Snapshot, Settle;
    var st := Reach(responseId, events);
    var last := Terminal(OutcomeOf(st, end), responseId, Snapshot(Settle(st)));
    SettleIs(st);
    CloseAllAnnounces(st, st.order);
    NothingAnnounced([Created(responseId)]);
    NothingAnnounced([last]);
    AddedConcat(Settle(st).trace, [last]);
    AddedConcat([Created(responseId)], Settle(st).trace + [last]);
  }

  lemma SettleIs(st: State)
    ensures Settle(st) == CloseAll(st, st.order)
  {
  }

  lemma ReachThree(responseId: string, e1: MsgEvent, e2: MsgEvent, e3: MsgEvent)
    ensures Reach(responseId, [e1, e2, e3]) == Step(Step(Step(Init, responseId, e1), responseId, e2), responseId, e3)
  {
    hide Step;
    assert [] + [e1] == [e1] && [e1] + [e2] == [e1, e2] && [e1, e2] + [e3] == [e1, e2, e3];
    ReachSnoc(responseId, [], e1);
    ReachSnoc(responseId, [e1], e2);
    ReachSnoc(responseId, [e1, e2], e3);
  }

  /** Block 0 starts, stops and starts again: the indices announced so far, and the next one. */
  lemma ReusedState(t: Block)
    requires t == TextBlock("")
    ensures var st := OnStart(OnStop(OnStart(Init, 0, t), 0), 0, t);
      AddedIndices(st.trace) == [0, 1] && NextIndex(st) == 3
  {
    hide NextIndex, OpeningEvents, ClosingEvents, FinalItem, AddedIndices;
    assert IsItem(t) && [] + [0] == [0];
    var st1 := OnStart(Init, 0, t);
    var st2 := OnStop(st1, 0);
    var st := OnStart(st2, 0, t);
    CountsNone();
    CountsClosed(st2);
    StartAnnounces(Init, 0);
    StopAnnounces(st1, 0);
    StartAnnounces(st2, 0);
    NothingAnnounced([]);
    assert [] + [0] + [1] == [0, 1];
    assert st.order == [0, 0];
    CountsTwice(st, 0);
  }

  lemma CountsNone()
    ensures NextIndex(Init) == 0
  {
  }

  lemma CountsClosed(st: State)
    requires st.order == [0] && !Open(st, 0) && |st.output| == 1
    ensures NextIndex(st) == 1
  {
    assert LiveCount(st, 0) == 0;
  }

  /** Block 0 starts, stops and starts again; block 1 is then announced under index 3, although only two items came before
      it. */
  lemma ReusedIndexSkips(responseId: string, end: StreamEnd)
    ensures var t := TextBlock("");
      AddedIndices(Translate(responseId, [BlockStart(0, t), BlockStop(0), BlockStart(0, t), BlockStart(1, t)], end)) == [0, 1, 3]
  {
    hide NextIndex, AddedIndices, Reach, Translate, OnStart, OnStop;
    var t := TextBlock("");
    var events := [BlockStart(0, t), BlockStop(0), BlockStart(0, t)];
    assert events + [BlockStart(1, t)] == [BlockStart(0, t), BlockStop(0), BlockStart(0, t), BlockStart(1, t)];
    ReusedState(t);
    ReachThree(responseId, BlockStart(0, t), BlockStop(0), BlockStart(0, t));
    ReachSnoc(responseId, events, BlockStart(1, t));
    StartAnnounces(Reach(responseId, events), 1);
    FinishAnnounces(responseId, events + [BlockStart(1, t)], end);
    assert [0, 1] + [3] == [0, 1, 3];
  }
}
