/** The stream the messages translator emits, and exactly when its items are numbered and closed correctly. */
module MessagesGrammar {
  import opened Text
  import opened ResponsesEvents
  import opened MessagesStream
  import opened MessagesIndices

  /** Every indexed event belongs to a snapshot item, and the events under index `k` are snapshot item `k`'s own
      added, delta and done events. */
  ghost predicate BodyGrammar(trace: seq<Event>, output: seq<ResponsesEvents.Item>) {
    && (forall e | e in trace && Indexed(e) :: e.index < |output|)
    && (forall k: nat | k < |output| :: ItemTrace(Project(trace, k), k, output[k]))
  }

  // ----- Facts about every trace -----

  /** Announcements carry the index of their item, and only closed items are reported done. */
  ghost predicate EventOk(e: Event, slots: seq<Slot>) {
    && (e.ItemAdded? ==> e.item.id < |slots| && slots[e.item.id].index == e.index)
    && (e.ItemDone? ==> e.item.id < |slots| && slots[e.item.id].closed)
    && !e.Created?
  }

  ghost predicate Announced(trace: seq<Event>, slots: seq<Slot>, k: nat)
    requires k < |slots|
  {
    exists e :: e in trace && e.ItemAdded? && e.item.id == k && e.index == slots[k].index
  }

  ghost predicate TraceOk(st: State) {
    && (forall e | e in st.trace :: EventOk(e, st.slots))
    && (forall k | 0 <= k < |st.slots| :: Announced(st.trace, st.slots, k))
  }

  /** Items keep their index, and closed ones stay closed. */
  ghost predicate Grows(a: seq<Slot>, b: seq<Slot>) {
    && |a| <= |b|
    && forall k | 0 <= k < |a| :: a[k].index == b[k].index && (a[k].closed ==> b[k].closed)
  }

  lemma TraceGrows(st: State, r: State, es: seq<Event>)
    requires TraceOk(st) && Grows(st.slots, r.slots) && r.trace == st.trace + es
    requires forall e | e in es :: EventOk(e, r.slots)
    requires forall k | |st.slots| <= k < |r.slots| :: Announced(es, r.slots, k)
    ensures TraceOk(r)
  {
    forall k | 0 <= k < |r.slots|
      ensures Announced(r.trace, r.slots, k)
    {
      if k < |st.slots| {
        assert Announced(st.trace, st.slots, k);
        var e :| e in st.trace && e.ItemAdded? && e.item.id == k && e.index == st.slots[k].index;
        assert e in r.trace;
      } else {
        assert Announced(es, r.slots, k);
        var e :| e in es && e.ItemAdded? && e.item.id == k && e.index == r.slots[k].index;
        assert e in r.trace;
      }
    }
    forall e | e in r.trace
      ensures EventOk(e, r.slots)
    {
      assert e in st.trace ==> EventOk(e, st.slots);
    }
  }

  lemma StartTraceOk(st: State, i: int, b: Block)
    requires TraceOk(st)
    ensures TraceOk(OnStart(st, i, b))
  {
    var r := OnStart(st, i, b);
    if IsItem(b) {
      var es := OpeningEvents(b, NextIndex(st), |st.slots|);
      assert es[0] in es && es[0].ItemAdded?;
      assert Announced(es, r.slots, |st.slots|);
      TraceGrows(st, r, es);
    }
  }

  lemma DeltaTraceOk(st: State, i: int, d: Delta)
    requires TraceOk(st)
    ensures TraceOk(OnDelta(st, i, d))
  {
    var r := OnDelta(st, i, d);
    if r != st {
      var k := st.blocks[i].slot;
      TraceGrows(st, r, [DeltaEvent(st.slots[k], k, Piece(d, st.slots[k].tool))]);
    }
  }

  lemma StopTraceOk(st: State, i: int)
    requires TraceOk(st)
    ensures TraceOk(OnStop(st, i))
  {
    if Open(st, i) {
      var k := st.blocks[i].slot;
      TraceGrows(st, OnStop(st, i), ClosingEvents(st.slots[k], k));
    }
  }

  lemma {:induction false} CloseAllTraceOk(st: State, order: seq<int>)
    requires TraceOk(st)
    ensures TraceOk(CloseAll(st, order))
  {
    if order != [] {
      CloseAllTraceOk(st, order[..|order| - 1]);
      StopTraceOk(CloseAll(st, order[..|order| - 1]), order[|order| - 1]);
    }
  }

  lemma FinishTraceOk(st: State, responseId: string, outcome: Outcome)
    requires TraceOk(st)
    ensures TraceOk(Finish(st, responseId, outcome))
  {
    CloseAllTraceOk(st, st.order);
    var st1 := Settle(st);
    TraceGrows(st1, Finish(st, responseId, outcome), [Terminal(outcome, responseId, Snapshot(st1))]);
  }

  lemma StepTraceOk(st: State, responseId: string, e: MsgEvent)
    requires TraceOk(st)
    ensures TraceOk(Step(st, responseId, e))
  {
    match e
    case BlockStart(i, b) => StartTraceOk(st, i, b);
    case BlockDelta(i, d) => DeltaTraceOk(st, i, d);
    case BlockStop(i) => StopTraceOk(st, i);
    case Error(detail) => FinishTraceOk(st, responseId, Failed(detail));
    case MessageDelta(_) =>
    case MessageStart =>
    case Ignored =>
  }

  lemma {:induction false} ReachTraceOk(responseId: string, events: seq<MsgEvent>)
    ensures TraceOk(Reach(responseId, events))
  {
    hide TraceOk, Step;
    if events == [] {
      InitTraceOk();
    } else {
      ReachTraceOk(responseId, events[..|events| - 1]);
      StepTraceOk(Reach(responseId, events[..|events| - 1]), responseId, events[|events| - 1]);
    }
  }

  lemma InitTraceOk()
    ensures TraceOk(Init)
  {
  }

  // ----- A well-numbered stream has no conflict -----

  /** In a well-numbered stream item `k` is closed and is the snapshot item at its own index. */
  lemma AnsweredItem(st: State, output: seq<ResponsesEvents.Item>, k: nat)
    requires TraceOk(st) && BodyGrammar(st.trace, output) && k < |st.slots|
    ensures st.slots[k].index < |output| && output[st.slots[k].index].id == k && st.slots[k].closed
  {
    assert Announced(st.trace, st.slots, k);
    var e :| e in st.trace && e.ItemAdded? && e.item.id == k && e.index == st.slots[k].index;
    var x := e.index;
    ProjectMember(st.trace, x, e);
    assert ItemTrace(Project(st.trace, x), x, output[x]);
    ItemTraceAt(Project(st.trace, x), x, output[x], e);
    ProjectMember(st.trace, x, ItemDone(x, output[x]));
    assert EventOk(ItemDone(x, output[x]), st.slots);
  }

  /** Distinct indices below their number, none below its position, are the positions. */
  lemma {:induction false} IndicesArePositions(slots: seq<Slot>, k: nat)
    requires k < |slots|
    requires forall j | 0 <= j < |slots| :: j <= slots[j].index < |slots|
    requires forall i, j | 0 <= i < j < |slots| :: slots[i].index != slots[j].index
    ensures slots[k].index == k
    decreases |slots| - k
  {
    forall j | k < j < |slots|
      ensures slots[j].index == j
    {
      IndicesArePositions(slots, j);
    }
    var x := slots[k].index;
    assert x > k ==> slots[x].index == x;
  }

  lemma {:induction false} IndexFixed(responseId: string, events: seq<MsgEvent>, n: nat, k: nat)
    requires n <= |events| && k < |Reach(responseId, events[..n]).slots|
    ensures k < |Reach(responseId, events).slots|
    ensures Reach(responseId, events).slots[k].index == Reach(responseId, events[..n]).slots[k].index
    decreases |events| - n
  {
    if n == |events| {
      assert events[..n] == events;
    } else {
      assert events[..n + 1][..n] == events[..n];
      StepGrows(Reach(responseId, events[..n]), responseId, events[n]);
      IndexFixed(responseId, events, n + 1, k);
    }
  }

  lemma {:induction false} CloseAllGrows(st: State, order: seq<int>)
    ensures Grows(st.slots, CloseAll(st, order).slots) && |CloseAll(st, order).slots| == |st.slots|
  {
    if order != [] {
      CloseAllGrows(st, order[..|order| - 1]);
    }
  }

  lemma StepGrows(st: State, responseId: string, e: MsgEvent)
    ensures Grows(st.slots, Step(st, responseId, e).slots)
  {
    CloseAllGrows(st, st.order);
  }

  lemma {:induction false} SettleKeepsLost(st: State, responseId: string, outcome: Outcome, k: nat)
    requires Basic(st) && Lost(st, k)
    ensures Lost(Finish(st, responseId, outcome), k)
  {
    CloseAllKeepsLost(st, st.order, k);
  }

  lemma LostOrNot(st: State)
    ensures NoneLost(st) || exists k :: Lost(st, k)
  {
    if !NoneLost(st) {
      var k :| 0 <= k < |st.slots| && !st.slots[k].closed
        && !(st.slots[k].block in st.blocks && st.blocks[st.slots[k].block] == Item(k));
      assert Lost(st, k);
    }
  }

  /** If every item ends up closed, no item was lost at any moment. */
  lemma NeverLost(responseId: string, events: seq<MsgEvent>, end: StreamEnd, n: nat)
    requires n <= |events|
    requires var st := Final(responseId, events, end); forall k | 0 <= k < |st.slots| :: st.slots[k].closed
    ensures NoneLost(Reach(responseId, events[..n]))
  {
    hide Finish, Reach;
    var st := Reach(responseId, events);
    var final := Final(responseId, events, end);
    assert final == Finish(st, responseId, OutcomeOf(st, end));
    LostOrNot(Reach(responseId, events[..n]));
    if k :| Lost(Reach(responseId, events[..n]), k) {
      LostStays(responseId, events, n, k);
      ReachBasic(responseId, events);
      SettleKeepsLost(st, responseId, OutcomeOf(st, end), k);
    }
  }

  /** In a well-numbered stream every item has its own position as output index. */
  lemma WellNumbered(responseId: string, events: seq<MsgEvent>, end: StreamEnd)
    requires var st := Final(responseId, events, end); BodyGrammar(st.trace, Snapshot(st))
    ensures var st := Final(responseId, events, end);
      forall k | 0 <= k < |st.slots| :: st.slots[k].closed && st.slots[k].index == k
  {
    hide BodyGrammar, TraceOk, Basic, Finish, Snapshot;
    var st0 := Reach(responseId, events);
    var st := Final(responseId, events, end);
    ReachTraceOk(responseId, events);
    FinishTraceOk(st0, responseId, OutcomeOf(st0, end));
    forall k | 0 <= k < |st.slots|
      ensures st.slots[k].index < |Snapshot(st)| && Snapshot(st)[st.slots[k].index].id == k && st.slots[k].closed
    {
      AnsweredItem(st, Snapshot(st), k);
    }
    FinalCount(responseId, events, end);
    forall k | 0 <= k < |st.slots|
      ensures k <= st.slots[k].index
    {
      IndexAtLeast(responseId, events, end, k);
    }
    forall k | 0 <= k < |st.slots|
      ensures st.slots[k].index == k
    {
      IndicesArePositions(st.slots, k);
    }
  }

  lemma {:induction false} SortKeepsCount(entries: seq<FinalEntry>)
    ensures |SortEntries(entries)| == |entries|
  {
    if entries != [] {
      SortKeepsCount(entries[..|entries| - 1]);
      InsertCount(SortEntries(entries[..|entries| - 1]), entries[|entries| - 1]);
    }
  }

  lemma {:induction false} InsertCount(sorted: seq<FinalEntry>, e: FinalEntry)
    ensures |InsertEntry(sorted, e)| == |sorted| + 1
  {
    if sorted != [] {
      InsertCount(sorted[..|sorted| - 1], e);
    }
  }

  lemma FinalCount(responseId: string, events: seq<MsgEvent>, end: StreamEnd)
    ensures var st := Final(responseId, events, end);
      |Snapshot(st)| == ClosedCount(st.slots) &&
      ((forall k | 0 <= k < |st.slots| :: st.slots[k].closed) ==> |Snapshot(st)| == |st.slots|)
  {
    var st := Reach(responseId, events);
    ReachBasic(responseId, events);
    BasicCloseAll(st, st.order);
    SortKeepsCount(Settle(st).output);
    ClosedCountAll(Settle(st).slots);
  }

  /** The event that opened slot `k`. */
  lemma {:induction false} OpeningEvent(responseId: string, events: seq<MsgEvent>, k: nat) returns (n: nat)
    requires k < |Reach(responseId, events).slots|
    ensures n < |events| && events[n].BlockStart? && IsItem(events[n].block)
    ensures |Reach(responseId, events[..n]).slots| == k
    ensures |Reach(responseId, events[..n + 1]).slots| == k + 1
    ensures Reach(responseId, events[..n + 1]).slots[k].index == NextIndex(Reach(responseId, events[..n]))
  {
    hide Step, Reach, NextIndex;
    var m := |events| - 1;
    if events == [] {
      NothingReached(responseId);
    }
    var front := events[..m];
    var st := Reach(responseId, front);
    assert front + [events[m]] == events;
    ReachStep(responseId, events);
    StepOpens(st, responseId, events[m]);
    if k < |st.slots| {
      n := OpeningEvent(responseId, front, k);
      assert front[..n] == events[..n] && front[..n + 1] == events[..n + 1];
      StepGrows(st, responseId, events[m]);
    } else {
      n := m;
      assert events[..n + 1] == events;
    }
  }

  lemma NothingReached(responseId: string)
    ensures Reach(responseId, []).slots == []
  {
  }

  lemma ReachStep(responseId: string, events: seq<MsgEvent>)
    requires events != []
    ensures Reach(responseId, events) == Step(Reach(responseId, events[..|events| - 1]), responseId, events[|events| - 1])
  {
    hide Step;
  }

  /** Only the start of an item adds a slot, with the index the counter returns. */
  lemma StepOpens(st: State, responseId: string, e: MsgEvent)
    ensures var r := Step(st, responseId, e);
      if e.BlockStart? && IsItem(e.block)
      then |r.slots| == |st.slots| + 1 && r.slots[|st.slots|].index == NextIndex(st) else |r.slots| == |st.slots|
  {
    hide NextIndex;
    CloseAllGrows(st, st.order);
  }

  /** The final index of slot `k` is what the counter returned when it was opened. */
  lemma AssignedIndex(responseId: string, events: seq<MsgEvent>, end: StreamEnd, k: nat) returns (n: nat)
    requires k < |Final(responseId, events, end).slots|
    ensures n < |events| && |Reach(responseId, events[..n]).slots| == k
    ensures Final(responseId, events, end).slots[k].index == NextIndex(Reach(responseId, events[..n]))
  {
    var st := Reach(responseId, events);
    CloseAllGrows(st, st.order);
    n := OpeningEvent(responseId, events, k);
    IndexFixed(responseId, events, n + 1, k);
  }

  lemma IndexAtLeast(responseId: string, events: seq<MsgEvent>, end: StreamEnd, k: nat)
    requires var st := Final(responseId, events, end); forall j | 0 <= j < |st.slots| :: st.slots[j].closed
    requires k < |Final(responseId, events, end).slots|
    ensures Final(responseId, events, end).slots[k].index >= k
  {
    hide Final, Reach, Basic, NoneLost, NextIndex;
    var n := AssignedIndex(responseId, events, end, k);
    NeverLost(responseId, events, end, n);
    ReachBasic(responseId, events[..n]);
    CounterIsExact(Reach(responseId, events[..n]));
  }

  /** A conflict leaves an item without its done events, or opens one under an index that is not its position. */
  lemma ConflictShows(responseId: string, events: seq<MsgEvent>, end: StreamEnd, n: nat)
    requires n < |events| && Conflict(events[..n], events[n])
    requires var st := Final(responseId, events, end);
      forall k | 0 <= k < |st.slots| :: st.slots[k].closed && st.slots[k].index == k
    ensures false
  {
    hide Final, Reach, Basic, NextIndex, Finish;
    var st := Reach(responseId, events[..n]);
    var e := events[n];
    ReachBasic(responseId, events[..n]);
    ReachOpenItems(responseId, events[..n]);
    NeverLost(responseId, events, end, n);
    NeverLost(responseId, events, end, n + 1);
    NextState(responseId, events, n);
    if e.index in OpenItems(events[..n]) {
      var k := st.blocks[e.index].slot;
      Overwritten(st, e.index, e.block);
    } else {
      var i :| i in OpenItems(events[..n]) && Count(ItemStarts(events[..n]), i) >= 2;
      CounterIsExact(st);
      var k := |st.slots|;
      IndexFixed(responseId, events, n + 1, k);
      FinalKeepsIndex(responseId, events, end, k);
    }
  }

  lemma NextState(responseId: string, events: seq<MsgEvent>, n: nat)
    requires n < |events| && events[n].BlockStart?
    ensures Reach(responseId, events[..n + 1]) == OnStart(Reach(responseId, events[..n]), events[n].index, events[n].block)
  {
    assert events[..n + 1][..n] == events[..n];
  }

  lemma Overwritten(st: State, i: int, b: Block)
    requires Basic(st) && Open(st, i) && (IsItem(b) || b.Thinking?)
    ensures !NoneLost(OnStart(st, i, b))
  {
    var k := st.blocks[i].slot;
    assert OnStart(st, i, b).slots[k] == st.slots[k];
  }

  lemma FinalKeepsIndex(responseId: string, events: seq<MsgEvent>, end: StreamEnd, k: nat)
    requires k < |Reach(responseId, events).slots|
    ensures k < |Final(responseId, events, end).slots|
    ensures Final(responseId, events, end).slots[k].index == Reach(responseId, events).slots[k].index
  {
    CloseAllGrows(Reach(responseId, events), Reach(responseId, events).order);
  }

  lemma WellNumberedIsConflictFree(responseId: string, events: seq<MsgEvent>, end: StreamEnd)
    requires var st := Final(responseId, events, end); BodyGrammar(st.trace, Snapshot(st))
    ensures ConflictFree(events)
  {
    hide Final, Conflict;
    WellNumbered(responseId, events, end);
    forall n | 0 <= n < |events|
      ensures !Conflict(events[..n], events[n])
    {
      if Conflict(events[..n], events[n]) {
        ConflictShows(responseId, events, end, n);
      }
    }
  }

  // ----- A conflict-free stream is well-numbered -----

  ghost predicate Numbered(st: State) {
    NoneLost(st) && forall k | 0 <= k < |st.slots| :: st.slots[k].index == k
  }

  lemma {:induction false} ConflictFreeIsNumbered(responseId: string, events: seq<MsgEvent>)
    requires ConflictFree(events)
    ensures Numbered(Reach(responseId, events))
  {
    if events != [] {
      var front, e := events[..|events| - 1], events[|events| - 1];
      forall n | 0 <= n < |front|
        ensures !Conflict(front[..n], front[n])
      {
        assert front[..n] == events[..n] && front[n] == events[n];
      }
      ConflictFreeIsNumbered(responseId, front);
      assert !Conflict(events[..|front|], events[|front|]);
      ReachBasic(responseId, front);
      ReachOpenItems(responseId, front);
      StepNumbered(Reach(responseId, front), responseId, e, OpenItems(front));
    }
  }

  lemma StepNumbered(st: State, responseId: string, e: MsgEvent, open: set<int>)
    requires Basic(st) && Numbered(st)
    requires forall i :: i in open <==> Open(st, i)
    requires e.BlockStart? ==>
      && ((IsItem(e.block) || e.block.Thinking?) ==> e.index !in open)
      && (IsItem(e.block) ==> forall i | i in open :: Count(st.order, i) < 2)
    ensures Numbered(Step(st, responseId, e))
  {
    match e
    case BlockStart(i, b) =>
      CounterIsExact(st);
      StartNumbered(st, i, b);
    case Error(detail) => SettleNumbered(st);
    case BlockDelta(_, _) =>
    case BlockStop(_) =>
    case MessageDelta(_) =>
    case MessageStart =>
    case Ignored =>
  }

  lemma StartNumbered(st: State, i: int, b: Block)
    requires Basic(st) && Numbered(st)
    requires IsItem(b) || b.Thinking? ==> !Open(st, i)
    requires IsItem(b) ==> NextIndex(st) == |st.slots|
    ensures Numbered(OnStart(st, i, b))
  {
    var r := OnStart(st, i, b);
    forall k | 0 <= k < |st.slots| && !st.slots[k].closed && (IsItem(b) || b.Thinking?)
      ensures st.slots[k].block != i
    {
      assert st.slots[k].block in st.blocks && st.blocks[st.slots[k].block] == Item(k);
    }
  }

  /** Closing all blocks leaves no open item behind. */
  lemma SettleNumbered(st: State)
    requires Basic(st) && Numbered(st)
    ensures Numbered(Settle(st)) && |Settle(st).slots| == |st.slots|
    ensures forall k | 0 <= k < |st.slots| :: Settle(st).slots[k].closed
  {
    BasicCloseAll(st, st.order);
    SettleClosesAll(st);
    CloseAllGrows(st, st.order);
    forall k | 0 <= k < |st.slots|
      ensures Settle(st).slots[k].closed
    {
      if !Settle(st).slots[k].closed {
        assert !st.slots[k].closed;
        assert Open(Settle(st), st.slots[k].block);
      }
    }
  }

  function Shown(s: Slot): seq<string>
    requires s.hidden <= |s.pieces|
  {
    s.pieces[s.hidden..]
  }

  function DeltaEvents(s: Slot, k: nat, pieces: seq<string>): seq<Event> {
    seq(|pieces|, i requires 0 <= i < |pieces| => DeltaEvent(s, k, pieces[i]))
  }

  function Opening(s: Slot, k: nat): seq<Event> {
    if s.tool then [ItemAdded(s.index, FunctionCall(k, InProgress, SyntheticCallId(k), s.name, ""))]
    else [ItemAdded(s.index, Message(k, InProgress, "")), PartAdded(s.index, k)]
  }

  /** The events seen so far for slot `k`. */
  function Expected(s: Slot, k: nat): seq<Event>
    requires s.hidden <= |s.pieces|
  {
    Opening(s, k) + DeltaEvents(s, k, Shown(s)) + (if s.closed then ClosingEvents(s, k) else [])
  }

  /** The slot's events so far, if it exists. */
  ghost predicate SlotTraced(trace: seq<Event>, s: Slot, k: nat) {
    s.hidden <= |s.pieces| && Project(trace, k) == Expected(s, k) && (!s.tool ==> s.hidden == 0)
  }

  ghost predicate EntryTraced(slots: seq<Slot>, x: FinalEntry) {
    x.outputIndex < |slots| && slots[x.outputIndex].closed && x.item == FinalItem(slots[x.outputIndex], x.outputIndex)
  }

  ghost predicate Traced(st: State) {
    && (forall k | 0 <= k < |st.slots| :: SlotTraced(st.trace, st.slots[k], k))
    && (forall k: nat | k >= |st.slots| :: Project(st.trace, k) == [])
    && DistinctIndices(st.output)
    && (forall x | x in st.output :: EntryTraced(st.slots, x))
  }

  /** A step that touches slot `k` alone, with all its events under index `k`. */
  ghost predicate Touches(st: State, r: State, k: nat, es: seq<Event>) {
    && (forall e | e in es :: Indexed(e) && e.index == k) && r.trace == st.trace + es
    && k < |r.slots| && |st.slots| <= |r.slots| <= |st.slots| + 1
    && (|r.slots| > |st.slots| ==> k == |st.slots|)
    && (forall j | 0 <= j < |st.slots| && j != k :: r.slots[j] == st.slots[j])
    && r.slots[k].hidden <= |r.slots[k].pieces| && (!r.slots[k].tool ==> r.slots[k].hidden == 0)
    && (k < |st.slots| ==> !st.slots[k].closed && st.slots[k].hidden <= |st.slots[k].pieces|)
    && Expected(r.slots[k], k) == (if k < |st.slots| then Expected(st.slots[k], k) else []) + es
    && r.output == if r.slots[k].closed then st.output + [FinalEntry(k, FinalItem(r.slots[k], k))] else st.output
  }

  lemma TouchedTraces(st: State, r: State, k: nat, es: seq<Event>)
    requires Traced(st) && Touches(st, r, k, es)
    ensures forall j | 0 <= j < |r.slots| :: SlotTraced(r.trace, r.slots[j], j)
    ensures forall j: nat | j >= |r.slots| :: Project(r.trace, j) == []
  {
    hide Project, Expected, FinalItem, EntryTraced;
    forall j: nat
      ensures Project(r.trace, j) == Project(st.trace, j) + (if j == k then es else [])
    {
      ProjectConcat(st.trace, es, j);
      ProjectUniform(es, k, j);
    }
    forall j | 0 <= j < |r.slots|
      ensures SlotTraced(r.trace, r.slots[j], j)
    {
      if j < |st.slots| {
        assert SlotTraced(st.trace, st.slots[j], j);
      }
    }
  }

  lemma TouchedEntries(st: State, r: State, k: nat, es: seq<Event>)
    requires Traced(st) && Touches(st, r, k, es)
    ensures DistinctIndices(r.output) && forall x | x in r.output :: EntryTraced(r.slots, x)
  {
    hide Project, Expected, FinalItem, SlotTraced;
    forall x | x in st.output
      ensures x.outputIndex != k && EntryTraced(r.slots, x)
    {
      assert EntryTraced(st.slots, x);
    }
    assert forall i | 0 <= i < |st.output| :: st.output[i] in st.output;
  }

  lemma TouchOne(st: State, r: State, k: nat, es: seq<Event>)
    requires Traced(st) && Touches(st, r, k, es)
    ensures Traced(r)
  {
    hide Touches, Project, SlotTraced, EntryTraced;
    TouchedTraces(st, r, k, es);
    TouchedEntries(st, r, k, es);
  }

  lemma OpenedExpected(b: Block, i: int, k: nat)
    requires IsItem(b)
    ensures var s := Opened(b, i, k);
      s.hidden <= |s.pieces| && (!s.tool ==> s.hidden == 0) && !s.closed && OpeningEvents(b, k, k) == Expected(s, k)
    ensures forall e | e in OpeningEvents(b, k, k) :: Indexed(e) && e.index == k
  {
    hide TrimSpace, SyntheticCallId;
    var s := Opened(b, i, k);
    var shown: seq<string> := if b.TextBlock? then Seed(b) else [];
    assert Shown(s) == shown;
    if shown == [] {
      assert DeltaEvents(s, k, shown) == [];
    } else {
      assert DeltaEvents(s, k, shown) == [DeltaEvent(s, k, shown[0])];
    }
    assert Expected(s, k) == Opening(s, k) + DeltaEvents(s, k, shown);
  }

  lemma StartTraced(st: State, i: int, b: Block)
    requires Traced(st) && IsItem(b) && NextIndex(st) == |st.slots|
    ensures Traced(OnStart(st, i, b))
  {
    hide Traced, Expected, OpeningEvents, Opened, NextIndex;
    var k := |st.slots|;
    OpenedExpected(b, i, k);
    assert [] + OpeningEvents(b, k, k) == OpeningEvents(b, k, k);
    TouchOne(st, OnStart(st, i, b), k, OpeningEvents(b, k, k));
  }

  lemma DeltaExpected(s: Slot, k: nat, piece: string)
    requires s.hidden <= |s.pieces| && !s.closed
    ensures var s' := s.(pieces := s.pieces + [piece]);
      s'.hidden <= |s'.pieces| && Expected(s', k) == Expected(s, k) + [DeltaEvent(s, k, piece)]
  {
    hide Opening;
    var s' := s.(pieces := s.pieces + [piece]);
    assert Shown(s') == Shown(s) + [piece];
    assert DeltaEvents(s', k, Shown(s')) == DeltaEvents(s, k, Shown(s)) + [DeltaEvent(s, k, piece)];
    assert Opening(s', k) == Opening(s, k) by {
      SameOpening(s, s', k);
    }
  }

  lemma SameOpening(s: Slot, s': Slot, k: nat)
    requires s' == s.(pieces := s'.pieces)
    ensures Opening(s', k) == Opening(s, k)
  {
  }

  lemma DeltaTraced(st: State, i: int, d: Delta)
    requires Traced(st) && Numbered(st)
    ensures Traced(OnDelta(st, i, d))
  {
    var r := OnDelta(st, i, d);
    if r != st {
      hide Project, Expected, FinalItem, Piece, EntryTraced;
      var k := st.blocks[i].slot;
      var s, piece := st.slots[k], Piece(d, st.slots[k].tool);
      assert SlotTraced(st.trace, s, k);
      DeltaExpected(s, k, piece);
      TouchOne(st, r, k, [DeltaEvent(s, k, piece)]);
    }
  }

  lemma StopExpected(s: Slot, k: nat)
    requires s.hidden <= |s.pieces| && !s.closed
    ensures Expected(s.(closed := true), k) == Expected(s, k) + ClosingEvents(s, k)
    ensures FinalItem(s.(closed := true), k) == FinalItem(s, k)
    ensures forall e | e in ClosingEvents(s, k) :: Indexed(e) && e.index == s.index
  {
    assert DeltaEvents(s.(closed := true), k, Shown(s)) == DeltaEvents(s, k, Shown(s));
  }

  lemma StopTraced(st: State, i: int)
    requires Traced(st) && Numbered(st)
    ensures Traced(OnStop(st, i)) && Numbered(OnStop(st, i))
  {
    if Open(st, i) {
      var k := st.blocks[i].slot;
      var s := st.slots[k];
      assert s.hidden <= |s.pieces|;
      StopExpected(s, k);
      hide Project, Expected, ClosingEvents, FinalItem;
      TouchOne(st, OnStop(st, i), k, ClosingEvents(s, k));
    }
  }

  lemma {:induction false} CloseAllTraced(st: State, order: seq<int>)
    requires Traced(st) && Numbered(st)
    ensures Traced(CloseAll(st, order)) && Numbered(CloseAll(st, order))
  {
    if order != [] {
      CloseAllTraced(st, order[..|order| - 1]);
      StopTraced(CloseAll(st, order[..|order| - 1]), order[|order| - 1]);
    }
  }

  lemma FinishTraced(st: State, responseId: string, outcome: Outcome)
    requires Traced(st) && Numbered(st)
    ensures Traced(Finish(st, responseId, outcome))
  {
    CloseAllTraced(st, st.order);
    forall k: nat
      ensures Project(Finish(st, responseId, outcome).trace, k) == Project(Settle(st).trace, k)
    {
      ProjectSnoc(Settle(st).trace, Terminal(outcome, responseId, Snapshot(Settle(st))), k);
    }
  }

  lemma {:induction false} ReachTraced(responseId: string, events: seq<MsgEvent>)
    requires ConflictFree(events)
    ensures Traced(Reach(responseId, events))
  {
    if events != [] {
      hide Traced, Numbered, Finish, OnStart, OnDelta, OnStop, Conflict;
      var front, e := events[..|events| - 1], events[|events| - 1];
      assert ConflictFree(front) by {
        forall n | 0 <= n < |front|
          ensures !Conflict(front[..n], front[n])
        {
          assert front[..n] == events[..n] && front[n] == events[n];
        }
      }
      ReachTraced(responseId, front);
      ConflictFreeIsNumbered(responseId, front);
      var st := Reach(responseId, front);
      match e
      case BlockStart(i, b) =>
        if IsItem(b) {
          assert !Conflict(events[..|front|], events[|front|]);
          NoConflictCounter(responseId, front, e);
          StartTraced(st, i, b);
        } else {
          OtherStartTraced(st, i, b);
        }
      case BlockDelta(i, d) => DeltaTraced(st, i, d);
      case BlockStop(i) => StopTraced(st, i);
      case Error(detail) => FinishTraced(st, responseId, Failed(detail));
      case MessageDelta(reason) => TracedFields(st, reason);
      case MessageStart =>
      case Ignored =>
    } else {
      assert Traced(Init);
    }
  }

  lemma OtherStartTraced(st: State, i: int, b: Block)
    requires Traced(st) && !IsItem(b)
    ensures Traced(OnStart(st, i, b))
  {
  }

  lemma TracedFields(st: State, reason: string)
    requires Traced(st)
    ensures Traced(st.(stopReason := reason))
  {
  }

  lemma NoConflictCounter(responseId: string, events: seq<MsgEvent>, e: MsgEvent)
    requires Numbered(Reach(responseId, events)) && e.BlockStart? && IsItem(e.block) && !Conflict(events, e)
    ensures NextIndex(Reach(responseId, events)) == |Reach(responseId, events).slots|
  {
    ReachBasic(responseId, events);
    ReachOpenItems(responseId, events);
    CounterIsExact(Reach(responseId, events));
  }

  lemma SlotTrace(s: Slot, k: nat)
    requires s.hidden <= |s.pieces| && s.closed && s.index == k && (!s.tool ==> s.hidden == 0)
    ensures ItemTrace(Expected(s, k), k, FinalItem(s, k))
  {
    var es, mid, closing := Expected(s, k), DeltaEvents(s, k, Shown(s)), ClosingEvents(s, k);
    var opening := Opening(s, k);
    assert es == opening + mid + closing;
    assert es[|opening|..|es| - |closing|] == mid;
    assert es[|es| - |closing|..] == closing;
    if s.tool {
      assert CallTrace(es, k, FinalItem(s, k));
    } else {
      assert Shown(s) == s.pieces;
      assert Deltas(mid) == s.pieces;
      assert MessageTrace(es, k, FinalItem(s, k));
    }
  }

  /** Without conflicts the final snapshot lists the items in the order they were started, each streamed and closed
      under its own position. */
  lemma ConflictFreeIsWellNumbered(responseId: string, events: seq<MsgEvent>, end: StreamEnd)
    requires ConflictFree(events)
    ensures var st := Final(responseId, events, end);
      && BodyGrammar(st.trace, Snapshot(st))
      && |Snapshot(st)| == |st.slots| && forall k | 0 <= k < |st.slots| :: Snapshot(st)[k] == FinalItem(st.slots[k], k)
  {
    var st0 := Reach(responseId, events);
    var st := Final(responseId, events, end);
    ReachTraced(responseId, events);
    ConflictFreeIsNumbered(responseId, events);
    ReachBasic(responseId, events);
    SettleNumbered(st0);
    FinishTraced(st0, responseId, OutcomeOf(st0, end));
    FinalCount(responseId, events, end);
    CloseAllGrows(st0, st0.order);
    TracedGrammar(st);
  }

  lemma TracedGrammar(st: State)
    requires Traced(st) && Numbered(st) && (forall k | 0 <= k < |st.slots| :: st.slots[k].closed)
    requires |Snapshot(st)| == |st.slots|
    ensures BodyGrammar(st.trace, Snapshot(st))
    ensures forall k | 0 <= k < |st.slots| :: Snapshot(st)[k] == FinalItem(st.slots[k], k)
  {
    var items := seq(|st.slots|, k requires 0 <= k < |st.slots| => FinalItem(st.slots[k], k));
    SortKeepsCount(st.output);
    SnapshotOrder(st.output, items);
    forall k: nat | k < |items|
      ensures ItemTrace(Project(st.trace, k), k, items[k])
    {
      SlotTrace(st.slots[k], k);
    }
    forall e | e in st.trace && Indexed(e)
      ensures e.index < |items|
    {
      ProjectMember(st.trace, e.index, e);
    }
  }

  /** The messages translator numbers, streams and closes its items correctly exactly when no started block takes the
      index of an open item, and no item is started while an open item sits on a reused index. */
  lemma WellNumberedIffConflictFree(responseId: string, events: seq<MsgEvent>, end: StreamEnd)
    ensures var st := Final(responseId, events, end);
      BodyGrammar(st.trace, Snapshot(st)) <==> ConflictFree(events)
  {
    hide *;
    var st := Final(responseId, events, end);
    if BodyGrammar(st.trace, Snapshot(st)) {
      WellNumberedIsConflictFree(responseId, events, end);
    }
    if ConflictFree(events) {
      ConflictFreeIsWellNumbered(responseId, events, end);
    }
  }
}
