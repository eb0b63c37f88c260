/** The machine computes what the stream means: the final snapshot is `Denote`, a reading of the operations by position. */
module ChatStreamMeaning {
  import opened Options
  import opened Text
  import opened ResponsesEvents
  import opened ChatStream
  import ChatStreamTrace

  lemma ToolDeltasSnoc(ops: seq<Op>, op: Op, index: int)
    ensures ToolDeltas(ops + [op], index) ==
            if op.Tool? && op.d.index == index then ToolDeltas(ops, index) + [op.d] else ToolDeltas(ops, index)
  {
    assert (ops + [op])[..|ops|] == ops;
  }

  lemma {:induction false} NoDeltas(ops: seq<Op>, index: int)
    ensures ToolDeltas(ops, index) == [] <==> forall i | 0 <= i < |ops| && ops[i].Tool? :: ops[i].d.index != index
  {
    if ops != [] {
      NoDeltas(ops[..|ops| - 1], index);
    }
  }

  lemma {:induction false} FirstNonEmptySnoc(xs: seq<string>, x: string)
    ensures FirstNonEmpty(xs + [x]) == Keep(FirstNonEmpty(xs), x)
  {
    if xs != [] && xs[0] == "" {
      assert (xs + [x])[1..] == xs[1..] + [x];
      FirstNonEmptySnoc(xs[1..], x);
    }
  }

  ghost predicate ToEnd(ops: seq<Op>, j: nat) {
    forall i | j <= i < |ops| :: ops[i].Content?
  }

  lemma {:induction false} RunSnoc(ops: seq<Op>, op: Op, j: nat)
    requires j <= |ops|
    ensures Run(ops + [op], j) == if ToEnd(ops, j) && op.Content? then Run(ops, j) + op.text else Run(ops, j)
    decreases |ops| - j
  {
    if j < |ops| && ops[j].Content? {
      RunSnoc(ops, op, j + 1);
      assert ToEnd(ops, j) <==> ToEnd(ops, j + 1);
    } else if j == |ops| {
      assert Run(ops + [op], j + 1) == "";
    }
  }

  lemma OpeningsSnoc(ops: seq<Op>, op: Op)
    ensures Openings(ops + [op]) == if Opens(ops + [op], |ops|) then Openings(ops) + [|ops|] else Openings(ops)
  {
    assert (ops + [op])[..|ops|] == ops;
  }

  lemma {:induction false} OpeningsAscend(ops: seq<Op>)
    ensures forall a, b | 0 <= a < b < |Openings(ops)| :: Openings(ops)[a] < Openings(ops)[b]
  {
    if ops != [] {
      var front := ops[..|ops| - 1];
      OpeningsAscend(front);
      assert forall a | 0 <= a < |Openings(front)| :: Openings(front)[a] in Openings(front);
    }
  }

  ghost predicate CallIs(s: Slot, ds: seq<ToolDelta>)
    requires s.CallSlot?
  {
    && s.callId == FirstNonEmpty(Ids(ds))
    && s.name == FirstNonEmpty(Names(ds))
    && Join(s.pieces) == Join(Args(ds))
  }

  ghost predicate CallMeans(ops: seq<Op>, s: Slot)
    requires s.CallSlot?
  {
    CallIs(s, ToolDeltas(ops, s.stream))
  }

  ghost predicate SlotMeans(ops: seq<Op>, s: Slot, j: nat)
    requires j < |ops|
  {
    match s
    case TextSlot(pieces, _) => ops[j].Content? && Join(pieces) == Run(ops, j)
    case CallSlot(stream, _, _, _, _) => ops[j].Tool? && ops[j].d.index == stream && CallMeans(ops, s)
  }

  ghost predicate Means(ops: seq<Op>, st: State)
    requires Wf(st)
  {
    var js := Openings(ops);
    && |st.slots| == |js|
    && (forall k | 0 <= k < |js| :: js[k] in js && SlotMeans(ops, st.slots[k], js[k]))
    && (st.text.Some? <==> ops != [] && ops[|ops| - 1].Content?)
    && (st.text.Some? ==> ToEnd(ops, js[st.text.value]))
    && (forall i :: i in st.calls <==> ToolDeltas(ops, i) != [])
  }

  /** One more delta of a call's own index. */
  lemma AbsorbIs(s: Slot, k: nat, ds: seq<ToolDelta>, d: ToolDelta)
    requires s.CallSlot? && CallIs(s, ds)
    ensures CallIs(Absorb(s, k, d).0, ds + [d])
  {
    assert Ids(ds + [d]) == Ids(ds) + [d.id];
    assert Names(ds + [d]) == Names(ds) + [d.name];
    assert Args(ds + [d]) == Args(ds) + [d.arguments];
    FirstNonEmptySnoc(Ids(ds), d.id);
    FirstNonEmptySnoc(Names(ds), d.name);
    JoinSnoc(Args(ds), d.arguments);
    JoinSnoc(s.pieces, d.arguments);
  }

  /** A slot that the operation does not address keeps its meaning. */
  lemma OtherSlotMeans(ops: seq<Op>, op: Op, s: Slot, j: nat)
    requires j < |ops| && SlotMeans(ops, s, j)
    requires s.TextSlot? && op.Content? ==> !ToEnd(ops, j)
    requires s.CallSlot? && op.Tool? ==> op.d.index != s.stream
    ensures SlotMeans(ops + [op], s, j)
  {
    RunSnoc(ops, op, j);
    if s.CallSlot? {
      ToolDeltasSnoc(ops, op, s.stream);
    }
  }

  /** While the last operation is a tool delta, no run reaches the end. */
  lemma OnContentSlotOpened(ops: seq<Op>, st: State, text: string, k: nat)
    requires Wf(st) && Means(ops, st) && st.text.None?
    requires k <= |st.slots|
    ensures var ops' := ops + [Content(text)];
      SlotMeans(ops', OnContent(st, text).slots[k], if k < |st.slots| then Openings(ops)[k] else |ops|)
  {
    var op := Content(text);
    var js := Openings(ops);
    if k < |st.slots| {
      assert js[k] in js && SlotMeans(ops, st.slots[k], js[k]);
      assert ops[|ops| - 1].Tool?;
      OtherSlotMeans(ops, op, st.slots[k], js[k]);
    } else {
      RunSnoc(ops, op, |ops|);
      assert OnContent(st, text).slots[k].pieces == [text];
      assert Join([text]) == Join([]) + text;
    }
  }

  lemma OnContentSlotContinued(ops: seq<Op>, st: State, text: string, k: nat)
    requires Wf(st) && Means(ops, st) && st.text.Some?
    requires k < |st.slots|
    ensures SlotMeans(ops + [Content(text)], OnContent(st, text).slots[k], Openings(ops)[k])
  {
    var op := Content(text);
    var js := Openings(ops);
    var m := st.text.value;
    assert js[k] in js && SlotMeans(ops, st.slots[k], js[k]);
    if m == k {
      RunSnoc(ops, op, js[k]);
      JoinSnoc(st.slots[k].pieces, text);
    } else {
      assert js[m] in js && SlotMeans(ops, st.slots[m], js[m]);
      EarlierRunStopped(ops, k, m);
      OtherSlotMeans(ops, op, st.slots[k], js[k]);
      assert OnContent(st, text).slots[k] == st.slots[k];
    }
  }

  /** A content item opens right behind a tool delta, which stops every earlier run. */
  lemma EarlierRunStopped(ops: seq<Op>, k: nat, m: nat)
    requires k < m < |Openings(ops)| && Openings(ops)[m] < |ops| && ops[Openings(ops)[m]].Content?
    ensures !ToEnd(ops, Openings(ops)[k])
  {
    var js := Openings(ops);
    OpeningsAscend(ops);
    assert js[m] in js && Opens(ops, js[m]);
    assert ops[js[m] - 1].Tool?;
  }

  lemma OnContentDirectories(ops: seq<Op>, st: State, text: string)
    requires Wf(st) && Means(ops, st)
    ensures var ops' := ops + [Content(text)];
      && (Opens(ops', |ops|) <==> st.text.None?)
      && (forall i :: i in st.calls <==> ToolDeltas(ops', i) != [])
      && ToEnd(ops', |ops|) && (st.text.Some? ==> ToEnd(ops', Openings(ops)[st.text.value]))
  {
    hide SlotMeans, Run;
    var op := Content(text);
    forall i
      ensures ToolDeltas(ops + [op], i) == ToolDeltas(ops, i)
    {
      ToolDeltasSnoc(ops, op, i);
    }
  }

  lemma OnContentMeans(ops: seq<Op>, st: State, text: string)
    requires Wf(st) && Means(ops, st)
    ensures Means(ops + [Content(text)], OnContent(st, text))
  {
    hide Opens, SlotMeans, ToEnd, Run, OnContent, SlotOk, ToolDeltas;
    var op := Content(text);
    var ops', r := ops + [op], OnContent(st, text);
    var js := Openings(ops);
    OpeningsSnoc(ops, op);
    OnContentDirectories(ops, st, text);
    ContentSlots(st, text);
    forall k | 0 <= k < |r.slots|
      ensures SlotMeans(ops', r.slots[k], if k < |js| then js[k] else |ops|)
    {
      if st.text.None? {
        OnContentSlotOpened(ops, st, text, k);
      } else {
        OnContentSlotContinued(ops, st, text, k);
      }
    }
    var js' := Openings(ops');
    forall k | 0 <= k < |js'|
      ensures js'[k] in js' && SlotMeans(ops', r.slots[k], js'[k])
    {
    }
  }

  /** The call slot a tool delta goes to, before the delta is absorbed. */
  lemma AddressedCall(ops: seq<Op>, st: State, d: ToolDelta)
    requires Wf(st) && Means(ops, st)
    ensures var st1 := EnsureCall(CloseText(st), d.index);
      CallIs(st1.slots[st1.calls[d.index]], ToolDeltas(ops, d.index))
  {
    if d.index in st.calls {
      var m := st.calls[d.index];
      assert SlotMeans(ops, st.slots[m], Openings(ops)[m]);
    } else {
      assert ToolDeltas(ops, d.index) == [];
    }
  }

  lemma OnToolSlot(ops: seq<Op>, st: State, d: ToolDelta, k: nat)
    requires Wf(st) && Means(ops, st)
    requires k < |OnTool(st, d).slots|
    ensures SlotMeans(ops + [Tool(d)], OnTool(st, d).slots[k], if k < |st.slots| then Openings(ops)[k] else |ops|)
  {
    var st1 := EnsureCall(CloseText(st), d.index);
    var m := st1.calls[d.index];
    if k == m {
      ToolDeltasSnoc(ops, Tool(d), d.index);
      AddressedCall(ops, st, d);
      AbsorbIs(st1.slots[m], m, ToolDeltas(ops, d.index), d);
      assert k < |st.slots| ==> SlotMeans(ops, st.slots[k], Openings(ops)[k]);
    } else {
      OnToolOther(ops, st, d, k);
    }
  }

  lemma OnToolOther(ops: seq<Op>, st: State, d: ToolDelta, k: nat)
    requires Wf(st) && Means(ops, st)
    requires k < |st.slots| && (d.index in st.calls ==> k != st.calls[d.index])
    ensures SlotMeans(ops + [Tool(d)], OnTool(st, d).slots[k], Openings(ops)[k])
  {
    var j := Openings(ops)[k];
    var s := CloseText(st).slots[k];
    assert j in Openings(ops) && SlotMeans(ops, st.slots[k], j);
    OtherSlotMeans(ops, Tool(d), s, j);
    assert OnTool(st, d).slots[k] == s;
  }

  lemma OnToolDirectories(ops: seq<Op>, st: State, d: ToolDelta)
    requires Wf(st) && Means(ops, st)
    ensures var ops' := ops + [Tool(d)];
      && (Opens(ops', |ops|) <==> d.index !in st.calls)
      && (forall i :: (i in st.calls || i == d.index) <==> ToolDeltas(ops', i) != [])
  {
    hide SlotMeans, Run, ToEnd;
    NoDeltas(ops, d.index);
    forall i
      ensures (i in st.calls || i == d.index) <==> ToolDeltas(ops + [Tool(d)], i) != []
    {
      ToolDeltasSnoc(ops, Tool(d), i);
    }
  }

  lemma OnToolMeans(ops: seq<Op>, st: State, d: ToolDelta)
    requires Wf(st) && Means(ops, st)
    ensures Means(ops + [Tool(d)], OnTool(st, d))
  {
    hide Opens, SlotMeans, Run, Absorb, SlotOk, ToEnd, OnTool, CloseText, ToolDeltas;
    var op := Tool(d);
    var ops', r := ops + [op], OnTool(st, d);
    var js := Openings(ops);
    OpeningsSnoc(ops, op);
    OnToolDirectories(ops, st, d);
    ToolSlots(st, d);
    forall k | 0 <= k < |r.slots|
      ensures SlotMeans(ops', r.slots[k], if k < |js| then js[k] else |ops|)
    {
      OnToolSlot(ops, st, d, k);
    }
    var js' := Openings(ops');
    forall k | 0 <= k < |js'|
      ensures js'[k] in js' && SlotMeans(ops', r.slots[k], js'[k])
    {
    }
  }

  lemma {:induction false} ReachMeans(ops: seq<Op>)
    ensures Means(ops, Reach(ops))
  {
    if ops != [] {
      var front, last := ops[..|ops| - 1], ops[|ops| - 1];
      assert ops == front + [last];
      ReachMeans(front);
      match last
      case Content(text) => OnContentMeans(front, Reach(front), text);
      case Tool(d) => OnToolMeans(front, Reach(front), d);
    }
  }

  /** For every chunk sequence the final snapshot is exactly the items the stream denotes. */
  lemma SnapshotIsMeaning(ops: seq<Op>)
    ensures Snapshot(ops) == Denote(ops)
  {
    ReachMeans(ops);
    var st := Reach(ops);
    var js := Openings(ops);
    forall k | 0 <= k < |js|
      ensures Snapshot(ops)[k] == Denote(ops)[k]
    {
      assert SlotMeans(ops, st.slots[k], js[k]);
    }
  }

  function ContentTexts(ops: seq<Op>): seq<string> {
    if ops == [] then []
    else
      var last := ops[|ops| - 1];
      var before := ContentTexts(ops[..|ops| - 1]);
      if last.Content? then before + [last.text] else before
  }

  function MessageTexts(items: seq<Item>): seq<string> {
    if items == [] then []
    else
      var last := items[|items| - 1];
      var before := MessageTexts(items[..|items| - 1]);
      if last.Message? then before + [last.text] else before
  }

  /** Message texts of slots, in opening order. */
  function SlotTexts(slots: seq<Slot>): string {
    if slots == [] then ""
    else
      var last := slots[|slots| - 1];
      var before := SlotTexts(slots[..|slots| - 1]);
      if last.TextSlot? then before + Join(last.pieces) else before
  }

  lemma {:induction false} SlotTextsUpTo(a: seq<Slot>, b: seq<Slot>)
    requires |a| == |b|
    requires forall k | 0 <= k < |a| :: a[k].TextSlot? == b[k].TextSlot? && (a[k].TextSlot? ==> a[k].pieces == b[k].pieces)
    ensures SlotTexts(a) == SlotTexts(b)
  {
    if a != [] {
      SlotTextsUpTo(a[..|a| - 1], b[..|b| - 1]);
    }
  }

  lemma SlotTextsSnoc(slots: seq<Slot>, s: Slot)
    ensures SlotTexts(slots + [s]) == if s.TextSlot? then SlotTexts(slots) + Join(s.pieces) else SlotTexts(slots)
  {
    assert (slots + [s])[..|slots|] == slots;
  }

  lemma OnContentTexts(st: State, text: string)
    requires Wf(st)
    ensures SlotTexts(OnContent(st, text).slots) == SlotTexts(st.slots) + text
  {
    hide OnContent, Wf, SlotTexts, Join;
    ContentSlots(st, text);
    if st.text.None? {
      SlotTextsSnoc(st.slots, TextSlot([text], false));
      JoinOne(text);
    } else {
      var n := |st.slots| - 1;
      var front, last := st.slots[..n], st.slots[n];
      assert st.slots == front + [last];
      assert OnContent(st, text).slots == front + [TextSlot(last.pieces + [text], false)];
      SlotTextsSnoc(front, last);
      SlotTextsSnoc(front, TextSlot(last.pieces + [text], false));
      JoinSnoc(last.pieces, text);
    }
  }

  lemma OnToolTexts(st: State, d: ToolDelta)
    requires Wf(st)
    ensures SlotTexts(OnTool(st, d).slots) == SlotTexts(st.slots)
  {
    hide OnTool, SlotTexts, Absorb, SlotOk;
    var st0 := CloseText(st);
    ToolSlots(st, d);
    SlotTextsUpTo(st0.slots, st.slots);
    var r := OnTool(st, d);
    if d.index !in st.calls {
      SlotTextsSnoc(st0.slots, r.slots[|st0.slots|]);
    } else {
      SlotTextsUpTo(r.slots, st0.slots);
    }
  }

  lemma {:induction false} ReachTexts(ops: seq<Op>)
    ensures SlotTexts(Reach(ops).slots) == Join(ContentTexts(ops))
  {
    if ops != [] {
      var front, last := ops[..|ops| - 1], ops[|ops| - 1];
      ReachTexts(front);
      match last
      case Content(text) =>
        OnContentTexts(Reach(front), text);
        JoinSnoc(ContentTexts(front), text);
      case Tool(d) =>
        OnToolTexts(Reach(front), d);
    }
  }

  lemma {:induction false} ItemTexts(slots: seq<Slot>)
    ensures Join(MessageTexts(Items(slots))) == SlotTexts(slots)
  {
    if slots != [] {
      var front := slots[..|slots| - 1];
      var items := Items(slots);
      assert items[..|slots| - 1] == Items(front);
      ItemTexts(front);
      if items[|slots| - 1].Message? {
        JoinSnoc(MessageTexts(Items(front)), items[|slots| - 1].text);
      }
    }
  }

  /** No content is lost, repeated or reordered: the message texts in output order join to all content deltas. */
  lemma TextConserved(ops: seq<Op>)
    ensures Join(MessageTexts(Snapshot(ops))) == Join(ContentTexts(ops))
  {
    var st := Reach(ops);
    ReachTexts(ops);
    ItemTexts(CloseText(st).slots);
    SlotTextsUpTo(CloseText(st).slots, st.slots);
  }

  /** The argument fragments of one index that arrive before its first non-empty id or name. */
  function Buffered(ds: seq<ToolDelta>): string {
    if ds == [] || ds[0].id != "" || ds[0].name != "" then "" else ds[0].arguments + Buffered(ds[1..])
  }

  lemma {:induction false} BufferedSnoc(ds: seq<ToolDelta>, d: ToolDelta)
    ensures Buffered(ds + [d]) ==
            if FirstNonEmpty(Ids(ds)) == "" && FirstNonEmpty(Names(ds)) == "" && d.id == "" && d.name == ""
            then Buffered(ds) + d.arguments else Buffered(ds)
  {
    if ds == [] {
      assert (ds + [d])[1..] == [];
    } else {
      assert (ds + [d])[1..] == ds[1..] + [d];
      assert Ids(ds)[1..] == Ids(ds[1..]);
      assert Names(ds)[1..] == Names(ds[1..]);
      BufferedSnoc(ds[1..], d);
    }
  }

  /** The fragments written before the announcement are the buffered ones. */
  ghost predicate Splits(s: Slot, ds: seq<ToolDelta>)
    requires s.CallSlot?
  {
    match s.announced
    case None => Join(s.pieces) == Buffered(ds)
    case Some(a) => a.silent <= |s.pieces| && Join(s.pieces[..a.silent]) == Buffered(ds)
  }

  lemma AbsorbSplits(s: Slot, k: nat, ds: seq<ToolDelta>, d: ToolDelta)
    requires s.CallSlot? && CallIs(s, ds) && Splits(s, ds)
    requires s.announced.None? <==> s.callId == "" && s.name == ""
    ensures Splits(Absorb(s, k, d).0, ds + [d])
  {
    var r := Absorb(s, k, d).0;
    BufferedSnoc(ds, d);
    JoinSnoc(s.pieces, d.arguments);
    if r.announced.Some? {
      var silent := r.announced.value.silent;
      assert r.pieces[..silent] == s.pieces[..silent];
      assert s.pieces[..|s.pieces|] == s.pieces;
    }
  }

  lemma AddressedIndex(ops: seq<Op>, st: State, index: int)
    requires Wf(st) && Means(ops, st)
    ensures index in st.calls <==> ToolDeltas(ops, index) != []
  {
    hide SlotMeans;
  }

  lemma NothingSplits()
    ensures Join([]) == Buffered([])
  {
  }

  lemma OnToolSplits(ops: seq<Op>, st: State, d: ToolDelta)
    requires Wf(st) && Means(ops, st)
    requires d.index in st.calls ==> Splits(st.slots[st.calls[d.index]], ToolDeltas(ops, d.index))
    ensures var r := OnTool(st, d);
      && d.index in r.calls
      && Splits(r.slots[r.calls[d.index]], ToolDeltas(ops + [Tool(d)], d.index))
  {
    hide Means, Absorb, Join, SlotMeans;
    AddressedCall(ops, st, d);
    AddressedIndex(ops, st, d.index);
    ToolDeltasSnoc(ops, Tool(d), d.index);
    var st1 := EnsureCall(CloseText(st), d.index);
    var m := st1.calls[d.index];
    var s := st1.slots[m];
    assert SlotOk(s, m, st1.text, st1.calls);
    assert d.index !in st.calls ==> Splits(s, []) by {
      NothingSplits();
    }
    AbsorbSplits(s, m, ToolDeltas(ops, d.index), d);
  }

  /** Every call slot splits at its announcement. */
  lemma {:induction false} ReachSplits(ops: seq<Op>, index: int)
    requires index in Reach(ops).calls
    ensures var st := Reach(ops); Splits(st.slots[st.calls[index]], ToolDeltas(ops, index))
  {
    hide Splits, Means, OnTool, OnContent, Wf, ToolDeltas, SlotOk, Buffered;
    var front, last := ops[..|ops| - 1], ops[|ops| - 1];
    assert ops == front + [last];
    var st := Reach(front);
    ReachMeans(front);
    if index in st.calls {
      ReachSplits(front, index);
    }
    if last.Tool? && last.d.index == index {
      OnToolSplits(front, st, last.d);
    } else {
      ToolDeltasSnoc(front, last, index);
      OtherStepKeepsCall(st, last, index);
    }
  }

  lemma OtherStepKeepsCall(st: State, op: Op, index: int)
    requires Wf(st)
    requires op.Tool? ==> op.d.index != index
    requires index in Step(st, op).calls
    ensures index in st.calls && Step(st, op).calls[index] == st.calls[index]
    ensures Step(st, op).slots[st.calls[index]] == st.slots[st.calls[index]]
  {
  }

  /** Events of a call in the body, after its slot and its closing. */
  lemma CallEvents(ops: seq<Op>, k: nat)
    requires k < |Reach(ops).slots| && Reach(ops).slots[k].CallSlot?
    ensures var s := Reach(ops).slots[k];
      && (s.announced.Some? ==> s.announced.value.silent <= |s.pieces|)
      && Project(Body(ops), k) == ChatStreamTrace.Expected(s, k) + ClosingOf(s, k)
      && ChatStreamTrace.Announced(s)
  {
    ChatStreamTrace.ReachTraced(ops);
    ChatStreamTrace.CloseTextTraced(Reach(ops));
    var st := CloseText(Reach(ops));
    ProjectConcat(st.trace, Closings(st.slots), k);
    ChatStreamTrace.ProjectClosings(st.slots, k);
  }

  /** A call's events show its arguments after the buffered fragments of its deltas. */
  ghost predicate ShowsAfterBuffered(es: seq<Event>, item: Item, ds: seq<ToolDelta>) {
    && item.FunctionCall?
    && |es| >= 3 && (forall e | e in es[1..|es| - 2] :: e.ArgsDelta?)
    && item.arguments == Buffered(ds) + Join(Deltas(es[1..|es| - 2]))
  }

  lemma SlotShows(s: Slot, k: nat, ds: seq<ToolDelta>)
    requires s.CallSlot? && Splits(s, ds) && ChatStreamTrace.Announced(s)
    ensures ShowsAfterBuffered(ChatStreamTrace.Expected(s, k) + ClosingOf(s, k), FinalItem(s, k), ds)
  {
    ChatStreamTrace.CallSlotTrace(s, k);
    var silent := if s.announced.Some? then s.announced.value.silent else |s.pieces|;
    assert s.pieces == s.pieces[..silent] + s.pieces[silent..];
    JoinConcat(s.pieces[..silent], s.pieces[silent..]);
    assert s.pieces[..|s.pieces|] == s.pieces;
  }

  /** For every stream index the stream mentions there is one call in the snapshot, and the argument deltas a client
      sees for it are its arguments without the fragments that arrived before any id or name of that index; they are
      the whole arguments exactly when that buffered part is empty. */
  lemma EmittedArguments(ops: seq<Op>, index: int) returns (k: nat)
    requires ToolDeltas(ops, index) != []
    ensures k < |Snapshot(ops)| && Snapshot(ops)[k] == CallItem(ToolDeltas(ops, index), k)
    ensures ShowsAfterBuffered(Project(Body(ops), k), Snapshot(ops)[k], ToolDeltas(ops, index))
    ensures var es := Project(Body(ops), k);
      Join(Deltas(es[1..|es| - 2])) == Snapshot(ops)[k].arguments <==> Buffered(ToolDeltas(ops, index)) == ""
  {
    hide *;
    var st := Reach(ops);
    ReachMeans(ops);
    CallSlotMeans(ops, st, index);
    k := st.calls[index];
    ReachSplits(ops, index);
    CallEvents(ops, k);
    SlotShows(st.slots[k], k, ToolDeltas(ops, index));
    SnapshotCall(ops, k);
    SplitsWhole(Project(Body(ops), k), Snapshot(ops)[k], ToolDeltas(ops, index));
  }

  lemma SnapshotCall(ops: seq<Op>, k: nat)
    requires k < |Reach(ops).slots| && Reach(ops).slots[k].CallSlot?
    ensures k < |Snapshot(ops)| && Snapshot(ops)[k] == FinalItem(Reach(ops).slots[k], k)
  {
  }

  lemma SplitsWhole(es: seq<Event>, item: Item, ds: seq<ToolDelta>)
    requires ShowsAfterBuffered(es, item, ds)
    ensures |es| >= 3 && (forall e | e in es[1..|es| - 2] :: e.ArgsDelta?) && item.FunctionCall?
    ensures Join(Deltas(es[1..|es| - 2])) == item.arguments <==> Buffered(ds) == ""
  {
  }

  lemma CallSlotMeans(ops: seq<Op>, st: State, index: int)
    requires Wf(st) && Means(ops, st) && ToolDeltas(ops, index) != []
    ensures index in st.calls && st.calls[index] < |st.slots| && st.slots[st.calls[index]].CallSlot?
    ensures st.slots[st.calls[index]].stream == index
    ensures FinalItem(st.slots[st.calls[index]], st.calls[index]) == CallItem(ToolDeltas(ops, index), st.calls[index])
  {
    assert SlotMeans(ops, st.slots[st.calls[index]], Openings(ops)[st.calls[index]]);
  }
}
