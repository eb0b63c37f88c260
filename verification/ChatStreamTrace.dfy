/** What the emitted event stream looks like, for every chunk sequence. */
module ChatStreamTrace {
  import opened Options
  import opened Text
  import opened ResponsesEvents
  import opened ChatStream

  function TextDeltas(k: nat, pieces: seq<string>): seq<Event> {
    seq(|pieces|, i requires 0 <= i < |pieces| => TextDelta(k, k, pieces[i]))
  }

  function ArgsDeltas(k: nat, pieces: seq<string>): seq<Event> {
    seq(|pieces|, i requires 0 <= i < |pieces| => ArgsDelta(k, k, pieces[i]))
  }

  /** The events seen so far for slot `k`. */
  function Expected(s: Slot, k: nat): seq<Event>
    requires s.CallSlot? && s.announced.Some? ==> s.announced.value.silent <= |s.pieces|
  {
    match s
    case TextSlot(pieces, closed) =>
      TextOpening(k) + TextDeltas(k, pieces) + (if closed then TextClosing(k, Join(pieces)) else [])
    case CallSlot(_, _, _, pieces, announced) =>
      if announced.None? then []
      else CallOpening(k, announced.value.callId, announced.value.name) + ArgsDeltas(k, pieces[announced.value.silent..])
  }

  ghost predicate Announced(s: Slot) {
    s.CallSlot? && s.announced.Some? ==>
      s.announced.value.callId in {"", s.callId} && s.announced.value.name in {"", s.name}
  }

  ghost predicate Traced(st: State)
    requires Wf(st)
  {
    && (forall e | e in st.trace :: Indexed(e))
    && (forall k | 0 <= k < |st.slots| :: Project(st.trace, k) == Expected(st.slots[k], k) && Announced(st.slots[k]))
    && (forall k: nat | k >= |st.slots| :: Project(st.trace, k) == [])
  }

  /** A step that touches slot `k` alone, and appends exactly the events by which its expectation grows, keeps every
      slot's events as expected. */
  lemma TouchOne(st: State, r: State, k: nat, es: seq<Event>)
    requires Wf(st) && Wf(r) && Traced(st)
    requires forall e | e in es :: Indexed(e) && e.index == k
    requires r.trace == st.trace + es
    requires k < |r.slots| && |st.slots| <= |r.slots| <= |st.slots| + 1
    requires |r.slots| > |st.slots| ==> k == |st.slots|
    requires forall j | 0 <= j < |st.slots| && j != k :: r.slots[j] == st.slots[j]
    requires Expected(r.slots[k], k) == (if k < |st.slots| then Expected(st.slots[k], k) else []) + es
    requires Announced(r.slots[k])
    ensures Traced(r)
  {
    forall j: nat
      ensures Project(r.trace, j) == Project(st.trace, j) + (if j == k then es else [])
    {
      ProjectConcat(st.trace, es, j);
      ProjectUniform(es, k, j);
    }
  }

  lemma OnContentTraced(st: State, delta: string)
    requires Wf(st) && Traced(st)
    ensures Traced(OnContent(st, delta))
  {
    var st1 := if st.text.Some? then st else OpenText(st);
    if st.text.None? {
      var k := |st.slots|;
      assert TextDeltas(k, []) == [];
      TouchOne(st, st1, k, TextOpening(k));
    }
    var k := st1.text.value;
    var pieces := st1.slots[k].pieces;
    assert TextDeltas(k, pieces + [delta]) == TextDeltas(k, pieces) + [TextDelta(k, k, delta)];
    TouchOne(st1, AppendText(st1, delta), k, [TextDelta(k, k, delta)]);
  }

  lemma CloseTextTraced(st: State)
    requires Wf(st) && Traced(st)
    ensures Traced(CloseText(st))
  {
    if st.text.Some? {
      var k := st.text.value;
      TouchOne(st, CloseText(st), k, TextClosing(k, Join(st.slots[k].pieces)));
    }
  }

  lemma AbsorbTraced(s: Slot, k: nat, d: ToolDelta)
    requires s.CallSlot? && Announced(s)
    requires s.announced.Some? ==> s.announced.value.silent <= |s.pieces|
    requires s.announced.None? ==> s.callId == "" && s.name == ""
    ensures var r := Absorb(s, k, d);
      && Announced(r.0)
      && (r.0.announced.Some? ==> r.0.announced.value.silent <= |r.0.pieces|)
      && Expected(r.0, k) == Expected(s, k) + r.1
      && forall e | e in r.1 :: Indexed(e) && e.index == k
  {
    var s1 := Identify(s, k, d).0;
    assert Expected(s1, k) == Expected(s, k) + Identify(s, k, d).1;
    if s1.announced.Some? && d.arguments != "" {
      var pieces, silent := s.pieces + [d.arguments], s1.announced.value.silent;
      assert pieces[silent..] == s.pieces[silent..] + [d.arguments];
      assert ArgsDeltas(k, pieces[silent..]) == ArgsDeltas(k, s.pieces[silent..]) + [ArgsDelta(k, k, d.arguments)];
    }
  }

  lemma OnToolTraced(st: State, d: ToolDelta)
    requires Wf(st) && Traced(st)
    ensures Traced(OnTool(st, d))
  {
    CloseTextTraced(st);
    var st0 := CloseText(st);
    var st1 := EnsureCall(st0, d.index);
    if d.index !in st0.calls {
      TouchOne(st0, st1, |st0.slots|, []);
    }
    var k := st1.calls[d.index];
    AbsorbTraced(st1.slots[k], k, d);
    TouchOne(st1, OnTool(st, d), k, Absorb(st1.slots[k], k, d).1);
  }

  lemma {:induction false} ReachTraced(ops: seq<Op>)
    ensures Traced(Reach(ops))
  {
    if ops != [] {
      var front, last := ops[..|ops| - 1], ops[|ops| - 1];
      ReachTraced(front);
      match last
      case Content(text) => OnContentTraced(Reach(front), text);
      case Tool(d) => OnToolTraced(Reach(front), d);
    }
  }

  lemma ClosingIndexed(s: Slot, k: nat)
    ensures forall e | e in ClosingOf(s, k) :: Indexed(e) && e.index == k
  {
  }

  /** Closing the calls adds to each call its own closing events and nothing else. */
  lemma {:induction false} ProjectClosings(slots: seq<Slot>, k: nat)
    ensures Project(Closings(slots), k) == if k < |slots| then ClosingOf(slots[k], k) else []
    ensures forall e | e in Closings(slots) :: Indexed(e)
  {
    hide ClosingOf, Project, Closings;
    if slots == [] {
      NoClosings(k);
    } else {
      var front, n := slots[..|slots| - 1], |slots| - 1;
      ProjectClosings(front, k);
      ClosingsLast(slots);
      ClosingIndexed(slots[n], n);
      ProjectConcat(Closings(front), ClosingOf(slots[n], n), k);
      ProjectUniform(ClosingOf(slots[n], n), n, k);
    }
  }

  lemma NoClosings(k: nat)
    ensures Closings([]) == [] && Project([], k) == []
  {
  }

  lemma ClosingsLast(slots: seq<Slot>)
    requires slots != []
    ensures Closings(slots) == Closings(slots[..|slots| - 1]) + ClosingOf(slots[|slots| - 1], |slots| - 1)
  {
  }

  lemma TextSlotTrace(s: Slot, k: nat)
    requires s.TextSlot? && s.closed
    ensures MessageTrace(Expected(s, k), k, FinalItem(s, k))
  {
    var es := Expected(s, k);
    var mid := TextDeltas(k, s.pieces);
    assert es == TextOpening(k) + mid + TextClosing(k, Join(s.pieces));
    assert es[2..|es| - 3] == mid;
    assert es[|es| - 3..] == TextClosing(k, Join(s.pieces));
    assert Deltas(mid) == s.pieces;
  }

  lemma CallSlotTrace(s: Slot, k: nat)
    requires s.CallSlot? && Announced(s)
    requires s.announced.Some? ==> s.announced.value.silent <= |s.pieces|
    ensures CallTrace(Expected(s, k) + ClosingOf(s, k), k, FinalItem(s, k))
    ensures var es := Expected(s, k) + ClosingOf(s, k);
      Deltas(es[1..|es| - 2]) == s.pieces[if s.announced.Some? then s.announced.value.silent else |s.pieces|..]
  {
    var es := Expected(s, k) + ClosingOf(s, k);
    var silent := if s.announced.Some? then s.announced.value.silent else |s.pieces|;
    var mid := ArgsDeltas(k, s.pieces[silent..]);
    var closing := CallClosing(k, s.callId, s.name, Join(s.pieces));
    assert es == [es[0]] + mid + closing;
    assert es[1..|es| - 2] == mid;
    assert es[|es| - 2..] == closing;
    assert Deltas(mid) == s.pieces[silent..];
  }

  /** The body of the stream: every event belongs to an item of the snapshot, and the events of snapshot item `k` are
      exactly its own added, delta and done events, under output index `k`. */
  lemma BodyTrace(ops: seq<Op>, k: nat)
    ensures forall e | e in Body(ops) :: Indexed(e)
    ensures k < |Snapshot(ops)| ==> ItemTrace(Project(Body(ops), k), k, Snapshot(ops)[k])
    ensures k >= |Snapshot(ops)| ==> Project(Body(ops), k) == []
  {
    ReachTraced(ops);
    CloseTextTraced(Reach(ops));
    var st := CloseText(Reach(ops));
    ProjectConcat(st.trace, Closings(st.slots), k);
    ProjectClosings(st.slots, k);
    if k < |st.slots| {
      var s := st.slots[k];
      if s.TextSlot? {
        assert Project(Body(ops), k) == Expected(s, k);
        TextSlotTrace(s, k);
      } else {
        CallSlotTrace(s, k);
      }
    }
  }

  /** Framing a body whose events all carry indices below `|output|`. */
  lemma FramedGrammar(created: Event, body: seq<Event>, last: Event)
    requires created.Created? && last.Terminal? && last.responseId == created.responseId
    requires forall e | e in body :: Indexed(e)
    requires forall k: nat | k < |last.output| :: ItemTrace(Project(body, k), k, last.output[k])
    requires forall k: nat | k >= |last.output| :: Project(body, k) == []
    ensures StreamGrammar([created] + body + [last], created.responseId)
  {
    var t := [created] + body + [last];
    forall i | 0 < i < |t| - 1
      ensures Indexed(t[i]) && t[i].index < |last.output|
    {
      assert t[i] == body[i - 1];
      assert body[i - 1] in body;
      ProjectMember(body, body[i - 1].index, body[i - 1]);
    }
    forall k: nat | k < |last.output|
      ensures ItemTrace(Project(t, k), k, last.output[k])
    {
      ProjectSnoc([created] + body, last, k);
      ProjectConcat([created], body, k);
      assert Project([created], k) == [];
      assert Project(t, k) == Project(body, k);
    }
  }

  /** For every chunk sequence, ended cleanly or by a read error, the emitted stream obeys the grammar. */
  lemma TraceGrammar(responseId: string, chunks: seq<Chunk>, end: StreamEnd)
    ensures StreamGrammar(Translate(responseId, chunks, end), responseId)
  {
    var ops := Ops(chunks);
    forall k: nat
      ensures k < |Snapshot(ops)| ==> ItemTrace(Project(Body(ops), k), k, Snapshot(ops)[k])
      ensures k >= |Snapshot(ops)| ==> Project(Body(ops), k) == []
    {
      BodyTrace(ops, k);
    }
    BodyTrace(ops, 0);
    FramedGrammar(Created(responseId), Body(ops), Terminal(OutcomeOf(chunks, end), responseId, Snapshot(ops)));
  }

  // ----- How a stream ends -----

  /** The last finish reason that says anything is the length reason. */
  ghost predicate EndsAtLimit(chunks: seq<Chunk>) {
    exists k :: 0 <= k < |chunks| && chunks[k].finish == "length" && forall j | k < j < |chunks| :: chunks[j].finish == ""
  }

  lemma {:induction false} LimitReached(chunks: seq<Chunk>)
    ensures FinishReason(chunks) == "length" <==> EndsAtLimit(chunks)
  {
    if chunks != [] {
      var n := |chunks| - 1;
      var front := chunks[..n];
      LimitReached(front);
      if chunks[n].finish == "" {
        if k :| 0 <= k < n && front[k].finish == "length" && forall j | k < j < n :: front[j].finish == "" {
          assert chunks[k].finish == "length";
        }
        if k :| 0 <= k <= n && chunks[k].finish == "length" && forall j | k < j <= n :: chunks[j].finish == "" {
          assert front[k].finish == "length";
        }
      }
    }
  }

  /** The last event tells how the upstream ended: failed with the reader's error, incomplete if the length reason had the last
      word, and completed otherwise. */
  lemma EndingReported(responseId: string, chunks: seq<Chunk>, end: StreamEnd)
    ensures var t := Translate(responseId, chunks, end);
      && t != [] && t[|t| - 1].Terminal? && t[|t| - 1].responseId == responseId
      && (end.ReadError? ==> t[|t| - 1].outcome == Failed(end.detail))
      && (end.Clean? ==> t[|t| - 1].outcome == if EndsAtLimit(chunks) then Incomplete else Complete)
  {
    hide Body, Snapshot, EndsAtLimit;
    LimitReached(chunks);
  }
}
