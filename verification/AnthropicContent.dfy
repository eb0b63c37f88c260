/** What a client assembles from the translated Anthropic events, compared with the chat stream by position. */
module AnthropicContent {
  import opened Text
  import opened AnthropicStream

  // ----- One more operation, by position -----

  /** Nothing opens or finishes a block from position `n` on. */
  ghost predicate ToEnd(ops: seq<Op>, n: nat) {
    forall m | n <= m < |ops| :: !ops[m].Stop? && !Opens(ops, m)
  }

  lemma OpensPrefix(ops: seq<Op>, op: Op, j: nat)
    requires j < |ops|
    ensures Opens(ops + [op], j) == Opens(ops, j)
  {
    assert (ops + [op])[..j] == ops[..j];
  }

  lemma {:induction false} PiecesSnoc(ops: seq<Op>, op: Op, n: nat, tool: bool)
    requires n <= |ops|
    ensures Pieces(ops + [op], n, tool) ==
      if ToEnd(ops, n) && !op.Stop? && !Opens(ops + [op], |ops|) && Piece(op, tool) != ""
      then Pieces(ops, n, tool) + [Piece(op, tool)] else Pieces(ops, n, tool)
    decreases |ops| - n
  {
    if n < |ops| {
      OpensPrefix(ops, op, n);
      if !ops[n].Stop? && !Opens(ops, n) {
        PiecesSnoc(ops, op, n + 1, tool);
        assert ToEnd(ops, n) <==> ToEnd(ops, n + 1);
      }
    }
  }

  lemma OpeningsSnoc(ops: seq<Op>, op: Op)
    ensures Openings(ops + [op]) == if Opens(ops + [op], |ops|) then Openings(ops) + [|ops|] else Openings(ops)
  {
    assert (ops + [op])[..|ops|] == ops;
  }

  lemma ToEndSnoc(ops: seq<Op>, op: Op, n: nat)
    requires n <= |ops|
    ensures ToEnd(ops + [op], n) <==> ToEnd(ops, n) && !op.Stop? && !Opens(ops + [op], |ops|)
    ensures ToEnd(ops, |ops|)
  {
    forall m | n <= m < |ops|
      ensures Opens(ops + [op], m) == Opens(ops, m) && (ops + [op])[m] == ops[m]
    {
      OpensPrefix(ops, op, m);
    }
    if ToEnd(ops + [op], n) {
      forall m | n <= m < |ops|
        ensures !ops[m].Stop? && !Opens(ops, m)
      {
        assert !(ops + [op])[m].Stop? && !Opens(ops + [op], m);
      }
      assert (ops + [op])[|ops|] == op;
    }
  }

  /** Only the block opened last can still be open, and it is exactly when its anchor is not a finish. */
  ghost predicate OnlyLastOpen(ops: seq<Op>, js: seq<nat>) {
    && (forall k | 0 <= k < |js| :: js[k] < |ops|)
    && (forall k | 0 <= k < |js| - 1 :: !ToEnd(ops, js[k] + 1))
    && (Anchor(ops) != [] && !Anchor(ops)[0].Stop? <==> js != [] && ToEnd(ops, js[|js| - 1] + 1))
    && (js != [] && ToEnd(ops, js[|js| - 1] + 1) ==> ops[js[|js| - 1]].Tool? == Anchor(ops)[0].Tool?)
  }

  lemma OpensAnchor(ops: seq<Op>, op: Op)
    ensures Anchor(ops + [op]) == if op.Tool? && op.d.id == "" then Anchor(ops) else [op]
    ensures !op.Stop? && !Opens(ops + [op], |ops|) && !(op.Tool? && op.d.id == "") ==>
              op.Say? && Anchor(ops) != [] && Anchor(ops)[0].Say?
    ensures Opens(ops + [op], |ops|) ==> !op.Stop? && (op.Tool? ==> op.d.id != "")
  {
    assert (ops + [op])[..|ops|] == ops;
  }

  lemma OnlyLastOpenSnoc(ops: seq<Op>, op: Op, js: seq<nat>)
    requires OnlyLastOpen(ops, js)
    ensures OnlyLastOpen(ops + [op], if Opens(ops + [op], |ops|) then js + [|ops|] else js)
  {
    hide Opens, ToEnd, Anchor;
    OpensAnchor(ops, op);
    forall j: nat | j <= |ops|
      ensures ToEnd(ops + [op], j) <==> ToEnd(ops, j) && !op.Stop? && !Opens(ops + [op], |ops|)
    {
      ToEndSnoc(ops, op, j);
    }
    if Opens(ops + [op], |ops|) {
      var js' := js + [|ops|];
      ToEndSnoc(ops + [op], op, |ops| + 1);
      forall k | 0 <= k < |js'| - 1
        ensures !ToEnd(ops + [op], js'[k] + 1)
      {
        assert js'[k] == js[k] && js[k] + 1 <= |ops|;
      }
    }
  }

  lemma {:induction false} LastOpening(ops: seq<Op>)
    ensures OnlyLastOpen(ops, Openings(ops))
  {
    if ops != [] {
      hide Opens, OnlyLastOpen;
      var front, op := ops[..|ops| - 1], ops[|ops| - 1];
      LastOpening(front);
      assert front + [op] == ops;
      OpeningsSnoc(front, op);
      OnlyLastOpenSnoc(front, op, Openings(front));
    }
  }

  /** The content block `op` adds to: a new one, the last one, or none. */
  function Extend(cs: seq<Content>, op: Op, opens: bool, open: bool): seq<Content> {
    if opens then
      var block := if op.Tool? then ToolUse(op.d.id, op.d.name) else TextBlock;
      var first := Piece(op, block.ToolUse?);
      cs + [Content(block, if first == "" then [] else [first])]
    else if open && cs != [] && Piece(op, cs[|cs| - 1].block.ToolUse?) != "" then
      var last := cs[|cs| - 1];
      cs[|cs| - 1 := Content(last.block, last.pieces + [Piece(op, last.block.ToolUse?)])]
    else cs
  }

  lemma ContentSnoc(ops: seq<Op>, op: Op, j: nat)
    requires j < |ops| && Opens(ops, j)
    ensures Opens(ops + [op], j)
    ensures var c := ContentAt(ops, j);
      c.block.ToolUse? == ops[j].Tool? &&
      ContentAt(ops + [op], j) ==
      if ToEnd(ops, j + 1) && !op.Stop? && !Opens(ops + [op], |ops|) && Piece(op, c.block.ToolUse?) != ""
      then Content(c.block, c.pieces + [Piece(op, c.block.ToolUse?)]) else c
  {
    OpensPrefix(ops, op, j);
    PiecesSnoc(ops, op, j + 1, ops[j].Tool?);
  }

  lemma DenoteAt(ops: seq<Op>, k: nat)
    requires k < |Openings(ops)|
    ensures Openings(ops)[k] < |ops| && Opens(ops, Openings(ops)[k])
    ensures Denote(ops)[k] == ContentAt(ops, Openings(ops)[k])
  {
    assert Openings(ops)[k] in Openings(ops);
  }

  lemma DenoteSnocAt(ops: seq<Op>, op: Op, k: nat)
    requires k < |Openings(ops)| && k < |Openings(ops + [op])|
    ensures var open := Anchor(ops) != [] && !Anchor(ops)[0].Stop?;
      Denote(ops + [op])[k] == Extend(Denote(ops), op, Opens(ops + [op], |ops|), open)[k]
  {
    hide Opens, ToEnd, Openings, ContentAt, Piece, Anchor, Denote;
    var js := Openings(ops);
    OpeningsSnoc(ops, op);
    LastOpening(ops);
    OpensAnchor(ops, op);
    FirstContent(ops, op);
    DenoteAt(ops, k);
    DenoteAt(ops + [op], k);
    ContentSnoc(ops, op, js[k]);
    DenoteAt(ops, |js| - 1);
  }

  lemma DenoteSnoc(ops: seq<Op>, op: Op)
    ensures Denote(ops + [op]) ==
      Extend(Denote(ops), op, Opens(ops + [op], |ops|), Anchor(ops) != [] && !Anchor(ops)[0].Stop?)
  {
    hide Opens, Openings, ContentAt, Piece, Anchor, Denote;
    OpeningsSnoc(ops, op);
    FirstContent(ops, op);
    forall k | 0 <= k < |Openings(ops)|
      ensures Denote(ops + [op])[k] ==
        Extend(Denote(ops), op, Opens(ops + [op], |ops|), Anchor(ops) != [] && !Anchor(ops)[0].Stop?)[k]
    {
      DenoteSnocAt(ops, op, k);
    }
    if Opens(ops + [op], |ops|) {
      DenoteAt(ops + [op], |Openings(ops)|);
    }
  }

  lemma FirstContent(ops: seq<Op>, op: Op)
    ensures Opens(ops + [op], |ops|) ==>
      var tool := op.Tool?;
      ContentAt(ops + [op], |ops|) ==
      Content(if tool then ToolUse(op.d.id, op.d.name) else TextBlock, if Piece(op, tool) == "" then [] else [Piece(op, tool)])
    ensures op.Stop? ==> Piece(op, true) == "" && Piece(op, false) == ""
  {
  }

  // ----- One more operation, in the events -----

  /** The assembled blocks after one more event. */
  function Grown(cs: seq<Content>, current: Current, e: Event): seq<Content> {
    if e.BlockStart? then cs + [Content(e.block, [])]
    else if e.BlockDelta? && current.In? && e.index < |cs| && Fits(cs[e.index].block, e.delta)
    then cs[e.index := Content(cs[e.index].block, cs[e.index].pieces + [e.delta.text])]
    else cs
  }

  lemma AssembleSnoc(es: seq<Event>, e: Event)
    ensures Assemble(es + [e]) == Grown(Assemble(es), OpenBlock(es), e)
  {
    assert (es + [e])[..|es|] == es;
  }

  /** The open block is the last assembled one. */
  ghost predicate LastIsOpen(st: State) {
    var es := Sent(st);
    OpenBlock(es).In? ==> |Assemble(es)| == st.index + 1 && Assemble(es)[st.index].block == OpenBlock(es).block
  }

  lemma CloseAssembles(st: State, current: Current)
    requires Consistent(st, current)
    ensures Assemble(Sent(Close(st))) == Assemble(Sent(st))
  {
    if st.open {
      SentSnoc(st, Close(st), BlockStop(st.index));
      AssembleSnoc(Sent(st), BlockStop(st.index));
    }
  }

  lemma OpenAssembles(st: State, current: Current, b: Block)
    requires Consistent(st, current)
    ensures Consistent(Open(st, b), In(Open(st, b).index, b))
    ensures Assemble(Sent(Open(st, b))) == Assemble(Sent(st)) + [Content(b, [])]
    ensures LastIsOpen(Open(st, b))
  {
    var st1 := Close(st);
    CloseConsistent(st, current);
    CloseAssembles(st, current);
    OpenConsistent(st, current, b);
    SentSnoc(st1, Open(st, b), BlockStart(st1.index, b));
    AssembleSnoc(Sent(st1), BlockStart(st1.index, b));
  }

  lemma EmitAssembles(st: State, current: Current, d: Delta)
    requires Consistent(st, current) && LastIsOpen(st) && d.text != ""
    requires d.TextPiece? ==> current.In? && current.block.TextBlock?
    ensures LastIsOpen(Emit(st, d))
    ensures var cs := Assemble(Sent(st));
      Assemble(Sent(Emit(st, d))) ==
      if current.In? && cs != [] && Fits(cs[|cs| - 1].block, d)
      then cs[|cs| - 1 := Content(cs[|cs| - 1].block, cs[|cs| - 1].pieces + [d.text])] else cs
  {
    EmitConsistent(st, current, d);
    SentSnoc(st, Emit(st, d), BlockDelta(st.index, d));
    AssembleSnoc(Sent(st), BlockDelta(st.index, d));
  }

  lemma SameAssembles(st: State, r: State)
    requires LastIsOpen(st) && r == st.(tools := r.tools)
    ensures LastIsOpen(r) && Sent(r) == Sent(st)
  {
  }

  lemma {:induction false} AnchorHasCall(ops: seq<Op>)
    ensures Anchor(ops) != [] && Anchor(ops)[0].Tool? ==> HasCall(ops)
  {
    if ops != [] {
      AnchorHasCall(ops[..|ops| - 1]);
    }
  }

  lemma OpensLast(ops: seq<Op>, st: State, op: Op)
    requires Tracks(ops, st)
    ensures Opens(ops + [op], |ops|) ==
      match op
      case Say(_) => !st.open || st.tools != map[]
      case Tool(d) => d.id != ""
      case Stop(_) => false
    ensures st.open <==> Anchor(ops) != [] && !Anchor(ops)[0].Stop?
    ensures Consistent(st, OpenBlock(Sent(st)))
    ensures st.open <==> OpenBlock(Sent(st)).In?
    ensures op.Say? && st.open && st.tools == map[] ==> OpenBlock(Sent(st)).block.TextBlock?
  {
    assert (ops + [op])[..|ops|] == ops;
    AnchorHasCall(ops);
  }

  lemma TextAssembles(ops: seq<Op>, st: State, op: Op)
    requires Tracks(ops, st) && LastIsOpen(st) && op.Say? && op.text != ""
    ensures LastIsOpen(Step(st, op))
    ensures Assemble(Sent(Step(st, op))) == Extend(Assemble(Sent(st)), op, Opens(ops + [op], |ops|), st.open)
  {
    hide Tracks, Consistent, Opens, Assemble, OpenBlock, LastIsOpen;
    var current := OpenBlock(Sent(st));
    OpensLast(ops, st, op);
    LastKind(st);
    if !st.open || st.tools != map[] {
      var st1 := Open(st, TextBlock);
      OpenAssembles(st, current, TextBlock);
      EmitAssembles(st1, In(st1.index, TextBlock), TextPiece(op.text));
      ReplaceLast(Assemble(Sent(st)), TextBlock, op.text);
    } else {
      EmitAssembles(st, current, TextPiece(op.text));
    }
  }

  lemma ReplaceLast(cs: seq<Content>, b: Block, piece: string)
    ensures (cs + [Content(b, [])])[|cs| := Content(b, [] + [piece])] == cs + [Content(b, [piece])]
  {
    assert [] + [piece] == [piece];
  }

  lemma LastKind(st: State)
    requires LastIsOpen(st)
    ensures var cs, current := Assemble(Sent(st)), OpenBlock(Sent(st));
      current.In? ==> cs != [] && cs[|cs| - 1].block == current.block
  {
  }

  lemma ToolAssembles(ops: seq<Op>, st: State, op: Op)
    requires Tracks(ops, st) && LastIsOpen(st) && op.Tool?
    ensures LastIsOpen(Step(st, op))
    ensures Assemble(Sent(Step(st, op))) == Extend(Assemble(Sent(st)), op, Opens(ops + [op], |ops|), st.open)
  {
    hide Tracks, Consistent, Opens, Assemble, OpenBlock, LastIsOpen, Sent;
    var d := op.d;
    var current := OpenBlock(Sent(st));
    OpensLast(ops, st, op);
    LastKind(st);
    var st1 := OnId(st, d);
    var current1 := if d.id == "" then current else In(st1.index, ToolUse(d.id, d.name));
    if d.id != "" {
      OpenAssembles(st, current, ToolUse(d.id, d.name));
      SameTrace(Open(st, ToolUse(d.id, d.name)), st1, current1);
      SameAssembles(Open(st, ToolUse(d.id, d.name)), st1);
    }
    if d.arguments != "" {
      var st2 := st1.(tools := Step(st, op).tools);
      SameTrace(st1, st2, current1);
      SameAssembles(st1, st2);
      EmitAssembles(st2, current1, JsonPiece(d.arguments));
      ReplaceLast(Assemble(Sent(st)), ToolUse(d.id, d.name), d.arguments);
    }
  }

  lemma StopAssembles(ops: seq<Op>, st: State, op: Op)
    requires Tracks(ops, st) && LastIsOpen(st) && op.Stop?
    ensures LastIsOpen(Step(st, op))
    ensures Assemble(Sent(Step(st, op))) == Extend(Assemble(Sent(st)), op, Opens(ops + [op], |ops|), st.open)
  {
    var current := OpenBlock(Sent(st));
    var st1 := Close(st);
    CloseConsistent(st, current);
    CloseAssembles(st, current);
    DeltaConsistent(st1, StopReason(op.reason));
    SentSnoc(st1, Step(st, op), MessageDelta(StopReason(op.reason)));
    AssembleSnoc(Sent(st1), MessageDelta(StopReason(op.reason)));
  }

  lemma {:induction false} ReachAssembles(ops: seq<Op>)
    requires Parsed(ops)
    ensures LastIsOpen(Reach(ops)) && Assemble(Sent(Reach(ops))) == Denote(ops)
  {
    if ops == [] {
      InitAssembles();
    } else {
      hide Tracks, Step, LastIsOpen, Denote, Assemble, Opens, Extend, OpenBlock;
      var front, op := ops[..|ops| - 1], ops[|ops| - 1];
      var st := Reach(front);
      ReachAssembles(front);
      ReachTracks(front);
      assert front + [op] == ops;
      DenoteSnoc(front, op);
      OpensLast(front, st, op);
      match op {
        case Say(text) => TextAssembles(front, st, op);
        case Tool(d) => ToolAssembles(front, st, op);
        case Stop(reason) => StopAssembles(front, st, op);
      }
    }
  }

  lemma InitAssembles()
    ensures LastIsOpen(Init) && Assemble(Sent(Init)) == Denote([])
  {
    AssembleSnoc([MessageStart], Ping);
    AssembleSnoc([], MessageStart);
    assert [] + [MessageStart] == [MessageStart] && [MessageStart] + [Ping] == Sent(Init);
  }

  /** The client ends up with one block per opening, holding the fragments up to the next opening or finish; nothing is
      lost, duplicated or reordered between blocks. */
  lemma AssembledContent(chunks: seq<Chunk>)
    ensures Assemble(Events(chunks)) == Denote(Ops(chunks))
  {
    if chunks != [] {
      OpsParsed(chunks);
      ReachAssembles(Ops(chunks));
    }
  }

  // ----- Tool arguments -----

  /** Every argument delta directly follows the id delta of its own tool, with no other block change in between. */
  ghost predicate Serial(ops: seq<Op>) {
    forall n | 0 <= n < |ops| && ops[n].Tool? && ops[n].d.arguments != "" :: OwnBlock(ops, n)
  }

  predicate OwnBlock(ops: seq<Op>, n: nat)
    requires n < |ops| && ops[n].Tool?
  {
    var anchor := Anchor(ops[..n + 1]);
    anchor != [] && anchor[0].Tool? && anchor[0].d.index == ops[n].d.index
  }

  /** The argument fragments of tool index `x` from position `n` up to its next id delta, wherever they stand. */
  function Arguments(ops: seq<Op>, n: nat, x: int): seq<string>
    requires n <= |ops|
    decreases |ops| - n
  {
    if n == |ops| then []
    else if !ops[n].Tool? || ops[n].d.index != x then Arguments(ops, n + 1, x)
    else if ops[n].d.id != "" then []
    else if ops[n].d.arguments != "" then [ops[n].d.arguments] + Arguments(ops, n + 1, x)
    else Arguments(ops, n + 1, x)
  }

  lemma AnchorSnoc(ops: seq<Op>, n: nat)
    requires n < |ops|
    ensures Anchor(ops[..n + 1]) == if ops[n].Tool? && ops[n].d.id == "" then Anchor(ops[..n]) else [ops[n]]
  {
    assert ops[..n + 1][..n] == ops[..n];
  }

  predicate AnchoredTo(ops: seq<Op>, n: nat, x: int)
    requires n <= |ops|
  {
    var anchor := Anchor(ops[..n]);
    anchor != [] && anchor[0].Tool? && anchor[0].d.index == x
  }

  lemma {:induction false} NoMoreArguments(ops: seq<Op>, n: nat, x: int)
    requires Serial(ops) && n <= |ops| && !AnchoredTo(ops, n, x)
    ensures Arguments(ops, n, x) == []
    decreases |ops| - n
  {
    if n < |ops| && !(ops[n].Tool? && ops[n].d.index == x && ops[n].d.id != "") {
      AnchorSnoc(ops, n);
      assert ops[n].Tool? && ops[n].d.arguments != "" ==> OwnBlock(ops, n);
      NoMoreArguments(ops, n + 1, x);
    }
  }

  lemma {:induction false} SegmentIsArguments(ops: seq<Op>, n: nat, x: int)
    requires Serial(ops) && n <= |ops| && AnchoredTo(ops, n, x)
    ensures Pieces(ops, n, true) == Arguments(ops, n, x)
    decreases |ops| - n
  {
    if n < |ops| {
      AnchorSnoc(ops, n);
      assert ops[n].Tool? && ops[n].d.arguments != "" ==> OwnBlock(ops, n);
      AnchorHasCall(ops[..n]);
      if ops[n].Stop? || Opens(ops, n) {
        if !(ops[n].Tool? && ops[n].d.index == x) {
          NoMoreArguments(ops, n + 1, x);
        }
      } else {
        SegmentIsArguments(ops, n + 1, x);
      }
    }
  }

  /** If argument deltas follow the id delta of their tool, each call is reassembled whole in its own block. */
  lemma SerialCallsReassemble(ops: seq<Op>, k: nat)
    requires Serial(ops) && k < |Openings(ops)|
    requires Openings(ops)[k] < |ops| && ops[Openings(ops)[k]].Tool?
    ensures var d := ops[Openings(ops)[k]].d;
      && Denote(ops)[k].block == ToolUse(d.id, d.name)
      && Denote(ops)[k].pieces == (if d.arguments == "" then [] else [d.arguments]) + Arguments(ops, Openings(ops)[k] + 1, d.index)
  {
    var j := Openings(ops)[k];
    assert j in Openings(ops);
    AnchorSnoc(ops, j);
    SegmentIsArguments(ops, j + 1, ops[j].d.index);
  }

  // ----- Stop reasons -----

  /** The stop reasons of a trace, in order. */
  function Reasons(es: seq<Event>): seq<string> {
    if es == [] then []
    else
      var before, e := Reasons(es[..|es| - 1]), es[|es| - 1];
      if e.MessageDelta? then before + [e.stopReason] else before
  }

  /** The finish reasons of a stream, in Anthropic's words. */
  function Finishes(ops: seq<Op>): seq<string> {
    if ops == [] then []
    else
      var before, op := Finishes(ops[..|ops| - 1]), ops[|ops| - 1];
      if !op.Stop? then before
      else before + [if op.reason == "length" then "max_tokens" else if op.reason == "tool_calls" then "tool_use" else "end_turn"]
  }

  lemma ReasonsSnoc(es: seq<Event>, e: Event)
    ensures Reasons(es + [e]) == if e.MessageDelta? then Reasons(es) + [e.stopReason] else Reasons(es)
  {
    assert (es + [e])[..|es|] == es;
  }

  lemma CloseReasons(st: State)
    ensures Reasons(Close(st).trace) == Reasons(st.trace)
  {
    ReasonsSnoc(st.trace, BlockStop(st.index));
  }

  lemma OpenReasons(st: State, b: Block)
    ensures Reasons(Open(st, b).trace) == Reasons(st.trace)
  {
    CloseReasons(st);
    ReasonsSnoc(Close(st).trace, BlockStart(Close(st).index, b));
  }

  lemma StepReasons(st: State, ops: seq<Op>, op: Op)
    requires Reasons(st.trace) == Finishes(ops)
    ensures Reasons(Step(st, op).trace) == Finishes(ops + [op])
  {
    hide Reasons, Close, Open;
    assert (ops + [op])[..|ops|] == ops;
    match op
    case Say(text) =>
      var st1 := if !st.open || st.tools != map[] then Open(st, TextBlock) else st;
      OpenReasons(st, TextBlock);
      ReasonsSnoc(st1.trace, BlockDelta(st1.index, TextPiece(text)));
    case Tool(d) =>
      var st1 := OnId(st, d);
      OpenReasons(st, ToolUse(d.id, d.name));
      ReasonsSnoc(st1.trace, BlockDelta(st1.index, JsonPiece(d.arguments)));
    case Stop(reason) =>
      CloseReasons(st);
      ReasonsSnoc(Close(st).trace, MessageDelta(StopReason(reason)));
  }

  lemma {:induction false} ReachReasons(ops: seq<Op>)
    ensures Reasons(Reach(ops).trace) == Finishes(ops)
  {
    if ops != [] {
      hide Step, Reasons, Finishes;
      var front, op := ops[..|ops| - 1], ops[|ops| - 1];
      assert front + [op] == ops;
      ReachReasons(front);
      StepReasons(Reach(front), front, op);
    }
  }

  lemma {:induction false} ReasonsConcat(a: seq<Event>, b: seq<Event>)
    ensures Reasons(a + b) == Reasons(a) + Reasons(b)
  {
    if b == [] {
      assert a + b == a;
    } else {
      assert (a + b)[..|a + b| - 1] == a + b[..|b| - 1];
      ReasonsConcat(a, b[..|b| - 1]);
    }
  }

  /** The client is told every finish reason of the stream, in order: reached limits, tool use, and the end of the turn for all
      others. */
  lemma FinishesReported(chunks: seq<Chunk>)
    ensures Reasons(Events(chunks)) == Finishes(Ops(chunks))
  {
    if chunks != [] {
      ReachReasons(Ops(chunks));
      ReasonsConcat([MessageStart, Ping], Reach(Ops(chunks)).trace);
      ReasonsSnoc([], MessageStart);
      ReasonsSnoc([MessageStart], Ping);
      assert [] + [MessageStart] == [MessageStart] && [MessageStart] + [Ping] == [MessageStart, Ping];
    }
  }
}
