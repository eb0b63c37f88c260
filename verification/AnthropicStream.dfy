/**
 The translation of a chat-completions stream into Anthropic stream events: the machine, the bracketing of its content
 blocks, and what a client assembles from them. Class `AnthropicTranslator` is proved to compute `Events`.
 */
module AnthropicStream {
  import opened Text
  import ChatStream

  type ToolDelta = ChatStream.ToolDelta

  /** One choice of a parsed chunk. An absent delta reads like an empty one; an absent tool index reads as 0. */
  datatype Choice = Choice(content: string, tools: seq<ToolDelta>, finish: Finish)

  datatype Finish = Going | Done(reason: string)

  type Chunk = seq<Choice>

  datatype Op = Say(text: string) | Tool(d: ToolDelta) | Stop(reason: string)

  datatype Block = TextBlock | ToolUse(id: string, name: string)

  datatype Delta = TextPiece(text: string) | JsonPiece(text: string)

  datatype Event =
    | MessageStart
    | Ping
    | BlockStart(index: nat, block: Block)
    | BlockDelta(index: nat, delta: Delta)
    | BlockStop(index: nat)
    | MessageDelta(stopReason: string)

  function ToolOps(tools: seq<ToolDelta>): seq<Op> {
    seq(|tools|, i requires 0 <= i < |tools| => Tool(tools[i]))
  }

  function ChoiceOps(c: Choice): seq<Op> {
    (if c.content == "" then [] else [Say(c.content)]) + ToolOps(c.tools) +
    (if c.finish.Done? then [Stop(c.finish.reason)] else [])
  }

  function ChunkOps(c: Chunk): seq<Op> {
    if c == [] then [] else ChunkOps(c[..|c| - 1]) + ChoiceOps(c[|c| - 1])
  }

  function Ops(chunks: seq<Chunk>): seq<Op> {
    if chunks == [] then [] else Ops(chunks[..|chunks| - 1]) + ChunkOps(chunks[|chunks| - 1])
  }

  function StopReason(reason: string): string {
    if reason == "length" then "max_tokens" else if reason == "tool_calls" then "tool_use" else "end_turn"
  }

  // ----- The machine -----

  datatype ToolCall = ToolCall(id: string, name: string, arguments: string)

  /** `trace` holds the events after the message start and the ping. */
  datatype State = State(index: nat, open: bool, tools: map<int, ToolCall>, trace: seq<Event>)

  const Init := State(0, false, map[], [])

  function Close(st: State): State {
    if st.open then st.(index := st.index + 1, open := false, trace := st.trace + [BlockStop(st.index)]) else st
  }

  function Open(st: State, b: Block): State {
    var st1 := Close(st);
    st1.(open := true, trace := st1.trace + [BlockStart(st1.index, b)])
  }

  function Emit(st: State, d: Delta): State {
    st.(trace := st.trace + [BlockDelta(st.index, d)])
  }

  /** The tool map is never emptied: after the first call every content delta opens a block of its own. */
  function OnText(st: State, text: string): State {
    Emit(if !st.open || st.tools != map[] then Open(st, TextBlock) else st, TextPiece(text))
  }

  function OnId(st: State, d: ToolDelta): State {
    if d.id == "" then st else Open(st, ToolUse(d.id, d.name)).(tools := st.tools[d.index := ToolCall(d.id, d.name, "")])
  }

  /** Argument deltas go to whatever block has the current index, open or not. */
  function OnArguments(st: State, d: ToolDelta): State {
    if d.arguments == "" then st
    else
      var tools := if d.index in st.tools
        then st.tools[d.index := st.tools[d.index].(arguments := st.tools[d.index].arguments + d.arguments)]
        else st.tools;
      Emit(st.(tools := tools), JsonPiece(d.arguments))
  }

  function OnStop(st: State, reason: string): State {
    var st1 := Close(st);
    st1.(trace := st1.trace + [MessageDelta(StopReason(reason))])
  }

  function Step(st: State, op: Op): State {
    match op
    case Say(text) => OnText(st, text)
    case Tool(d) => OnArguments(OnId(st, d), d)
    case Stop(reason) => OnStop(st, reason)
  }

  function StepAll(st: State, ops: seq<Op>): State {
    if ops == [] then st else Step(StepAll(st, ops[..|ops| - 1]), ops[|ops| - 1])
  }

  function Reach(ops: seq<Op>): State {
    StepAll(Init, ops)
  }

  lemma {:induction false} StepAllConcat(st: State, a: seq<Op>, b: seq<Op>)
    ensures StepAll(st, a + b) == StepAll(StepAll(st, a), b)
  {
    if b == [] {
      assert a + b == a;
    } else {
      assert (a + b)[..|a + b| - 1] == a + b[..|b| - 1];
      StepAllConcat(st, a, b[..|b| - 1]);
    }
  }

  function Events(chunks: seq<Chunk>): seq<Event> {
    if chunks == [] then [] else [MessageStart, Ping] + Reach(Ops(chunks)).trace
  }

  // ----- Bracketing -----

  datatype Current = Nowhere | In(index: nat, block: Block)

  /** The block that was started last and has not been stopped. */
  function OpenBlock(es: seq<Event>): Current {
    if es == [] then Nowhere
    else
      var before := OpenBlock(es[..|es| - 1]);
      match es[|es| - 1]
      case BlockStart(i, b) => In(i, b)
      case BlockStop(_) => Nowhere
      case _ => before
  }

  /** How many blocks have been started. */
  function Starts(es: seq<Event>): nat {
    if es == [] then 0 else Starts(es[..|es| - 1]) + (if es[|es| - 1].BlockStart? then 1 else 0)
  }

  /** Whether `e` may follow `before`: one message start first, blocks numbered 0, 1, 2, ... and opened one at a time,
      text in an open text block. Argument deltas carry the current or next index but may find no block open. */
  ghost predicate Allowed(before: seq<Event>, e: Event) {
    match e
    case MessageStart => before == []
    case Ping => before == [MessageStart]
    case BlockStart(i, _) => before != [] && OpenBlock(before) == Nowhere && i == Starts(before)
    case BlockStop(i) => OpenBlock(before).In? && OpenBlock(before).index == i
    case BlockDelta(i, TextPiece(text)) => OpenBlock(before) == In(i, TextBlock) && text != ""
    case BlockDelta(i, JsonPiece(text)) =>
      text != "" && if OpenBlock(before).In? then OpenBlock(before).index == i else before != [] && Starts(before) == i
    case MessageDelta(_) => before != [] && OpenBlock(before) == Nowhere
  }

  ghost predicate Bracketed(es: seq<Event>) {
    forall n | 0 <= n < |es| :: Allowed(es[..n], es[n])
  }

  lemma BracketedSnoc(es: seq<Event>, e: Event)
    requires Bracketed(es) && Allowed(es, e)
    ensures Bracketed(es + [e])
    ensures OpenBlock(es + [e]) == (match e case BlockStart(i, b) => In(i, b) case BlockStop(_) => Nowhere case _ => OpenBlock(es))
    ensures Starts(es + [e]) == Starts(es) + (if e.BlockStart? then 1 else 0)
  {
    hide Allowed;
    var r := es + [e];
    assert r[..|es|] == es;
    forall n | 0 <= n < |r|
      ensures Allowed(r[..n], r[n])
    {
      if n < |es| {
        assert r[..n] == es[..n] && Allowed(es[..n], es[n]);
      }
    }
  }

  ghost function Sent(st: State): seq<Event> {
    [MessageStart, Ping] + st.trace
  }

  /** The block the machine is in after its events. */
  ghost predicate Consistent(st: State, current: Current) {
    && Bracketed(Sent(st)) && OpenBlock(Sent(st)) == current
    && (st.open <==> current.In?) && (st.open ==> current.index == st.index)
    && Starts(Sent(st)) == st.index + (if st.open then 1 else 0)
  }

  lemma SentSnoc(st: State, r: State, e: Event)
    requires r.trace == st.trace + [e]
    ensures Sent(r) == Sent(st) + [e] && Sent(st) != []
  {
  }

  lemma CloseConsistent(st: State, current: Current)
    requires Consistent(st, current)
    ensures Consistent(Close(st), Nowhere)
  {
    if st.open {
      SentSnoc(st, Close(st), BlockStop(st.index));
      BracketedSnoc(Sent(st), BlockStop(st.index));
    }
  }

  lemma OpenConsistent(st: State, current: Current, b: Block)
    requires Consistent(st, current)
    ensures Consistent(Open(st, b), In(Open(st, b).index, b))
  {
    var st1 := Close(st);
    CloseConsistent(st, current);
    SentSnoc(st1, Open(st, b), BlockStart(st1.index, b));
    BracketedSnoc(Sent(st1), BlockStart(st1.index, b));
  }

  lemma EmitConsistent(st: State, current: Current, d: Delta)
    requires Consistent(st, current) && d.text != ""
    requires d.TextPiece? ==> current.In? && current.block.TextBlock?
    ensures Consistent(Emit(st, d), current)
  {
    SentSnoc(st, Emit(st, d), BlockDelta(st.index, d));
    BracketedSnoc(Sent(st), BlockDelta(st.index, d));
  }

  lemma SameTrace(st: State, r: State, current: Current)
    requires Consistent(st, current) && r == st.(tools := r.tools)
    ensures Consistent(r, current)
  {
  }

  /** The last operation that opens or closes a block: content, a finish reason, or a tool delta with an id. */
  function Anchor(ops: seq<Op>): (r: seq<Op>)
    ensures |r| <= 1
  {
    if ops == [] then []
    else
      var last := ops[|ops| - 1];
      if last.Tool? && last.d.id == "" then Anchor(ops[..|ops| - 1]) else [last]
  }

  predicate HasCall(ops: seq<Op>) {
    exists op :: op in ops && op.Tool? && op.d.id != ""
  }

  /** The open block is the one its anchor opened. */
  predicate AnchoredBlock(ops: seq<Op>, current: Current) {
    if Anchor(ops) == [] then current.Nowhere?
    else match Anchor(ops)[0]
      case Say(_) => current.In? && current.block.TextBlock?
      case Tool(d) => current.In? && current.block == ToolUse(d.id, d.name)
      case Stop(_) => current.Nowhere?
  }

  ghost predicate Tracks(ops: seq<Op>, st: State) {
    && Consistent(st, OpenBlock(Sent(st)))
    && AnchoredBlock(ops, OpenBlock(Sent(st)))
    && (st.tools != map[] <==> HasCall(ops))
    && (HasCall(ops) || !OpenBlock(Sent(st)).In? || OpenBlock(Sent(st)).block.TextBlock?)
  }

  /** Operations as the parser makes them: content deltas are not empty. */
  predicate Parsed(ops: seq<Op>) {
    forall op | op in ops && op.Say? :: op.text != ""
  }

  lemma StepTracks(ops: seq<Op>, st: State, op: Op)
    requires Tracks(ops, st) && (op.Say? ==> op.text != "")
    ensures Tracks(ops + [op], Step(st, op))
  {
    hide Consistent;
    var current := OpenBlock(Sent(st));
    assert (ops + [op])[..|ops|] == ops;
    assert HasCall(ops + [op]) <==> HasCall(ops) || (op.Tool? && op.d.id != "") by {
      assert forall x :: x in ops + [op] <==> x in ops || x == op;
    }
    match op
    case Say(text) =>
      if !st.open || st.tools != map[] {
        var st1 := Open(st, TextBlock);
        OpenConsistent(st, current, TextBlock);
        EmitConsistent(st1, In(st1.index, TextBlock), TextPiece(text));
        Located(Step(st, op), In(st1.index, TextBlock));
      } else {
        Located(st, current);
        EmitConsistent(st, current, TextPiece(text));
        Located(Step(st, op), current);
      }
      Located(Step(st, op), OpenBlock(Sent(Step(st, op))));
    case Tool(d) =>
      var st1 := OnId(st, d);
      var current1 := if d.id == "" then current else In(st1.index, ToolUse(d.id, d.name));
      if d.id != "" {
        OpenConsistent(st, current, ToolUse(d.id, d.name));
        SameTrace(Open(st, ToolUse(d.id, d.name)), st1, current1);
      }
      var st2 := Step(st, op);
      if d.arguments != "" {
        SameTrace(st1, st1.(tools := st2.tools), current1);
        EmitConsistent(st1.(tools := st2.tools), current1, JsonPiece(d.arguments));
      }
      Located(st2, current1);
      Located(st, current);
      assert d.id != "" ==> d.index in st2.tools;
      assert d.id == "" ==> st2.tools.Keys == st.tools.Keys;
      assert Anchor(ops + [op]) == if d.id == "" then Anchor(ops) else [op];
    case Stop(reason) =>
      var st1 := Close(st);
      CloseConsistent(st, current);
      DeltaConsistent(st1, StopReason(reason));
      Located(Step(st, op), Nowhere);
  }

  lemma Located(st: State, current: Current)
    requires Consistent(st, current)
    ensures OpenBlock(Sent(st)) == current && (st.open <==> current.In?)
  {
  }

  lemma DeltaConsistent(st: State, stopReason: string)
    requires Consistent(st, Nowhere)
    ensures Consistent(st.(trace := st.trace + [MessageDelta(stopReason)]), Nowhere)
  {
    SentSnoc(st, st.(trace := st.trace + [MessageDelta(stopReason)]), MessageDelta(stopReason));
    BracketedSnoc(Sent(st), MessageDelta(stopReason));
  }

  lemma {:induction false} ReachTracks(ops: seq<Op>)
    requires Parsed(ops)
    ensures Tracks(ops, Reach(ops))
  {
    if ops == [] {
      InitTracks();
    } else {
      hide Tracks, Step;
      var front := ops[..|ops| - 1];
      ReachTracks(front);
      StepTracks(front, Reach(front), ops[|ops| - 1]);
      assert front + [ops[|ops| - 1]] == ops;
    }
  }

  lemma InitTracks()
    ensures Tracks([], Init)
  {
    BracketedSnoc([], MessageStart);
    assert [] + [MessageStart] == [MessageStart];
    BracketedSnoc([MessageStart], Ping);
    assert [MessageStart] + [Ping] == Sent(Init);
  }

  lemma {:induction false} ChunkOpsParsed(c: Chunk)
    ensures Parsed(ChunkOps(c))
  {
    if c != [] {
      ChunkOpsParsed(c[..|c| - 1]);
    }
  }

  lemma {:induction false} OpsParsed(chunks: seq<Chunk>)
    ensures Parsed(Ops(chunks))
  {
    if chunks != [] {
      OpsParsed(chunks[..|chunks| - 1]);
      ChunkOpsParsed(chunks[|chunks| - 1]);
    }
  }

  /** Content blocks are strictly bracketed, numbered without gaps and open one at a time; the message start comes first
      and once; text only ever goes to an open text block. */
  lemma EventsBracketed(chunks: seq<Chunk>)
    ensures Bracketed(Events(chunks))
  {
    if chunks != [] {
      OpsParsed(chunks);
      ReachTracks(Ops(chunks));
    }
  }

  /** An argument delta lies in an open tool block exactly if the last operation that opened or closed a block is a tool delta
      with an id, and then in the block that this delta opened, whatever the two tool indices are. */
  lemma ArgumentPlacement(ops: seq<Op>, d: ToolDelta)
    requires Parsed(ops) && d.arguments != ""
    ensures var es, op := Sent(Reach(ops + [Tool(d)])), Anchor(ops + [Tool(d)]);
      && es[|es| - 1].BlockDelta? && es[|es| - 1].delta == JsonPiece(d.arguments)
      && (OpenBlock(es).In? ==> OpenBlock(es).index == es[|es| - 1].index)
      && (OpenBlock(es).In? && OpenBlock(es).block.ToolUse? <==> op != [] && op[0].Tool?)
      && (op != [] && op[0].Tool? ==> OpenBlock(es).block == ToolUse(op[0].d.id, op[0].d.name))
  {
    ReachTracks(ops + [Tool(d)]);
    assert (ops + [Tool(d)])[..|ops|] == ops;
  }

  // ----- What a client assembles -----

  datatype Content = Content(block: Block, pieces: seq<string>)

  predicate Fits(b: Block, d: Delta) {
    b.TextBlock? <==> d.TextPiece?
  }

  /** Content blocks as a client builds them: deltas extend the open block if they are of its kind. */
  function Assemble(es: seq<Event>): (r: seq<Content>)
    ensures |r| == Starts(es)
  {
    if es == [] then []
    else
      var front, e := es[..|es| - 1], es[|es| - 1];
      var before := Assemble(front);
      match e
      case BlockStart(_, b) => before + [Content(b, [])]
      case BlockDelta(i, d) =>
        if OpenBlock(front).In? && i < |before| && Fits(before[i].block, d)
        then before[i := Content(before[i].block, before[i].pieces + [d.text])] else before
      case _ => before
  }

  /** Position `j` opens a block. */
  predicate Opens(ops: seq<Op>, j: nat)
    requires j < |ops|
  {
    match ops[j]
    case Say(_) => HasCall(ops[..j]) || Anchor(ops[..j]) == [] || !Anchor(ops[..j])[0].Say?
    case Tool(d) => d.id != ""
    case Stop(_) => false
  }

  function Piece(op: Op, tool: bool): string {
    match op
    case Say(text) => if tool then "" else text
    case Tool(d) => if tool then d.arguments else ""
    case Stop(_) => ""
  }

  /** The fragments of one kind from position `n` up to the next opening or finish. */
  function Pieces(ops: seq<Op>, n: nat, tool: bool): seq<string>
    requires n <= |ops|
    decreases |ops| - n
  {
    if n == |ops| || ops[n].Stop? || Opens(ops, n) then []
    else if Piece(ops[n], tool) != "" then [Piece(ops[n], tool)] + Pieces(ops, n + 1, tool)
    else Pieces(ops, n + 1, tool)
  }

  /** The block opened at `j`, with its own fragment and those that follow. */
  function ContentAt(ops: seq<Op>, j: nat): Content
    requires j < |ops| && Opens(ops, j)
  {
    var block := if ops[j].Tool? then ToolUse(ops[j].d.id, ops[j].d.name) else TextBlock;
    var first := Piece(ops[j], block.ToolUse?);
    Content(block, (if first == "" then [] else [first]) + Pieces(ops, j + 1, block.ToolUse?))
  }

  function Openings(ops: seq<Op>): (r: seq<nat>)
    ensures forall x | x in r :: x < |ops| && Opens(ops, x)
  {
    if ops == [] then []
    else
      var n := |ops| - 1;
      var before := Openings(ops[..n]);
      assert forall x | x in before :: ops[..n][..x] == ops[..x];
      if Opens(ops, n) then before + [n] else before
  }

  function Denote(ops: seq<Op>): (r: seq<Content>)
    ensures |r| == |Openings(ops)|
  {
    var js := Openings(ops);
    seq(|js|, k requires 0 <= k < |js| => assert js[k] in js; ContentAt(ops, js[k]))
  }
}
