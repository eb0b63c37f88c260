/**
 The two ways from a chat-completions stream to a Responses stream: directly, and through Anthropic events. Every
 translated stream is well-formed. The items are the same exactly for lockstep streams, and the status exactly if no empty
 finish reason makes the detour forget that the limit was reached.
 */
module ReaderAgreement {
  import opened Options
  import opened Text
  import opened ResponsesEvents
  import Chat = ChatStream
  import Anthropic = AnthropicStream
  import AnthropicContent
  import Msg = MessagesStream
  import MessagesIndices
  import MessagesGrammar
  import MessagesMeaning
  import opened ReaderLockstep
  import SerialStreams

  // ----- Anthropic events as the messages translator parses them -----

  function Parse(e: Anthropic.Event): Msg.MsgEvent {
    match e
    case MessageStart => Msg.MessageStart
    case Ping => Msg.Ignored
    case BlockStart(i, TextBlock) => Msg.BlockStart(i, Msg.TextBlock(""))
    case BlockStart(i, ToolUse(_, name)) => Msg.BlockStart(i, Msg.ToolBlock(name, ""))
    case BlockDelta(i, TextPiece(text)) => Msg.BlockDelta(i, Msg.TextPiece(text))
    case BlockDelta(i, JsonPiece(text)) => Msg.BlockDelta(i, Msg.JsonPiece(text))
    case BlockStop(i) => Msg.BlockStop(i)
    case MessageDelta(reason) => Msg.MessageDelta(reason)
  }

  /** The stream's closing message-stop event is one the reader ignores. */
  function ParseAll(es: seq<Anthropic.Event>): seq<Msg.MsgEvent> {
    seq(|es|, i requires 0 <= i < |es| => Parse(es[i]))
  }

  lemma ParseSnoc(es: seq<Anthropic.Event>)
    requires es != []
    ensures ParseAll(es) != [] && ParseAll(es)[|ParseAll(es)| - 1] == Parse(es[|es| - 1])
    ensures ParseAll(es)[..|ParseAll(es)| - 1] == ParseAll(es[..|es| - 1])
  {
  }

  lemma BracketedPrefix(es: seq<Anthropic.Event>, n: nat)
    requires Anthropic.Bracketed(es) && n <= |es|
    ensures Anthropic.Bracketed(es[..n])
  {
    forall m | 0 <= m < n
      ensures Anthropic.Allowed(es[..n][..m], es[..n][m])
    {
      assert es[..n][..m] == es[..m];
    }
  }

  /** Bracketed events never have more than the current block open. */
  lemma {:induction false} OpenItem(es: seq<Anthropic.Event>)
    requires Anthropic.Bracketed(es)
    ensures MessagesIndices.OpenItems(ParseAll(es)) ==
      if Anthropic.OpenBlock(es).In? then {Anthropic.OpenBlock(es).index as int} else {}
  {
    if es != [] {
      var n := |es| - 1;
      BracketedPrefix(es, n);
      OpenItem(es[..n]);
      ParseSnoc(es);
      assert Anthropic.Allowed(es[..n], es[n]);
    }
  }

  /** Bracketed events start every block while none is open, so they have no index conflict. */
  lemma BracketedIsConflictFree(es: seq<Anthropic.Event>)
    requires Anthropic.Bracketed(es)
    ensures MessagesIndices.ConflictFree(ParseAll(es))
  {
    forall n | 0 <= n < |es|
      ensures !MessagesIndices.Conflict(ParseAll(es)[..n], ParseAll(es)[n])
    {
      BracketedPrefix(es, n);
      OpenItem(es[..n]);
      assert ParseAll(es)[..n] == ParseAll(es[..n]);
      assert Anthropic.Allowed(es[..n], es[n]);
    }
  }

  /** Through Anthropic events every chat stream, however irregular, becomes a well-formed Responses stream. */
  lemma ThroughAnthropicGrammar(responseId: string, chunks: seq<Anthropic.Chunk>)
    ensures StreamGrammar(Msg.Translate(responseId, ParseAll(Anthropic.Events(chunks)), Chat.Clean), responseId)
  {
    hide *;
    var events := ParseAll(Anthropic.Events(chunks));
    Anthropic.EventsBracketed(chunks);
    BracketedIsConflictFree(Anthropic.Events(chunks));
    NoErrors(Anthropic.Events(chunks));
    MessagesMeaning.StreamGrammarIff(responseId, events, Chat.Clean);
  }

  lemma NoErrors(es: seq<Anthropic.Event>)
    ensures forall e | e in ParseAll(es) :: !e.Error?
  {
  }

  // ----- The messages reader gets what an Anthropic client assembles -----

  ghost predicate SlotHolds(s: Msg.Slot, c: Anthropic.Content, k: nat) {
    && s.block == k && s.tool == c.block.ToolUse? && s.pieces == c.pieces
    && (c.block.ToolUse? ==> s.name == c.block.name)
  }

  ghost predicate Holds(st: Msg.State, es: seq<Anthropic.Event>) {
    var cs := Anthropic.Assemble(es);
    && |st.slots| == |cs|
    && (forall k | 0 <= k < |cs| :: SlotHolds(st.slots[k], cs[k], k))
    && (forall i: int | i in st.blocks :: 0 <= i < |cs| && st.blocks[i] == Msg.Item(i))
    && (forall i: nat | i < |cs| :: i in st.blocks)
    && (forall k: nat | k < |cs| :: !st.slots[k].closed <==> (Anthropic.OpenBlock(es).In? && Anthropic.OpenBlock(es).index == k))
    && (Anthropic.OpenBlock(es).In? ==>
          && Anthropic.OpenBlock(es).index < |cs|
          && cs[Anthropic.OpenBlock(es).index].block == Anthropic.OpenBlock(es).block)
  }

  lemma StartHolds(responseId: string, st: Msg.State, es: seq<Anthropic.Event>, e: Anthropic.Event)
    requires Holds(st, es) && Anthropic.Allowed(es, e) && e.BlockStart?
    ensures Holds(Msg.Step(st, responseId, Parse(e)), es + [e])
  {
    hide Anthropic.Assemble;
    AnthropicContent.AssembleSnoc(es, e);
    assert (es + [e])[..|es|] == es;
    assert Msg.Seed(Parse(e).block) == [];
  }

  lemma DeltaHolds(responseId: string, st: Msg.State, es: seq<Anthropic.Event>, e: Anthropic.Event)
    requires Holds(st, es) && Anthropic.Allowed(es, e) && e.BlockDelta?
    ensures Holds(Msg.Step(st, responseId, Parse(e)), es + [e])
  {
    hide Anthropic.Assemble;
    AnthropicContent.AssembleSnoc(es, e);
    assert (es + [e])[..|es|] == es;
  }

  lemma OtherHolds(responseId: string, st: Msg.State, es: seq<Anthropic.Event>, e: Anthropic.Event)
    requires Holds(st, es) && Anthropic.Allowed(es, e) && !e.BlockStart? && !e.BlockDelta?
    ensures Holds(Msg.Step(st, responseId, Parse(e)), es + [e])
  {
    hide Anthropic.Assemble;
    AnthropicContent.AssembleSnoc(es, e);
    assert (es + [e])[..|es|] == es;
  }

  lemma StepHolds(responseId: string, st: Msg.State, es: seq<Anthropic.Event>, e: Anthropic.Event)
    requires Holds(st, es) && Anthropic.Allowed(es, e)
    ensures Holds(Msg.Step(st, responseId, Parse(e)), es + [e])
  {
    hide *;
    if e.BlockStart? {
      StartHolds(responseId, st, es, e);
    } else if e.BlockDelta? {
      DeltaHolds(responseId, st, es, e);
    } else {
      OtherHolds(responseId, st, es, e);
    }
  }

  lemma {:induction false} ReachHolds(responseId: string, es: seq<Anthropic.Event>)
    requires Anthropic.Bracketed(es)
    ensures Holds(Msg.Reach(responseId, ParseAll(es)), es)
  {
    if es != [] {
      var n := |es| - 1;
      BracketedPrefix(es, n);
      ReachHolds(responseId, es[..n]);
      ParseSnoc(es);
      assert Anthropic.Allowed(es[..n], es[n]);
      assert es[..n] + [es[n]] == es;
      StepHolds(responseId, Msg.Reach(responseId, ParseAll(es[..n])), es[..n], es[n]);
    }
  }

  // ----- The operations of a chat stream -----

  /** One decoded payload of a chat stream with a single choice. Its finish reason may be absent, empty or named. */
  datatype Chunk = Chunk(content: string, tools: seq<Chat.ToolDelta>, finish: Anthropic.Finish)

  /** The direct reader takes an empty finish reason for none. */
  function ToChat(chunks: seq<Chunk>): seq<Chat.Chunk> {
    seq(|chunks|, i requires 0 <= i < |chunks| => ToChatChunk(chunks[i]))
  }

  function ToChatChunk(c: Chunk): Chat.Chunk {
    Chat.Chunk(c.content, c.tools, if c.finish.Done? then c.finish.reason else "")
  }

  /** The Anthropic translator acts on every finish reason that is present. */
  function ToAnthropic(chunks: seq<Chunk>): seq<Anthropic.Chunk> {
    seq(|chunks|, i requires 0 <= i < |chunks| =>
      [Anthropic.Choice(chunks[i].content, chunks[i].tools, chunks[i].finish)])
  }

  function OpsOf(chunks: seq<Chunk>): seq<Anthropic.Op> {
    Anthropic.Ops(ToAnthropic(chunks))
  }

  /** What one chunk adds to the operations before it. */
  function Added(before: seq<Anthropic.Op>, c: Chunk): seq<Anthropic.Op> {
    var ops1 := if c.content == "" then before else before + [Anthropic.Say(c.content)];
    var ops2 := ops1 + Anthropic.ToolOps(c.tools);
    if c.finish.Done? then ops2 + [Anthropic.Stop(c.finish.reason)] else ops2
  }

  lemma MoreOps(chunks: seq<Chunk>)
    requires chunks != []
    ensures OpsOf(chunks) == Added(OpsOf(chunks[..|chunks| - 1]), chunks[|chunks| - 1])
  {
    hide Anthropic.ToolOps;
    var n := |chunks| - 1;
    assert ToAnthropic(chunks)[..n] == ToAnthropic(chunks[..n]);
    var choice := ToAnthropic(chunks)[n][0];
    assert [choice][..0] == [];
    assert Anthropic.ChunkOps([choice]) == Anthropic.ChoiceOps(choice);
  }

  // ----- The two final snapshots -----

  /** The same item up to identifiers; the detour turns blank arguments into an empty object. */
  predicate Same(a: Item, b: Item) {
    match a
    case Message(_, status, text) => b.Message? && b.status == status && b.text == text
    case FunctionCall(_, status, _, name, arguments) =>
      b.FunctionCall? && b.status == status && b.name == name && b.arguments == Msg.OrEmptyObject(arguments)
  }

  lemma {:induction false} ToolChatOps(before: seq<Anthropic.Op>, tools: seq<Chat.ToolDelta>)
    ensures ChatOps(before + Anthropic.ToolOps(tools)) == ChatOps(before) + Chat.ToolOps(tools)
  {
    if tools == [] {
      assert before + Anthropic.ToolOps(tools) == before;
    } else {
      var front := tools[..|tools| - 1];
      var all := before + Anthropic.ToolOps(tools);
      assert all[..|all| - 1] == before + Anthropic.ToolOps(front);
      ToolChatOps(before, front);
      assert Chat.ToolOps(tools) == Chat.ToolOps(front) + [Chat.Tool(tools[|front|])];
    }
  }

  lemma {:induction false} SameOps(chunks: seq<Chunk>)
    ensures ChatOps(OpsOf(chunks)) == Chat.Ops(ToChat(chunks))
  {
    hide *;
    if chunks == [] {
      NoOps();
    } else {
      var front, c := chunks[..|chunks| - 1], chunks[|chunks| - 1];
      SameOps(front);
      MoreOps(chunks);
      AddedChatOps(OpsOf(front), c);
      ToChatMore(chunks);
      ChatOpsMore(ToChat(chunks));
    }
  }

  lemma NoOps()
    ensures OpsOf([]) == [] && ChatOps([]) == [] && Chat.Ops(ToChat([])) == []
  {
    assert ToAnthropic([]) == [] && ToChat([]) == [];
  }

  lemma ToChatMore(chunks: seq<Chunk>)
    requires chunks != []
    ensures ToChat(chunks) != [] && ToChat(chunks)[..|ToChat(chunks)| - 1] == ToChat(chunks[..|chunks| - 1])
    ensures ToChat(chunks)[|ToChat(chunks)| - 1] == ToChatChunk(chunks[|chunks| - 1])
  {
  }

  lemma AddedChatOps(before: seq<Anthropic.Op>, c: Chunk)
    ensures ChatOps(Added(before, c)) == ChatOps(before) + Chat.ChunkOps(ToChatChunk(c))
  {
    hide ChatOps, Chat.ChunkOps, Chat.ToolOps, Anthropic.ToolOps;
    ChatOpsSnoc(before, Anthropic.Say(c.content));
    var ops1 := if c.content == "" then before else before + [Anthropic.Say(c.content)];
    ToolChatOps(ops1, c.tools);
    var ops2 := ops1 + Anthropic.ToolOps(c.tools);
    ChatOpsSnoc(ops2, Anthropic.Stop(if c.finish.Done? then c.finish.reason else ""));
    NothingAdded(ChatOps(ops2));
    Regroup(ChatOps(before), ToChatChunk(c));
  }

  lemma NothingAdded(ops: seq<Chat.Op>)
    ensures ops + [] == ops
  {
  }

  lemma Regroup(before: seq<Chat.Op>, c: Chat.Chunk)
    ensures before + Chat.ChunkOps(c) ==
      (if c.content == "" then before else before + [Chat.Content(c.content)]) + Chat.ToolOps(c.tools)
  {
    hide Chat.ToolOps;
  }

  lemma ChatOpsMore(chunks: seq<Chat.Chunk>)
    requires chunks != []
    ensures Chat.Ops(chunks) == Chat.Ops(chunks[..|chunks| - 1]) + Chat.ChunkOps(chunks[|chunks| - 1])
  {
  }

  ghost predicate DetourItem(item: Item, c: Anthropic.Content) {
    match c.block
    case TextBlock => item.Message? && item.status == Completed && item.text == Join(c.pieces)
    case ToolUse(_, name) =>
      item.FunctionCall? && item.status == Completed && item.name == name && item.arguments == Msg.OrEmptyObject(Join(c.pieces))
  }

  lemma DetourItems(responseId: string, es: seq<Anthropic.Event>)
    requires Anthropic.Bracketed(es)
    ensures var items := Msg.Snapshot(Msg.Final(responseId, ParseAll(es), Chat.Clean));
      var cs := Anthropic.Assemble(es);
      |items| == |cs| && forall k | 0 <= k < |cs| :: DetourItem(items[k], cs[k])
  {
    hide *;
    BracketedIsConflictFree(es);
    MessagesGrammar.ConflictFreeIsWellNumbered(responseId, ParseAll(es), Chat.Clean);
    ReachHolds(responseId, es);
    MessagesIndices.ReachBasic(responseId, ParseAll(es));
    FinalLength(responseId, ParseAll(es));
    HoldsLength(Msg.Reach(responseId, ParseAll(es)), es);
    var st0, st := Msg.Reach(responseId, ParseAll(es)), Msg.Final(responseId, ParseAll(es), Chat.Clean);
    forall k | 0 <= k < |st.slots|
      ensures DetourItem(Msg.FinalItem(st.slots[k], k), Anthropic.Assemble(es)[k])
    {
      MessagesMeaning.FinalSlots(responseId, ParseAll(es), Chat.Clean, k);
      SlotItem(st0, es, k, st.slots[k]);
    }
  }

  lemma FinalLength(responseId: string, events: seq<Msg.MsgEvent>)
    requires MessagesIndices.Basic(Msg.Reach(responseId, events))
    ensures |Msg.Final(responseId, events, Chat.Clean).slots| == |Msg.Reach(responseId, events).slots|
  {
    var st := Msg.Reach(responseId, events);
    MessagesIndices.BasicCloseAll(st, st.order);
  }

  lemma HoldsLength(st: Msg.State, es: seq<Anthropic.Event>)
    requires Holds(st, es)
    ensures |st.slots| == |Anthropic.Assemble(es)|
  {
  }

  lemma SlotItem(st: Msg.State, es: seq<Anthropic.Event>, k: nat, s: Msg.Slot)
    requires Holds(st, es) && k < |st.slots| && s == st.slots[k].(closed := s.closed)
    ensures k < |Anthropic.Assemble(es)| && DetourItem(Msg.FinalItem(s, k), Anthropic.Assemble(es)[k])
  {
    assert SlotHolds(st.slots[k], Anthropic.Assemble(es)[k], k);
  }

  ghost predicate SameItems(a: seq<Item>, b: seq<Item>) {
    |a| == |b| && forall k | 0 <= k < |a| :: Same(a[k], b[k])
  }

  lemma SameIsTwin(s: Chat.Slot, k: nat, item: Item, c: Anthropic.Content)
    requires DetourItem(item, c)
    ensures Same(Chat.FinalItem(s, k), item) <==> Twin(s, c)
  {
  }

  /** The items of the direct reader agree with the detour's exactly if its slots are twins of the assembled blocks. */
  lemma ItemsMeet(st: Chat.State, items: seq<Item>, cs: seq<Anthropic.Content>)
    requires Chat.Wf(st) && |items| == |cs| && forall k | 0 <= k < |cs| :: DetourItem(items[k], cs[k])
    ensures SameItems(Chat.Items(Chat.CloseText(st).slots), items) <==> Twins(st.slots, cs)
  {
    hide Chat.Wf, Same, Twin, DetourItem, Join, Chat.SlotOk;
    var closed := Chat.CloseText(st).slots;
    ClosedLength(st);
    forall k | 0 <= k < |cs| && |closed| == |cs|
      ensures Same(Chat.Items(closed)[k], items[k]) <==> Twin(st.slots[k], cs[k])
    {
      SameIsTwin(closed[k], k, items[k], cs[k]);
      ClosedTwin(st, k, cs[k]);
    }
  }

  lemma ClosedLength(st: Chat.State)
    requires Chat.Wf(st)
    ensures |Chat.CloseText(st).slots| == |st.slots|
  {
    hide Chat.SlotOk;
  }

  lemma ClosedTwin(st: Chat.State, k: nat, c: Anthropic.Content)
    requires Chat.Wf(st) && k < |st.slots|
    ensures k < |Chat.CloseText(st).slots| && (Twin(Chat.CloseText(st).slots[k], c) <==> Twin(st.slots[k], c))
  {
    hide Chat.SlotOk, Join;
  }

  // ----- The two final statuses -----

  /** The last finish reason, empty or not. */
  function LastFinish(ops: seq<Anthropic.Op>): Option<string> {
    if ops == [] then None
    else if ops[|ops| - 1].Stop? then Some(ops[|ops| - 1].reason)
    else LastFinish(ops[..|ops| - 1])
  }

  /** The last finish reason that is not empty. */
  function LastNamed(ops: seq<Anthropic.Op>): string {
    if ops == [] then ""
    else if ops[|ops| - 1].Stop? && ops[|ops| - 1].reason != "" then ops[|ops| - 1].reason
    else LastNamed(ops[..|ops| - 1])
  }

  /** The stream said that the limit was reached, and then gave an empty finish reason. */
  predicate Forgotten(ops: seq<Anthropic.Op>) {
    LastNamed(ops) == "length" && LastFinish(ops) == Some("")
  }

  function LastStop(ops: seq<Anthropic.Op>): string {
    if LastFinish(ops).None? then "" else Anthropic.StopReason(LastFinish(ops).value)
  }

  function LastReason(es: seq<Anthropic.Event>): string {
    if es == [] then ""
    else if es[|es| - 1].MessageDelta? && es[|es| - 1].stopReason != "" then es[|es| - 1].stopReason
    else LastReason(es[..|es| - 1])
  }

  lemma LastReasonSnoc(es: seq<Anthropic.Event>, e: Anthropic.Event)
    ensures LastReason(es + [e]) == if e.MessageDelta? && e.stopReason != "" then e.stopReason else LastReason(es)
  {
    assert (es + [e])[..|es|] == es;
  }

  lemma StepReason(st: Anthropic.State, op: Anthropic.Op)
    ensures LastReason(Anthropic.Step(st, op).trace) ==
      if op.Stop? then Anthropic.StopReason(op.reason) else LastReason(st.trace)
  {
    var st1 := Anthropic.Close(st);
    LastReasonSnoc(st.trace, Anthropic.BlockStop(st.index));
    match op
    case Say(text) =>
      var st2 := Anthropic.Open(st, Anthropic.TextBlock);
      LastReasonSnoc(st1.trace, Anthropic.BlockStart(st1.index, Anthropic.TextBlock));
      LastReasonSnoc(st2.trace, Anthropic.BlockDelta(st2.index, Anthropic.TextPiece(text)));
      LastReasonSnoc(st.trace, Anthropic.BlockDelta(st.index, Anthropic.TextPiece(text)));
    case Tool(d) =>
      var st2 := Anthropic.OnId(st, d);
      LastReasonSnoc(st1.trace, Anthropic.BlockStart(st1.index, Anthropic.ToolUse(d.id, d.name)));
      LastReasonSnoc(st2.trace, Anthropic.BlockDelta(st2.index, Anthropic.JsonPiece(d.arguments)));
    case Stop(reason) =>
      LastReasonSnoc(st1.trace, Anthropic.MessageDelta(Anthropic.StopReason(reason)));
  }

  lemma {:induction false} ReachReason(ops: seq<Anthropic.Op>)
    ensures LastReason(Anthropic.Reach(ops).trace) == LastStop(ops)
  {
    if ops != [] {
      ReachReason(ops[..|ops| - 1]);
      StepReason(Anthropic.Reach(ops[..|ops| - 1]), ops[|ops| - 1]);
    }
  }

  lemma {:induction false} LastReasonConcat(a: seq<Anthropic.Event>, b: seq<Anthropic.Event>)
    requires LastReason(a) == ""
    ensures LastReason(a + b) == LastReason(b)
  {
    if b == [] {
      assert a + b == a;
    } else {
      assert (a + b)[..|a + b| - 1] == a + b[..|b| - 1];
      LastReasonConcat(a, b[..|b| - 1]);
    }
  }

  lemma {:induction false} ParsedReason(responseId: string, es: seq<Anthropic.Event>)
    ensures Msg.Reach(responseId, ParseAll(es)).stopReason == LastReason(es)
  {
    if es != [] {
      ParseSnoc(es);
      ParsedReason(responseId, es[..|es| - 1]);
    }
  }

  lemma {:induction false} LastNamedTools(before: seq<Anthropic.Op>, tools: seq<Chat.ToolDelta>)
    ensures LastNamed(before + Anthropic.ToolOps(tools)) == LastNamed(before)
  {
    if tools == [] {
      assert before + Anthropic.ToolOps(tools) == before;
    } else {
      var all := before + Anthropic.ToolOps(tools);
      assert all[..|all| - 1] == before + Anthropic.ToolOps(tools[..|tools| - 1]);
      LastNamedTools(before, tools[..|tools| - 1]);
    }
  }

  lemma FinishSnoc(ops: seq<Anthropic.Op>, op: Anthropic.Op)
    ensures LastNamed(ops + [op]) == if op.Stop? && op.reason != "" then op.reason else LastNamed(ops)
    ensures LastFinish(ops + [op]) == if op.Stop? then Some(op.reason) else LastFinish(ops)
  {
    assert (ops + [op])[..|ops|] == ops;
  }

  lemma {:induction false} FinishIsLastNamed(chunks: seq<Chunk>)
    ensures Chat.FinishReason(ToChat(chunks)) == LastNamed(OpsOf(chunks))
  {
    if chunks == [] {
      assert ToAnthropic(chunks) == [];
    } else {
      hide OpsOf, LastNamed, LastFinish;
      var front, c := chunks[..|chunks| - 1], chunks[|chunks| - 1];
      FinishIsLastNamed(front);
      MoreOps(chunks);
      assert ToChat(chunks)[..|front|] == ToChat(front);
      var before := OpsOf(front);
      FinishSnoc(before, Anthropic.Say(c.content));
      var ops1 := if c.content == "" then before else before + [Anthropic.Say(c.content)];
      LastNamedTools(ops1, c.tools);
      FinishSnoc(ops1 + Anthropic.ToolOps(c.tools), Anthropic.Stop(if c.finish.Done? then c.finish.reason else ""));
    }
  }

  lemma HeaderReason(trace: seq<Anthropic.Event>)
    ensures LastReason([Anthropic.MessageStart, Anthropic.Ping] + trace) == LastReason(trace)
  {
    LastReasonSnoc([], Anthropic.MessageStart);
    LastReasonSnoc([Anthropic.MessageStart], Anthropic.Ping);
    assert [] + [Anthropic.MessageStart] == [Anthropic.MessageStart];
    assert [Anthropic.MessageStart] + [Anthropic.Ping] == [Anthropic.MessageStart, Anthropic.Ping];
    LastReasonConcat([Anthropic.MessageStart, Anthropic.Ping], trace);
  }

  lemma DetourReason(responseId: string, chunks: seq<Chunk>)
    ensures Msg.Reach(responseId, ParseAll(Anthropic.Events(ToAnthropic(chunks)))).stopReason == LastStop(OpsOf(chunks))
  {
    hide LastStop, LastReason, Msg.Reach, ParseAll, Anthropic.Reach;
    ParsedReason(responseId, Anthropic.Events(ToAnthropic(chunks)));
    ReachReason(OpsOf(chunks));
    HeaderReason(Anthropic.Reach(OpsOf(chunks)).trace);
    if chunks == [] {
      NoReason();
    }
  }

  lemma NoReason()
    ensures LastReason([]) == "" && LastStop([]) == ""
  {
  }

  function DirectOutcome(chunks: seq<Chunk>): Outcome {
    Chat.OutcomeOf(ToChat(chunks), Chat.Clean)
  }

  function DetourOutcome(responseId: string, chunks: seq<Chunk>): Outcome {
    Msg.OutcomeOf(Msg.Reach(responseId, ParseAll(Anthropic.Events(ToAnthropic(chunks)))), Chat.Clean)
  }

  /** Both readers report the same status exactly unless an empty finish reason follows the length reason: then the direct
      reader says incomplete and the detour complete. */
  lemma SameStatusIff(responseId: string, chunks: seq<Chunk>)
    ensures DirectOutcome(chunks) == DetourOutcome(responseId, chunks) <==> !Forgotten(OpsOf(chunks))
    ensures Forgotten(OpsOf(chunks)) ==> DirectOutcome(chunks) == Incomplete && DetourOutcome(responseId, chunks) == Complete
  {
    hide LastNamed, LastFinish, LastReason, Msg.Reach, ParseAll, OpsOf;
    FinishIsLastNamed(chunks);
    DetourReason(responseId, chunks);
    NamedIsLast(OpsOf(chunks));
  }

  lemma {:induction false} NamedIsLast(ops: seq<Anthropic.Op>)
    ensures LastFinish(ops).None? ==> LastNamed(ops) == ""
    ensures LastFinish(ops).Some? && LastFinish(ops).value != "" ==> LastNamed(ops) == LastFinish(ops).value
  {
    if ops != [] {
      NamedIsLast(ops[..|ops| - 1]);
    }
  }

  // ----- The two terminal events -----

  function DirectEvents(responseId: string, chunks: seq<Chunk>): seq<Event> {
    Chat.Translate(responseId, ToChat(chunks), Chat.Clean)
  }

  function DetourEvents(responseId: string, chunks: seq<Chunk>): seq<Event> {
    Msg.Translate(responseId, ParseAll(Anthropic.Events(ToAnthropic(chunks))), Chat.Clean)
  }

  function DirectSnapshot(chunks: seq<Chunk>): seq<Item> {
    Chat.Snapshot(Chat.Ops(ToChat(chunks)))
  }

  function DetourSnapshot(responseId: string, chunks: seq<Chunk>): seq<Item> {
    Msg.Snapshot(Msg.Final(responseId, ParseAll(Anthropic.Events(ToAnthropic(chunks))), Chat.Clean))
  }

  ghost predicate EndsWith(es: seq<Event>, last: Event) {
    es != [] && es[|es| - 1] == last
  }

  lemma TerminalsAre(responseId: string, chunks: seq<Chunk>)
    ensures EndsWith(DirectEvents(responseId, chunks), Terminal(DirectOutcome(chunks), responseId, DirectSnapshot(chunks)))
    ensures EndsWith(DetourEvents(responseId, chunks),
                     Terminal(DetourOutcome(responseId, chunks), responseId, DetourSnapshot(responseId, chunks)))
  {
    hide Chat.Snapshot, Msg.Snapshot, Msg.Reach, Chat.Body, Msg.Settle, Anthropic.Events, ParseAll;
    var events := ParseAll(Anthropic.Events(ToAnthropic(chunks)));
    var st := Msg.Reach(responseId, events);
    var last := Terminal(Msg.OutcomeOf(st, Chat.Clean), responseId, Msg.Snapshot(Msg.Settle(st)));
    SettledSnapshot(st, responseId, Msg.OutcomeOf(st, Chat.Clean));
    assert DetourEvents(responseId, chunks) == [Created(responseId)] + Msg.Settle(st).trace + [last];
  }

  /** Both readers end with the same outcome and the same items. */
  ghost predicate SameTerminals(responseId: string, chunks: seq<Chunk>) {
    var direct, detour := DirectEvents(responseId, chunks), DetourEvents(responseId, chunks);
    direct != [] && detour != [] && SameTerminal(direct[|direct| - 1], detour[|detour| - 1])
  }

  ghost predicate SameTerminal(a: Event, b: Event) {
    a.Terminal? && b.Terminal? && a.outcome == b.outcome && a.responseId == b.responseId && SameItems(a.output, b.output)
  }

  lemma SnapshotsAgreeIff(responseId: string, chunks: seq<Chunk>)
    ensures SameItems(DirectSnapshot(chunks), DetourSnapshot(responseId, chunks)) <==> Agreeing(OpsOf(chunks))
    ensures |DirectSnapshot(chunks)| == |Direct(OpsOf(chunks)).slots|
    ensures |DetourSnapshot(responseId, chunks)| == |Anthropic.Denote(OpsOf(chunks))|
  {
    hide *;
    var es := Anthropic.Events(ToAnthropic(chunks));
    SameOps(chunks);
    AnthropicContent.AssembledContent(ToAnthropic(chunks));
    Anthropic.EventsBracketed(ToAnthropic(chunks));
    DetourItems(responseId, es);
    SnapshotsAre(responseId, chunks);
    ItemsMeet(Direct(OpsOf(chunks)), DetourSnapshot(responseId, chunks), Anthropic.Assemble(es));
    ClosedLength(Direct(OpsOf(chunks)));
    AgreeingIs(OpsOf(chunks));
  }

  lemma ParsedOps(chunks: seq<Chunk>)
    ensures Anthropic.Parsed(OpsOf(chunks))
  {
    Anthropic.OpsParsed(ToAnthropic(chunks));
  }

  lemma AgreeingIs(ops: seq<Anthropic.Op>)
    ensures Agreeing(ops) <==> Twins(Direct(ops).slots, Anthropic.Denote(ops))
  {
  }

  lemma SnapshotsAre(responseId: string, chunks: seq<Chunk>)
    requires ChatOps(OpsOf(chunks)) == Chat.Ops(ToChat(chunks))
    ensures DirectSnapshot(chunks) == Chat.Items(Chat.CloseText(Direct(OpsOf(chunks))).slots)
    ensures |DirectSnapshot(chunks)| == |Chat.CloseText(Direct(OpsOf(chunks))).slots|
    ensures DetourSnapshot(responseId, chunks) ==
            Msg.Snapshot(Msg.Final(responseId, ParseAll(Anthropic.Events(ToAnthropic(chunks))), Chat.Clean))
    ensures OpsOf(chunks) == Anthropic.Ops(ToAnthropic(chunks))
  {
    hide Chat.Reach, Chat.CloseText, Msg.Snapshot, Msg.Final, Anthropic.Events, Anthropic.Ops, ParseAll, ChatOps, Chat.Ops;
  }

  /** The terminal events agree exactly if the items do and the limit is not forgotten. */
  lemma TerminalsAgreeIff(responseId: string, chunks: seq<Chunk>)
    ensures SameTerminals(responseId, chunks) <==> Agreeing(OpsOf(chunks)) && !Forgotten(OpsOf(chunks))
  {
    hide DirectEvents, DetourEvents, DirectSnapshot, DetourSnapshot, DirectOutcome, DetourOutcome, Agreeing, SameItems, OpsOf,
         Forgotten;
    SnapshotsAgreeIff(responseId, chunks);
    SameStatusIff(responseId, chunks);
    TerminalsAre(responseId, chunks);
  }

  lemma SettledSnapshot(st: Msg.State, responseId: string, outcome: Outcome)
    ensures Msg.Snapshot(Msg.Finish(st, responseId, outcome)) == Msg.Snapshot(Msg.Settle(st))
  {
  }

  // ----- Exactly when the readers agree -----

  /** The operations as a stream with one of them in each chunk. */
  function Chunked(ops: seq<Anthropic.Op>): seq<Chunk> {
    seq(|ops|, i requires 0 <= i < |ops| => ChunkOf(ops[i]))
  }

  function ChunkOf(op: Anthropic.Op): Chunk {
    match op
    case Say(text) => Chunk(text, [], Anthropic.Going)
    case Tool(d) => Chunk("", [d], Anthropic.Going)
    case Stop(reason) => Chunk("", [], Anthropic.Done(reason))
  }

  lemma OneAdded(before: seq<Anthropic.Op>, op: Anthropic.Op)
    requires op.Say? ==> op.text != ""
    ensures Added(before, ChunkOf(op)) == before + [op]
  {
    assert before + Anthropic.ToolOps([]) == before;
    if op.Tool? {
      assert Anthropic.ToolOps([op.d]) == [op];
    }
  }

  lemma {:induction false} ChunkedOps(ops: seq<Anthropic.Op>)
    requires Anthropic.Parsed(ops)
    ensures OpsOf(Chunked(ops)) == ops
  {
    if ops == [] {
      assert ToAnthropic(Chunked(ops)) == [];
    } else {
      hide OpsOf, ChunkOf, Added;
      var front, op := ops[..|ops| - 1], ops[|ops| - 1];
      assert front + [op] == ops && op in ops;
      assert Chunked(ops)[..|front|] == Chunked(front);
      ChunkedOps(front);
      MoreOps(Chunked(ops));
      OneAdded(front, op);
    }
  }

  /** No empty finish reason comes while the last named one is the length reason. */
  ghost predicate Remembered(ops: seq<Anthropic.Op>) {
    forall n | 0 <= n < |ops| && ops[n] == Anthropic.Stop("") :: LastNamed(ops[..n]) != "length"
  }

  lemma RememberedSnoc(ops: seq<Anthropic.Op>, op: Anthropic.Op)
    ensures Remembered(ops + [op]) <==> Remembered(ops) && (op == Anthropic.Stop("") ==> LastNamed(ops) != "length")
  {
    hide LastNamed;
    var all := ops + [op];
    assert all[..|ops|] == ops && forall n | 0 <= n < |ops| :: all[..n] == ops[..n] && all[n] == ops[n];
    if Remembered(all) {
      forall n | 0 <= n < |ops| && ops[n] == Anthropic.Stop("")
        ensures LastNamed(ops[..n]) != "length"
      {
        assert all[n] == ops[n];
      }
      assert all[|ops|] == op;
    }
  }

  lemma {:induction false} RememberedIff(ops: seq<Anthropic.Op>)
    ensures (forall n | 0 <= n <= |ops| :: !Forgotten(ops[..n])) <==> Remembered(ops)
    ensures Remembered(ops) ==> !Forgotten(ops)
  {
    assert ops[..|ops|] == ops;
    if ops == [] {
      assert !Forgotten(ops[..0]);
    } else {
      hide LastNamed, LastFinish, Remembered;
      var front, op := ops[..|ops| - 1], ops[|ops| - 1];
      assert front + [op] == ops && forall n | 0 <= n <= |front| :: front[..n] == ops[..n];
      RememberedIff(front);
      RememberedSnoc(front, op);
      FinishSnoc(front, op);
      assert front[..|front|] == front;
      if forall n | 0 <= n <= |ops| :: !Forgotten(ops[..n]) {
        forall n | 0 <= n <= |front|
          ensures !Forgotten(front[..n])
        {
          assert !Forgotten(ops[..n]);
        }
      }
    }
  }

  /** The two readers end alike on a stream, however its deltas are spread over chunks and however early it is cut off,
      exactly if its operations are in lockstep and no empty finish reason makes the detour forget that the limit was
      reached. */
  lemma ReadersAgreeIff(responseId: string, chunks: seq<Chunk>)
    ensures (forall part | OpsOf(part) <= OpsOf(chunks) :: SameTerminals(responseId, part)) <==>
            Lockstep(OpsOf(chunks)) && Remembered(OpsOf(chunks))
  {
    hide OpsOf, SameTerminals, Agreeing, Lockstep, Chunked, Remembered, Forgotten, Anthropic.Parsed;
    var ops := OpsOf(chunks);
    ParsedOps(chunks);
    AgreeingThroughoutIff(ops);
    RememberedIff(ops);
    if Lockstep(ops) && Remembered(ops) {
      forall part | OpsOf(part) <= ops
        ensures SameTerminals(responseId, part)
      {
        assert OpsOf(part) == ops[..|OpsOf(part)|];
        TerminalsAgreeIff(responseId, part);
      }
    }
    if forall part | OpsOf(part) <= ops :: SameTerminals(responseId, part) {
      forall n | 0 <= n <= |ops|
        ensures Agreeing(ops[..n]) && !Forgotten(ops[..n])
      {
        ParsedPrefix(ops, n);
        ChunkedOps(ops[..n]);
        TerminalsAgreeIff(responseId, Chunked(ops[..n]));
      }
    }
  }

  lemma ParsedPrefix(ops: seq<Anthropic.Op>, n: nat)
    requires Anthropic.Parsed(ops) && n <= |ops|
    ensures Anthropic.Parsed(ops[..n])
  {
  }

  /** Text followed by serial tool calls gives the same terminal event both ways, unless the limit is forgotten. */
  lemma ReadersAgree(responseId: string, chunks: seq<Chunk>)
    requires SerialStreams.AllSerial(OpsOf(chunks))
    ensures SameTerminals(responseId, chunks) <==> !Forgotten(OpsOf(chunks))
  {
    hide *;
    ParsedOps(chunks);
    SerialStreams.SerialIsRegular(OpsOf(chunks));
    SerialStreams.RegularIsLockstep(OpsOf(chunks));
    LockstepAgrees(OpsOf(chunks));
    TerminalsAgreeIff(responseId, chunks);
  }

  // ----- Ways to part, and one to meet again -----

  lemma Parts(responseId: string, ops: seq<Anthropic.Op>, op: Anthropic.Op)
    requires Anthropic.Parsed(ops + [op]) && Lockstep(ops) && !InStep(ops, op)
    ensures !SameTerminals(responseId, Chunked(ops + [op]))
  {
    hide OpsOf, SameTerminals, Agreeing, Lockstep, Chunked, InStep;
    ChunkedOps(ops + [op]);
    OutOfStepDiffers(ops, op);
    TerminalsAgreeIff(responseId, Chunked(ops + [op]));
  }

  lemma TwoInStep(a: Anthropic.Op, b: Anthropic.Op)
    requires InStep([], a) && InStep([a], b)
    ensures Lockstep([a, b])
  {
    hide InStep;
    EmptyAgrees();
    LockstepSnoc([], a);
    LockstepSnoc([a], b);
    assert [] + [a] == [a] && [a] + [b] == [a, b];
  }

  /** Of two content deltas after a call the detour makes two messages, the direct reader one. */
  lemma ContentAfterCallDiffers(responseId: string, d: Chat.ToolDelta)
    requires d.id != ""
    ensures !SameTerminals(responseId, Chunked([Anthropic.Tool(d), Anthropic.Say("a"), Anthropic.Say("b")]))
  {
    hide SameTerminals, Chunked;
    var t, a, b := Anthropic.Tool(d), Anthropic.Say("a"), Anthropic.Say("b");
    assert [t][..0] == [] && [t, a][..1] == [t] && [t, a] + [b] == [t, a, b];
    assert t in [t] && t in [t, a];
    TwoInStep(t, a);
    Parts(responseId, [t, a], b);
  }

  /** So it does of content on either side of a finish reason, empty or not. */
  lemma ContentAfterFinishDiffers(responseId: string, reason: string)
    ensures !SameTerminals(responseId, Chunked([Anthropic.Say("a"), Anthropic.Stop(reason), Anthropic.Say("b")]))
  {
    hide SameTerminals, Chunked;
    var a, f, b := Anthropic.Say("a"), Anthropic.Stop(reason), Anthropic.Say("b");
    assert [a][..0] == [] && [a, f][..1] == [a] && [a, f] + [b] == [a, f, b];
    assert Talking([a]) && Talking([a, f]) && !DetourTalking([a, f]);
    TwoInStep(a, f);
    Parts(responseId, [a, f], b);
  }

  /** Arguments for a call whose block the next call has closed go to the wrong call. */
  lemma LateArgumentsDiffer(responseId: string, first: Chat.ToolDelta, second: Chat.ToolDelta, late: Chat.ToolDelta)
    requires first.id != "" && second.id != "" && late.id == "" && first.index == late.index != second.index
    requires first.arguments == "" && !Blank(late.arguments) && late.arguments != "{}"
    ensures !SameTerminals(responseId, Chunked([Anthropic.Tool(first), Anthropic.Tool(second), Anthropic.Tool(late)]))
  {
    hide SameTerminals, Chunked, DeltasOf, ArgumentsOf, NameOf, Received, Blank;
    var a, b, c := Anthropic.Tool(first), Anthropic.Tool(second), Anthropic.Tool(late);
    assert [a][..0] == [] && [a, b][..1] == [a] && [a, b] + [c] == [a, b, c];
    assert [] + [a] == [a] && [a] + [b] == [a, b];
    SerialStreams.NoDeltas([], first.index);
    SerialStreams.NoDeltas([a], second.index);
    NoArgumentsYet(first.index);
    SerialStreams.ArgumentsSnoc([], a, first.index);
    SerialStreams.ArgumentsSnoc([a], b, first.index);
    TwoInStep(a, b);
    assert "" + late.arguments == late.arguments;
    BlankEmpty();
    Parts(responseId, [a, b], c);
  }

  lemma NoArgumentsYet(index: int)
    ensures ArgumentsOf([], index) == ""
  {
  }

  /** A call whose id comes late parts the readers until the id is there; then they agree again. */
  lemma LateIdMeetsAgain(responseId: string, first: Chat.ToolDelta, again: Chat.ToolDelta)
    requires first.id == "" && first.name != "" && first.arguments == ""
    requires again.index == first.index && again.id != "" && again.name == first.name
    ensures !SameTerminals(responseId, Chunked([Anthropic.Tool(first)]))
    ensures SameTerminals(responseId, Chunked([Anthropic.Tool(first), Anthropic.Tool(again)]))
  {
    hide SameTerminals, Chunked, Agreeing, Lockstep, InStep, Forgotten;
    var a, b := Anthropic.Tool(first), Anthropic.Tool(again);
    assert [] + [a] == [a] && [a] + [b] == [a, b];
    EmptyAgrees();
    SerialStreams.NoDeltas([], first.index);
    NotContinued([], a);
    Parts(responseId, [], a);
    MeetAgain(first, again);
    NotForgotten(a, b);
    ChunkedOps([a, b]);
    TerminalsAgreeIff(responseId, Chunked([a, b]));
  }

  lemma NotForgotten(a: Anthropic.Op, b: Anthropic.Op)
    requires a.Tool? && b.Tool?
    ensures !Forgotten([a, b])
  {
    assert [] + [a] == [a] && [a] + [b] == [a, b];
    FinishSnoc([], a);
    FinishSnoc([a], b);
  }

  lemma MeetAgain(first: Chat.ToolDelta, again: Chat.ToolDelta)
    requires first.id == "" && first.name != "" && first.arguments == ""
    requires again.index == first.index && again.id != "" && again.name == first.name
    ensures Agreeing([Anthropic.Tool(first), Anthropic.Tool(again)])
  {
    hide Twin, Anthropic.Denote, Direct, Chat.Absorb;
    MeetDirect(first, again);
    MeetDetour(first, again);
    MeetTwin(first, again);
  }

  lemma MeetDirect(first: Chat.ToolDelta, again: Chat.ToolDelta)
    requires again.index == first.index
    ensures var s := Chat.Absorb(Chat.CallSlot(first.index, "", "", [], None), 0, first).0;
      Direct([Anthropic.Tool(first), Anthropic.Tool(again)]).slots == [Chat.Absorb(s, 0, again).0]
  {
    hide Direct, Chat.Absorb, Chat.OnTool, Chat.SlotOk;
    var a, b := Anthropic.Tool(first), Anthropic.Tool(again);
    assert [] + [a] == [a] && [a] + [b] == [a, b];
    NothingYet();
    DirectSnoc([], a);
    DirectSnoc([a], b);
    Chat.ToolSlots(Chat.Init, first);
    var st := Chat.OnTool(Chat.Init, first);
    Chat.ToolSlots(st, again);
    assert Chat.CloseText(st) == st;
  }

  lemma MeetDetour(first: Chat.ToolDelta, again: Chat.ToolDelta)
    requires first.id == "" && again.id != ""
    ensures Anthropic.Denote([Anthropic.Tool(first), Anthropic.Tool(again)]) ==
      [Anthropic.Content(Anthropic.ToolUse(again.id, again.name), if again.arguments == "" then [] else [again.arguments])]
  {
    hide *;
    var a, b := Anthropic.Tool(first), Anthropic.Tool(again);
    assert [] + [a] == [a] && [a] + [b] == [a, b];
    NothingYet();
    DenoteNext([], a);
    DenoteNext([a], b);
    ToolNext([], a, []);
    ToolNext([a], b, []);
  }

  /** To no blocks a tool delta adds its own, if it has an id. */
  lemma ToolNext(ops: seq<Anthropic.Op>, op: Anthropic.Op, cs: seq<Anthropic.Content>)
    requires op.Tool? && cs == []
    ensures Next(ops, op, cs) ==
      if op.d.id == "" then []
      else [Anthropic.Content(Anthropic.ToolUse(op.d.id, op.d.name), if op.d.arguments == "" then [] else [op.d.arguments])]
  {
    hide Anthropic.Opens, Anthropic.Anchor;
    AnchorSnoc(ops, op);
  }

  lemma NothingYet()
    ensures Direct([]) == Chat.Init && Anthropic.Denote([]) == []
  {
  }

  lemma MeetTwin(first: Chat.ToolDelta, again: Chat.ToolDelta)
    requires first.id == "" && first.name != "" && first.arguments == ""
    requires again.index == first.index && again.id != "" && again.name == first.name
    ensures var s := Chat.Absorb(Chat.CallSlot(first.index, "", "", [], None), 0, first).0;
      && s.CallSlot?
      && Twin(Chat.Absorb(s, 0, again).0,
              Anthropic.Content(Anthropic.ToolUse(again.id, again.name), if again.arguments == "" then [] else [again.arguments]))
  {
    assert [] + [again.arguments] == [again.arguments];
  }

  // ----- Empty finish reasons -----

  /** An empty finish reason after the length reason: the direct reader reports incomplete, the detour complete. */
  lemma LimitForgotten(responseId: string)
    ensures var chunks := [Chunk("", [], Anthropic.Done("length")), Chunk("", [], Anthropic.Done(""))];
      DirectOutcome(chunks) == Incomplete && DetourOutcome(responseId, chunks) == Complete && !SameTerminals(responseId, chunks)
  {
    hide SameTerminals, OpsOf, DirectOutcome, DetourOutcome, Agreeing;
    var a, b := Anthropic.Stop("length"), Anthropic.Stop("");
    var chunks := [Chunk("", [], Anthropic.Done("length")), Chunk("", [], Anthropic.Done(""))];
    assert Chunked([a, b]) == chunks;
    ChunkedOps([a, b]);
    assert [] + [a] == [a] && [a] + [b] == [a, b];
    FinishSnoc([], a);
    FinishSnoc([a], b);
    SameStatusIff(responseId, chunks);
    TerminalsAgreeIff(responseId, chunks);
  }

  /** Text whose every delta comes with an empty finish reason, as some upstreams write it. */
  function EmptyReasons(texts: seq<string>): seq<Chunk> {
    seq(|texts|, i requires 0 <= i < |texts| => Chunk(texts[i], [], Anthropic.Done("")))
  }

  /** The direct reader makes one message of such text, the detour one message of each delta. */
  lemma EmptyReasonsSplit(responseId: string, texts: seq<string>)
    requires texts != [] && forall t | t in texts :: t != ""
    ensures var direct, detour := DirectEvents(responseId, EmptyReasons(texts)), DetourEvents(responseId, EmptyReasons(texts));
      && direct != [] && direct[|direct| - 1].Terminal? && |direct[|direct| - 1].output| == 1
      && detour != [] && detour[|detour| - 1].Terminal? && |detour[|detour| - 1].output| == |texts|
  {
    hide *;
    var chunks := EmptyReasons(texts);
    SplitTexts(texts);
    SnapshotsAgreeIff(responseId, chunks);
    TerminalsAre(responseId, chunks);
    Ending(DirectEvents(responseId, chunks), Terminal(DirectOutcome(chunks), responseId, DirectSnapshot(chunks)));
    Ending(DetourEvents(responseId, chunks),
           Terminal(DetourOutcome(responseId, chunks), responseId, DetourSnapshot(responseId, chunks)));
  }

  lemma Ending(es: seq<Event>, last: Event)
    requires EndsWith(es, last)
    ensures es != [] && es[|es| - 1] == last
  {
  }

  lemma {:induction false} SplitTexts(texts: seq<string>)
    requires forall t | t in texts :: t != ""
    ensures var ops := OpsOf(EmptyReasons(texts));
      && |Direct(ops).slots| == (if texts == [] then 0 else 1) && (Talking(ops) <==> texts != [])
      && |Anthropic.Denote(ops)| == |texts| && !DetourTalking(ops)
  {
    hide *;
    if texts == [] {
      NoTexts();
    } else {
      var front, t := texts[..|texts| - 1], texts[|texts| - 1];
      assert front + [t] == texts && t in texts && forall x | x in front :: x in texts;
      SplitTexts(front);
      TextAdded(texts);
      OneMoreText(OpsOf(EmptyReasons(front)), Anthropic.Say(t));
    }
  }

  lemma NoTexts()
    ensures var ops := OpsOf(EmptyReasons([]));
      Direct(ops).slots == [] && !Talking(ops) && Anthropic.Denote(ops) == [] && !DetourTalking(ops)
  {
    assert ToAnthropic(EmptyReasons([])) == [];
    NothingYet();
  }

  lemma TextAdded(texts: seq<string>)
    requires texts != [] && texts[|texts| - 1] != ""
    ensures var before := OpsOf(EmptyReasons(texts[..|texts| - 1]));
      OpsOf(EmptyReasons(texts)) == before + [Anthropic.Say(texts[|texts| - 1])] + [Anthropic.Stop("")]
  {
    hide OpsOf;
    var chunks, front := EmptyReasons(texts), texts[..|texts| - 1];
    assert chunks[..|front|] == EmptyReasons(front);
    MoreOps(chunks);
    var said := OpsOf(EmptyReasons(front)) + [Anthropic.Say(texts[|front|])];
    assert said + Anthropic.ToolOps([]) == said;
  }

  lemma OneMoreText(ops: seq<Anthropic.Op>, say: Anthropic.Op)
    requires say.Say? && say.text != "" && !DetourTalking(ops)
    ensures var after := ops + [say] + [Anthropic.Stop("")];
      && |Direct(after).slots| == (if Talking(ops) then |Direct(ops).slots| else |Direct(ops).slots| + 1)
      && Talking(after) && !DetourTalking(after)
      && |Anthropic.Denote(after)| == |Anthropic.Denote(ops)| + 1
  {
    hide Direct, Anthropic.Denote, Anthropic.Anchor, Anthropic.HasCall, Anthropic.Opens, ChatOps, Chat.OnContent;
    var said, stop := ops + [say], Anthropic.Stop("");
    DirectSnoc(ops, say);
    DirectSnoc(said, stop);
    Books(ops);
    Chat.ContentSlots(Direct(ops), say.text);
    DenoteNext(ops, say);
    DenoteNext(said, stop);
    AnchorSnoc(ops, say);
    AnchorSnoc(said, stop);
    StopAgrees(said, stop, Anthropic.Denote(said));
    assert (said + [stop])[..|said|] == said;
  }
}
