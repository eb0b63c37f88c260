/**
 When the two ways from a chat stream to Responses items stay in step: a condition on each operation and those before it,
 proved to be exactly the condition under which the direct reader's items and the client's content blocks go on agreeing.
 */
module ReaderLockstep {
  import opened Options
  import opened Text
  import Chat = ChatStream
  import ChatStreamMeaning
  import Anthropic = AnthropicStream
  import AnthropicContent
  import Msg = MessagesStream

  type Op = Anthropic.Op

  // ----- What each reader makes of the operations so far -----

  /** The operations the direct reader acts on. */
  function ChatOps(ops: seq<Op>): seq<Chat.Op> {
    if ops == [] then []
    else
      var before := ChatOps(ops[..|ops| - 1]);
      match ops[|ops| - 1]
      case Say(text) => before + [Chat.Content(text)]
      case Tool(d) => before + [Chat.Tool(d)]
      case Stop(_) => before
  }

  /** The direct reader has a message open: since the last content there were only finish reasons. */
  predicate Talking(ops: seq<Op>) {
    ops != [] && (ops[|ops| - 1].Say? || (ops[|ops| - 1].Stop? && Talking(ops[..|ops| - 1])))
  }

  /** On the detour content goes on with the open block only before the first call, and not after a finish reason. */
  predicate DetourTalking(ops: seq<Op>) {
    Anthropic.Anchor(ops) != [] && Anthropic.Anchor(ops)[0].Say? && !Anthropic.HasCall(ops)
  }

  function DeltasOf(ops: seq<Op>, index: int): seq<Chat.ToolDelta> {
    Chat.ToolDeltas(ChatOps(ops), index)
  }

  /** The name and arguments that the direct reader has for a tool index. */
  function NameOf(ops: seq<Op>, index: int): string {
    Chat.FirstNonEmpty(Chat.Names(DeltasOf(ops, index)))
  }

  function ArgumentsOf(ops: seq<Op>, index: int): string {
    Join(Chat.Args(DeltasOf(ops, index)))
  }

  /** The detour has a tool block open; `InToolOf` says whose. */
  predicate InTool(ops: seq<Op>) {
    Anthropic.Anchor(ops) != [] && Anthropic.Anchor(ops)[0].Tool?
  }

  predicate InToolOf(ops: seq<Op>, index: int) {
    InTool(ops) && Anthropic.Anchor(ops)[0].d.index == index
  }

  /** What the open tool block of the detour has received: the arguments since the last delta with an id. */
  function Received(ops: seq<Op>): string {
    if ops == [] || !ops[|ops| - 1].Tool? then ""
    else
      var d := ops[|ops| - 1].d;
      if d.id != "" then d.arguments else Received(ops[..|ops| - 1]) + d.arguments
  }

  // ----- The condition -----

  /** Arguments as the detour reports them. */
  function Reported(arguments: string): string {
    Msg.OrEmptyObject(arguments)
  }

  /** A fragment that does not change what is reported. */
  predicate Unheard(sofar: string, piece: string) {
    Reported(sofar + piece) == Reported(sofar)
  }

  /** A tool delta without id goes on with a known call, brings no new name, and either both readers add its arguments to the
      same call, or wherever they put them they go unheard. */
  predicate Continues(before: seq<Op>, d: Chat.ToolDelta) {
    && DeltasOf(before, d.index) != []
    && (d.name == "" || NameOf(before, d.index) != "")
    && if InToolOf(before, d.index) then
         Reported(ArgumentsOf(before, d.index) + d.arguments) == Reported(Received(before) + d.arguments)
       else
         Unheard(ArgumentsOf(before, d.index), d.arguments) && (InTool(before) ==> Unheard(Received(before), d.arguments))
  }

  /** Content opens an item in both readers or in neither; a tool delta with an id has a new index, and one without goes on
      with a call. */
  predicate InStep(before: seq<Op>, op: Op) {
    match op
    case Say(_) => Talking(before) == DetourTalking(before)
    case Tool(d) => if d.id != "" then DeltasOf(before, d.index) == [] else Continues(before, d)
    case Stop(_) => true
  }

  ghost predicate Lockstep(ops: seq<Op>) {
    forall n | 0 <= n < |ops| :: InStep(ops[..n], ops[n])
  }

  lemma LockstepSnoc(ops: seq<Op>, op: Op)
    ensures Lockstep(ops + [op]) <==> Lockstep(ops) && InStep(ops, op)
  {
    hide InStep;
    var all := ops + [op];
    assert all[..|ops|] == ops && all[|ops|] == op;
    forall n | 0 <= n < |ops|
      ensures all[..n] == ops[..n] && all[n] == ops[n]
    {
    }
    if Lockstep(all) {
      forall n | 0 <= n < |ops|
        ensures InStep(ops[..n], ops[n])
      {
        assert InStep(all[..n], all[n]);
      }
      assert InStep(all[..|ops|], all[|ops|]);
    }
  }

  // ----- Items that agree -----

  /** A slot of the direct reader and a content block that are reported alike. */
  ghost predicate Twin(s: Chat.Slot, c: Anthropic.Content) {
    match s
    case TextSlot(pieces, _) => c.block.TextBlock? && Join(c.pieces) == Join(pieces)
    case CallSlot(_, _, name, pieces, _) =>
      c.block.ToolUse? && c.block.name == name && Reported(Join(c.pieces)) == Reported(Join(pieces))
  }

  ghost predicate Twins(slots: seq<Chat.Slot>, cs: seq<Anthropic.Content>) {
    |slots| == |cs| && forall k | 0 <= k < |cs| :: Twin(slots[k], cs[k])
  }

  function Direct(ops: seq<Op>): (r: Chat.State)
    ensures Chat.Wf(r)
  {
    Chat.Reach(ChatOps(ops))
  }

  /** Both readers hold the same items after these operations. */
  ghost predicate Agreeing(ops: seq<Op>) {
    Twins(Direct(ops).slots, Anthropic.Denote(ops))
  }

  lemma TwinsAt(slots: seq<Chat.Slot>, cs: seq<Anthropic.Content>, k: nat)
    requires Twins(slots, cs) && k < |slots|
    ensures |slots| == |cs| && Twin(slots[k], cs[k])
  {
  }

  /** After an addition at the end two lists agree exactly if what was added does. */
  lemma TwinsAppend(slots: seq<Chat.Slot>, cs: seq<Anthropic.Content>, s: Chat.Slot, c: Anthropic.Content)
    requires Twins(slots, cs)
    ensures Twins(slots + [s], cs + [c]) <==> Twin(s, c)
  {
    hide Twin;
    if Twins(slots + [s], cs + [c]) {
      assert Twin((slots + [s])[|slots|], (cs + [c])[|slots|]);
    }
  }

  lemma TwinsLength(slots: seq<Chat.Slot>, cs: seq<Anthropic.Content>)
    ensures Twins(slots, cs) ==> |slots| == |cs|
  {
  }

  // ----- One more operation -----

  lemma ChatOpsSnoc(ops: seq<Op>, op: Op)
    ensures ChatOps(ops + [op]) ==
      ChatOps(ops) + (if op.Say? then [Chat.Content(op.text)] else if op.Tool? then [Chat.Tool(op.d)] else [])
  {
    assert (ops + [op])[..|ops|] == ops;
  }

  function ChatStep(st: Chat.State, op: Op): (r: Chat.State)
    requires Chat.Wf(st)
    ensures Chat.Wf(r)
  {
    match op
    case Say(text) => Chat.OnContent(st, text)
    case Tool(d) => Chat.OnTool(st, d)
    case Stop(_) => st
  }

  lemma DirectSnoc(ops: seq<Op>, op: Op)
    ensures Direct(ops + [op]) == ChatStep(Direct(ops), op)
  {
    hide Chat.OnContent, Chat.OnTool, Chat.Wf;
    var before := ChatOps(ops);
    ChatOpsSnoc(ops, op);
    assert forall x: Chat.Op :: (before + [x])[..|before|] == before;
  }

  /** The content blocks after one more operation. */
  function Next(ops: seq<Op>, op: Op, cs: seq<Anthropic.Content>): seq<Anthropic.Content> {
    AnthropicContent.Extend(cs, op, Anthropic.Opens(ops + [op], |ops|),
                            Anthropic.Anchor(ops) != [] && !Anthropic.Anchor(ops)[0].Stop?)
  }

  lemma DenoteNext(ops: seq<Op>, op: Op)
    ensures Anthropic.Denote(ops + [op]) == Next(ops, op, Anthropic.Denote(ops))
  {
    hide AnthropicContent.Extend, Anthropic.Denote, Anthropic.Opens, Anthropic.Anchor;
    AnthropicContent.DenoteSnoc(ops, op);
  }

  lemma AnchorSnoc(ops: seq<Op>, op: Op)
    ensures Anthropic.Anchor(ops + [op]) == if op.Tool? && op.d.id == "" then Anthropic.Anchor(ops) else [op]
    ensures Received(ops + [op]) ==
      if !op.Tool? then "" else if op.d.id != "" then op.d.arguments else Received(ops) + op.d.arguments
    ensures op.Say? ==> (Anthropic.Opens(ops + [op], |ops|) <==> !DetourTalking(ops))
    ensures op.Tool? ==> (Anthropic.Opens(ops + [op], |ops|) <==> op.d.id != "")
    ensures op.Stop? ==> !Anthropic.Opens(ops + [op], |ops|)
  {
    assert (ops + [op])[..|ops|] == ops;
  }

  // ----- The direct reader's books -----

  lemma {:induction false} TalkingIs(ops: seq<Op>)
    ensures Talking(ops) <==> ChatOps(ops) != [] && ChatOps(ops)[|ChatOps(ops)| - 1].Content?
  {
    if ops != [] {
      TalkingIs(ops[..|ops| - 1]);
    }
  }

  /** The direct reader's open message and calls, read off the operations. */
  lemma Books(ops: seq<Op>)
    ensures var st := Direct(ops);
      && (st.text.Some? <==> Talking(ops))
      && (forall i :: i in st.calls <==> DeltasOf(ops, i) != [])
      && (forall i | i in st.calls :: CallHolds(ops, st, i))
  {
    hide ChatOps, Chat.Reach, Talking;
    var chatOps := ChatOps(ops);
    var st := Chat.Reach(chatOps);
    TalkingIs(ops);
    ChatStreamMeaning.ReachMeans(chatOps);
    forall i | i in st.calls
      ensures CallHolds(ops, st, i)
    {
      var k := st.calls[i];
      assert ChatStreamMeaning.SlotMeans(chatOps, st.slots[k], Chat.Openings(chatOps)[k]);
    }
  }

  ghost predicate CallHolds(ops: seq<Op>, st: Chat.State, i: int)
    requires i in st.calls
  {
    var k := st.calls[i];
    && k < |st.slots| && st.slots[k].CallSlot? && st.slots[k].stream == i
    && st.slots[k].name == NameOf(ops, i) && Join(st.slots[k].pieces) == ArgumentsOf(ops, i)
  }

  // ----- The detour's open block -----

  /** The block opened by the anchor is the last one, and a tool block holds what it has received. */
  ghost predicate LastBlock(ops: seq<Op>, cs: seq<Anthropic.Content>) {
    var anchor := Anthropic.Anchor(ops);
    anchor != [] && !anchor[0].Stop? ==>
      && cs != [] && (anchor[0].Say? <==> cs[|cs| - 1].block.TextBlock?)
      && (anchor[0].Tool? ==> Join(cs[|cs| - 1].pieces) == Received(ops))
  }

  lemma LastBlockSnoc(ops: seq<Op>, op: Op, cs: seq<Anthropic.Content>)
    requires LastBlock(ops, cs) && (op.Say? ==> op.text != "")
    ensures LastBlock(ops + [op], Next(ops, op, cs))
  {
    hide Anthropic.Opens, Anthropic.Anchor, Received, Join;
    AnchorSnoc(ops, op);
    JoinOne(if op.Tool? then op.d.arguments else "");
    if cs != [] && op.Tool? {
      JoinSnoc(cs[|cs| - 1].pieces, op.d.arguments);
    }
  }

  lemma {:induction false} LastBlockHolds(ops: seq<Op>)
    requires Anthropic.Parsed(ops)
    ensures LastBlock(ops, Anthropic.Denote(ops))
  {
    if ops != [] {
      hide LastBlock, Next, Anthropic.Denote;
      var front, op := ops[..|ops| - 1], ops[|ops| - 1];
      assert front + [op] == ops && op in ops;
      LastBlockHolds(front);
      LastBlockSnoc(front, op, Anthropic.Denote(front));
      DenoteNext(front, op);
    }
  }

  /** In step, the call of the open tool block is the direct reader's newest item. */
  ghost predicate LastCall(ops: seq<Op>, st: Chat.State) {
    InTool(ops) ==>
      var i := Anthropic.Anchor(ops)[0].d.index;
      i in st.calls && st.calls[i] == |st.slots| - 1
  }

  lemma LastCallSnoc(ops: seq<Op>, op: Op, st: Chat.State)
    requires Chat.Wf(st) && LastCall(ops, st) && InStep(ops, op)
    requires forall i :: i in st.calls <==> DeltasOf(ops, i) != []
    ensures LastCall(ops + [op], ChatStep(st, op))
  {
    hide Anthropic.Anchor, Chat.Wf, Chat.OnTool, Chat.OnContent, Chat.CloseText, Chat.Absorb, DeltasOf, Talking, DetourTalking;
    AnchorSnoc(ops, op);
    if op.Tool? {
      Chat.ToolSlots(st, op.d);
    }
  }

  // ----- Content -----

  lemma SayAgrees(ops: seq<Op>, op: Op, st: Chat.State, cs: seq<Anthropic.Content>)
    requires Chat.Wf(st) && Twins(st.slots, cs) && (st.text.Some? <==> Talking(ops)) && op.Say? && op.text != ""
    ensures Twins(Chat.OnContent(st, op.text).slots, Next(ops, op, cs)) <==> InStep(ops, op)
  {
    hide Anthropic.Opens, Anthropic.Anchor, Chat.Wf, Chat.OnContent, Talking, Anthropic.HasCall, Join, Twins;
    AnchorSnoc(ops, op);
    Chat.ContentSlots(st, op.text);
    TwinsLength(st.slots, cs);
    TwinsLength(Chat.OnContent(st, op.text).slots, Next(ops, op, cs));
    var n := |st.slots| - 1;
    if st.text.None? && !DetourTalking(ops) {
      TwinsAppend(st.slots, cs, Chat.TextSlot([op.text], false), Anthropic.Content(Anthropic.TextBlock, [op.text]));
    } else if st.text.Some? && DetourTalking(ops) {
      TwinsAt(st.slots, cs, n);
      JoinSnoc(st.slots[n].pieces, op.text);
      JoinSnoc(cs[n].pieces, op.text);
      TwinsChanged(st.slots, cs, Chat.OnContent(st, op.text).slots, Next(ops, op, cs), n, n);
    }
  }

  /** Lists that changed at no more than two places agree exactly if they agree there. */
  lemma TwinsChanged(slots: seq<Chat.Slot>, cs: seq<Anthropic.Content>, slots': seq<Chat.Slot>, cs': seq<Anthropic.Content>,
                     a: nat, b: nat)
    requires Twins(slots, cs) && |slots'| == |slots| && |cs'| == |cs| && a < |cs| && b < |cs|
    requires forall k | 0 <= k < |cs| && k != a && k != b :: slots'[k] == slots[k] && cs'[k] == cs[k]
    ensures Twins(slots', cs') <==> Twin(slots'[a], cs'[a]) && Twin(slots'[b], cs'[b])
  {
    hide Twin;
  }

  // ----- Tool deltas -----

  lemma CloseTextTwins(st: Chat.State, cs: seq<Anthropic.Content>)
    requires Chat.Wf(st) && Twins(st.slots, cs)
    ensures Twins(Chat.CloseText(st).slots, cs)
  {
    hide Chat.SlotOk, Join;
  }

  /** A delta with an id opens a block on the detour, and an item of the direct reader exactly if its index is new. */
  lemma OpeningAgrees(ops: seq<Op>, op: Op, st: Chat.State, cs: seq<Anthropic.Content>)
    requires Chat.Wf(st) && Twins(st.slots, cs) && op.Tool? && op.d.id != ""
    requires forall i :: i in st.calls <==> DeltasOf(ops, i) != []
    ensures Twins(Chat.OnTool(st, op.d).slots, Next(ops, op, cs)) <==> InStep(ops, op)
  {
    hide Anthropic.Opens, Anthropic.Anchor, Twins, Chat.Wf, Chat.OnTool, Chat.CloseText, Chat.Absorb, Twin, DeltasOf;
    var d := op.d;
    AnchorSnoc(ops, op);
    Chat.ToolSlots(st, d);
    CloseTextTwins(st, cs);
    var slots := Chat.CloseText(st).slots;
    TwinsLength(slots, cs);
    TwinsLength(Chat.OnTool(st, d).slots, Next(ops, op, cs));
    if d.index !in st.calls {
      AbsorbFirst(|slots|, d);
      TwinsAppend(slots, cs, Chat.Absorb(Chat.CallSlot(d.index, "", "", [], None), |slots|, d).0,
                  Anthropic.Content(Anthropic.ToolUse(d.id, d.name), if d.arguments == "" then [] else [d.arguments]));
    }
  }

  lemma AbsorbFirst(k: nat, d: Chat.ToolDelta)
    ensures Twin(Chat.Absorb(Chat.CallSlot(d.index, "", "", [], None), k, d).0,
                 Anthropic.Content(Anthropic.ToolUse(d.id, d.name), if d.arguments == "" then [] else [d.arguments]))
  {
    assert [] + [d.arguments] == [d.arguments];
  }

  lemma AbsorbMore(s: Chat.Slot, k: nat, d: Chat.ToolDelta)
    requires s.CallSlot?
    ensures var r := Chat.Absorb(s, k, d).0;
      r.CallSlot? && r.name == Chat.Keep(s.name, d.name) && Join(r.pieces) == Join(s.pieces) + d.arguments
  {
    JoinSnoc(s.pieces, d.arguments);
  }

  /** What a delta without id does to the blocks: its arguments go to the open tool block, if there is one. */
  lemma ContinuedBlocks(ops: seq<Op>, op: Op, cs: seq<Anthropic.Content>)
    requires LastBlock(ops, cs) && op.Tool? && op.d.id == ""
    ensures var cs' := Next(ops, op, cs);
      && |cs'| == |cs| && (forall k | 0 <= k < |cs| :: cs'[k].block == cs[k].block)
      && (forall k | 0 <= k < |cs| && !(InTool(ops) && k == |cs| - 1) :: cs'[k] == cs[k])
      && (InTool(ops) ==> cs != [] && Join(cs[|cs| - 1].pieces) == Received(ops)
                          && Join(cs'[|cs| - 1].pieces) == Received(ops) + op.d.arguments)
  {
    hide Anthropic.Opens, Anthropic.Anchor, Received, Join;
    AnchorSnoc(ops, op);
    if cs != [] {
      JoinSnoc(cs[|cs| - 1].pieces, op.d.arguments);
    }
  }

  /** A delta without id for a known call. */
  lemma ContinuingAgrees(ops: seq<Op>, op: Op, st: Chat.State, cs: seq<Anthropic.Content>)
    requires Chat.Wf(st) && Twins(st.slots, cs) && op.Tool? && op.d.id == "" && op.d.index in st.calls
    requires LastBlock(ops, cs) && LastCall(ops, st) && CallHolds(ops, st, op.d.index) && DeltasOf(ops, op.d.index) != []
    ensures Twins(Chat.OnTool(st, op.d).slots, Next(ops, op, cs)) <==> InStep(ops, op)
  {
    hide Anthropic.Opens, Anthropic.Anchor, Chat.Wf, Chat.OnTool, Chat.CloseText, Chat.Absorb, DeltasOf, NameOf, ArgumentsOf,
         Received, Reported, Join, Next, Twins, LastBlock;
    var d, n, k := op.d, |cs| - 1, st.calls[op.d.index];
    Chat.ToolSlots(st, d);
    CloseTextTwins(st, cs);
    ClosedCall(st, k);
    ContinuedBlocks(ops, op, cs);
    var slots, slots', cs' := Chat.CloseText(st).slots, Chat.OnTool(st, d).slots, Next(ops, op, cs);
    AbsorbMore(slots[k], k, d);
    TwinsAt(slots, cs, k);
    if InTool(ops) && !InToolOf(ops, d.index) {
      OtherCall(ops, st, d.index);
      TwinsAt(slots, cs, n);
      OpenTool(ops, cs);
      TwinsChanged(slots, cs, slots', cs', k, n);
    } else {
      TwinsChanged(slots, cs, slots', cs', k, k);
    }
  }

  lemma OpenTool(ops: seq<Op>, cs: seq<Anthropic.Content>)
    requires LastBlock(ops, cs) && InTool(ops)
    ensures cs != [] && cs[|cs| - 1].block.ToolUse?
  {
  }

  lemma ClosedCall(st: Chat.State, k: nat)
    requires Chat.Wf(st) && k < |st.slots| && st.slots[k].CallSlot?
    ensures k < |Chat.CloseText(st).slots| && Chat.CloseText(st).slots[k] == st.slots[k]
  {
  }

  lemma OtherCall(ops: seq<Op>, st: Chat.State, index: int)
    requires Chat.Wf(st) && LastCall(ops, st) && InTool(ops) && !InToolOf(ops, index) && index in st.calls
    ensures st.calls[index] != |st.slots| - 1
  {
  }

  /** A delta without id for an unknown index opens an item of the direct reader only. */
  lemma UnknownDiffers(ops: seq<Op>, op: Op, st: Chat.State, cs: seq<Anthropic.Content>)
    requires Chat.Wf(st) && Twins(st.slots, cs) && LastBlock(ops, cs)
    requires op.Tool? && op.d.id == "" && op.d.index !in st.calls
    ensures !Twins(Chat.OnTool(st, op.d).slots, Next(ops, op, cs))
  {
    hide Chat.Wf, Chat.OnTool, Chat.CloseText, Chat.Absorb, Next, LastBlock, Twin;
    Chat.ToolSlots(st, op.d);
    ContinuedBlocks(ops, op, cs);
  }

  // ----- Exactly -----

  lemma StepAgrees(ops: seq<Op>, op: Op)
    requires Anthropic.Parsed(ops) && (op.Say? ==> op.text != "") && Agreeing(ops) && LastCall(ops, Direct(ops))
    ensures Agreeing(ops + [op]) <==> InStep(ops, op)
    ensures InStep(ops, op) ==> LastCall(ops + [op], Direct(ops + [op]))
  {
    hide Direct, LastCall, InStep, Twins, Anthropic.Denote, Next, LastBlock, CallHolds, DeltasOf, Talking;
    var st, cs := Direct(ops), Anthropic.Denote(ops);
    Books(ops);
    LastBlockHolds(ops);
    DirectSnoc(ops, op);
    DenoteNext(ops, op);
    if InStep(ops, op) {
      LastCallSnoc(ops, op, st);
    }
    match op {
      case Say(text) => SayAgrees(ops, op, st, cs);
      case Stop(_) => StopAgrees(ops, op, cs);
      case Tool(d) =>
        if d.id != "" {
          OpeningAgrees(ops, op, st, cs);
        } else if d.index in st.calls {
          ContinuingAgrees(ops, op, st, cs);
        } else {
          UnknownDiffers(ops, op, st, cs);
          NotContinued(ops, op);
        }
    }
  }

  lemma StopAgrees(ops: seq<Op>, op: Op, cs: seq<Anthropic.Content>)
    requires op.Stop?
    ensures Next(ops, op, cs) == cs && InStep(ops, op)
  {
    assert (ops + [op])[|ops|] == op;
  }

  lemma NotContinued(ops: seq<Op>, op: Op)
    requires op.Tool? && op.d.id == "" && DeltasOf(ops, op.d.index) == []
    ensures !InStep(ops, op)
  {
  }

  lemma EmptyAgrees()
    ensures Agreeing([]) && LastCall([], Direct([])) && Lockstep([])
  {
  }

  /** In lockstep the readers agree. */
  lemma {:induction false} LockstepAgrees(ops: seq<Op>)
    requires Anthropic.Parsed(ops) && Lockstep(ops)
    ensures Agreeing(ops) && LastCall(ops, Direct(ops))
  {
    if ops == [] {
      EmptyAgrees();
    } else {
      hide Agreeing, LastCall, InStep, Lockstep, Direct;
      var front, op := ops[..|ops| - 1], ops[|ops| - 1];
      assert front + [op] == ops && op in ops;
      LockstepSnoc(front, op);
      LockstepAgrees(front);
      StepAgrees(front, op);
    }
  }

  /** The first operation out of step makes the items differ. */
  lemma OutOfStepDiffers(ops: seq<Op>, op: Op)
    requires Anthropic.Parsed(ops + [op]) && Lockstep(ops) && !InStep(ops, op)
    ensures !Agreeing(ops + [op])
  {
    hide Agreeing, LastCall, InStep, Lockstep, Direct;
    assert op in ops + [op] && forall x | x in ops :: x in ops + [op];
    LockstepAgrees(ops);
    StepAgrees(ops, op);
  }

  /** A stream is in lockstep exactly if the readers agree however early it is cut off. */
  lemma {:induction false} AgreeingThroughoutIff(ops: seq<Op>)
    requires Anthropic.Parsed(ops)
    ensures (forall n | 0 <= n <= |ops| :: Agreeing(ops[..n])) <==> Lockstep(ops)
  {
    hide Agreeing, InStep, Lockstep;
    if ops == [] {
      EmptyAgrees();
      assert ops[..0] == [];
    } else {
      var front, op := ops[..|ops| - 1], ops[|ops| - 1];
      assert front + [op] == ops && ops[..|ops|] == ops;
      assert forall n | 0 <= n <= |front| :: front[..n] == ops[..n];
      AgreeingThroughoutIff(front);
      LockstepSnoc(front, op);
      if Lockstep(ops) {
        LockstepAgrees(ops);
      } else if Lockstep(front) {
        OutOfStepDiffers(front, op);
      }
      if forall n | 0 <= n <= |ops| :: Agreeing(ops[..n]) {
        forall n | 0 <= n <= |front|
          ensures Agreeing(front[..n])
        {
          assert Agreeing(ops[..n]);
        }
      }
    }
  }
}
