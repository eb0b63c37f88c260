/** Kinds of chat streams that keep the two readers in lockstep. */
module SerialStreams {
  import opened Text
  import opened ReaderLockstep
  import Chat = ChatStream
  import ChatStreamMeaning
  import Anthropic = AnthropicStream

  /** Argument fragments only ever go to the call whose opening was the last thing to open or close a block. */
  predicate Regular(before: seq<Op>, op: Op) {
    match op
    case Say(_) => Talking(before) == DetourTalking(before)
    case Tool(d) =>
      if d.id != "" then DeltasOf(before, d.index) == []
      else
        && DeltasOf(before, d.index) != [] && (d.name == "" || NameOf(before, d.index) != "")
        && (d.arguments == "" || InToolOf(before, d.index))
    case Stop(_) => true
  }

  ghost predicate AllRegular(ops: seq<Op>) {
    forall n | 0 <= n < |ops| :: Regular(ops[..n], ops[n])
  }

  lemma RegularFront(ops: seq<Op>)
    requires AllRegular(ops) && ops != []
    ensures AllRegular(ops[..|ops| - 1]) && Regular(ops[..|ops| - 1], ops[|ops| - 1])
  {
    hide Regular;
    var front := ops[..|ops| - 1];
    forall n | 0 <= n < |front|
      ensures Regular(front[..n], front[n])
    {
      assert front[..n] == ops[..n] && front[n] == ops[n];
    }
  }

  lemma ArgumentsSnoc(ops: seq<Op>, op: Op, index: int)
    ensures var own := op.Tool? && op.d.index == index;
      && DeltasOf(ops + [op], index) == (if own then DeltasOf(ops, index) + [op.d] else DeltasOf(ops, index))
      && ArgumentsOf(ops + [op], index) == if own then ArgumentsOf(ops, index) + op.d.arguments else ArgumentsOf(ops, index)
  {
    hide ChatOps, Join;
    ChatOpsSnoc(ops, op);
    if op.Tool? {
      ChatStreamMeaning.ToolDeltasSnoc(ChatOps(ops), Chat.Tool(op.d), index);
      var ds := DeltasOf(ops, index);
      assert Chat.Args(ds + [op.d]) == Chat.Args(ds) + [op.d.arguments];
      JoinSnoc(Chat.Args(ds), op.d.arguments);
    } else if op.Say? {
      ChatStreamMeaning.ToolDeltasSnoc(ChatOps(ops), Chat.Content(op.text), index);
    } else {
      assert ChatOps(ops) + [] == ChatOps(ops);
    }
  }

  /** In a regular stream the open tool block has received all arguments of its call. */
  lemma {:induction false} RegularReceives(ops: seq<Op>, index: int)
    requires AllRegular(ops) && InToolOf(ops, index)
    ensures Received(ops) == ArgumentsOf(ops, index)
  {
    hide AllRegular, ArgumentsOf, Received, DeltasOf, Talking;
    var front, op := ops[..|ops| - 1], ops[|ops| - 1];
    assert front + [op] == ops;
    RegularFront(ops);
    AnchorSnoc(front, op);
    ArgumentsSnoc(front, op, index);
    if op.d.id != "" {
      NoArguments(front, index);
    } else {
      RegularReceives(front, index);
    }
  }

  lemma NoArguments(ops: seq<Op>, index: int)
    requires DeltasOf(ops, index) == []
    ensures ArgumentsOf(ops, index) == ""
  {
  }

  /** Regular streams are in lockstep: both readers add every fragment to the same call. */
  lemma {:induction false} RegularIsLockstep(ops: seq<Op>)
    requires AllRegular(ops)
    ensures Lockstep(ops)
  {
    if ops != [] {
      hide AllRegular, Lockstep, ArgumentsOf, Received, DeltasOf, Talking, DetourTalking, Reported, InTool;
      var front, op := ops[..|ops| - 1], ops[|ops| - 1];
      assert front + [op] == ops;
      RegularFront(ops);
      RegularIsLockstep(front);
      LockstepSnoc(front, op);
      if op.Tool? && InToolOf(front, op.d.index) {
        RegularReceives(front, op.d.index);
      }
      NothingAdded(if op.Tool? then ArgumentsOf(front, op.d.index) else "");
      NothingAdded(Received(front));
    }
  }

  lemma NothingAdded(s: string)
    ensures s + "" == s
  {
  }

  /** Text, then tool calls one after the other: each opens with an id under a new index and goes on, without id and name,
      directly behind its own last delta. Finish reasons may stand behind the text, between calls and at the end. */
  predicate Serial(before: seq<Op>, op: Op) {
    match op
    case Say(_) => forall x | x in before :: x.Say?
    case Tool(d) =>
      if d.id != "" then forall x | x in before && x.Tool? :: x.d.index != d.index
      else d.name == "" && before != [] && before[|before| - 1].Tool? && before[|before| - 1].d.index == d.index
    case Stop(_) => true
  }

  ghost predicate AllSerial(ops: seq<Op>) {
    forall n | 0 <= n < |ops| :: Serial(ops[..n], ops[n])
  }

  lemma SerialPrefix(ops: seq<Op>, n: nat)
    requires AllSerial(ops) && n < |ops|
    ensures AllSerial(ops[..n]) && Serial(ops[..n], ops[n])
  {
    hide Serial;
    forall m | 0 <= m < n
      ensures Serial(ops[..n][..m], ops[..n][m])
    {
      assert ops[..n][..m] == ops[..m];
    }
  }

  lemma {:induction false} SerialAnchor(ops: seq<Op>)
    requires AllSerial(ops) && ops != [] && ops[|ops| - 1].Tool?
    ensures InToolOf(ops, ops[|ops| - 1].d.index)
  {
    if ops[|ops| - 1].d.id == "" {
      hide Serial;
      SerialPrefix(ops, |ops| - 1);
      SerialContinues(ops);
      SerialAnchor(ops[..|ops| - 1]);
    }
  }

  lemma SerialContinues(ops: seq<Op>)
    requires ops != [] && Serial(ops[..|ops| - 1], ops[|ops| - 1]) && ops[|ops| - 1].Tool? && ops[|ops| - 1].d.id == ""
    ensures |ops| > 1 && ops[|ops| - 2].Tool? && ops[|ops| - 2].d.index == ops[|ops| - 1].d.index
  {
  }

  lemma {:induction false} NoDeltas(ops: seq<Op>, index: int)
    ensures DeltasOf(ops, index) == [] <==> forall x | x in ops && x.Tool? :: x.d.index != index
  {
    if ops != [] {
      hide DeltasOf;
      var front, op := ops[..|ops| - 1], ops[|ops| - 1];
      NoDeltas(front, index);
      assert front + [op] == ops;
      ArgumentsSnoc(front, op, index);
      assert forall x :: x in ops <==> x in front || x == op;
    } else {
      assert ChatOps(ops) == [];
    }
  }

  /** Text followed by serial tool calls is a regular stream. */
  lemma SerialIsRegular(ops: seq<Op>)
    requires AllSerial(ops)
    ensures AllRegular(ops)
  {
    hide DeltasOf, NameOf, InToolOf, AllSerial, Talking, DetourTalking;
    forall n | 0 <= n < |ops|
      ensures Regular(ops[..n], ops[n])
    {
      SerialPrefix(ops, n);
      var before, op := ops[..n], ops[n];
      if op.Say? {
        TextOnly(before);
      } else if op.Tool? {
        NoDeltas(before, op.d.index);
        if op.d.id == "" {
          assert before[n - 1] in before;
          SerialAnchor(before);
        }
      }
    }
  }

  lemma TextOnly(ops: seq<Op>)
    requires forall x | x in ops :: x.Say?
    ensures Talking(ops) == DetourTalking(ops)
  {
    assert ops != [] ==> ops[|ops| - 1] in ops;
  }
}
