/** The stateful translator from a messages stream to a Responses stream, proved to compute `MessagesStream.Translate`. */
module MessagesTranslator {
  import opened Text
  import opened ResponsesEvents
  import opened MessagesStream
  import opened MessagesIndices

  datatype Kind = TextKind | ToolKind | ThinkingKind

  /** One content block. `buf` stands for the text buffer or the argument buffer, whichever the kind uses. */
  datatype BlockState = BlockState(kind: Kind, outputIndex: nat, itemId: nat, callId: string, name: string,
                                   buf: string, closed: bool)

  ghost predicate BlockMatches(b: BlockState, t: Target, slots: seq<Slot>) {
    match t
    case Discarded => b.kind.ThinkingKind?
    case Item(k) =>
      && k < |slots|
      && b.kind == (if slots[k].tool then ToolKind else TextKind)
      && b.outputIndex == slots[k].index && b.itemId == k
      && (slots[k].tool ==> b.callId == SyntheticCallId(k) && b.name == slots[k].name)
      && b.buf == Join(slots[k].pieces) && b.closed == slots[k].closed
  }

  /** The translator's fields, and the state they stand for. */
  ghost predicate Matches(st: State, blocks: map<int, BlockState>, order: seq<int>, output: seq<FinalEntry>,
                          stopReason: string, minted: nat)
  {
    && Basic(st)
    && blocks.Keys == st.blocks.Keys
    && (forall i | i in blocks :: BlockMatches(blocks[i], st.blocks[i], st.slots))
    && order == st.order && output == st.output && stopReason == st.stopReason && minted == |st.slots|
  }

  predicate Live(blocks: map<int, BlockState>, i: int) {
    i in blocks && !blocks[i].closed && !blocks[i].kind.ThinkingKind?
  }

  lemma StartMatches(st: State, blocks: map<int, BlockState>, order: seq<int>, output: seq<FinalEntry>,
                     stopReason: string, minted: nat, i: int, b: Block, bs: BlockState)
    requires Matches(st, blocks, order, output, stopReason, minted) && IsItem(b)
    requires BlockMatches(bs, Item(minted), OnStart(st, i, b).slots)
    ensures Matches(OnStart(st, i, b), blocks[i := bs], order + [i], output, stopReason, minted + 1)
  {
    BasicStart(st, i, b);
    var r := OnStart(st, i, b);
    forall j | j in blocks && j != i
      ensures BlockMatches(blocks[j], r.blocks[j], r.slots)
    {
      assert BlockMatches(blocks[j], st.blocks[j], st.slots);
    }
  }

  /** Only block `i` stands for its slot. */
  lemma UpdateMatches(st: State, r: State, blocks: map<int, BlockState>, order: seq<int>, output: seq<FinalEntry>,
                      stopReason: string, minted: nat, i: int, bs: BlockState)
    requires Matches(st, blocks, order, output, stopReason, minted) && Open(st, i) && Basic(r)
    requires |r.slots| == |st.slots|
    requires r == st.(slots := st.slots[st.blocks[i].slot := r.slots[st.blocks[i].slot]], output := r.output, trace := r.trace)
    requires BlockMatches(bs, st.blocks[i], r.slots)
    ensures Matches(r, blocks[i := bs], order, r.output, stopReason, minted)
  {
    forall j | j in blocks && j != i
      ensures BlockMatches(blocks[j], r.blocks[j], r.slots)
    {
      assert BlockMatches(blocks[j], st.blocks[j], st.slots);
    }
  }

  class Translator {
    const responseId: string
    var createdSent: bool
    var blocks: map<int, BlockState>
    var blockOrder: seq<int>
    var output: seq<FinalEntry>
    var stopReason: string
    var minted: nat
    var sent: seq<Event>
    ghost var state: State

    constructor (responseId: string)
      ensures Valid() && state == Init && !createdSent && this.responseId == responseId
    {
      this.responseId := responseId;
      createdSent, blocks, blockOrder, output := false, map[], [], [];
      stopReason, minted, sent := "", 0, [];
      state := Init;
    }

    ghost predicate Valid()
      reads this
    {
      && Matches(state, blocks, blockOrder, output, stopReason, minted)
      && sent == (if createdSent then [Created(responseId)] else []) + state.trace
      && (!createdSent ==> state.slots == [] && state.trace == [])
    }

    lemma Facts()
      requires Valid()
      ensures blockOrder == state.order && output == state.output && stopReason == state.stopReason
      ensures minted == |state.slots| && Basic(state)
      ensures sent == (if createdSent then [Created(responseId)] else []) + state.trace
      ensures forall i :: Live(blocks, i) <==> Open(state, i)
      ensures forall i | i in blocks :: i in state.blocks && BlockMatches(blocks[i], state.blocks[i], state.slots)
      ensures blocks.Keys == state.blocks.Keys
    {
      forall i
        ensures Live(blocks, i) <==> Open(state, i)
      {
        if i in blocks {
          assert BlockMatches(blocks[i], state.blocks[i], state.slots);
        }
      }
    }

    method Emit(e: Event)
      modifies this`sent
      ensures sent == old(sent) + [e]
    {
      sent := sent + [e];
    }

    method EmitCreated()
      requires Valid()
      modifies this
      ensures Valid() && createdSent && state == old(state)
    {
      if !createdSent {
        Emit(Created(responseId));
        createdSent := true;
      }
    }

    /** The counter adds the finished items and the started indices that stand for an open item. */
    method NextOutputIndex() returns (n: nat)
      requires Valid()
      ensures n == NextIndex(state)
    {
      hide Matches;
      Facts();
      var live := 0;
      for j := 0 to |blockOrder|
        invariant live == LiveCount(state, j)
      {
        if Live(blocks, blockOrder[j]) {
          live := live + 1;
        }
      }
      n := |output| + live;
    }

    method HandleContentBlockStart(index: int, block: Block)
      requires Valid()
      modifies this
      ensures Valid() && createdSent && state == OnStart(old(state), index, block)
    {
      EmitCreated();
      var next := NextOutputIndex();
      match block {
        case TextBlock(text) => StartText(index, text, next);
        case ToolBlock(name, input) => StartTool(index, name, input, next);
        case Thinking =>
          ThinkingMatches(index);
          blocks := blocks[index := BlockState(ThinkingKind, next, 0, "", "", "", false)];
          state := OnStart(state, index, block);
        case Unknown =>
      }
    }

    lemma ThinkingMatches(index: int)
      requires Valid()
      ensures Basic(OnStart(state, index, Thinking))
      ensures forall b: BlockState | b.kind.ThinkingKind? ::
                Matches(OnStart(state, index, Thinking), blocks[index := b], blockOrder, output, stopReason, minted)
    {
      BasicStart(state, index, Thinking);
    }

    method StartText(index: int, text: string, next: nat)
      requires Valid() && createdSent && next == NextIndex(state)
      modifies this
      ensures Valid() && createdSent && state == OnStart(old(state), index, TextBlock(text))
    {
      hide Matches, Basic, NextIndex, Join;
      Facts();
      var bs := BlockState(TextKind, next, minted, "", "", text, false);
      JoinOne(text);
      StartMatches(state, blocks, blockOrder, output, stopReason, minted, index, TextBlock(text), bs);
      minted := minted + 1;
      blocks := blocks[index := bs];
      blockOrder := blockOrder + [index];
      Emit(ItemAdded(bs.outputIndex, Message(bs.itemId, InProgress, "")));
      Emit(PartAdded(bs.outputIndex, bs.itemId));
      if text != "" {
        Emit(TextDelta(bs.outputIndex, bs.itemId, text));
      }
      state := OnStart(state, index, TextBlock(text));
      assert sent == old(sent) + OpeningEvents(TextBlock(text), next, bs.itemId);
    }

    method StartTool(index: int, name: string, input: string, next: nat)
      requires Valid() && createdSent && next == NextIndex(state)
      modifies this
      ensures Valid() && createdSent && state == OnStart(old(state), index, ToolBlock(name, input))
    {
      hide Matches, Basic, NextIndex, Join, TrimSpace, SyntheticCallId;
      Facts();
      var bs := BlockState(ToolKind, next, minted, SyntheticCallId(minted), name, "", false);
      JoinOne(input);
      if input != "" && TrimSpace(input) != "{}" {
        bs := bs.(buf := input);
      }
      StartMatches(state, blocks, blockOrder, output, stopReason, minted, index, ToolBlock(name, input), bs);
      minted := minted + 1;
      blocks := blocks[index := bs];
      blockOrder := blockOrder + [index];
      Emit(ItemAdded(bs.outputIndex, FunctionCall(bs.itemId, InProgress, bs.callId, bs.name, "")));
      state := OnStart(state, index, ToolBlock(name, input));
      assert sent == old(sent) + OpeningEvents(ToolBlock(name, input), next, bs.itemId);
    }

    method HandleContentBlockDelta(index: int, delta: Delta)
      requires Valid()
      modifies this
      ensures Valid() && createdSent == old(createdSent) && state == OnDelta(old(state), index, delta)
    {
      hide Matches, Basic;
      Facts();
      if index !in blocks || blocks[index].closed {
        return;
      }
      var bs := blocks[index];
      match delta {
        case TextPiece(text) =>
          if bs.kind.TextKind? && text != "" {
            AddPiece(index, bs.(buf := bs.buf + text), delta, text);
            Emit(TextDelta(bs.outputIndex, bs.itemId, text));
            state := OnDelta(state, index, delta);
          }
        case JsonPiece(text) =>
          if bs.kind.ToolKind? && text != "" {
            AddPiece(index, bs.(buf := bs.buf + text), delta, text);
            Emit(ArgsDelta(bs.outputIndex, bs.itemId, text));
            state := OnDelta(state, index, delta);
          }
        case Dropped =>
      }
    }

    /** Stores the extended buffer; the caller then reports the delta. */
    method AddPiece(index: int, bs: BlockState, ghost delta: Delta, piece: string)
      requires Valid() && Open(state, index) && piece != "" && piece == Piece(delta, state.slots[state.blocks[index].slot].tool)
      requires index in blocks && bs == blocks[index].(buf := blocks[index].buf + piece)
      modifies this`blocks
      ensures Matches(OnDelta(state, index, delta), blocks, blockOrder, output, stopReason, minted)
    {
      var k := state.blocks[index].slot;
      JoinSnoc(state.slots[k].pieces, piece);
      assert BlockMatches(blocks[index], state.blocks[index], state.slots);
      BasicDelta(state, index, delta);
      UpdateMatches(state, OnDelta(state, index, delta), blocks, blockOrder, output, stopReason, minted, index, bs);
      blocks := blocks[index := bs];
    }

    method HandleContentBlockStop(index: int)
      requires Valid()
      modifies this
      ensures Valid() && createdSent == old(createdSent) && state == OnStop(old(state), index)
    {
      if index !in blocks || blocks[index].closed {
        Facts();
        return;
      }
      CloseBlock(index);
    }

    /** Reports a finished block and files its item. */
    method CloseBlock(index: int)
      requires Valid() && index in blocks && !blocks[index].closed
      modifies this
      ensures Valid() && createdSent == old(createdSent) && state == OnStop(old(state), index)
    {
      hide Matches, Basic, OnStop, Blank, BlockMatches, TrimSpace, Join;
      var bs := blocks[index];
      if bs.kind.ThinkingKind? {
        CloseThinking(index);
        blocks := blocks[index := bs.(closed := true)];
        return;
      }
      CloseItem(index);
      var item;
      ghost var before := sent;
      if bs.kind.TextKind? {
        item := Message(bs.itemId, Completed, bs.buf);
        Emit(TextDone(bs.outputIndex, bs.itemId, bs.buf));
        Emit(PartDone(bs.outputIndex, bs.itemId, bs.buf));
      } else {
        var args := bs.buf;
        if Blank(args) {
          args := "{}";
        }
        item := FunctionCall(bs.itemId, Completed, bs.callId, bs.name, args);
        Emit(ArgsDone(bs.outputIndex, bs.itemId, args));
      }
      Emit(ItemDone(bs.outputIndex, item));
      output := output + [FinalEntry(bs.outputIndex, item)];
      blocks := blocks[index := bs.(closed := true)];
      state := OnStop(state, index);
      assert bs.kind.TextKind? ==>
        sent == before + [TextDone(bs.outputIndex, bs.itemId, bs.buf), PartDone(bs.outputIndex, bs.itemId, bs.buf), ItemDone(bs.outputIndex, item)];
      assert !bs.kind.TextKind? ==>
        sent == before + [ArgsDone(bs.outputIndex, bs.itemId, item.arguments), ItemDone(bs.outputIndex, item)];
    }

    /** The item of an open block, and the state once it is closed, in terms of the block's fields. */
    lemma CloseItem(index: int)
      requires Valid() && Live(blocks, index)
      ensures var bs, r := blocks[index], OnStop(state, index);
        var args := if Blank(bs.buf) then "{}" else bs.buf;
        var item := if bs.kind.TextKind? then Message(bs.itemId, Completed, bs.buf)
          else FunctionCall(bs.itemId, Completed, bs.callId, bs.name, args);
        var done := ItemDone(bs.outputIndex, item);
        && Matches(r, blocks[index := bs.(closed := true)], blockOrder, output + [FinalEntry(bs.outputIndex, item)], stopReason, minted)
        && r.trace == state.trace +
          (if bs.kind.TextKind? then [TextDone(bs.outputIndex, bs.itemId, bs.buf), PartDone(bs.outputIndex, bs.itemId, bs.buf), done]
           else [ArgsDone(bs.outputIndex, bs.itemId, args), done])
        && state.slots != []
    {
      hide Basic, Matches, Blank;
      Facts();
      assert BlockMatches(blocks[index], state.blocks[index], state.slots);
      BasicStop(state, index);
      UpdateMatches(state, OnStop(state, index), blocks, blockOrder, output, stopReason, minted, index, blocks[index].(closed := true));
    }

    lemma CloseThinking(index: int)
      requires Valid() && index in blocks && blocks[index].kind.ThinkingKind?
      ensures OnStop(state, index) == state
      ensures Matches(state, blocks[index := blocks[index].(closed := true)], blockOrder, output, stopReason, minted)
    {
      assert BlockMatches(blocks[index], state.blocks[index], state.slots);
    }

    /** Closes the blocks whose stop never arrived. */
    method CloseStragglers()
      requires Valid() && createdSent
      modifies this
      ensures Valid() && createdSent && state == Settle(old(state))
    {
      hide Matches, Basic, BlockMatches;
      Facts();
      ghost var order := state.order;
      BasicCloseAll(state, order[..0]);
      for j := 0 to |blockOrder|
        invariant Valid() && createdSent && blockOrder == order == old(state).order
        invariant state == CloseAll(old(state), order[..j])
      {
        Facts();
        if Live(blocks, blockOrder[j]) {
          CloseBlock(blockOrder[j]);
          Facts();
        }
        assert order[..j + 1][..j] == order[..j];
        BasicCloseAll(old(state), order[..j + 1]);
      }
      assert order[..|order|] == order;
    }

    method Terminate(outcome: Outcome)
      requires Valid()
      modifies this
      ensures Valid() && createdSent && state == Finish(old(state), responseId, outcome)
    {
      hide Matches, Basic, BlockMatches, Settle;
      EmitCreated();
      CloseStragglers();
      Facts();
      ghost var r := Finish(old(state), responseId, outcome);
      Emit(Terminal(outcome, responseId, ItemsOf(SortEntries(output))));
      SameFields(state, r, blocks, blockOrder, output, stopReason, minted);
      state := r;
    }

    lemma SameFields(st: State, r: State, blocks: map<int, BlockState>, order: seq<int>, output: seq<FinalEntry>,
                     stopReason: string, minted: nat)
      requires Matches(st, blocks, order, output, stopReason, minted)
      requires r == st.(trace := r.trace, stopReason := r.stopReason)
      ensures Matches(r, blocks, order, output, r.stopReason, minted)
    {
    }

    method HandleMessageDelta(reason: string)
      requires Valid()
      modifies this
      ensures Valid() && createdSent == old(createdSent) && state == Step(old(state), responseId, MessageDelta(reason))
    {
      if reason != "" {
        SameFields(state, state.(stopReason := reason), blocks, blockOrder, output, stopReason, minted);
        stopReason := reason;
        state := state.(stopReason := reason);
      }
    }

    method OnEvent(e: MsgEvent)
      requires Valid()
      modifies this
      ensures Valid() && state == Step(old(state), responseId, e)
    {
      hide Valid;
      match e {
        case MessageStart => EmitCreated();
        case BlockStart(index, block) => HandleContentBlockStart(index, block);
        case BlockDelta(index, delta) => HandleContentBlockDelta(index, delta);
        case BlockStop(index) => HandleContentBlockStop(index);
        case MessageDelta(reason) => HandleMessageDelta(reason);
        case Error(detail) => Terminate(Failed(detail));
        case Ignored =>
      }
    }
  }

  /** The read loop over the parsed events of one upstream body. */
  method TranslateStream(responseId: string, events: seq<MsgEvent>, end: StreamEnd) returns (sent: seq<Event>)
    ensures sent == Translate(responseId, events, end)
  {
    hide Matches, Step, Finish;
    var t := new Translator(responseId);
    for i := 0 to |events|
      invariant t.Valid() && t.responseId == responseId
      invariant t.state == Reach(responseId, events[..i])
    {
      t.OnEvent(events[i]);
      assert events[..i + 1][..i] == events[..i];
    }
    assert events[..|events|] == events;
    match end {
      case ReadError(detail) => t.Terminate(Failed(detail));
      case Clean =>
        t.Facts();
        t.Terminate(if t.stopReason == "max_tokens" then Incomplete else Complete);
    }
    t.Facts();
    sent := t.sent;
  }
}
