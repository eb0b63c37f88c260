/** The stateful translator from a chat-completions stream to a Responses stream, proved to compute `ChatStream.Translate`. */
module ChatTranslator {
  import opened Options
  import opened Text
  import opened ResponsesEvents
  import opened ChatStream

  datatype TextItem = TextItem(itemId: nat, outputIndex: nat, buf: string, closed: bool)

  datatype ToolCall = ToolCall(outputIndex: nat, itemId: nat, callId: string, name: string, args: string,
                               addedSent: bool, closed: bool)

  /** Closed message items in opening order. */
  function TextEntries(slots: seq<Slot>): (r: seq<FinalEntry>)
    ensures forall x | x in r :: x.outputIndex < |slots| && x.item == FinalItem(slots[x.outputIndex], x.outputIndex)
    ensures forall x | x in r :: slots[x.outputIndex].TextSlot?
    ensures DistinctIndices(r)
  {
    if slots == [] then []
    else
      var k := |slots| - 1;
      var before := TextEntries(slots[..k]);
      if slots[k].TextSlot? && slots[k].closed then before + [FinalEntry(k, FinalItem(slots[k], k))] else before
  }

  /** Call items in opening order. */
  function CallEntries(slots: seq<Slot>): (r: seq<FinalEntry>)
    ensures forall x | x in r :: x.outputIndex < |slots| && x.item == FinalItem(slots[x.outputIndex], x.outputIndex)
    ensures forall x | x in r :: slots[x.outputIndex].CallSlot?
    ensures DistinctIndices(r)
  {
    if slots == [] then []
    else
      var k := |slots| - 1;
      var before := CallEntries(slots[..k]);
      if slots[k].CallSlot? then before + [FinalEntry(k, FinalItem(slots[k], k))] else before
  }

  /** Stream indices of the calls in opening order. */
  function Streams(slots: seq<Slot>): (r: seq<int>)
    ensures |r| == |CallEntries(slots)|
  {
    if slots == [] then []
    else
      var k := |slots| - 1;
      if slots[k].CallSlot? then Streams(slots[..k]) + [slots[k].stream] else Streams(slots[..k])
  }

  function Live(text: Option<TextItem>): bool {
    text.Some? && !text.value.closed
  }

  ghost predicate TextMatches(st: State, text: Option<TextItem>)
    requires Wf(st)
  {
    && (Live(text) <==> st.text.Some?)
    && (Live(text) ==>
          var k := st.text.value; text.value == TextItem(k, k, Join(st.slots[k].pieces), false))
  }

  ghost predicate CallMatches(tc: ToolCall, s: Slot, k: nat) {
    && s.CallSlot?
    && tc.outputIndex == k && tc.itemId == k && !tc.closed
    && tc.callId == s.callId && tc.name == s.name && tc.args == Join(s.pieces)
    && (tc.addedSent <==> s.announced.Some?)
  }

  ghost predicate CallsMatch(st: State, calls: map<int, ToolCall>)
    requires Wf(st)
  {
    && calls.Keys == st.calls.Keys
    && forall i | i in calls :: CallMatches(calls[i], st.slots[st.calls[i]], st.calls[i])
  }

  /** The translator's fields, and the state they stand for. */
  ghost predicate Matches(st: State, text: Option<TextItem>, calls: map<int, ToolCall>, order: seq<int>,
                          output: seq<FinalEntry>, minted: nat)
  {
    && Wf(st) && TextMatches(st, text) && CallsMatch(st, calls)
    && order == Streams(st.slots) && output == TextEntries(st.slots) && minted == |st.slots|
  }

  /** Entries, live items and slots are counted alike: only the newest slot can be an open text item. */
  lemma {:induction false} CountSlots(slots: seq<Slot>)
    requires forall k | 0 <= k < |slots| && slots[k].TextSlot? :: slots[k].closed
    ensures |TextEntries(slots)| + |Streams(slots)| == |slots|
  {
    if slots != [] {
      CountSlots(slots[..|slots| - 1]);
    }
  }

  lemma CountState(st: State)
    requires Wf(st)
    ensures |TextEntries(st.slots)| + |Streams(st.slots)| + (if st.text.Some? then 1 else 0) == |st.slots|
  {
    var settled := if st.text.Some? then st.slots[..st.text.value] else st.slots;
    forall j | 0 <= j < |settled| && settled[j].TextSlot?
      ensures settled[j].closed
    {
      assert SlotOk(st.slots[j], j, st.text, st.calls);
    }
    CountSlots(settled);
    if st.text.Some? {
      assert SlotOk(st.slots[|settled|], |settled|, st.text, st.calls);
    }
  }

  /** Call slots may change their contents without moving. */
  lemma {:induction false} EntriesUpTo(a: seq<Slot>, b: seq<Slot>)
    requires |a| == |b|
    requires forall k | 0 <= k < |a| :: if a[k].CallSlot? then b[k].CallSlot? && b[k].stream == a[k].stream else b[k] == a[k]
    ensures TextEntries(a) == TextEntries(b) && Streams(a) == Streams(b)
  {
    if a != [] {
      EntriesUpTo(a[..|a| - 1], b[..|b| - 1]);
    }
  }

  lemma OpenTextMatches(st: State, text: Option<TextItem>, calls: map<int, ToolCall>, order: seq<int>,
                        output: seq<FinalEntry>, n: nat)
    requires Matches(st, text, calls, order, output, n) && !Live(text)
    ensures Matches(OpenText(st), Some(TextItem(n, n, "", false)), calls, order, output, n + 1)
  {
    assert OpenText(st).slots[..n] == st.slots;
  }

  lemma AppendTextMatches(st: State, text: Option<TextItem>, calls: map<int, ToolCall>, order: seq<int>,
                          output: seq<FinalEntry>, n: nat, delta: string)
    requires Matches(st, text, calls, order, output, n) && Live(text)
    ensures Matches(AppendText(st, delta), Some(text.value.(buf := text.value.buf + delta)), calls, order, output, n)
  {
    var k := st.text.value;
    var r := AppendText(st, delta);
    JoinSnoc(st.slots[k].pieces, delta);
    assert r.slots[..k] == st.slots[..k];
    assert SlotOk(st.slots[k], k, st.text, st.calls);
  }

  lemma CloseTextMatches(st: State, text: Option<TextItem>, calls: map<int, ToolCall>, order: seq<int>,
                         output: seq<FinalEntry>, n: nat)
    requires Matches(st, text, calls, order, output, n) && Live(text)
    ensures var e := FinalEntry(text.value.outputIndex, Message(text.value.itemId, Completed, text.value.buf));
      Matches(CloseText(st), Some(text.value.(closed := true)), calls, order, output + [e], n)
  {
    var k := st.text.value;
    assert CloseText(st).slots[..k] == st.slots[..k];
    assert SlotOk(st.slots[k], k, st.text, st.calls);
  }

  lemma EnsureCallMatches(st: State, text: Option<TextItem>, calls: map<int, ToolCall>, order: seq<int>,
                          output: seq<FinalEntry>, n: nat, index: int)
    requires Matches(st, text, calls, order, output, n) && !Live(text) && index !in calls
    ensures Matches(EnsureCall(st, index), text, calls[index := ToolCall(n, n, "", "", "", false, false)],
                    order + [index], output, n + 1)
  {
    assert EnsureCall(st, index).slots[..n] == st.slots;
  }

  /** The call after one delta, as the fields of its slot after `Absorb`. */
  lemma AbsorbMatches(st: State, text: Option<TextItem>, calls: map<int, ToolCall>, order: seq<int>,
                      output: seq<FinalEntry>, n: nat, d: ToolDelta, tc: ToolCall)
    requires Matches(st, text, calls, order, output, n) && !Live(text) && d.index in calls
    requires CallMatches(tc, Absorb(st.slots[st.calls[d.index]], st.calls[d.index], d).0, st.calls[d.index])
    ensures st.text.None? && CloseText(st) == st && EnsureCall(st, d.index) == st
    ensures Matches(OnTool(st, d), text, calls[d.index := tc], order, output, n)
  {
    hide Identify, AppendArgs, Absorb, CallMatches, SlotOk;
    var k := st.calls[d.index];
    assert st.text.None?;
    var r := OnTool(st, d);
    assert r.slots == st.slots[k := Absorb(st.slots[k], k, d).0];
    EntriesUpTo(st.slots, r.slots);
  }

  /** The slot of the `j`-th call. */
  lemma {:induction false} CallAt(slots: seq<Slot>, j: nat) returns (k: nat)
    requires j < |Streams(slots)|
    ensures k < |slots| && slots[k].CallSlot? && slots[k].stream == Streams(slots)[j]
    ensures |Streams(slots[..k])| == j
  {
    k := |slots| - 1;
    if j < |Streams(slots[..k])| {
      var front := slots[..k];
      k := CallAt(front, j);
      assert front[..k] == slots[..k];
    }
  }

  /** Text slots contribute neither closing events nor call entries. */
  lemma {:induction false} SkipTexts(slots: seq<Slot>, a: nat, b: nat)
    requires a <= b <= |slots| && |Streams(slots[..a])| == |Streams(slots[..b])|
    ensures Closings(slots[..a]) == Closings(slots[..b]) && CallEntries(slots[..a]) == CallEntries(slots[..b])
  {
    if a < b {
      StreamsGrow(slots, a, b - 1);
      assert slots[..b][..b - 1] == slots[..b - 1];
      SkipTexts(slots, a, b - 1);
    }
  }

  lemma {:induction false} StreamsGrow(slots: seq<Slot>, a: nat, b: nat)
    requires a <= b <= |slots|
    ensures |Streams(slots[..a])| <= |Streams(slots[..b])|
  {
    if a < b {
      assert slots[..b][..b - 1] == slots[..b - 1];
      StreamsGrow(slots, a, b - 1);
    }
  }

  lemma CallOrder(slots: seq<Slot>, a: nat, b: nat)
    requires a <= |slots| && b < |slots| && slots[b].CallSlot? && |Streams(slots[..a])| <= |Streams(slots[..b])|
    ensures a <= b
  {
    if b < a {
      assert slots[..b + 1][..b] == slots[..b];
      StreamsGrow(slots, b + 1, a);
    }
  }

  /** The calls from slot `from` on are recorded, each under its own stream index, and still open. */
  ghost predicate Listed(calls: map<int, ToolCall>, slots: seq<Slot>, from: nat) {
    forall k | from <= k < |slots| && slots[k].CallSlot? ::
      && slots[k].stream in calls && CallMatches(calls[slots[k].stream], slots[k], k)
      && forall j | k < j < |slots| && slots[j].CallSlot? :: slots[j].stream != slots[k].stream
  }

  lemma ListedCall(calls: map<int, ToolCall>, slots: seq<Slot>, from: nat, k: nat)
    requires Listed(calls, slots, from) && from <= k < |slots| && slots[k].CallSlot?
    ensures slots[k].stream in calls && CallMatches(calls[slots[k].stream], slots[k], k) && !calls[slots[k].stream].closed
  {
  }

  lemma ListedRest(calls: map<int, ToolCall>, slots: seq<Slot>, from: nat, k: nat, tc: ToolCall)
    requires Listed(calls, slots, from) && from <= k < |slots| && slots[k].CallSlot?
    ensures Listed(calls[slots[k].stream := tc], slots, k + 1)
  {
  }

  lemma CallStep(slots: seq<Slot>, k: nat)
    requires k < |slots| && slots[k].CallSlot?
    ensures Closings(slots[..k + 1]) == Closings(slots[..k]) + ClosingOf(slots[k], k)
    ensures CallEntries(slots[..k + 1]) == CallEntries(slots[..k]) + [FinalEntry(k, FinalItem(slots[k], k))]
    ensures |Streams(slots[..k + 1])| == |Streams(slots[..k])| + 1
  {
    assert slots[..k + 1][..k] == slots[..k];
  }

  /** The entries present once everything is closed sort into the snapshot. */
  lemma EntriesSort(slots: seq<Slot>)
    requires forall k | 0 <= k < |slots| && slots[k].TextSlot? :: slots[k].closed
    ensures ItemsOf(SortEntries(TextEntries(slots) + CallEntries(slots))) == Items(slots)
  {
    CountSlots(slots);
    var a, b := TextEntries(slots), CallEntries(slots);
    var c: seq<FinalEntry> := a + b;
    forall i, j | 0 <= i < j < |c|
      ensures c[i].outputIndex != c[j].outputIndex
    {
      if i < |a| <= j {
        assert c[i] in a && c[j] in b;
      }
    }
    SnapshotOrder(c, Items(slots));
  }

  class Translator {
    const responseId: string
    var createdSent: bool
    var textItem: Option<TextItem>
    var toolCalls: map<int, ToolCall>
    var toolOrder: seq<int>
    var output: seq<FinalEntry>
    var finishReason: string
    var minted: nat
    var sent: seq<Event>
    ghost var state: State

    constructor (responseId: string)
      ensures Valid() && state == Init && !createdSent && finishReason == "" && this.responseId == responseId
    {
      this.responseId := responseId;
      createdSent, textItem, toolCalls, toolOrder, output := false, None, map[], [], [];
      finishReason, minted, sent := "", 0, [];
      state := Init;
    }

    ghost predicate Valid()
      reads this
    {
      && Matches(state, textItem, toolCalls, toolOrder, output, minted)
      && sent == (if createdSent then [Created(responseId)] else []) + state.trace
      && (!createdSent ==> sent == [])
    }

    lemma Facts()
      requires Valid()
      ensures Wf(state) && TextMatches(state, textItem) && toolCalls.Keys == state.calls.Keys
      ensures toolOrder == Streams(state.slots) && output == TextEntries(state.slots)
      ensures forall i | i in state.calls ::
                state.calls[i] < |state.slots| && state.slots[state.calls[i]].CallSlot? &&
                CallMatches(toolCalls[i], state.slots[state.calls[i]], state.calls[i])
    {
    }

    /** The counter adds the items in the output list and the items still open. */
    method NextOutputIndex() returns (n: nat)
      requires Valid()
      ensures n == |state.slots|
    {
      var live := 0;
      if Live(textItem) {
        live := live + 1;
      }
      for j := 0 to |toolOrder|
        invariant live == j + (if Live(textItem) then 1 else 0)
      {
        ghost var k := CallAt(state.slots, j);
        assert SlotOk(state.slots[k], k, state.text, state.calls);
        assert CallMatches(toolCalls[toolOrder[j]], state.slots[k], k);
        if toolOrder[j] in toolCalls && !toolCalls[toolOrder[j]].closed {
          live := live + 1;
        }
      }
      n := |output| + live;
      CountState(state);
    }

    method Emit(e: Event)
      modifies this`sent
      ensures sent == old(sent) + [e]
    {
      sent := sent + [e];
    }

    method OpenTextItem()
      requires Valid() && createdSent && !Live(textItem)
      modifies this
      ensures Valid() && createdSent && finishReason == old(finishReason) && Live(textItem)
      ensures old(state).text.None? && state == OpenText(old(state))
    {
      hide Matches, Wf, StepAll, Streams, TextEntries;
      Facts();
      var index := NextOutputIndex();
      OpenTextMatches(state, textItem, toolCalls, toolOrder, output, minted);
      var item := TextItem(minted, index, "", false);
      minted := minted + 1;
      textItem := Some(item);
      Emit(ItemAdded(item.outputIndex, Message(item.itemId, InProgress, "")));
      Emit(PartAdded(item.outputIndex, item.itemId));
      state := OpenText(state);
      assert sent == old(sent) + TextOpening(index);
    }

    method HandleContentDelta(delta: string)
      requires Valid() && createdSent
      modifies this
      ensures Valid() && createdSent && finishReason == old(finishReason)
      ensures state == OnContent(old(state), delta)
    {
      hide Matches, Wf;
      Facts();
      if !Live(textItem) {
        OpenTextItem();
        Facts();
      }
      AppendTextMatches(state, textItem, toolCalls, toolOrder, output, minted, delta);
      var item := textItem.value;
      textItem := Some(item.(buf := item.buf + delta));
      Emit(TextDelta(item.outputIndex, item.itemId, delta));
      state := AppendText(state, delta);
    }

    method CloseTextItem()
      requires Valid() && createdSent
      modifies this
      ensures Valid() && createdSent && finishReason == old(finishReason)
      ensures state == CloseText(old(state)) && !Live(textItem)
    {
      if !Live(textItem) {
        return;
      }
      CloseTextMatches(state, textItem, toolCalls, toolOrder, output, minted);
      var item := textItem.value;
      Emit(TextDone(item.outputIndex, item.itemId, item.buf));
      Emit(PartDone(item.outputIndex, item.itemId, item.buf));
      var msg := Message(item.itemId, Completed, item.buf);
      Emit(ItemDone(item.outputIndex, msg));
      output := output + [FinalEntry(item.outputIndex, msg)];
      textItem := Some(item.(closed := true));
      state := CloseText(state);
    }

    /** The lookup that creates a call on its first delta. */
    method FindOrCreateCall(index: int)
      requires Valid() && createdSent && !Live(textItem)
      modifies this
      ensures Valid() && createdSent && finishReason == old(finishReason) && !Live(textItem)
      ensures state == EnsureCall(old(state), index)
    {
      if index !in toolCalls {
        var next := NextOutputIndex();
        EnsureCallMatches(state, textItem, toolCalls, toolOrder, output, minted, index);
        toolCalls := toolCalls[index := ToolCall(next, minted, "", "", "", false, false)];
        minted := minted + 1;
        toolOrder := toolOrder + [index];
        state := EnsureCall(state, index);
      }
    }

    /** Fields are set once; the call is announced as soon as it has an id or a name. */
    method IdentifyCall(call: ToolCall, d: ToolDelta, ghost s: Slot, ghost k: nat) returns (tc: ToolCall)
      requires CallMatches(call, s, k)
      modifies this`sent
      ensures CallMatches(tc, Identify(s, k, d).0, k)
      ensures sent == old(sent) + Identify(s, k, d).1
    {
      tc := call;
      if d.id != "" && tc.callId == "" {
        tc := tc.(callId := d.id);
      }
      if d.name != "" && tc.name == "" {
        tc := tc.(name := d.name);
      }
      if !tc.addedSent && (tc.callId != "" || tc.name != "") {
        Emit(ItemAdded(tc.outputIndex, FunctionCall(tc.itemId, InProgress, tc.callId, tc.name, "")));
        tc := tc.(addedSent := true);
      }
    }

    method AppendCallArgs(call: ToolCall, args: string, ghost s: Slot, ghost k: nat) returns (tc: ToolCall)
      requires CallMatches(call, s, k)
      modifies this`sent
      ensures CallMatches(tc, AppendArgs(s, k, args).0, k)
      ensures sent == old(sent) + AppendArgs(s, k, args).1
    {
      tc := call;
      if args != "" {
        JoinSnoc(s.pieces, args);
        tc := tc.(args := tc.args + args);
        if tc.addedSent {
          Emit(ArgsDelta(tc.outputIndex, tc.itemId, args));
        }
      }
    }

    method ApplyToCall(d: ToolDelta)
      requires Valid() && createdSent && !Live(textItem) && d.index in toolCalls
      modifies this
      ensures Valid() && createdSent && finishReason == old(finishReason)
      ensures state == OnTool(old(state), d)
    {
      hide Matches, Wf, CallMatches, Identify, AppendArgs, StepAll, Streams, TextEntries;
      Facts();
      ghost var k := state.calls[d.index];
      ghost var s := state.slots[k];
      var tc := IdentifyCall(toolCalls[d.index], d, s, k);
      tc := AppendCallArgs(tc, d.arguments, Identify(s, k, d).0, k);
      AbsorbMatches(state, textItem, toolCalls, toolOrder, output, minted, d, tc);
      toolCalls := toolCalls[d.index := tc];
      assert sent == old(sent) + Absorb(s, k, d).1;
      state := OnTool(state, d);
    }

    method HandleToolCallDelta(d: ToolDelta)
      requires Valid() && createdSent
      modifies this
      ensures Valid() && createdSent && finishReason == old(finishReason)
      ensures state == OnTool(old(state), d)
    {
      hide Matches, Wf, CallMatches, Absorb;
      Facts();
      CloseTextItem();
      Facts();
      FindOrCreateCall(d.index);
      Facts();
      ApplyToCall(d);
    }

    method EmitCreated()
      requires Valid()
      modifies this
      ensures Valid() && createdSent && state == old(state) && finishReason == old(finishReason)
    {
      if !createdSent {
        Emit(Created(responseId));
        createdSent := true;
      }
    }

    method HandleToolCallDeltas(tools: seq<ToolDelta>)
      requires Valid() && createdSent
      modifies this
      ensures Valid() && createdSent && finishReason == old(finishReason)
      ensures Wf(old(state)) && state == StepAll(old(state), ToolOps(tools))
    {
      hide Matches, Wf, OnContent, OnTool, Absorb;
      Facts();
      assert ToolOps(tools[..0]) == [];
      for i := 0 to |tools|
        invariant Valid() && createdSent && finishReason == old(finishReason)
        invariant state == StepAll(old(state), ToolOps(tools[..i]))
      {
        HandleToolCallDelta(tools[i]);
        assert ToolOps(tools[..i + 1])[..i] == ToolOps(tools[..i]);
      }
      assert tools[..|tools|] == tools;
    }

    static lemma ChunkSteps(st: State, chunk: Chunk)
      requires Wf(st)
      ensures StepAll(st, ChunkOps(chunk)) ==
        StepAll(if chunk.content == "" then st else OnContent(st, chunk.content), ToolOps(chunk.tools))
    {
      hide Wf, OnContent, OnTool, ToolOps;
      var text: seq<Op> := if chunk.content == "" then [] else [Content(chunk.content)];
      StepAllConcat(st, text, ToolOps(chunk.tools));
      if chunk.content != "" {
        assert text[..0] == [];
        assert StepAll(st, text) == Step(StepAll(st, text[..0]), text[0]);
      }
    }

    method ApplyChunk(chunk: Chunk)
      requires Valid()
      modifies this
      ensures Valid() && createdSent
      ensures Wf(old(state)) && state == StepAll(old(state), ChunkOps(chunk))
      ensures finishReason == if chunk.finish != "" then chunk.finish else old(finishReason)
    {
      hide Matches, Wf, OnContent, OnTool, StepAll, ToolOps;
      Facts();
      ChunkSteps(state, chunk);
      EmitCreated();
      if chunk.content != "" {
        HandleContentDelta(chunk.content);
      }
      HandleToolCallDeltas(chunk.tools);
      if chunk.finish != "" {
        finishReason := chunk.finish;
      }
    }

    lemma StreamingFacts()
      requires Valid()
      ensures toolOrder == Streams(state.slots) && output == TextEntries(state.slots)
      ensures Listed(toolCalls, state.slots, 0)
      ensures state.slots[..0] == [] && Streams([]) == [] && Closings([]) == [] && CallEntries([]) == []
    {
      forall k | 0 <= k < |state.slots|
        ensures SlotOk(state.slots[k], k, state.text, state.calls)
      {
      }
    }

    method CloseCall(index: int, ghost s: Slot, ghost k: nat)
      requires index in toolCalls && CallMatches(toolCalls[index], s, k)
      modifies this
      ensures sent == old(sent) + ClosingOf(s, k)
      ensures output == old(output) + [FinalEntry(k, FinalItem(s, k))]
      ensures index in toolCalls && toolCalls == old(toolCalls)[index := toolCalls[index]] && toolCalls[index].closed
      ensures toolOrder == old(toolOrder) && state == old(state) && finishReason == old(finishReason)
    {
      var tc := toolCalls[index];
      if !tc.addedSent {
        Emit(ItemAdded(tc.outputIndex, FunctionCall(tc.itemId, InProgress, tc.callId, tc.name, "")));
        tc := tc.(addedSent := true);
      }
      Emit(ArgsDone(tc.outputIndex, tc.itemId, tc.args));
      var item := FunctionCall(tc.itemId, Completed, tc.callId, tc.name, tc.args);
      Emit(ItemDone(tc.outputIndex, item));
      output := output + [FinalEntry(tc.outputIndex, item)];
      toolCalls := toolCalls[index := tc.(closed := true)];
    }

    /** Closes the calls in opening order; afterwards the output list holds every item under its own index. */
    method CloseToolCalls()
      requires Valid() && createdSent && !Live(textItem)
      modifies this
      ensures sent == old(sent) + Closings(state.slots) && state == old(state) && finishReason == old(finishReason)
      ensures output == TextEntries(state.slots) + CallEntries(state.slots)
    {
      hide *;
      ghost var calls := toolCalls;
      ghost var k: nat, slots := 0, state.slots;
      StreamingFacts();
      for j := 0 to |toolOrder|
        invariant k <= |slots| && |Streams(slots[..k])| == j
        invariant toolOrder == old(toolOrder) && state == old(state) && finishReason == old(finishReason)
        invariant Listed(toolCalls, slots, k)
        invariant sent == old(sent) + Closings(slots[..k])
        invariant output == TextEntries(slots) + CallEntries(slots[..k])
      {
        ghost var next := CallAt(slots, j);
        CallOrder(slots, k, next);
        SkipTexts(slots, k, next);
        var index := toolOrder[j];
        ListedCall(toolCalls, slots, k, next);
        label before:
        if index in toolCalls && !toolCalls[index].closed {
          CloseCall(index, slots[next], next);
        }
        CallStep(slots, next);
        ListedRest(old@before(toolCalls), slots, k, next, toolCalls[index]);
        k := next + 1;
      }
      assert slots[..|slots|] == slots;
      SkipTexts(slots, k, |slots|);
    }

    lemma AllClosed()
      requires Valid() && !Live(textItem)
      ensures forall k | 0 <= k < |state.slots| && state.slots[k].TextSlot? :: state.slots[k].closed
      ensures createdSent ==> sent == [Created(responseId)] + state.trace
    {
      assert forall k | 0 <= k < |state.slots| :: SlotOk(state.slots[k], k, state.text, state.calls);
    }

    /** Ends the stream: closes what is open and sends the terminal event with the sorted items. */
    method Terminate(outcome: Outcome)
      requires Valid()
      modifies this
      ensures var st := CloseText(old(state));
        sent == [Created(responseId)] + (st.trace + Closings(st.slots)) + [Terminal(outcome, responseId, Items(st.slots))]
    {
      hide *;
      EmitCreated();
      CloseTextItem();
      AllClosed();
      CloseToolCalls();
      EntriesSort(state.slots);
      Emit(Terminal(outcome, responseId, ItemsOf(SortEntries(output))));
    }

    method Finalize()
      requires Valid()
      modifies this
      ensures var st := CloseText(old(state));
        sent == [Created(responseId)] + (st.trace + Closings(st.slots)) +
                [Terminal(if old(finishReason) == "length" then Incomplete else Complete, responseId, Items(st.slots))]
    {
      Terminate(if finishReason == "length" then Incomplete else Complete);
    }

    method EmitFailed(detail: string)
      requires Valid()
      modifies this
      ensures var st := CloseText(old(state));
        sent == [Created(responseId)] + (st.trace + Closings(st.slots)) +
                [Terminal(Failed(detail), responseId, Items(st.slots))]
    {
      Terminate(Failed(detail));
    }
  }

  /** The read loop over the parsed payloads of one upstream body. */
  method TranslateStream(responseId: string, chunks: seq<Chunk>, end: StreamEnd) returns (sent: seq<Event>)
    ensures sent == Translate(responseId, chunks, end)
  {
    hide Matches, Wf, Step;
    var t := new Translator(responseId);
    for i := 0 to |chunks|
      invariant t.Valid() && t.responseId == responseId
      invariant t.state == Reach(Ops(chunks[..i]))
      invariant t.finishReason == FinishReason(chunks[..i])
    {
      t.ApplyChunk(chunks[i]);
      assert chunks[..i + 1][..i] == chunks[..i];
      StepAllConcat(Init, Ops(chunks[..i]), ChunkOps(chunks[i]));
    }
    assert chunks[..|chunks|] == chunks;
    match end {
      case ReadError(detail) => t.EmitFailed(detail);
      case Clean => t.Finalize();
    }
    sent := t.sent;
  }
}
