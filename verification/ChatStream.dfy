/**
 The chat-completions side of the recovery route, as a function of the parsed stream: what a stream means (`Denote`),
 and the machine that turns it into Responses events (`Reach`, `Translate`). Class `ChatTranslator` is proved to
 compute `Translate`.
 */
module ChatStream {
  import opened Options
  import opened Text
  import opened ResponsesEvents

  datatype ToolDelta = ToolDelta(index: int, id: string, name: string, arguments: string)

  /** One parsed data payload; absent fields are empty strings. */
  datatype Chunk = Chunk(content: string, tools: seq<ToolDelta>, finish: string)

  /** The stream stops at end of file (or at the done marker), or the read fails. */
  datatype StreamEnd = Clean | ReadError(detail: string)

  datatype Op = Content(text: string) | Tool(d: ToolDelta)

  function ToolOps(tools: seq<ToolDelta>): (r: seq<Op>) {
    seq(|tools|, i requires 0 <= i < |tools| => Tool(tools[i]))
  }

  function ChunkOps(c: Chunk): seq<Op> {
    (if c.content == "" then [] else [Content(c.content)]) + ToolOps(c.tools)
  }

  function Ops(chunks: seq<Chunk>): seq<Op> {
    if chunks == [] then [] else Ops(chunks[..|chunks| - 1]) + ChunkOps(chunks[|chunks| - 1])
  }

  /** The last finish reason the stream reported. */
  function FinishReason(chunks: seq<Chunk>): string {
    if chunks == [] then ""
    else if chunks[|chunks| - 1].finish != "" then chunks[|chunks| - 1].finish
    else FinishReason(chunks[..|chunks| - 1])
  }

  function OutcomeOf(chunks: seq<Chunk>, end: StreamEnd): Outcome {
    match end
    case ReadError(detail) => Failed(detail)
    case Clean => if FinishReason(chunks) == "length" then Incomplete else Complete
  }

  // ----- What a stream means, read off the operations by position -----

  /** Position `j` opens an output item: the first delta of a run of content, or the first delta of a tool index. */
  ghost predicate Opens(ops: seq<Op>, j: nat)
    requires j < |ops|
  {
    match ops[j]
    case Content(_) => j == 0 || ops[j - 1].Tool?
    case Tool(d) => forall i | 0 <= i < j && ops[i].Tool? :: ops[i].d.index != d.index
  }

  ghost function Openings(ops: seq<Op>): (r: seq<nat>)
    ensures forall x | x in r :: x < |ops| && Opens(ops, x)
  {
    if ops == [] then []
    else
      var n := |ops| - 1;
      var r := Openings(ops[..n]);
      assert forall x | x in r :: Opens(ops[..n], x) ==> Opens(ops, x);
      if Opens(ops, n) then r + [n] else r
  }

  /** The content from position `j` up to the next tool delta. */
  function Run(ops: seq<Op>, j: nat): string
    requires j <= |ops|
    decreases |ops| - j
  {
    if j < |ops| && ops[j].Content? then ops[j].text + Run(ops, j + 1) else ""
  }

  /** The deltas of one tool index. */
  function ToolDeltas(ops: seq<Op>, index: int): seq<ToolDelta> {
    if ops == [] then []
    else
      var last := ops[|ops| - 1];
      var before := ToolDeltas(ops[..|ops| - 1], index);
      if last.Tool? && last.d.index == index then before + [last.d] else before
  }

  function FirstNonEmpty(xs: seq<string>): string {
    if xs == [] then "" else if xs[0] != "" then xs[0] else FirstNonEmpty(xs[1..])
  }

  function Ids(ds: seq<ToolDelta>): seq<string> {
    seq(|ds|, i requires 0 <= i < |ds| => ds[i].id)
  }

  function Names(ds: seq<ToolDelta>): seq<string> {
    seq(|ds|, i requires 0 <= i < |ds| => ds[i].name)
  }

  function Args(ds: seq<ToolDelta>): seq<string> {
    seq(|ds|, i requires 0 <= i < |ds| => ds[i].arguments)
  }

  /** The finished call of an index: its first non-empty id and name, and all its argument fragments. */
  function CallItem(ds: seq<ToolDelta>, k: nat): Item {
    FunctionCall(k, Completed, FirstNonEmpty(Ids(ds)), FirstNonEmpty(Names(ds)), Join(Args(ds)))
  }

  /** The finished item opened at `j`, as output item number `k`. */
  function ItemAt(ops: seq<Op>, j: nat, k: nat): Item
    requires j < |ops|
  {
    match ops[j]
    case Content(_) => Message(k, Completed, Run(ops, j))
    case Tool(d) => CallItem(ToolDeltas(ops, d.index), k)
  }

  ghost function Denote(ops: seq<Op>): (items: seq<Item>)
    ensures |items| == |Openings(ops)|
  {
    var js := Openings(ops);
    seq(|js|, k requires 0 <= k < |js| => assert js[k] in js; ItemAt(ops, js[k], k))
  }

  // ----- The machine -----

  /** What the added event of a call said, and how many argument fragments had been buffered before it. */
  datatype Announcement = Announcement(callId: string, name: string, silent: nat)

  /** An output item in opening order; its position is its output index and its identifier. */
  datatype Slot =
    | TextSlot(pieces: seq<string>, closed: bool)
    | CallSlot(stream: int, callId: string, name: string, pieces: seq<string>, announced: Option<Announcement>)

  datatype State = State(slots: seq<Slot>, text: Option<nat>, calls: map<int, nat>, trace: seq<Event>)

  const Init := State([], None, map[], [])

  ghost predicate SlotOk(s: Slot, k: nat, text: Option<nat>, calls: map<int, nat>) {
    match s
    case TextSlot(_, closed) => closed <==> text != Some(k)
    case CallSlot(stream, callId, name, pieces, announced) =>
      && stream in calls && calls[stream] == k
      && (announced.None? <==> callId == "" && name == "")
      && (announced.Some? ==> announced.value.silent <= |pieces|)
  }

  /** Open text, open calls and the two directories agree; an open text item is the newest item. */
  ghost predicate Wf(st: State) {
    && (st.text.Some? ==> st.text.value == |st.slots| - 1 && st.slots[st.text.value].TextSlot?)
    && (forall k | 0 <= k < |st.slots| :: SlotOk(st.slots[k], k, st.text, st.calls))
    && (forall i | i in st.calls :: st.calls[i] < |st.slots| && st.slots[st.calls[i]].CallSlot? && st.slots[st.calls[i]].stream == i)
  }

  function TextOpening(k: nat): seq<Event> {
    [ItemAdded(k, Message(k, InProgress, "")), PartAdded(k, k)]
  }

  function TextClosing(k: nat, text: string): seq<Event> {
    [TextDone(k, k, text), PartDone(k, k, text), ItemDone(k, Message(k, Completed, text))]
  }

  function CallOpening(k: nat, callId: string, name: string): seq<Event> {
    [ItemAdded(k, FunctionCall(k, InProgress, callId, name, ""))]
  }

  function CallClosing(k: nat, callId: string, name: string, args: string): seq<Event> {
    [ArgsDone(k, k, args), ItemDone(k, FunctionCall(k, Completed, callId, name, args))]
  }

  function OpenText(st: State): (r: State)
    requires Wf(st) && st.text.None?
    ensures Wf(r)
  {
    var k := |st.slots|;
    st.(slots := st.slots + [TextSlot([], false)], text := Some(k), trace := st.trace + TextOpening(k))
  }

  function AppendText(st: State, delta: string): (r: State)
    requires Wf(st) && st.text.Some?
    ensures Wf(r)
  {
    var k := st.text.value;
    var s := st.slots[k];
    st.(slots := st.slots[k := TextSlot(s.pieces + [delta], false)], trace := st.trace + [TextDelta(k, k, delta)])
  }

  function OnContent(st: State, delta: string): (r: State)
    requires Wf(st)
    ensures Wf(r)
  {
    AppendText(if st.text.Some? then st else OpenText(st), delta)
  }

  function CloseText(st: State): (r: State)
    requires Wf(st)
    ensures Wf(r) && r.text.None?
  {
    if st.text.None? then st
    else
      var k := st.text.value;
      var s := st.slots[k];
      st.(slots := st.slots[k := TextSlot(s.pieces, true)], text := None, trace := st.trace + TextClosing(k, Join(s.pieces)))
  }

  function Keep(old_: string, new_: string): string {
    if old_ == "" then new_ else old_
  }

  /** Id and name are set once; the call is announced as soon as it has either. */
  function Identify(s: Slot, k: nat, d: ToolDelta): (r: (Slot, seq<Event>))
    requires s.CallSlot?
    ensures r.0.CallSlot? && r.0.stream == s.stream && r.0.pieces == s.pieces
  {
    var callId, name := Keep(s.callId, d.id), Keep(s.name, d.name);
    if s.announced.None? && (callId != "" || name != "") then
      (CallSlot(s.stream, callId, name, s.pieces, Some(Announcement(callId, name, |s.pieces|))), CallOpening(k, callId, name))
    else
      (CallSlot(s.stream, callId, name, s.pieces, s.announced), [])
  }

  /** Fragments are kept always, and shown once the call has been announced. */
  function AppendArgs(s: Slot, k: nat, args: string): (r: (Slot, seq<Event>))
    requires s.CallSlot?
    ensures r.0.CallSlot? && r.0.stream == s.stream && r.0.announced == s.announced
  {
    if args == "" then (s, [])
    else (CallSlot(s.stream, s.callId, s.name, s.pieces + [args], s.announced),
          if s.announced.Some? then [ArgsDelta(k, k, args)] else [])
  }

  /** A call slot and its events after one delta. */
  function Absorb(s: Slot, k: nat, d: ToolDelta): (r: (Slot, seq<Event>))
    requires s.CallSlot?
    ensures r.0.CallSlot? && r.0.stream == s.stream
  {
    var (s1, opening) := Identify(s, k, d);
    var (s2, deltas) := AppendArgs(s1, k, d.arguments);
    (s2, opening + deltas)
  }

  function EnsureCall(st: State, index: int): (r: State)
    requires Wf(st) && st.text.None?
    ensures Wf(r) && r.text.None? && index in r.calls
  {
    if index in st.calls then st
    else st.(slots := st.slots + [CallSlot(index, "", "", [], None)], calls := st.calls[index := |st.slots|])
  }

  function OnTool(st: State, d: ToolDelta): (r: State)
    requires Wf(st)
    ensures Wf(r)
  {
    var st1 := EnsureCall(CloseText(st), d.index);
    var k := st1.calls[d.index];
    var (s, es) := Absorb(st1.slots[k], k, d);
    st1.(slots := st1.slots[k := s], trace := st1.trace + es)
  }

  function Step(st: State, op: Op): (r: State)
    requires Wf(st)
    ensures Wf(r)
  {
    match op
    case Content(text) => OnContent(st, text)
    case Tool(d) => OnTool(st, d)
  }

  /** The slots of the machine after content: a new text slot, or the last one extended. */
  lemma ContentSlots(st: State, text: string)
    requires Wf(st)
    ensures var r := OnContent(st, text);
      && r.text == Some(|r.slots| - 1) && r.calls == st.calls
      && (st.text.None? ==> r.slots == st.slots + [TextSlot([text], false)])
      && (st.text.Some? ==>
        && st.slots != [] && st.slots[|st.slots| - 1].TextSlot?
        && r.slots == st.slots[|st.slots| - 1 := TextSlot(st.slots[|st.slots| - 1].pieces + [text], false)])
  {
    if st.text.None? {
      var st1 := OpenText(st);
      assert st1.slots == st.slots + [TextSlot([], false)];
      assert [] + [text] == [text];
    }
  }

  /** The slots of the machine after a tool delta: a new call, or the addressed one extended. */
  lemma ToolSlots(st: State, d: ToolDelta)
    requires Wf(st)
    ensures var r, slots := OnTool(st, d), CloseText(st).slots;
      && r.text.None? && r.calls.Keys == st.calls.Keys + {d.index} && |slots| == |st.slots|
      && (d.index !in st.calls ==>
        && r.calls[d.index] == |slots|
        && r.slots == slots + [Absorb(CallSlot(d.index, "", "", [], None), |slots|, d).0])
      && (d.index in st.calls ==>
        && r.calls == st.calls && r.calls[d.index] < |slots| && slots[r.calls[d.index]].CallSlot?
        && r.slots == slots[r.calls[d.index] := Absorb(slots[r.calls[d.index]], r.calls[d.index], d).0])
  {
    hide Absorb, SlotOk;
  }

  function StepAll(st: State, ops: seq<Op>): (r: State)
    requires Wf(st)
    ensures Wf(r)
  {
    if ops == [] then st else Step(StepAll(st, ops[..|ops| - 1]), ops[|ops| - 1])
  }

  function Reach(ops: seq<Op>): (r: State)
    ensures Wf(r)
  {
    StepAll(Init, ops)
  }

  lemma {:induction false} StepAllConcat(st: State, a: seq<Op>, b: seq<Op>)
    requires Wf(st)
    ensures StepAll(st, a + b) == StepAll(StepAll(st, a), b)
  {
    if b == [] {
      assert a + b == a;
    } else {
      var front, last := b[..|b| - 1], b[|b| - 1];
      assert (a + b)[..|a + b| - 1] == a + front;
      StepAllConcat(st, a, front);
    }
  }

  /** Events that close the call in slot `k`. */
  function ClosingOf(s: Slot, k: nat): seq<Event> {
    if s.CallSlot? then
      (if s.announced.None? then CallOpening(k, s.callId, s.name) else []) + CallClosing(k, s.callId, s.name, Join(s.pieces))
    else []
  }

  function Closings(slots: seq<Slot>): seq<Event> {
    if slots == [] then []
    else Closings(slots[..|slots| - 1]) + ClosingOf(slots[|slots| - 1], |slots| - 1)
  }

  function FinalItem(s: Slot, k: nat): Item {
    match s
    case TextSlot(pieces, _) => Message(k, Completed, Join(pieces))
    case CallSlot(_, callId, name, pieces, _) => FunctionCall(k, Completed, callId, name, Join(pieces))
  }

  function Items(slots: seq<Slot>): seq<Item> {
    seq(|slots|, k requires 0 <= k < |slots| => FinalItem(slots[k], k))
  }

  /** The events between the created event and the terminal one. */
  function Body(ops: seq<Op>): seq<Event> {
    var st := CloseText(Reach(ops));
    st.trace + Closings(st.slots)
  }

  function Snapshot(ops: seq<Op>): seq<Item> {
    Items(CloseText(Reach(ops)).slots)
  }

  /** The whole translation. */
  function Translate(responseId: string, chunks: seq<Chunk>, end: StreamEnd): seq<Event> {
    var ops := Ops(chunks);
    [Created(responseId)] + Body(ops) + [Terminal(OutcomeOf(chunks, end), responseId, Snapshot(ops))]
  }
}
