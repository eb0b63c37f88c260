/**
 The Anthropic-messages side of the recovery route, as a function of the parsed event stream. Class
 `MessagesTranslator` is proved to compute `Translate`.
 */
module MessagesStream {
  import opened Text
  import opened ResponsesEvents
  import ChatStream

  type StreamEnd = ChatStream.StreamEnd

  /** `input` is the raw JSON of a tool's initial input; unknown block types and undecodable payloads are `Unknown`. */
  datatype Block = TextBlock(text: string) | ToolBlock(name: string, input: string) | Thinking | Unknown

  datatype Delta = TextPiece(text: string) | JsonPiece(text: string) | Dropped

  datatype MsgEvent =
    | MessageStart
    | BlockStart(index: int, block: Block)
    | BlockDelta(index: int, delta: Delta)
    | BlockStop(index: int)
    | MessageDelta(stopReason: string)
    | Error(detail: string)
    | Ignored

  /** An item opened by content block `block`. Its identifier is its position; its output index is what the counter
      gave. The first `hidden` pieces (an initial tool input) were never sent as a delta. */
  datatype Slot = Slot(index: nat, block: int, tool: bool, name: string, pieces: seq<string>, hidden: nat, closed: bool)

  /** What a content-block index currently stands for: an item, or a dropped thinking block. */
  datatype Target = Item(slot: nat) | Discarded

  datatype State = State(slots: seq<Slot>, blocks: map<int, Target>, order: seq<int>, output: seq<FinalEntry>,
                         stopReason: string, trace: seq<Event>)

  const Init := State([], map[], [], [], "", [])

  /** The synthetic call id of item `k`: call ids come from the gateway's own supply, never from upstream. */
  function SyntheticCallId(k: nat): string {
    "call_syn_" + Digits(k)
  }

  /** Arguments of a finished call: an empty object if nothing arrived. */
  function OrEmptyObject(args: string): string {
    if Blank(args) then "{}" else args
  }

  function FinalItem(s: Slot, k: nat): ResponsesEvents.Item {
    if s.tool then FunctionCall(k, Completed, SyntheticCallId(k), s.name, OrEmptyObject(Join(s.pieces)))
    else Message(k, Completed, Join(s.pieces))
  }

  /** An initial tool input counts unless it is absent or the empty object. */
  function Seed(b: Block): seq<string>
    requires b.TextBlock? || b.ToolBlock?
  {
    match b
    case TextBlock(text) => if text == "" then [] else [text]
    case ToolBlock(_, input) => if input == "" || TrimSpace(input) == "{}" then [] else [input]
  }

  predicate IsItem(b: Block) {
    b.TextBlock? || b.ToolBlock?
  }

  predicate Open(st: State, i: int) {
    i in st.blocks && st.blocks[i].Item? && st.blocks[i].slot < |st.slots| && !st.slots[st.blocks[i].slot].closed
  }

  /** The counter walks the list of started indices, so an index started twice is counted twice. */
  function LiveCount(st: State, n: nat): nat
    requires n <= |st.order|
  {
    if n == 0 then 0 else LiveCount(st, n - 1) + (if Open(st, st.order[n - 1]) then 1 else 0)
  }

  function NextIndex(st: State): nat {
    |st.output| + LiveCount(st, |st.order|)
  }

  function OpeningEvents(b: Block, index: nat, k: nat): seq<Event>
    requires IsItem(b)
  {
    match b
    case TextBlock(text) =>
      [ItemAdded(index, Message(k, InProgress, "")), PartAdded(index, k)] +
      (if text == "" then [] else [TextDelta(index, k, text)])
    case ToolBlock(name, _) =>
      [ItemAdded(index, FunctionCall(k, InProgress, SyntheticCallId(k), name, ""))]
  }

  function Opened(b: Block, i: int, index: nat): Slot
    requires IsItem(b)
  {
    match b
    case TextBlock(_) => Slot(index, i, false, "", Seed(b), 0, false)
    case ToolBlock(name, _) => Slot(index, i, true, name, Seed(b), |Seed(b)|, false)
  }

  function OnStart(st: State, i: int, b: Block): State {
    if IsItem(b) then
      var k, index := |st.slots|, NextIndex(st);
      st.(slots := st.slots + [Opened(b, i, index)], blocks := st.blocks[i := Item(k)], order := st.order + [i],
          trace := st.trace + OpeningEvents(b, index, k))
    else if b.Thinking? then st.(blocks := st.blocks[i := Discarded])
    else st
  }

  /** The text a delta adds to a block of the given kind; deltas of the other kind are dropped. */
  function Piece(d: Delta, tool: bool): string {
    match d
    case TextPiece(text) => if tool then "" else text
    case JsonPiece(text) => if tool then text else ""
    case Dropped => ""
  }

  function DeltaEvent(s: Slot, k: nat, piece: string): Event {
    if s.tool then ArgsDelta(s.index, k, piece) else TextDelta(s.index, k, piece)
  }

  function OnDelta(st: State, i: int, d: Delta): State {
    if !Open(st, i) then st
    else
      var k := st.blocks[i].slot;
      var s := st.slots[k];
      var piece := Piece(d, s.tool);
      if piece == "" then st
      else st.(slots := st.slots[k := s.(pieces := s.pieces + [piece])], trace := st.trace + [DeltaEvent(s, k, piece)])
  }

  function ClosingEvents(s: Slot, k: nat): seq<Event> {
    var item := FinalItem(s, k);
    if s.tool then [ArgsDone(s.index, k, item.arguments), ItemDone(s.index, item)]
    else [TextDone(s.index, k, item.text), PartDone(s.index, k, item.text), ItemDone(s.index, item)]
  }

  /** Closes the item a block index stands for, if it is open. */
  function OnStop(st: State, i: int): State {
    if !Open(st, i) then st
    else
      var k := st.blocks[i].slot;
      var s := st.slots[k];
      st.(slots := st.slots[k := s.(closed := true)], output := st.output + [FinalEntry(s.index, FinalItem(s, k))],
          trace := st.trace + ClosingEvents(s, k))
  }

  /** Closes every open block, in the order of the started indices. */
  function CloseAll(st: State, order: seq<int>): State {
    if order == [] then st else OnStop(CloseAll(st, order[..|order| - 1]), order[|order| - 1])
  }

  function Settle(st: State): State {
    CloseAll(st, st.order)
  }

  /** The list of items sent with a terminal event. */
  function Snapshot(st: State): seq<ResponsesEvents.Item> {
    ItemsOf(SortEntries(st.output))
  }

  function Finish(st: State, responseId: string, outcome: Outcome): State {
    var st1 := Settle(st);
    st1.(trace := st1.trace + [Terminal(outcome, responseId, Snapshot(st1))])
  }

  /** An upstream error ends the response downstream, but the translator goes on reading. */
  function Step(st: State, responseId: string, e: MsgEvent): State {
    match e
    case BlockStart(i, b) => OnStart(st, i, b)
    case BlockDelta(i, d) => OnDelta(st, i, d)
    case BlockStop(i) => OnStop(st, i)
    case MessageDelta(reason) => if reason == "" then st else st.(stopReason := reason)
    case Error(detail) => Finish(st, responseId, Failed(detail))
    case MessageStart => st
    case Ignored => st
  }

  function Reach(responseId: string, events: seq<MsgEvent>): State {
    if events == [] then Init
    else Step(Reach(responseId, events[..|events| - 1]), responseId, events[|events| - 1])
  }

  function OutcomeOf(st: State, end: StreamEnd): Outcome {
    match end
    case ReadError(detail) => Failed(detail)
    case Clean => if st.stopReason == "max_tokens" then Incomplete else Complete
  }

  function Final(responseId: string, events: seq<MsgEvent>, end: StreamEnd): State {
    var st := Reach(responseId, events);
    Finish(st, responseId, OutcomeOf(st, end))
  }

  function Translate(responseId: string, events: seq<MsgEvent>, end: StreamEnd): seq<Event> {
    [Created(responseId)] + Final(responseId, events, end).trace
  }
}
