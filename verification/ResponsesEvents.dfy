/** The Responses event stream that both translators write and that the gateway's capture reads back. */
module ResponsesEvents {
  import opened Text

  datatype Status = InProgress | Completed

  /** An output item. `id` is the position of its identifier in the supply of freshly minted identifiers. */
  datatype Item =
    | Message(id: nat, status: Status, text: string)
    | FunctionCall(id: nat, status: Status, callId: string, name: string, arguments: string)

  datatype Outcome = Complete | Incomplete | Failed(detail: string)

  datatype Event =
    | Created(responseId: string)
    | ItemAdded(index: nat, item: Item)
    | PartAdded(index: nat, itemId: nat)
    | TextDelta(index: nat, itemId: nat, delta: string)
    | TextDone(index: nat, itemId: nat, text: string)
    | PartDone(index: nat, itemId: nat, text: string)
    | ArgsDelta(index: nat, itemId: nat, delta: string)
    | ArgsDone(index: nat, itemId: nat, arguments: string)
    | ItemDone(index: nat, item: Item)
    | Terminal(outcome: Outcome, responseId: string, output: seq<Item>)

  /** An item waiting in the list from which the final snapshot is built. */
  datatype FinalEntry = FinalEntry(outputIndex: nat, item: Item)

  predicate Indexed(e: Event) {
    !e.Created? && !e.Terminal?
  }

  /** The events of `trace` that carry output index `k`, in order. */
  function Project(trace: seq<Event>, k: nat): seq<Event> {
    if trace == [] then []
    else
      var last := trace[|trace| - 1];
      Project(trace[..|trace| - 1], k) + (if Indexed(last) && last.index == k then [last] else [])
  }

  lemma ProjectSnoc(trace: seq<Event>, e: Event, k: nat)
    ensures Project(trace + [e], k) == Project(trace, k) + (if Indexed(e) && e.index == k then [e] else [])
  {
    assert (trace + [e])[..|trace|] == trace;
  }

  lemma {:induction false} ProjectConcat(a: seq<Event>, b: seq<Event>, k: nat)
    ensures Project(a + b, k) == Project(a, k) + Project(b, k)
  {
    if b == [] {
      assert a + b == a;
    } else {
      var front, last := b[..|b| - 1], b[|b| - 1];
      assert b == front + [last];
      assert a + b == (a + front) + [last];
      ProjectSnoc(a + front, last, k);
      ProjectSnoc(front, last, k);
      ProjectConcat(a, front, k);
    }
  }

  /** Events about one index are all kept by the projection to it and all dropped by any other. */
  lemma {:induction false} ProjectUniform(es: seq<Event>, j: nat, k: nat)
    requires forall e | e in es :: Indexed(e) && e.index == j
    ensures Project(es, k) == if j == k then es else []
  {
    if es != [] {
      ProjectUniform(es[..|es| - 1], j, k);
      assert es == es[..|es| - 1] + [es[|es| - 1]];
    }
  }

  lemma {:induction false} ProjectMember(es: seq<Event>, k: nat, e: Event)
    ensures e in Project(es, k) <==> e in es && Indexed(e) && e.index == k
  {
    if es != [] {
      ProjectMember(es[..|es| - 1], k, e);
      assert e in es <==> e in es[..|es| - 1] || e == es[|es| - 1];
    }
  }

  /** The fragments carried by delta events. */
  function Deltas(es: seq<Event>): seq<string>
    requires forall e | e in es :: e.TextDelta? || e.ArgsDelta?
  {
    seq(|es|, i requires 0 <= i < |es| => es[i].delta)
  }

  /** What a client sees of a finished message: added, part added, deltas that join to the text, and three closing
      events that repeat it. */
  ghost predicate MessageTrace(es: seq<Event>, k: nat, item: Item) {
    && item.Message? && item.status == Completed
    && |es| >= 5
    && es[0] == ItemAdded(k, Message(item.id, InProgress, ""))
    && es[1] == PartAdded(k, item.id)
    && (var mid := es[2..|es| - 3];
        && (forall e | e in mid :: e.TextDelta? && e.index == k && e.itemId == item.id)
        && Join(Deltas(mid)) == item.text)
    && es[|es| - 3..] == [TextDone(k, item.id, item.text), PartDone(k, item.id, item.text), ItemDone(k, item)]
  }

  /** The same for a finished function call. The announcement shows the call id and name known by then. */
  ghost predicate CallTrace(es: seq<Event>, k: nat, item: Item) {
    && item.FunctionCall? && item.status == Completed
    && |es| >= 3
    && es[0].ItemAdded? && es[0].index == k
    && es[0].item.FunctionCall? && es[0].item.id == item.id && es[0].item.status == InProgress
    && es[0].item.arguments == ""
    && es[0].item.callId in {"", item.callId} && es[0].item.name in {"", item.name}
    && (forall e | e in es[1..|es| - 2] :: e.ArgsDelta? && e.index == k && e.itemId == item.id)
    && es[|es| - 2..] == [ArgsDone(k, item.id, item.arguments), ItemDone(k, item)]
  }

  ghost predicate ItemTrace(es: seq<Event>, k: nat, item: Item) {
    MessageTrace(es, k, item) || CallTrace(es, k, item)
  }

  lemma MessageTraceAt(es: seq<Event>, k: nat, item: Item, i: nat)
    requires MessageTrace(es, k, item) && i < |es|
    ensures es[i].ItemAdded? ==> i == 0 && es[i].item.id == item.id && es[i].item.Message?
    ensures es[i].ItemDone? ==> es[i].item == item
    ensures es[|es| - 1] == ItemDone(k, item) && item.Message?
  {
    hide Join, Deltas;
    assert es[|es| - 3..][2] == es[|es| - 1];
    if 2 <= i < |es| - 3 {
      assert es[2..|es| - 3][i - 2] in es[2..|es| - 3];
    } else if i >= |es| - 3 {
      assert es[|es| - 3..][i - (|es| - 3)] == es[i];
    }
  }

  lemma CallTraceAt(es: seq<Event>, k: nat, item: Item, i: nat)
    requires CallTrace(es, k, item) && i < |es|
    ensures es[i].ItemAdded? ==>
              i == 0 && es[i].item.id == item.id && es[i].item.FunctionCall? && es[i].item.callId in {"", item.callId}
    ensures es[i].ItemDone? ==> es[i].item == item
    ensures es[|es| - 1] == ItemDone(k, item) && item.FunctionCall?
  {
    assert es[|es| - 2..][1] == es[|es| - 1];
    if 1 <= i < |es| - 2 {
      assert es[1..|es| - 2][i - 1] in es[1..|es| - 2];
    } else if i >= |es| - 2 {
      assert es[|es| - 2..][i - (|es| - 2)] == es[i];
    }
  }

  /** The events of an item announce it once, first, under its own identifier, and end with the finished item. */
  lemma ItemTraceAt(es: seq<Event>, k: nat, item: Item, e: Event)
    requires ItemTrace(es, k, item) && e in es
    ensures e.ItemAdded? ==> e.item.id == item.id && e.item.FunctionCall? == item.FunctionCall?
    ensures e.ItemAdded? && item.FunctionCall? ==> e.item.callId in {"", item.callId}
    ensures e.ItemDone? ==> e.item == item
    ensures ItemDone(k, item) in es
  {
    hide MessageTrace, CallTrace;
    var i :| 0 <= i < |es| && es[i] == e;
    if MessageTrace(es, k, item) {
      MessageTraceAt(es, k, item, i);
    } else {
      CallTraceAt(es, k, item, i);
    }
    assert es[|es| - 1] in es;
  }

  /** A whole stream: the created event first and only there, one terminal event last and only there, output indices
      exactly 0..n-1, and snapshot item `k` is the item that was opened, streamed and closed under index `k`. */
  ghost predicate StreamGrammar(t: seq<Event>, responseId: string) {
    && |t| >= 2 && t[0] == Created(responseId)
    && t[|t| - 1].Terminal? && t[|t| - 1].responseId == responseId
    && (forall i | 0 < i < |t| - 1 :: Indexed(t[i]) && t[i].index < |t[|t| - 1].output|)
    && (forall k: nat | k < |t[|t| - 1].output| :: ItemTrace(Project(t, k), k, t[|t| - 1].output[k]))
  }

  /** One stable insertion: behind every entry whose index is not larger. */
  function InsertEntry(sorted: seq<FinalEntry>, e: FinalEntry): seq<FinalEntry> {
    if sorted == [] || sorted[|sorted| - 1].outputIndex <= e.outputIndex then sorted + [e]
    else InsertEntry(sorted[..|sorted| - 1], e) + [sorted[|sorted| - 1]]
  }

  /** `sort.SliceStable` by output index. */
  function SortEntries(entries: seq<FinalEntry>): seq<FinalEntry> {
    if entries == [] then []
    else InsertEntry(SortEntries(entries[..|entries| - 1]), entries[|entries| - 1])
  }

  function ItemsOf(entries: seq<FinalEntry>): seq<Item> {
    seq(|entries|, i requires 0 <= i < |entries| => entries[i].item)
  }

  ghost predicate Ascending(entries: seq<FinalEntry>) {
    forall i, j | 0 <= i < j < |entries| :: entries[i].outputIndex < entries[j].outputIndex
  }

  ghost predicate DistinctIndices(entries: seq<FinalEntry>) {
    forall i, j | 0 <= i < j < |entries| :: entries[i].outputIndex != entries[j].outputIndex
  }

  lemma AscendingSnoc(entries: seq<FinalEntry>, last: FinalEntry)
    requires Ascending(entries)
    requires forall x | x in entries :: x.outputIndex < last.outputIndex
    ensures Ascending(entries + [last])
  {
    assert forall i | 0 <= i < |entries| :: entries[i] in entries;
  }

  lemma {:induction false} InsertKeepsAscending(sorted: seq<FinalEntry>, e: FinalEntry)
    requires Ascending(sorted)
    requires forall x | x in sorted :: x.outputIndex != e.outputIndex
    ensures Ascending(InsertEntry(sorted, e))
    ensures |InsertEntry(sorted, e)| == |sorted| + 1
    ensures forall x :: x in InsertEntry(sorted, e) <==> x in sorted || x == e
  {
    if sorted == [] || sorted[|sorted| - 1].outputIndex <= e.outputIndex {
    } else {
      var front, last := sorted[..|sorted| - 1], sorted[|sorted| - 1];
      InsertKeepsAscending(front, e);
      assert sorted == front + [last];
      AscendingSnoc(InsertEntry(front, e), last);
    }
  }

  lemma {:induction false} SortDistinct(entries: seq<FinalEntry>)
    requires DistinctIndices(entries)
    ensures Ascending(SortEntries(entries))
    ensures |SortEntries(entries)| == |entries|
    ensures forall x :: x in SortEntries(entries) <==> x in entries
  {
    if entries != [] {
      var front, last := entries[..|entries| - 1], entries[|entries| - 1];
      assert entries == front + [last];
      SortDistinct(front);
      InsertKeepsAscending(SortEntries(front), last);
    }
  }

  lemma {:induction false} AscendingFillsRange(entries: seq<FinalEntry>, n: nat, k: nat)
    requires Ascending(entries) && |entries| == n && k < n
    requires forall x | x in entries :: x.outputIndex < n
    ensures entries[k].outputIndex == k
  {
    AscendingAtLeast(entries, k);
    AscendingAtMost(entries, n, k);
  }

  lemma {:induction false} AscendingAtLeast(entries: seq<FinalEntry>, k: nat)
    requires Ascending(entries) && k < |entries|
    ensures entries[k].outputIndex >= k
  {
    if k > 0 {
      AscendingAtLeast(entries, k - 1);
    }
  }

  lemma {:induction false} AscendingAtMost(entries: seq<FinalEntry>, n: nat, k: nat)
    requires Ascending(entries) && k < |entries| == n
    requires forall x | x in entries :: x.outputIndex < n
    ensures entries[k].outputIndex <= k
    decreases n - k
  {
    assert entries[k] in entries;
    if k + 1 < n {
      AscendingAtMost(entries, n, k + 1);
    }
  }

  /** Closing order does not matter: entries with pairwise distinct indices below their number sort into the items by
      output index. */
  lemma SnapshotOrder(entries: seq<FinalEntry>, items: seq<Item>)
    requires DistinctIndices(entries) && |entries| == |items|
    requires forall x | x in entries :: x.outputIndex < |items| && x.item == items[x.outputIndex]
    ensures ItemsOf(SortEntries(entries)) == items
  {
    SortDistinct(entries);
    var s := SortEntries(entries);
    forall k | 0 <= k < |items|
      ensures s[k].item == items[k]
    {
      AscendingFillsRange(s, |items|, k);
      assert s[k] in s;
    }
  }
}
