/** The recovery history of a request: the fold the builder computes, and what it lists, read off the items by position. */
module History {
  import opened Text

  /** A protocol item, with its values already turned into text. */
  datatype Item =
    | Reasoning(summary: string, encrypted: string)
    | Call(callId: string, name: string, arguments: string)
    | Result(callId: string, output: string)

  datatype Entry =
    | ReasoningEntry(summary: string)
    | ToolEntry(callId: string, name: string, arguments: string, result: string)

  const Undecipherable := "Encrypted reasoning was present but cannot be decrypted or replayed after continuation recovery."

  /** The entry of a reasoning item, if it leaves one. */
  function ReasoningText(i: Item): seq<Entry>
    requires i.Reasoning?
  {
    if !Blank(i.summary) then [ReasoningEntry(i.summary)]
    else if !Blank(i.encrypted) then [ReasoningEntry(Undecipherable)]
    else []
  }

  function IdOf(i: Item): string {
    if i.Reasoning? then "" else TrimSpace(i.callId)
  }

  // ----- The fold -----

  /** The position of the tool entry with a call id, or the length of the list. */
  function Find(es: seq<Entry>, id: string): (k: nat)
    ensures k <= |es|
    ensures k < |es| ==> es[k].ToolEntry? && es[k].callId == id
  {
    if es == [] then 0
    else
      var n := |es| - 1;
      var k := Find(es[..n], id);
      if k < n then k else if es[n].ToolEntry? && es[n].callId == id then n else n + 1
  }

  /** The entry of an item is updated in place if its id is known, and otherwise appended. */
  function Updated(e: Entry, i: Item): Entry
    requires e.ToolEntry? && !i.Reasoning?
  {
    if i.Call? then e.(name := TrimSpace(i.name), arguments := i.arguments) else e.(result := i.output)
  }

  function Blanked(i: Item): Entry {
    ToolEntry(IdOf(i), "", "", "")
  }

  function Add(es: seq<Entry>, i: Item): seq<Entry> {
    if i.Reasoning? then es + ReasoningText(i)
    else
      var k := if IdOf(i) == "" then |es| else Find(es, IdOf(i));
      if k < |es| then es[k := Updated(es[k], i)] else es + [Updated(Blanked(i), i)]
  }

  function Fold(items: seq<Item>): seq<Entry> {
    if items == [] then [] else Add(Fold(items[..|items| - 1]), items[|items| - 1])
  }

  // ----- What the history lists -----

  /** Item `x` is the first with its call id, or leaves an entry of its own. */
  predicate OpensAfter(before: seq<Item>, x: Item) {
    match x
    case Reasoning(_, _) => ReasoningText(x) != []
    case _ => IdOf(x) == "" || forall y | y in before :: IdOf(y) != IdOf(x)
  }

  predicate Opens(items: seq<Item>, j: nat)
    requires j < |items|
  {
    OpensAfter(items[..j], items[j])
  }

  function Openings(items: seq<Item>): (r: seq<nat>)
    ensures forall k | 0 <= k < |r| :: r[k] < |items|
  {
    if items == [] then []
    else
      var n := |items| - 1;
      var before := Openings(items[..n]);
      if Opens(items, n) then before + [n] else before
  }

  /** The last call, and the last result, with an id. */
  function LastCall(items: seq<Item>, id: string): Item {
    if items == [] then Call(id, "", "")
    else
      var x := items[|items| - 1];
      if x.Call? && IdOf(x) == id then x else LastCall(items[..|items| - 1], id)
  }

  function LastResult(items: seq<Item>, id: string): Item {
    if items == [] then Result(id, "")
    else
      var x := items[|items| - 1];
      if x.Result? && IdOf(x) == id then x else LastResult(items[..|items| - 1], id)
  }

  lemma {:induction false} LastKinds(items: seq<Item>, id: string)
    ensures LastCall(items, id).Call? && LastResult(items, id).Result?
  {
    if items != [] {
      LastKinds(items[..|items| - 1], id);
    }
  }

  /** The entry opened at `j`: of an id it shows the latest call and the latest result; an item without id stands alone. */
  function EntryAt(items: seq<Item>, j: nat): Entry
    requires j < |items|
  {
    var x := items[j];
    if x.Reasoning? then (if ReasoningText(x) == [] then ReasoningEntry("") else ReasoningText(x)[0])
    else if IdOf(x) == "" then Updated(Blanked(x), x)
    else
      LastKinds(items, IdOf(x));
      var c, r := LastCall(items, IdOf(x)), LastResult(items, IdOf(x));
      ToolEntry(IdOf(x), TrimSpace(c.name), c.arguments, r.output)
  }

  function Listed(items: seq<Item>): (es: seq<Entry>)
    ensures |es| == |Openings(items)|
  {
    var js := Openings(items);
    seq(|js|, k requires 0 <= k < |js| => EntryAt(items, js[k]))
  }

  // ----- The fold lists exactly that -----

  lemma OpeningsSnoc(items: seq<Item>, x: Item)
    ensures Openings(items + [x]) == if Opens(items + [x], |items|) then Openings(items) + [|items|] else Openings(items)
  {
    assert (items + [x])[..|items|] == items;
  }

  lemma LastSnoc(items: seq<Item>, x: Item, id: string)
    ensures LastCall(items + [x], id) == if x.Call? && IdOf(x) == id then x else LastCall(items, id)
    ensures LastResult(items + [x], id) == if x.Result? && IdOf(x) == id then x else LastResult(items, id)
  {
    assert (items + [x])[..|items|] == items;
  }

  lemma {:induction false} FindFirst(es: seq<Entry>, id: string, k: nat)
    requires k < |es| && es[k].ToolEntry? && es[k].callId == id
    requires forall m | 0 <= m < k :: !(es[m].ToolEntry? && es[m].callId == id)
    ensures Find(es, id) == k
  {
    var n := |es| - 1;
    if k < n {
      FindFirst(es[..n], id, k);
    } else {
      FindNone(es[..n], id);
    }
  }

  lemma {:induction false} FindNone(es: seq<Entry>, id: string)
    requires forall m | 0 <= m < |es| :: !(es[m].ToolEntry? && es[m].callId == id)
    ensures Find(es, id) == |es|
  {
    if es != [] {
      FindNone(es[..|es| - 1], id);
    }
  }

  /** The openings ascend, and each is one. */
  ghost predicate OpeningsOk(items: seq<Item>, js: seq<nat>) {
    && (forall k, m | 0 <= k < m < |js| :: js[k] < js[m])
    && (forall k | 0 <= k < |js| :: js[k] < |items| && Opens(items, js[k]))
  }

  lemma OpeningsOkSnoc(items: seq<Item>, x: Item, js: seq<nat>)
    requires OpeningsOk(items, js)
    ensures OpeningsOk(items + [x], if Opens(items + [x], |items|) then js + [|items|] else js)
  {
    hide OpensAfter;
    forall k | 0 <= k < |js|
      ensures Opens(items + [x], js[k])
    {
      assert Opens(items, js[k]);
      assert (items + [x])[..js[k]] == items[..js[k]];
    }
  }

  lemma {:induction false} OpeningsAre(items: seq<Item>)
    ensures OpeningsOk(items, Openings(items))
  {
    if items != [] {
      hide Opens, OpeningsOk;
      var front, x := items[..|items| - 1], items[|items| - 1];
      OpeningsAre(front);
      assert front + [x] == items;
      OpeningsSnoc(front, x);
      OpeningsOkSnoc(front, x, Openings(front));
    }
  }

  /** The items that open an entry with an id have distinct ids. */
  lemma OpeningIdsDiffer(items: seq<Item>, i: nat, j: nat)
    requires i < j < |items| && Opens(items, j) && !items[j].Reasoning? && IdOf(items[j]) != ""
    ensures IdOf(items[i]) != IdOf(items[j])
  {
    hide TrimSpace;
    assert items[..j][i] == items[i];
    assert items[i] in items[..j];
  }

  predicate Occurs(items: seq<Item>, id: string) {
    exists y :: y in items && IdOf(y) == id
  }

  lemma OccursSnoc(items: seq<Item>, x: Item, id: string)
    ensures Occurs(items + [x], id) <==> Occurs(items, id) || IdOf(x) == id
    ensures id != "" && IdOf(x) == id && !Occurs(items, id) ==> Opens(items + [x], |items|) && !x.Reasoning?
  {
    hide TrimSpace, ReasoningText;
    assert forall y :: y in items + [x] <==> y in items || y == x;
    assert (items + [x])[..|items|] == items;
  }

  /** An id that occurs is opened somewhere. */
  lemma {:induction false} OpeningOf(items: seq<Item>, id: string) returns (k: nat)
    requires id != "" && Occurs(items, id)
    ensures k < |Openings(items)| && IdOf(items[Openings(items)[k]]) == id && !items[Openings(items)[k]].Reasoning?
  {
    hide TrimSpace, ReasoningText, Opens, Occurs, IdOf;
    if items == [] {
      NothingOccurs(id);
    }
    var front, x := items[..|items| - 1], items[|items| - 1];
    assert front + [x] == items;
    OccursSnoc(front, x, id);
    OpeningsSnoc(front, x);
    if Occurs(front, id) {
      k := OpeningOf(front, id);
    } else {
      k := |Openings(items)| - 1;
    }
  }

  lemma NothingOccurs(id: string)
    ensures !Occurs([], id)
  {
  }

  /** An entry is a tool entry of `id` exactly if it was opened by an item with that id. */
  lemma EntryId(items: seq<Item>, j: nat, id: string)
    requires j < |items| && id != ""
    ensures EntryAt(items, j).ToolEntry? && EntryAt(items, j).callId == id <==> !items[j].Reasoning? && IdOf(items[j]) == id
  {
    hide TrimSpace, ReasoningText;
    if items[j].Reasoning? {
      ReasoningKind(items[j]);
    }
  }

  lemma ReasoningKind(x: Item)
    requires x.Reasoning?
    ensures ReasoningText(x) != [] ==> ReasoningText(x)[0].ReasoningEntry? && ReasoningText(x) == [ReasoningText(x)[0]]
  {
    hide TrimSpace;
  }

  lemma FindListed(items: seq<Item>, id: string, k: nat)
    requires id != "" && k < |Openings(items)|
    requires IdOf(items[Openings(items)[k]]) == id && !items[Openings(items)[k]].Reasoning?
    ensures Find(Listed(items), id) == k
  {
    hide EntryAt, IdOf, OpensAfter;
    var js, es := Openings(items), Listed(items);
    OpeningsAre(items);
    EntryId(items, js[k], id);
    forall m | 0 <= m < k
      ensures !(es[m].ToolEntry? && es[m].callId == id)
    {
      EntryId(items, js[m], id);
      OpeningIdsDiffer(items, js[m], js[k]);
    }
    FindFirst(es, id, k);
  }

  lemma FindMissing(items: seq<Item>, id: string)
    requires id != "" && forall y | y in items :: IdOf(y) != id
    ensures Find(Listed(items), id) == |Listed(items)|
  {
    hide EntryAt, IdOf, OpensAfter;
    var js, es := Openings(items), Listed(items);
    forall m | 0 <= m < |es|
      ensures !(es[m].ToolEntry? && es[m].callId == id)
    {
      EntryId(items, js[m], id);
      assert items[js[m]] in items;
    }
    FindNone(es, id);
  }

  function Merged(e: Entry, i: Item): Entry {
    if e.ToolEntry? && !i.Reasoning? then Updated(e, i) else e
  }

  /** How one more item changes the entry opened at `j`. */
  lemma EntrySnoc(items: seq<Item>, x: Item, j: nat)
    requires j < |items|
    ensures EntryAt(items + [x], j) ==
      if !x.Reasoning? && !items[j].Reasoning? && IdOf(x) != "" && IdOf(items[j]) == IdOf(x) then Merged(EntryAt(items, j), x)
      else EntryAt(items, j)
  {
    hide TrimSpace, ReasoningText;
    LastSnoc(items, x, IdOf(items[j]));
    LastKinds(items, IdOf(items[j]));
  }

  lemma {:induction false} LastMissing(items: seq<Item>, id: string)
    requires forall y | y in items :: IdOf(y) != id || y.Reasoning?
    ensures LastCall(items, id) == Call(id, "", "") && LastResult(items, id) == Result(id, "")
  {
    hide TrimSpace;
    if items != [] {
      var front := items[..|items| - 1];
      assert items[|items| - 1] in items && forall y | y in front :: y in items;
      LastMissing(front, id);
    }
  }

  /** The entry an opening item makes. */
  lemma EntryFirst(items: seq<Item>, x: Item)
    requires OpensAfter(items, x)
    ensures [EntryAt(items + [x], |items|)] == if x.Reasoning? then ReasoningText(x) else [Updated(Blanked(x), x)]
  {
    hide TrimSpace, ReasoningText;
    assert TrimSpace("") == "" by {
      BlankEmpty();
    }
    if x.Reasoning? {
      ReasoningKind(x);
    } else if IdOf(x) != "" {
      LastSnoc(items, x, IdOf(x));
      LastMissing(items, IdOf(x));
    }
  }

  lemma ListedAppend(items: seq<Item>, x: Item, e: Entry)
    requires OpensAfter(items, x) && e == EntryAt(items + [x], |items|)
    requires forall k | 0 <= k < |Openings(items)| :: EntryAt(items + [x], Openings(items)[k]) == EntryAt(items, Openings(items)[k])
    ensures Listed(items + [x]) == Listed(items) + [e]
  {
    hide EntryAt, OpensAfter;
    assert (items + [x])[..|items|] == items;
    OpeningsSnoc(items, x);
  }

  /** The list the builder keeps is the one read off the items: one entry per id, in order of first appearance, with the
      latest call and result, and one per item without an id. */
  lemma {:induction false} FoldIsListed(items: seq<Item>)
    ensures Fold(items) == Listed(items)
  {
    if items != [] {
      hide Listed, Add, TrimSpace;
      var front, x := items[..|items| - 1], items[|items| - 1];
      FoldIsListed(front);
      assert front + [x] == items;
      AddListed(front, x);
    }
  }

  lemma AddListed(items: seq<Item>, x: Item)
    ensures Add(Listed(items), x) == Listed(items + [x])
  {
    hide TrimSpace, ReasoningText, OpensAfter, EntryAt, IdOf, Updated, Blanked, Listed;
    var js := Openings(items);
    forall k | 0 <= k < |js|
      ensures EntryAt(items + [x], js[k]) ==
        if !x.Reasoning? && !items[js[k]].Reasoning? && IdOf(x) != "" && IdOf(items[js[k]]) == IdOf(x)
        then Merged(EntryAt(items, js[k]), x) else EntryAt(items, js[k])
    {
      EntrySnoc(items, x, js[k]);
    }
    OpensCases(items, x);
    if x.Reasoning? {
      if OpensAfter(items, x) {
        EntryFirst(items, x);
        ListedAppend(items, x, EntryAt(items + [x], |items|));
      } else {
        ListedSame(items, x);
      }
    } else if IdOf(x) == "" || !Occurs(items, IdOf(x)) {
      if IdOf(x) != "" {
        FindMissing(items, IdOf(x));
        forall k | 0 <= k < |js|
          ensures IdOf(items[js[k]]) != IdOf(x)
        {
          assert items[js[k]] in items;
        }
      }
      EntryFirst(items, x);
      ListedAppend(items, x, EntryAt(items + [x], |items|));
    } else {
      var k := OpeningOf(items, IdOf(x));
      FindListed(items, IdOf(x), k);
      ListedUpdate(items, x, k);
    }
  }

  lemma OpensCases(items: seq<Item>, x: Item)
    ensures x.Reasoning? ==> (OpensAfter(items, x) <==> ReasoningText(x) != [])
    ensures !x.Reasoning? ==> (OpensAfter(items, x) <==> IdOf(x) == "" || forall y | y in items :: IdOf(y) != IdOf(x))
  {
    hide IdOf, ReasoningText;
  }

  lemma ListedSame(items: seq<Item>, x: Item)
    requires !OpensAfter(items, x)
    requires forall k | 0 <= k < |Openings(items)| :: EntryAt(items + [x], Openings(items)[k]) == EntryAt(items, Openings(items)[k])
    ensures Listed(items + [x]) == Listed(items)
  {
    hide EntryAt, OpensAfter;
    assert (items + [x])[..|items|] == items;
    OpeningsSnoc(items, x);
  }

  lemma ListedUpdate(items: seq<Item>, x: Item, k: nat)
    requires !OpensAfter(items, x) && !x.Reasoning? && IdOf(x) != "" && k < |Openings(items)|
    requires !items[Openings(items)[k]].Reasoning? && IdOf(items[Openings(items)[k]]) == IdOf(x)
    ensures k < |Listed(items)| && Listed(items)[k].ToolEntry?
    ensures Listed(items + [x]) == Listed(items)[k := Updated(Listed(items)[k], x)]
  {
    hide EntryAt, OpensAfter, IdOf, Updated;
    var js := Openings(items);
    assert (items + [x])[..|items|] == items;
    OpeningsSnoc(items, x);
    OpeningsAre(items);
    EntryId(items, js[k], IdOf(x));
    forall m | 0 <= m < |js|
      ensures Listed(items + [x])[m] == Listed(items)[k := Updated(Listed(items)[k], x)][m]
    {
      EntrySnoc(items, x, js[m]);
      if m < k {
        OpeningIdsDiffer(items, js[m], js[k]);
      } else if m > k && !items[js[m]].Reasoning? && IdOf(items[js[m]]) != "" {
        OpeningIdsDiffer(items, js[k], js[m]);
      }
    }
  }

  // ----- The list in the items' own terms -----

  lemma {:induction false} OpeningsHold(items: seq<Item>, j: nat)
    requires j < |items|
    ensures j in Openings(items) <==> Opens(items, j)
  {
    hide OpensAfter;
    var n := |items| - 1;
    var front := items[..n];
    assert forall x | x in Openings(front) :: x < n;
    if j < n {
      OpeningsHold(front, j);
      assert front[..j] == items[..j] && front[j] == items[j];
    }
  }

  /** A reasoning item leaves an entry exactly if it has a readable summary or encrypted content, and shows the one, or says that
      the other cannot be read. */
  lemma ReasoningListed(items: seq<Item>, j: nat)
    requires j < |items| && items[j].Reasoning?
    ensures j in Openings(items) <==> !Blank(items[j].summary) || !Blank(items[j].encrypted)
    ensures j in Openings(items) ==>
      EntryAt(items, j) ==
      ReasoningEntry(if !Blank(items[j].summary) then items[j].summary
                     else "Encrypted reasoning was present but cannot be decrypted or replayed after continuation recovery.")
  {
    hide Blank, Openings;
    OpeningsHold(items, j);
  }

  /** A call or result that opens an entry gives it its id without outer white space. */
  lemma ToolListed(items: seq<Item>, j: nat)
    requires j < |items| && !items[j].Reasoning?
    ensures EntryAt(items, j).ToolEntry? && EntryAt(items, j).callId == TrimSpace(items[j].callId)
    ensures j in Openings(items) <==>
      Blank(items[j].callId) ||
      forall i | 0 <= i < j && !items[i].Reasoning? :: TrimSpace(items[i].callId) != TrimSpace(items[j].callId)
  {
    hide TrimSpace, Openings;
    OpeningsHold(items, j);
    var before := items[..j];
    assert forall y :: y in before <==> exists i :: 0 <= i < j && items[i] == y;
    if !Blank(items[j].callId) {
      forall i | 0 <= i < j
        ensures items[i] in before
      {
        assert before[i] == items[i];
      }
    }
  }
}
