/** Call ids that a downstream agent has rewritten are turned back before anything else looks at them. */
module CallIdRewrite {
  import opened Text
  import opened ResponsesItems

  /** The agent drops the underscore and appends twelve characters of routing tag. */
  function Mangled(body: string, tag: string): string {
    "call" + body + tag
  }

  function Minted(body: string): string {
    "call_" + body
  }

  function Canonical(id: string): string {
    if HasPrefix(id, "call_") then id
    else if |id| != 40 || !HasPrefix(id, "call") then id
    else "call_" + id[4..28]
  }

  /** The rewriting is undone exactly for minted ids whose body does not start with an underscore. */
  lemma UnmanglesIff(body: string, tag: string)
    requires |body| == 24 && |tag| == 12
    ensures Canonical(Mangled(body, tag)) == Minted(body) <==> body[0] != '_'
  {
    var id := Mangled(body, tag);
    assert id[..4] == "call" && id[4..28] == body;
    if body[0] == '_' {
      assert id[..5] == "call_";
    } else {
      assert id[..5][4] == body[0];
    }
  }

  lemma CanonicalIdempotent(id: string)
    ensures Canonical(Canonical(id)) == Canonical(id)
  {
    if Canonical(id) != id {
      assert Canonical(id)[..5] == "call_";
    }
  }

  /** The id an item is known by. */
  function KnownBy(id: string): string {
    TrimSpace(Canonical(id))
  }

  lemma KnownNotBlank(id: string)
    requires id != "" && TrimSpace(id) == id
    ensures KnownBy(id) != ""
  {
    if Canonical(id) != id {
      VisibleStart(Canonical(id));
    }
  }

  predicate Bears(j: Json) {
    IsCall(j) || IsCallOutput(j)
  }

  function RewriteItem(j: Json): Json {
    if Bears(j) && Canonical(TrimSpace(Field(j, "call_id"))) != Field(j, "call_id")
    then Obj(j.fields["call_id" := Str(Canonical(TrimSpace(Field(j, "call_id"))))]) else j
  }

  function RewriteAll(items: seq<Json>): seq<Json> {
    seq(|items|, i requires 0 <= i < |items| => RewriteItem(items[i]))
  }

  /** The pass over the input; the body is left alone unless some id changed. */
  method RewriteCallIds(items: seq<Json>) returns (out: seq<Json>, changed: bool)
    ensures out == RewriteAll(items) && (changed <==> out != items)
  {
    hide RewriteItem;
    out, changed := items, false;
    for i := 0 to |items|
      invariant |out| == |items| && (changed <==> exists k :: 0 <= k < i && out[k] != items[k])
      invariant forall k | 0 <= k < |items| :: out[k] == if k < i then RewriteItem(items[k]) else items[k]
    {
      var x := RewriteItem(items[i]);
      if x != items[i] {
        out, changed := out[i := x], true;
        assert out[i] != items[i];
      }
    }
  }

  /** Only the call id changes: the kind stays, and the new id is the canonical one. */
  lemma RewriteItemFields(j: Json)
    ensures var x := RewriteItem(j);
      && IsCall(x) == IsCall(j) && IsCallOutput(x) == IsCallOutput(j)
      && (Bears(j) ==> Field(x, "call_id") == Canonical(TrimSpace(Field(j, "call_id"))))
  {
    hide TrimSpace, ToLower, Canonical;
    assert |"call_id"| != |"type"|;
    assert RewriteItem(j) != j ==> Field(RewriteItem(j), "type") == Field(j, "type");
  }

  /** An item of the list with a given kind and id. */
  ghost predicate Names(items: seq<Json>, kind: Json -> bool, x: string) {
    exists i :: 0 <= i < |items| && kind(items[i]) && TrimSpace(Field(items[i], "call_id")) == x
  }

  lemma {:induction false} FilterNames(items: seq<Json>, kind: Json -> bool, x: string)
    ensures Mentions(CallIdFields(Filter(items, kind)), x) <==> Names(items, kind, x)
  {
    hide TrimSpace, Field;
    if items == [] {
      assert CallIdFields([]) == [];
    } else {
      var front, j := items[..|items| - 1], items[|items| - 1];
      assert front + [j] == items;
      FilterNames(front, kind, x);
      NamesSnoc(front, j, kind, x);
      if kind(j) {
        assert CallIdFields(Filter(front, kind) + [j]) == CallIdFields(Filter(front, kind)) + [Field(j, "call_id")];
        MentionsSnoc(CallIdFields(Filter(front, kind)), Field(j, "call_id"), x);
      }
    }
  }

  lemma NamesSnoc(items: seq<Json>, j: Json, kind: Json -> bool, x: string)
    ensures Names(items + [j], kind, x) <==> Names(items, kind, x) || (kind(j) && TrimSpace(Field(j, "call_id")) == x)
  {
    hide TrimSpace, Field;
    if Names(items, kind, x) {
      var i :| 0 <= i < |items| && kind(items[i]) && TrimSpace(Field(items[i], "call_id")) == x;
      assert (items + [j])[i] == items[i];
    }
    assert (items + [j])[|items|] == j;
  }

  /** The ids of one kind are the trimmed non-blank ids of its items. */
  lemma IdsAre(items: seq<Json>, kind: Json -> bool, x: string)
    ensures x in CallIdsOf(items, kind) <==> x != "" && Names(items, kind, x)
  {
    hide UniqueTrimmed, CallIdFields, Names, Filter;
    UniqueTrimmedMembers(CallIdFields(Filter(items, kind)), x);
    FilterNames(items, kind, x);
  }

  /** After the rewrite an id is listed exactly if it is what some listed id is known by. */
  lemma RewrittenIds(items: seq<Json>, kind: Json -> bool, x: string)
    requires forall j :: kind(RewriteItem(j)) == kind(j) && (kind(j) ==> Bears(j))
    ensures x in CallIdsOf(RewriteAll(items), kind) <==> exists y :: y in CallIdsOf(items, kind) && KnownBy(y) == x
  {
    hide TrimSpace, Field, Canonical, RewriteItem, CallIdsOf, Bears;
    IdsAre(RewriteAll(items), kind, x);
    if x in CallIdsOf(RewriteAll(items), kind) {
      var i :| 0 <= i < |items| && kind(RewriteAll(items)[i]) && TrimSpace(Field(RewriteAll(items)[i], "call_id")) == x;
      var y := TrimSpace(Field(items[i], "call_id"));
      RewriteItemFields(items[i]);
      assert Names(items, kind, y);
      BlankKnown(y);
      IdsAre(items, kind, y);
    }
    if y :| y in CallIdsOf(items, kind) && KnownBy(y) == x {
      IdsAre(items, kind, y);
      var i :| 0 <= i < |items| && kind(items[i]) && TrimSpace(Field(items[i], "call_id")) == y;
      RewriteItemFields(items[i]);
      TrimIdempotent(Field(items[i], "call_id"));
      KnownNotBlank(y);
      assert kind(RewriteAll(items)[i]) && TrimSpace(Field(RewriteAll(items)[i], "call_id")) == x;
    }
  }

  lemma BlankKnown(y: string)
    ensures y == "" ==> KnownBy(y) == ""
  {
    BlankEmpty();
  }

  /** Outputs that answered the calls of a list before the rewrite answer them after it: both halves are rewritten alike. */
  lemma PairsKept(calls: seq<Json>, outputs: seq<Json>)
    requires SameIds(CallIds(calls), OutputIds(outputs))
    ensures SameIds(CallIds(RewriteAll(calls)), OutputIds(RewriteAll(outputs)))
  {
    hide CallIdsOf, RewriteAll, KnownBy, IsCall, IsCallOutput, RewriteItem;
    forall j
      ensures IsCall(RewriteItem(j)) == IsCall(j) && IsCallOutput(RewriteItem(j)) == IsCallOutput(j)
    {
      RewriteItemFields(j);
    }
    forall x
      ensures x in CallIds(RewriteAll(calls)) <==> x in OutputIds(RewriteAll(outputs))
    {
      RewrittenIds(calls, j => IsCall(j), x);
      RewrittenIds(outputs, j => IsCallOutput(j), x);
    }
  }
}
