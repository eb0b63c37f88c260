/** Responses input and output items as parsed JSON: their types, the ids they carry, and the scrub of continuation input. */
module ResponsesItems {
  import opened Options
  import opened Text

  datatype Json =
    | Null
    | Bool(b: bool)
    | Num(n: int)
    | Str(s: string)
    | Arr(items: seq<Json>)
    | Obj(fields: map<string, Json>)

  /** A string field; anything else reads as the empty string. */
  function Field(j: Json, name: string): string {
    if j.Obj? && name in j.fields && j.fields[name].Str? then j.fields[name].s else ""
  }

  function Type(j: Json): string {
    TrimSpace(ToLower(Field(j, "type")))
  }

  predicate IsCall(j: Json) {
    j.Obj? && (Type(j) == "function_call" || Type(j) == "custom_tool_call")
  }

  predicate IsCallOutput(j: Json) {
    j.Obj? && (Type(j) == "function_call_output" || Type(j) == "custom_tool_call_output")
  }

  /** Output items kept for replay; the type is compared exactly here. */
  predicate IsReplayable(j: Json) {
    var t := Field(j, "type");
    j.Obj? && (t == "reasoning" || t == "function_call" || t == "custom_tool_call")
  }

  function Filter(items: seq<Json>, keep: Json -> bool): seq<Json> {
    if items == [] then []
    else
      var before, x := Filter(items[..|items| - 1], keep), items[|items| - 1];
      if keep(x) then before + [x] else before
  }

  function ReplayItems(output: seq<Json>): seq<Json> {
    Filter(output, j => IsReplayable(j))
  }

  function CallIdFields(items: seq<Json>): seq<string> {
    seq(|items|, i requires 0 <= i < |items| => Field(items[i], "call_id"))
  }

  /** The distinct call ids of the items of one kind. */
  function CallIdsOf(items: seq<Json>, kind: Json -> bool): seq<string> {
    UniqueTrimmed(CallIdFields(Filter(items, kind)))
  }

  function CallIds(items: seq<Json>): seq<string> {
    CallIdsOf(items, j => IsCall(j))
  }

  function OutputIds(items: seq<Json>): seq<string> {
    CallIdsOf(items, j => IsCallOutput(j))
  }

  ghost predicate SameIds(a: seq<string>, b: seq<string>) {
    forall x :: x in a <==> x in b
  }

  // ----- Scrub -----

  predicate IsReference(j: Json) {
    j.Obj? && HasSuffix(Type(j), "_reference")
  }

  /** References go; ids go; the same holds for the entries of a content list. */
  function ScrubItem(j: Json): (r: Option<Json>)
    decreases j
  {
    if !j.Obj? then Some(j)
    else if IsReference(j) then None
    else if "content" in j.fields && j.fields["content"].Arr? then
      Some(Obj((j.fields - {"id"})["content" := Arr(Scrub(j.fields["content"].items))]))
    else Some(Obj(j.fields - {"id"}))
  }

  function Scrub(items: seq<Json>): (r: seq<Json>)
    decreases items
  {
    if items == [] then []
    else
      var x := ScrubItem(items[0]);
      (if x.Some? then [x.value] else []) + Scrub(items[1..])
  }

  /** No reference and no id is left, at any depth of content. */
  predicate CleanItem(j: Json)
    decreases j
  {
    j.Obj? ==>
      && !IsReference(j) && "id" !in j.fields
      && ("content" in j.fields && j.fields["content"].Arr? ==> Clean(j.fields["content"].items))
  }

  predicate Clean(items: seq<Json>)
    decreases items
  {
    forall i | 0 <= i < |items| :: CleanItem(items[i])
  }

  /** A scrubbed item keeps every field but its id and content. */
  lemma ScrubItemFields(j: Json)
    requires ScrubItem(j).Some? && j.Obj?
    ensures var x := ScrubItem(j).value;
      && x.Obj? && !IsReference(j) && "id" !in x.fields
      && Field(x, "type") == Field(j, "type") && Field(x, "call_id") == Field(j, "call_id")
      && ("content" in j.fields && j.fields["content"].Arr? ==>
            "content" in x.fields && x.fields["content"] == Arr(Scrub(j.fields["content"].items)))
      && (!("content" in j.fields && j.fields["content"].Arr?) ==> x.fields == j.fields - {"id"})
  {
    hide Scrub, IsReference;
    assert "call_id"[1] != "content"[1];
    assert |"type"| != |"content"| && |"type"| != |"id"| && |"content"| != |"id"| && |"call_id"| != |"id"|;
  }

  lemma SameType(j: Json, x: Json)
    requires j.Obj? && x.Obj? && Field(x, "type") == Field(j, "type")
    ensures Type(x) == Type(j) && IsReference(x) == IsReference(j) && IsCallOutput(x) == IsCallOutput(j)
  {
  }

  lemma {:induction false} ScrubItemClean(j: Json)
    ensures ScrubItem(j).Some? ==> CleanItem(ScrubItem(j).value)
    decreases j
  {
    if j.Obj? && ScrubItem(j).Some? {
      ScrubItemFields(j);
      SameType(j, ScrubItem(j).value);
      hide ScrubItem, IsReference, Clean;
      if "content" in j.fields && j.fields["content"].Arr? {
        ScrubClean(j.fields["content"].items);
      }
    }
  }

  lemma {:induction false} ScrubClean(items: seq<Json>)
    ensures Clean(Scrub(items))
    decreases items
  {
    if items != [] {
      hide ScrubItem, CleanItem;
      ScrubItemClean(items[0]);
      ScrubClean(items[1..]);
    }
  }

  /** What is already clean stays as it is. */
  lemma {:induction false} ScrubItemFixed(j: Json)
    requires CleanItem(j)
    ensures ScrubItem(j) == Some(j)
    decreases j
  {
    if j.Obj? {
      assert j.fields - {"id"} == j.fields;
      if "content" in j.fields && j.fields["content"].Arr? {
        ScrubFixed(j.fields["content"].items);
        assert j.fields["content" := j.fields["content"]] == j.fields;
      }
    }
  }

  lemma {:induction false} ScrubFixed(items: seq<Json>)
    requires Clean(items)
    ensures Scrub(items) == items
    decreases items
  {
    if items != [] {
      assert CleanItem(items[0]);
      ScrubItemFixed(items[0]);
      assert Clean(items[1..]);
      ScrubFixed(items[1..]);
    }
  }

  /** Scrubbing twice is scrubbing once. */
  lemma ScrubIdempotent(items: seq<Json>)
    ensures Scrub(Scrub(items)) == Scrub(items)
  {
    ScrubClean(items);
    ScrubFixed(Scrub(items));
  }

  lemma {:induction false} FilterConcat(a: seq<Json>, b: seq<Json>, keep: Json -> bool)
    ensures Filter(a + b, keep) == Filter(a, keep) + Filter(b, keep)
  {
    if b == [] {
      assert a + b == a;
    } else {
      assert (a + b)[..|a + b| - 1] == a + b[..|b| - 1];
      FilterConcat(a, b[..|b| - 1], keep);
    }
  }

  /** An output item whose type is literally reasoning or a call. */
  predicate Replayed(j: Json) {
    j.Obj? && "type" in j.fields && j.fields["type"] in {Str("reasoning"), Str("function_call"), Str("custom_tool_call")}
  }

  /** What is kept of an output for replay, item by item and in order. */
  lemma ReplayItemsAre(before: seq<Json>, x: Json, after: seq<Json>)
    ensures ReplayItems([]) == []
    ensures ReplayItems(before + [x] + after) ==
            ReplayItems(before) + (if Replayed(x) then [x] else []) + ReplayItems(after)
  {
    var keep := (j: Json) => IsReplayable(j);
    FilterConcat(before + [x], after, keep);
    FilterConcat(before, [x], keep);
    assert [x][..0] == [];
    assert Filter([x], keep) == if IsReplayable(x) then [x] else [];
    assert before + [x] + after == (before + [x]) + after;
  }

  function Outputs(items: seq<Json>): seq<Json> {
    Filter(items, j => IsCallOutput(j))
  }

  lemma OutputsCons(j: Json, rest: seq<Json>)
    ensures Outputs([j] + rest) == (if IsCallOutput(j) then [j] else []) + Outputs(rest)
  {
    hide IsCallOutput;
    FilterConcat([j], rest, x => IsCallOutput(x));
    assert [j][..0] == [];
  }

  lemma ScrubOutput(j: Json)
    ensures IsCallOutput(j) ==> ScrubItem(j).Some?
    ensures ScrubItem(j).Some? ==>
      IsCallOutput(ScrubItem(j).value) == IsCallOutput(j) && Field(ScrubItem(j).value, "call_id") == Field(j, "call_id")
  {
    hide TrimSpace, ToLower, HasSuffix, ScrubItem;
    if j.Obj? && ScrubItem(j).Some? {
      ScrubItemFields(j);
      SameType(j, ScrubItem(j).value);
    } else {
      NotObject(j);
    }
    if IsCallOutput(j) {
      NotReference(Type(j));
      ReferenceDropped(j);
    }
  }

  lemma NotObject(j: Json)
    ensures !j.Obj? ==> ScrubItem(j) == Some(j)
  {
  }

  lemma ReferenceDropped(j: Json)
    ensures ScrubItem(j).None? <==> IsReference(j)
  {
    hide IsReference, Scrub;
    assert IsReference(j) ==> j.Obj? by {
      ReferenceIsObject(j);
    }
  }

  lemma ReferenceIsObject(j: Json)
    ensures IsReference(j) ==> j.Obj?
  {
  }

  lemma NotReference(t: string)
    requires t == "function_call_output" || t == "custom_tool_call_output"
    ensures !HasSuffix(t, "_reference")
  {
    assert t[|t| - 1] == 't' && "_reference"[9] == 'e';
  }

  /** The call ids of the tool outputs survive a scrub: it removes item ids, not call ids. */
  lemma {:induction false} ScrubKeepsOutputs(items: seq<Json>)
    ensures CallIdFields(Outputs(Scrub(items))) == CallIdFields(Outputs(items))
  {
    if items != [] {
      hide ScrubItem, IsCallOutput, Outputs, CallIdFields;
      var x, rest := ScrubItem(items[0]), items[1..];
      ScrubKeepsOutputs(rest);
      assert items == [items[0]] + rest;
      ScrubOutput(items[0]);
      CallIdsCons(items[0], rest);
      if x.Some? {
        CallIdsCons(x.value, Scrub(rest));
      } else {
        assert Scrub(items) == Scrub(rest);
      }
    }
  }

  lemma CallIdsCons(j: Json, rest: seq<Json>)
    ensures CallIdFields(Outputs([j] + rest)) ==
      (if IsCallOutput(j) then [Field(j, "call_id")] else []) + CallIdFields(Outputs(rest))
  {
    hide IsCallOutput, Outputs, Field;
    OutputsCons(j, rest);
  }

  lemma ScrubKeepsOutputIds(items: seq<Json>)
    ensures OutputIds(Scrub(items)) == OutputIds(items)
  {
    ScrubKeepsOutputs(items);
  }
}
