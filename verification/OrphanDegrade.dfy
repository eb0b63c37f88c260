/** The lossy fallback for an orphan continuation: tool items become text, older ones are dropped, reasoning goes. */
module OrphanDegrade {
  import opened Options
  import opened Text
  import opened ResponsesItems
  import Continuation

  const MaxToolItems: nat := 100

  predicate IsReasoning(j: Json) {
    j.Obj? && Type(j) == "reasoning"
  }

  /** Custom tool calls are not among the degraded items. */
  predicate IsTool(j: Json) {
    j.Obj? && (Type(j) == "function_call" || Type(j) == "function_call_output")
  }

  function Tools(items: seq<Json>): seq<Json> {
    Filter(items, j => IsTool(j))
  }

  function Others(items: seq<Json>): seq<Json> {
    Filter(items, j => !IsTool(j) && !IsReasoning(j))
  }

  /** How many of the earliest tool items are dropped. */
  function Dropped(items: seq<Json>): nat {
    if |Tools(items)| > MaxToolItems then |Tools(items)| - MaxToolItems else 0
  }

  // ----- What is written -----

  /** A written item and where it comes from. */
  datatype Written = Kept(item: Json) | AsText(tool: Json) | Omission(count: nat)

  /** `show` prints values that are not strings. */
  type Printer = Json -> string

  /** `fmt.Sprint` of a field, trimmed. */
  function Printed(show: Printer, j: Json, name: string): string
    requires j.Obj?
  {
    TrimSpace(if name !in j.fields then "<nil>" else if j.fields[name].Str? then j.fields[name].s else show(j.fields[name]))
  }

  function UserText(text: string): Json {
    Obj(map["type" := Str("message"), "role" := Str("user"),
            "content" := Arr([Obj(map["type" := Str("input_text"), "text" := Str(text)])])])
  }

  function AssistantText(text: string): Json {
    Obj(map["type" := Str("message"), "role" := Str("assistant"), "status" := Str("completed"),
            "content" := Arr([Obj(map["type" := Str("output_text"), "text" := Str(text),
                                      "annotations" := Arr([]), "logprobs" := Arr([])])])])
  }

  function ToolText(show: Printer, j: Json): Json
    requires IsTool(j)
  {
    if Type(j) == "function_call" then
      var name := Printed(show, j, "name");
      AssistantText("[Previous tool call: " + (if name == "" then "tool" else name) + "] arguments:\n" + Printed(show, j, "arguments"))
    else
      var callId := Printed(show, j, "call_id");
      var origin := if callId == "" then "previous tool" else "previous tool (call_id=" + callId + ")";
      UserText("[Output from " + origin + "]\n" + Printed(show, j, "output"))
  }

  function Render(show: Printer, w: Written): Json {
    match w
    case Kept(item) => item
    case AsText(tool) => if IsTool(tool) then ToolText(show, tool) else tool
    case Omission(count) => UserText("[" + Digits(count) + " earlier tool calls and outputs omitted to fit context]")
  }

  function RenderAll(show: Printer, ws: seq<Written>): seq<Json> {
    seq(|ws|, i requires 0 <= i < |ws| => Render(show, ws[i]))
  }

  // ----- The rewrite, by the rank of each tool item -----

  /** What item `j` becomes when `rank` tool items come before it and the first `drop` are dropped. */
  function Rewrite(j: Json, rank: nat, drop: nat): seq<Written> {
    if IsReasoning(j) then []
    else if !IsTool(j) then [Kept(j)]
    else if rank < drop then []
    else if rank == drop && drop > 0 then [Omission(drop), AsText(j)]
    else [AsText(j)]
  }

  function RewriteAll(items: seq<Json>, drop: nat): seq<Written> {
    if items == [] then []
    else
      var front := items[..|items| - 1];
      RewriteAll(front, drop) + Rewrite(items[|items| - 1], |Tools(front)|, drop)
  }

  function Reasonings(items: seq<Json>): nat {
    |Filter(items, j => IsReasoning(j))|
  }

  datatype Degraded = Degraded(payload: Continuation.Payload, changed: nat, failed: bool)

  /** A list of which nothing is left is sent as null. */
  function InputFrom(items: seq<Json>): Json {
    if items == [] then Null else Arr(items)
  }

  /** The items a payload sends. */
  function Sent(p: Continuation.Payload): seq<Json> {
    var items := Continuation.Normalize(Continuation.InputOf(p));
    if items.Ok? then items.value else []
  }

  /** The payload after the degrade, and how many items it changed. */
  function Degrade(show: Printer, p: Continuation.Payload): Degraded {
    var items := Continuation.Normalize(Continuation.InputOf(p));
    if items.Err? then Degraded(p, 0, true)
    else
      var drop := Dropped(items.value);
      var changed := Reasonings(items.value) + |Tools(items.value)| - drop;
      if changed == 0 then Degraded(p, 0, false)
      else
        var out := Scrub(RenderAll(show, RewriteAll(items.value, drop)));
        Degraded(p["input" := InputFrom(out)] - {"previous_response_id"}, changed, false)
  }

  // ----- Laws -----

  /** The tool items written as text, the other items, and the omission markers of a list. */
  function TextSources(ws: seq<Written>): seq<Json> {
    if ws == [] then []
    else
      var before, w := TextSources(ws[..|ws| - 1]), ws[|ws| - 1];
      if w.AsText? then before + [w.tool] else before
  }

  function KeptItems(ws: seq<Written>): seq<Json> {
    if ws == [] then []
    else
      var before, w := KeptItems(ws[..|ws| - 1]), ws[|ws| - 1];
      if w.Kept? then before + [w.item] else before
  }

  lemma {:induction false} SourcesConcat(a: seq<Written>, b: seq<Written>)
    ensures TextSources(a + b) == TextSources(a) + TextSources(b) && KeptItems(a + b) == KeptItems(a) + KeptItems(b)
  {
    if b == [] {
      assert a + b == a;
    } else {
      assert (a + b)[..|a + b| - 1] == a + b[..|b| - 1];
      SourcesConcat(a, b[..|b| - 1]);
    }
  }

  lemma SourcesOne(w: Written)
    ensures TextSources([w]) == if w.AsText? then [w.tool] else []
    ensures KeptItems([w]) == if w.Kept? then [w.item] else []
  {
    assert [w][..0] == [];
  }

  lemma NoSources()
    ensures TextSources([]) == [] && KeptItems([]) == []
  {
  }

  lemma RewriteSources(j: Json, rank: nat, drop: nat)
    ensures TextSources(Rewrite(j, rank, drop)) == if IsTool(j) && rank >= drop then [j] else []
    ensures KeptItems(Rewrite(j, rank, drop)) == if IsTool(j) || IsReasoning(j) then [] else [j]
  {
    hide IsTool, IsReasoning, TextSources, KeptItems;
    ToolNotReasoning(j);
    NoSources();
    SourcesOne(Kept(j));
    SourcesOne(AsText(j));
    SourcesOne(Omission(drop));
    SourcesConcat([Omission(drop)], [AsText(j)]);
    assert [Omission(drop)] + [AsText(j)] == [Omission(drop), AsText(j)];
  }

  lemma ToolNotReasoning(j: Json)
    ensures !(IsTool(j) && IsReasoning(j))
  {
    assert "reasoning"[0] != "function_call"[0] && "reasoning"[0] != "function_call_output"[0];
  }

  lemma FilterSnoc(items: seq<Json>, j: Json, keep: Json -> bool)
    ensures Filter(items + [j], keep) == if keep(j) then Filter(items, keep) + [j] else Filter(items, keep)
  {
    assert (items + [j])[..|items|] == items;
  }

  function TailFrom(tools: seq<Json>, drop: nat): seq<Json> {
    if drop <= |tools| then tools[drop..] else []
  }

  lemma TailSnoc(tools: seq<Json>, j: Json, drop: nat)
    ensures TailFrom(tools + [j], drop) == if |tools| >= drop then TailFrom(tools, drop) + [j] else []
  {
  }

  lemma ToolsSnoc(items: seq<Json>, j: Json)
    ensures Tools(items + [j]) == if IsTool(j) then Tools(items) + [j] else Tools(items)
    ensures Others(items + [j]) == if IsTool(j) || IsReasoning(j) then Others(items) else Others(items) + [j]
  {
    FilterSnoc(items, j, x => IsTool(x));
    FilterSnoc(items, j, x => !IsTool(x) && !IsReasoning(x));
  }

  lemma RewriteAllSnoc(items: seq<Json>, j: Json, drop: nat)
    ensures RewriteAll(items + [j], drop) == RewriteAll(items, drop) + Rewrite(j, |Tools(items)|, drop)
  {
    assert (items + [j])[..|items|] == items;
  }

  /** The text items are exactly the tool items after the first `drop`, in order; all others but reasoning stay, in order. */
  lemma {:induction false} RewriteKeepsTail(items: seq<Json>, drop: nat)
    ensures TextSources(RewriteAll(items, drop)) == TailFrom(Tools(items), drop)
    ensures KeptItems(RewriteAll(items, drop)) == Others(items)
  {
    hide *;
    if items == [] {
      TailEmpty(drop);
    } else {
      var front, j := items[..|items| - 1], items[|items| - 1];
      RewriteKeepsTail(front, drop);
      assert front + [j] == items;
      TailStep(front, j, drop);
    }
  }

  lemma TailEmpty(drop: nat)
    ensures TextSources(RewriteAll([], drop)) == TailFrom(Tools([]), drop) && KeptItems(RewriteAll([], drop)) == Others([])
  {
  }

  lemma TailStep(front: seq<Json>, j: Json, drop: nat)
    requires TextSources(RewriteAll(front, drop)) == TailFrom(Tools(front), drop) && KeptItems(RewriteAll(front, drop)) == Others(front)
    ensures TextSources(RewriteAll(front + [j], drop)) == TailFrom(Tools(front + [j]), drop)
    ensures KeptItems(RewriteAll(front + [j], drop)) == Others(front + [j])
  {
    hide *;
    RewriteAllSnoc(front, j, drop);
    var more := Rewrite(j, |Tools(front)|, drop);
    SourcesConcat(RewriteAll(front, drop), more);
    RewriteSources(j, |Tools(front)|, drop);
    ToolsSnoc(front, j);
    TailSnoc(Tools(front), j, drop);
    TailShort(Tools(front), drop);
  }

  lemma TailShort(tools: seq<Json>, drop: nat)
    ensures |tools| <= drop ==> TailFrom(tools, drop) == []
  {
  }

  /** Exactly the last 100 tool items survive as text. */
  lemma LastToolsSurvive(items: seq<Json>)
    ensures var n, total := |TextSources(RewriteAll(items, Dropped(items)))|, |Tools(items)|;
      && n == (if total < MaxToolItems then total else MaxToolItems)
      && TextSources(RewriteAll(items, Dropped(items))) == Tools(items)[total - n..]
  {
    hide *;
    DroppedIs(items);
    RewriteKeepsTail(items, Dropped(items));
    TailLength(Tools(items), Dropped(items));
  }

  lemma DroppedIs(items: seq<Json>)
    ensures Dropped(items) == (if |Tools(items)| > MaxToolItems then |Tools(items)| - MaxToolItems else 0)
    ensures MaxToolItems == 100
  {
    hide Tools;
  }

  lemma TailLength(tools: seq<Json>, drop: nat)
    requires drop <= |tools|
    ensures TailFrom(tools, drop) == tools[drop..] && |TailFrom(tools, drop)| == |tools| - drop
  {
  }

  /** A marker stands directly before the first text item and nowhere else, and only if something was dropped. */
  ghost predicate Marked(ws: seq<Written>, drop: nat) {
    forall i | 0 <= i < |ws| && ws[i].Omission? ::
      drop > 0 && ws[i].count == drop && i + 1 < |ws| && ws[i + 1].AsText? && TextSources(ws[..i]) == []
  }

  predicate HasMarker(ws: seq<Written>) {
    exists w :: w in ws && w.Omission?
  }

  lemma MarkedConcat(before: seq<Written>, j: Json, rank: nat, drop: nat)
    requires Marked(before, drop) && (rank == drop ==> TextSources(before) == [])
    ensures Marked(before + Rewrite(j, rank, drop), drop)
    ensures HasMarker(before + Rewrite(j, rank, drop)) <==> HasMarker(before) || (IsTool(j) && rank == drop && drop > 0)
  {
    hide IsTool, IsReasoning, TextSources;
    ToolNotReasoning(j);
    var more := Rewrite(j, rank, drop);
    var all := before + more;
    forall i | 0 <= i < |all| && all[i].Omission?
      ensures drop > 0 && all[i].count == drop && i + 1 < |all| && all[i + 1].AsText? && TextSources(all[..i]) == []
    {
      if i < |before| {
        assert before[i].Omission?;
        assert all[..i] == before[..i];
      } else {
        assert i == |before| && all[..i] == before;
      }
    }
    if IsTool(j) && rank == drop && drop > 0 {
      assert all[|before|] == Omission(drop) && all[|before|] in all;
    }
    assert forall w :: w in all <==> w in before || w in more;
  }

  /** The marker is there exactly if more than the dropped tool items exist, directly before the first text item. */
  lemma {:induction false} MarkerPlace(items: seq<Json>, drop: nat)
    ensures Marked(RewriteAll(items, drop), drop)
    ensures HasMarker(RewriteAll(items, drop)) <==> |Tools(items)| > drop > 0
  {
    hide *;
    if items == [] {
      NoMarker(drop);
    } else {
      var front, j := items[..|items| - 1], items[|items| - 1];
      MarkerPlace(front, drop);
      assert front + [j] == items;
      MarkerStep(front, j, drop);
    }
  }

  lemma NoMarker(drop: nat)
    ensures Marked(RewriteAll([], drop), drop) && !HasMarker(RewriteAll([], drop)) && Tools([]) == []
  {
  }

  lemma MarkerStep(front: seq<Json>, j: Json, drop: nat)
    requires Marked(RewriteAll(front, drop), drop) && (HasMarker(RewriteAll(front, drop)) <==> |Tools(front)| > drop > 0)
    ensures Marked(RewriteAll(front + [j], drop), drop)
    ensures HasMarker(RewriteAll(front + [j], drop)) <==> |Tools(front + [j])| > drop > 0
  {
    hide *;
    RewriteKeepsTail(front, drop);
    TailShort(Tools(front), drop);
    RewriteAllSnoc(front, j, drop);
    ToolsSnoc(front, j);
    MarkedConcat(RewriteAll(front, drop), j, |Tools(front)|, drop);
  }

  /** There is only one: two markers would each have to come before every text item. */
  lemma MarkerUnique(ws: seq<Written>, drop: nat, i: nat, k: nat)
    requires Marked(ws, drop) && i <= k < |ws| && ws[i].Omission? && ws[k].Omission?
    ensures i == k
  {
    if i < k {
      assert ws[i + 1].AsText?;
      assert i + 1 < k;
      TextFound(ws[..k], i + 1);
    }
  }

  lemma {:induction false} TextFound(ws: seq<Written>, i: nat)
    requires i < |ws| && ws[i].AsText?
    ensures TextSources(ws) != []
  {
    if i < |ws| - 1 {
      TextFound(ws[..|ws| - 1], i);
    }
  }

  // ----- Nothing account-owned is left -----

  /** Not of a type that belongs to an account. */
  predicate Harmless(j: Json) {
    j.Obj? ==> Type(j) !in {"function_call", "function_call_output", "reasoning"}
  }

  lemma HarmlessIs(j: Json)
    ensures Harmless(j) <==> !IsTool(j) && !IsReasoning(j)
  {
    hide Type;
  }

  /** Type names in lower case are taken as they are. */
  lemma PlainType(t: string)
    requires t != "" && forall i | 0 <= i < |t| :: 'a' <= t[i] <= 'z' || t[i] == '_'
    ensures TrimSpace(ToLower(t)) == t
  {
    assert |ToLower(t)| == |t| && forall i | 0 <= i < |t| :: ToLower(t)[i] == t[i];
    assert ToLower(t) == t;
    TrimFixed(t);
  }

  lemma MessageType()
    ensures TrimSpace(ToLower("message")) == "message"
  {
    PlainType("message");
  }

  lemma MessageHarmless(j: Json)
    requires j.Obj? && Field(j, "type") == "message"
    ensures Harmless(j)
  {
    hide TrimSpace, ToLower;
    MessageType();
    assert "message"[0] != "reasoning"[0] && "message"[0] != "function_call"[0] && "message"[0] != "function_call_output"[0];
  }

  lemma UserTextHarmless(text: string)
    ensures Harmless(UserText(text)) && Harmless(AssistantText(text))
  {
    assert |"type"| == |"role"| && "type"[0] != "role"[0] && |"type"| != |"content"| && |"type"| != |"status"|;
    MessageHarmless(UserText(text));
    MessageHarmless(AssistantText(text));
  }

  /** What is not a kept item is a message of the gateway. */
  lemma WrittenText(show: Printer, w: Written) returns (text: string)
    requires !w.Kept? && (w.AsText? ==> IsTool(w.tool))
    ensures Render(show, w) == UserText(text) || Render(show, w) == AssistantText(text)
  {
    hide UserText, AssistantText, Type, Printed;
    if w.Omission? {
      text := "[" + Digits(w.count) + " earlier tool calls and outputs omitted to fit context]";
    } else if Type(w.tool) == "function_call" {
      var name := Printed(show, w.tool, "name");
      text := "[Previous tool call: " + (if name == "" then "tool" else name) + "] arguments:\n" + Printed(show, w.tool, "arguments");
    } else {
      var callId := Printed(show, w.tool, "call_id");
      var origin := if callId == "" then "previous tool" else "previous tool (call_id=" + callId + ")";
      text := "[Output from " + origin + "]\n" + Printed(show, w.tool, "output");
    }
  }

  lemma RenderHarmless(show: Printer, w: Written)
    requires w.Kept? ==> Harmless(w.item)
    requires w.AsText? ==> IsTool(w.tool)
    ensures Harmless(Render(show, w))
  {
    hide Harmless, UserText, AssistantText, Type, Printed, ToolText;
    if !w.Kept? {
      var text := WrittenText(show, w);
      UserTextHarmless(text);
    }
  }

  lemma {:induction false} RewriteHarmless(items: seq<Json>, drop: nat)
    ensures forall w | w in RewriteAll(items, drop) :: (w.Kept? ==> Harmless(w.item)) && (w.AsText? ==> IsTool(w.tool))
  {
    if items != [] {
      hide IsTool, IsReasoning, Harmless;
      HarmlessIs(items[|items| - 1]);
      RewriteHarmless(items[..|items| - 1], drop);
    }
  }

  lemma {:induction false} ScrubHarmless(items: seq<Json>)
    requires forall x | x in items :: Harmless(x)
    ensures forall x | x in Scrub(items) :: Harmless(x)
  {
    if items != [] {
      hide Harmless, ScrubItem;
      ScrubHarmless(items[1..]);
      ScrubItemHarmless(items[0]);
    }
  }

  lemma ScrubItemHarmless(j: Json)
    requires Harmless(j)
    ensures ScrubItem(j).Some? ==> Harmless(ScrubItem(j).value)
  {
    hide ScrubItem, TrimSpace, ToLower;
    if j.Obj? && ScrubItem(j).Some? {
      ScrubItemFields(j);
      SameType(j, ScrubItem(j).value);
    } else {
      NotObject(j);
    }
  }

  /** What a degrade that changed something leaves in the payload. */
  lemma DegradedInput(show: Printer, p: Continuation.Payload)
    requires Degrade(show, p).changed > 0
    ensures var p', items := Degrade(show, p).payload, Sent(p);
      && "previous_response_id" !in p' && "input" in p' && p'["input"] == InputFrom(Sent(p'))
      && Sent(p') == Scrub(RenderAll(show, RewriteAll(items, Dropped(items))))
  {
    hide Scrub, RenderAll, RewriteAll, Dropped, Tools, Reasonings;
    assert |"input"| != |"previous_response_id"|;
  }

  /** After a degrade that changed something, the input holds no reasoning, call or call output, and no ids. */
  lemma NothingOwnedIsLeft(show: Printer, p: Continuation.Payload)
    requires Degrade(show, p).changed > 0
    ensures var p' := Degrade(show, p).payload;
      && "previous_response_id" !in p' && "input" in p' && p'["input"] == InputFrom(Sent(p'))
      && Clean(Sent(p')) && forall x | x in Sent(p') :: Harmless(x)
  {
    hide Scrub, Harmless, Render, RewriteAll, Clean, IsTool, IsReasoning, Degrade, Sent;
    DegradedInput(show, p);
    var items := Sent(p);
    var ws := RewriteAll(items, Dropped(items));
    RewriteHarmless(items, Dropped(items));
    forall x | x in RenderAll(show, ws)
      ensures Harmless(x)
    {
      var i :| 0 <= i < |ws| && Render(show, ws[i]) == x;
      assert ws[i] in ws;
      RenderHarmless(show, ws[i]);
    }
    ScrubHarmless(RenderAll(show, ws));
    ScrubClean(RenderAll(show, ws));
  }

  lemma {:induction false} HarmlessFilters(items: seq<Json>)
    requires forall x | x in items :: Harmless(x)
    ensures Tools(items) == [] && Reasonings(items) == 0
  {
    if items != [] {
      hide Harmless, IsTool, IsReasoning;
      HarmlessIs(items[|items| - 1]);
      var front, j := items[..|items| - 1], items[|items| - 1];
      assert j in items && forall x | x in front :: x in items;
      HarmlessFilters(front);
    }
  }

  /** A degraded payload has nothing left to degrade. */
  lemma DegradeIdempotent(show: Printer, p: Continuation.Payload)
    ensures Degrade(show, Degrade(show, p).payload).payload == Degrade(show, p).payload
    ensures Degrade(show, p).changed > 0 ==> Degrade(show, Degrade(show, p).payload) == Degraded(Degrade(show, p).payload, 0, false)
  {
    hide Scrub, Harmless, RewriteAll, RenderAll, Clean;
    if Degrade(show, p).changed > 0 {
      NothingOwnedIsLeft(show, p);
      HarmlessFilters(Sent(Degrade(show, p).payload));
    }
  }

  /** The count is that of the reasoning items and the surviving tool items; the payload is untouched exactly when there
      are none (or the input cannot be read). */
  lemma ChangedCount(show: Printer, p: Continuation.Payload)
    ensures var items, d := Continuation.Normalize(Continuation.InputOf(p)), Degrade(show, p);
      && d.failed == items.Err?
      && (items.Ok? ==> d.changed == Reasonings(items.value) + |TextSources(RewriteAll(items.value, Dropped(items.value)))|)
      && (d.changed == 0 ==> d.payload == p)
  {
    hide Scrub, RewriteAll, RenderAll, Tools, TextSources;
    var items := Continuation.Normalize(Continuation.InputOf(p));
    if items.Ok? {
      LastToolsSurvive(items.value);
    }
  }

  // ----- Custom tool calls stay -----

  predicate IsCustom(j: Json) {
    j.Obj? && (Type(j) == "custom_tool_call" || Type(j) == "custom_tool_call_output")
  }

  lemma {:induction false} ScrubMembers(items: seq<Json>, y: Json)
    ensures y in items && ScrubItem(y).Some? ==> ScrubItem(y).value in Scrub(items)
  {
    if items != [] {
      hide ScrubItem;
      ScrubMembers(items[1..], y);
    }
  }

  lemma {:induction false} ScrubOrigin(items: seq<Json>, x: Json) returns (y: Json)
    requires x in Scrub(items)
    ensures y in items && ScrubItem(y) == Some(x)
  {
    hide ScrubItem;
    if ScrubItem(items[0]) == Some(x) {
      y := items[0];
    } else {
      y := ScrubOrigin(items[1..], x);
    }
  }

  /** A scrub keeps custom items, and makes none. */
  lemma ScrubCustom(j: Json)
    ensures IsCustom(j) ==> ScrubItem(j).Some?
    ensures ScrubItem(j).Some? ==> IsCustom(ScrubItem(j).value) == IsCustom(j)
  {
    hide ScrubItem, TrimSpace, ToLower;
    if j.Obj? && ScrubItem(j).Some? {
      ScrubItemFields(j);
      SameType(j, ScrubItem(j).value);
    } else {
      NotObject(j);
    }
    if IsCustom(j) {
      CustomNotReference(Type(j));
      ReferenceDropped(j);
    }
  }

  lemma CustomNotReference(t: string)
    requires t == "custom_tool_call" || t == "custom_tool_call_output"
    ensures !HasSuffix(t, "_reference")
  {
    assert (t[|t| - 1] == 'l' || t[|t| - 1] == 't') && "_reference"[9] == 'e';
  }

  lemma {:induction false} KeptMember(ws: seq<Written>, j: Json)
    ensures j in KeptItems(ws) <==> Kept(j) in ws
  {
    if ws != [] {
      KeptMember(ws[..|ws| - 1], j);
      assert forall w :: w in ws <==> w in ws[..|ws| - 1] || w == ws[|ws| - 1];
    }
  }

  lemma {:induction false} FilterMember(items: seq<Json>, keep: Json -> bool, j: Json)
    ensures j in Filter(items, keep) <==> j in items && keep(j)
  {
    if items != [] {
      FilterMember(items[..|items| - 1], keep, j);
      assert forall x :: x in items <==> x in items[..|items| - 1] || x == items[|items| - 1];
    }
  }

  lemma CustomHarmless(j: Json)
    requires IsCustom(j)
    ensures Harmless(j)
  {
    assert "custom_tool_call"[0] == 'c' && "custom_tool_call_output"[0] == 'c';
    assert "reasoning"[0] != 'c' && "function_call"[0] != 'c' && "function_call_output"[0] != 'c';
  }

  lemma MessageNotCustom(j: Json)
    requires j.Obj? && Field(j, "type") == "message"
    ensures !IsCustom(j)
  {
    hide TrimSpace, ToLower;
    MessageType();
    assert "message"[0] == 'm' && "custom_tool_call"[0] == 'c' && "custom_tool_call_output"[0] == 'c';
  }

  lemma RenderedCustom(show: Printer, w: Written)
    requires w.AsText? ==> IsTool(w.tool)
    requires IsCustom(Render(show, w))
    ensures w.Kept?
  {
    hide IsCustom, Type, Printed;
    assert |"type"| == |"role"| && "type"[0] != "role"[0] && |"type"| != |"content"| && |"type"| != |"status"|;
    if !w.Kept? {
      MessageNotCustom(Render(show, w));
    }
  }

  /** A call or call output is left after a degrade exactly if the request had custom tool items: those are not touched. */
  lemma CallsLeftIffCustom(show: Printer, p: Continuation.Payload)
    requires Degrade(show, p).changed > 0
    ensures (exists x :: x in Sent(Degrade(show, p).payload) && (IsCall(x) || IsCallOutput(x))) <==>
            (exists j :: j in Sent(p) && IsCustom(j))
  {
    hide Scrub, Render, RewriteAll, IsTool, IsReasoning, IsCustom, IsCall, IsCallOutput, Clean, ScrubItem, Degrade, Sent;
    DegradedInput(show, p);
    NothingOwnedIsLeft(show, p);
    var items, out := Sent(p), Sent(Degrade(show, p).payload);
    var ws := RewriteAll(items, Dropped(items));
    var rendered := RenderAll(show, ws);
    if x :| x in out && (IsCall(x) || IsCallOutput(x)) {
      HarmlessCall(x);
      var y := ScrubOrigin(rendered, x);
      ScrubCustom(y);
      var i :| 0 <= i < |ws| && Render(show, ws[i]) == y;
      assert ws[i] in ws;
      RewriteHarmless(items, Dropped(items));
      RenderedCustom(show, ws[i]);
      KeptOrigin(show, items, ws[i].item);
      RenderKept(show, ws[i].item);
    }
    if j :| j in items && IsCustom(j) {
      CustomHarmless(j);
      KeptOrigin(show, items, j);
      var i :| 0 <= i < |ws| && ws[i] == Kept(j);
      RenderKept(show, j);
      assert rendered[i] == j;
      ScrubCustom(j);
      ScrubMembers(rendered, j);
      CustomIsCall(ScrubItem(j).value);
    }
  }

  lemma KeptOrigin(show: Printer, items: seq<Json>, j: Json)
    ensures Kept(j) in RewriteAll(items, Dropped(items)) <==> j in items && Harmless(j)
  {
    hide RewriteAll, KeptItems, IsTool, IsReasoning, Tools, Filter, Harmless;
    RewriteKeepsTail(items, Dropped(items));
    KeptMember(RewriteAll(items, Dropped(items)), j);
    OthersAre(items);
    FilterMember(items, x => Harmless(x), j);
  }

  lemma RenderKept(show: Printer, j: Json)
    ensures Render(show, Kept(j)) == j
  {
  }

  lemma HarmlessCall(x: Json)
    requires Harmless(x) && (IsCall(x) || IsCallOutput(x))
    ensures IsCustom(x)
  {
  }

  lemma CustomIsCall(x: Json)
    requires IsCustom(x)
    ensures IsCall(x) || IsCallOutput(x)
  {
  }

  // ----- What is forwarded -----

  /** A scrub leaves the texts the gateway writes alone. */
  lemma TextClean(text: string)
    ensures CleanItem(UserText(text)) && CleanItem(AssistantText(text))
  {
    hide TrimSpace, ToLower, HasSuffix;
    Keys();
    PartClean("input_text", Obj(map["type" := Str("input_text"), "text" := Str(text)]));
    PartClean("output_text", Obj(map["type" := Str("output_text"), "text" := Str(text),
                                     "annotations" := Arr([]), "logprobs" := Arr([])]));
    MessageClean(UserText(text), Obj(map["type" := Str("input_text"), "text" := Str(text)]));
    MessageClean(AssistantText(text), Obj(map["type" := Str("output_text"), "text" := Str(text),
                                              "annotations" := Arr([]), "logprobs" := Arr([])]));
  }

  lemma Keys()
    ensures "id" !in {"type", "role", "status", "content", "text", "annotations", "logprobs"}
    ensures "content" !in {"type", "role", "status", "text", "annotations", "logprobs"}
    ensures "type" !in {"role", "status", "content", "text", "annotations", "logprobs"}
  {
    assert |"id"| == 2 && |"content"| == 7 && |"type"| == 4;
    assert "type"[0] == 't' && "type"[1] == 'y' && "role"[0] == 'r' && "text"[1] == 'e';
  }

  lemma PartClean(t: string, j: Json)
    requires t == "input_text" || t == "output_text"
    requires j.Obj? && Field(j, "type") == t && "id" !in j.fields && "content" !in j.fields
    ensures CleanItem(j)
  {
    hide TrimSpace, ToLower;
    PlainType(t);
    assert t[|t| - 1] == 't' && "_reference"[9] == 'e';
  }

  lemma MessageClean(j: Json, part: Json)
    requires j.Obj? && Field(j, "type") == "message" && "id" !in j.fields && CleanItem(part)
    requires "content" in j.fields && j.fields["content"] == Arr([part])
    ensures CleanItem(j)
  {
    hide TrimSpace, ToLower;
    MessageType();
    assert |"message"| < |"_reference"|;
    assert Clean([part]);
  }

  lemma TextFixed(text: string)
    ensures ScrubItem(UserText(text)) == Some(UserText(text)) && ScrubItem(AssistantText(text)) == Some(AssistantText(text))
  {
    hide ScrubItem, CleanItem, UserText, AssistantText;
    TextClean(text);
    ScrubItemFixed(UserText(text));
    ScrubItemFixed(AssistantText(text));
  }

  lemma RenderedStays(show: Printer, w: Written)
    requires !w.Kept? && (w.AsText? ==> IsTool(w.tool))
    ensures ScrubItem(Render(show, w)) == Some(Render(show, w))
  {
    hide *;
    var text := WrittenText(show, w);
    TextFixed(text);
  }

  /** Kept items that are references go in the scrub; everything else is forwarded. */
  predicate Survives(w: Written) {
    w.Kept? ==> !IsReference(w.item)
  }

  function Survivors(ws: seq<Written>): (r: seq<Written>)
    ensures forall w | w in r :: Survives(w)
  {
    if ws == [] then []
    else
      var before, w := Survivors(ws[..|ws| - 1]), ws[|ws| - 1];
      if Survives(w) then before + [w] else before
  }

  /** What is forwarded for an entry: its text as it was written, or the kept item without its id. */
  function Forwarded(show: Printer, w: Written): Json {
    match w
    case Kept(item) => if ScrubItem(item).Some? then ScrubItem(item).value else Null
    case AsText(_) => Render(show, w)
    case Omission(_) => Render(show, w)
  }

  ghost predicate Labelled(show: Printer, out: seq<Json>, ws: seq<Written>) {
    |out| == |ws| && forall i | 0 <= i < |ws| :: out[i] == Forwarded(show, ws[i])
  }

  function Scrubbed(j: Json): seq<Json> {
    if ScrubItem(j).Some? then [ScrubItem(j).value] else []
  }

  lemma ScrubCons(j: Json, rest: seq<Json>)
    ensures Scrub([j] + rest) == Scrubbed(j) + Scrub(rest)
  {
    hide ScrubItem;
    assert ([j] + rest)[1..] == rest;
  }

  lemma {:induction false} ScrubSnoc(items: seq<Json>, j: Json)
    ensures Scrub(items + [j]) == Scrub(items) + Scrubbed(j)
  {
    hide Scrubbed, Scrub;
    ScrubNothing();
    if items == [] {
      assert [] + [j] == [j] == [j] + [];
      ScrubCons(j, []);
    } else {
      var first, rest := items[0], items[1..];
      assert items == [first] + rest && items + [j] == [first] + (rest + [j]);
      ScrubCons(first, rest);
      ScrubCons(first, rest + [j]);
      ScrubSnoc(rest, j);
    }
  }

  lemma ScrubNothing()
    ensures Scrub([]) == []
  {
  }

  lemma ForwardedIs(show: Printer, w: Written)
    requires w.AsText? ==> IsTool(w.tool)
    ensures if Survives(w) then ScrubItem(Render(show, w)) == Some(Forwarded(show, w)) else ScrubItem(Render(show, w)) == None
  {
    hide ScrubItem, Render, IsTool, IsReference;
    if w.Kept? {
      ReferenceDropped(w.item);
      RenderKept(show, w.item);
    } else {
      RenderedStays(show, w);
    }
  }

  lemma RenderMore(show: Printer, ws: seq<Written>)
    requires ws != []
    ensures RenderAll(show, ws) == RenderAll(show, ws[..|ws| - 1]) + [Render(show, ws[|ws| - 1])]
  {
    hide Render;
  }

  lemma NothingRendered(show: Printer)
    ensures Labelled(show, Scrub(RenderAll(show, [])), Survivors([]))
  {
    assert RenderAll(show, []) == [];
  }

  lemma {:induction false} ScrubbedTexts(show: Printer, ws: seq<Written>)
    requires forall w | w in ws && w.AsText? :: IsTool(w.tool)
    ensures Labelled(show, Scrub(RenderAll(show, ws)), Survivors(ws))
  {
    if ws == [] {
      NothingRendered(show);
    } else {
      hide ScrubItem, Render, RenderAll, IsTool, Survives, Forwarded, Scrub;
      var front, w := ws[..|ws| - 1], ws[|ws| - 1];
      assert w in ws && forall x | x in front :: x in ws;
      ScrubbedTexts(show, front);
      RenderMore(show, ws);
      ScrubSnoc(RenderAll(show, front), Render(show, w));
      ForwardedIs(show, w);
    }
  }

  lemma {:induction false} SurvivorsConcat(a: seq<Written>, b: seq<Written>)
    ensures Survivors(a + b) == Survivors(a) + Survivors(b)
  {
    hide Survives;
    if b == [] {
      assert a + b == a;
    } else {
      assert (a + b)[..|a + b| - 1] == a + b[..|b| - 1];
      SurvivorsConcat(a, b[..|b| - 1]);
    }
  }

  lemma {:induction false} SurvivorSources(ws: seq<Written>)
    ensures TextSources(Survivors(ws)) == TextSources(ws)
    ensures KeptItems(Survivors(ws)) == Filter(KeptItems(ws), j => !IsReference(j))
  {
    if ws != [] {
      hide IsReference;
      var front, w := ws[..|ws| - 1], ws[|ws| - 1];
      SurvivorSources(front);
      SourcesConcat(Survivors(front), [w]);
      SourcesOne(w);
      if w.Kept? {
        FilterSnoc(KeptItems(front), w.item, j => !IsReference(j));
      }
    }
  }

  lemma SurvivorsOne(w: Written)
    ensures Survivors([w]) == if Survives(w) then [w] else []
  {
    assert [w][..0] == [];
  }

  lemma RewriteSurvives(j: Json, rank: nat, drop: nat)
    ensures Survivors(Rewrite(j, rank, drop)) == Rewrite(j, rank, drop) || (!IsTool(j) && Survivors(Rewrite(j, rank, drop)) == [])
  {
    hide IsTool, IsReasoning, IsReference;
    SurvivorsOne(Kept(j));
    SurvivorsOne(AsText(j));
    SurvivorsOne(Omission(drop));
    SurvivorsConcat([Omission(drop)], [AsText(j)]);
    assert [Omission(drop)] + [AsText(j)] == [Omission(drop), AsText(j)];
  }

  /** The marker keeps its place and its number when references between the items go. */
  lemma {:induction false} MarkerForwarded(items: seq<Json>, drop: nat)
    ensures Marked(Survivors(RewriteAll(items, drop)), drop)
    ensures HasMarker(Survivors(RewriteAll(items, drop))) <==> |Tools(items)| > drop > 0
  {
    hide *;
    if items == [] {
      NoMarker(drop);
      NoSurvivors(drop);
    } else {
      var front, j := items[..|items| - 1], items[|items| - 1];
      MarkerForwarded(front, drop);
      assert front + [j] == items;
      ForwardStep(front, j, drop);
    }
  }

  lemma NoSurvivors(drop: nat)
    ensures Survivors(RewriteAll([], drop)) == RewriteAll([], drop)
  {
  }

  lemma ForwardStep(front: seq<Json>, j: Json, drop: nat)
    requires Marked(Survivors(RewriteAll(front, drop)), drop)
    requires HasMarker(Survivors(RewriteAll(front, drop))) <==> |Tools(front)| > drop > 0
    ensures Marked(Survivors(RewriteAll(front + [j], drop)), drop)
    ensures HasMarker(Survivors(RewriteAll(front + [j], drop))) <==> |Tools(front + [j])| > drop > 0
  {
    hide *;
    var before, more := RewriteAll(front, drop), Rewrite(j, |Tools(front)|, drop);
    RewriteKeepsTail(front, drop);
    TailShort(Tools(front), drop);
    RewriteAllSnoc(front, j, drop);
    ToolsSnoc(front, j);
    SurvivorsConcat(before, more);
    SurvivorSources(before);
    RewriteSurvives(j, |Tools(front)|, drop);
    MarkedConcat(Survivors(before), j, |Tools(front)|, drop);
    Nothing(Survivors(before));
  }

  lemma Nothing(ws: seq<Written>)
    ensures ws + [] == ws
  {
  }

  /** The entries of a degraded payload, in order. */
  function Entries(p: Continuation.Payload): seq<Written> {
    Survivors(RewriteAll(Sent(p), Dropped(Sent(p))))
  }

  // ----- What the texts say -----

  /** A message of one part, as it is sent. */
  predicate Says(j: Json, role: string, part: string, text: string) {
    && j.Obj? && Field(j, "type") == "message" && Field(j, "role") == role
    && "content" in j.fields && j.fields["content"].Arr? && |j.fields["content"].items| == 1
    && Field(j.fields["content"].items[0], "type") == part && Field(j.fields["content"].items[0], "text") == text
  }

  /** The text of a field: trimmed, if it is a string; what the printer makes of any other value; and the printer's word for
      an absent one. */
  predicate Prints(show: Printer, j: Json, name: string, text: string)
    requires j.Obj?
  {
    && (name !in j.fields ==> text == "<nil>")
    && (name in j.fields ==> text == TrimSpace(if j.fields[name].Str? then j.fields[name].s else show(j.fields[name])))
  }

  /** What stands for an entry: the assistant said what it called, the user reports the output, and the user notes what was
      left out. */
  ghost predicate Tells(show: Printer, w: Written, j: Json) {
    && (w.AsText? && w.tool.Obj? && Type(w.tool) == "function_call" ==>
          exists name, arguments ::
            && Prints(show, w.tool, "name", name) && Prints(show, w.tool, "arguments", arguments)
            && Says(j, "assistant", "output_text",
                    "[Previous tool call: " + (if name == "" then "tool" else name) + "] arguments:\n" + arguments)
            && Field(j, "status") == "completed")
    && (w.AsText? && w.tool.Obj? && Type(w.tool) == "function_call_output" ==>
          exists callId, output ::
            && Prints(show, w.tool, "call_id", callId) && Prints(show, w.tool, "output", output)
            && Says(j, "user", "input_text",
                    "[Output from previous tool" + (if callId == "" then "" else " (call_id=" + callId + ")") + "]\n" + output))
    && (w.Omission? ==>
          Says(j, "user", "input_text", "[" + Digits(w.count) + " earlier tool calls and outputs omitted to fit context]"))
  }

  lemma UserSays(text: string)
    ensures Says(UserText(text), "user", "input_text", text)
    ensures Says(AssistantText(text), "assistant", "output_text", text) && Field(AssistantText(text), "status") == "completed"
  {
    Keys();
    assert "role" !in {"type", "status", "content"} && "status" !in {"type", "content"} by {
      assert "role"[0] == 'r' && "status"[0] == 's';
    }
    assert "text" !in {"type", "annotations", "logprobs"} by {
      assert "text"[1] == 'e' && "type"[1] == 'y' && |"text"| == 4;
    }
  }

  lemma PrintedPrints(show: Printer, j: Json, name: string)
    requires j.Obj?
    ensures Prints(show, j, name, Printed(show, j, name))
  {
    TrimFixed("<nil>");
  }

  /** Every entry is told as it should be. */
  lemma RenderTells(show: Printer, w: Written)
    requires w.AsText? ==> IsTool(w.tool)
    ensures !w.Kept? ==> Tells(show, w, Render(show, w))
  {
    hide UserText, AssistantText, Type, Printed, Says, Prints;
    if w.AsText? {
      var name, arguments := Printed(show, w.tool, "name"), Printed(show, w.tool, "arguments");
      var callId, output := Printed(show, w.tool, "call_id"), Printed(show, w.tool, "output");
      PrintedPrints(show, w.tool, "name");
      PrintedPrints(show, w.tool, "arguments");
      PrintedPrints(show, w.tool, "call_id");
      PrintedPrints(show, w.tool, "output");
      if Type(w.tool) == "function_call" {
        assert "function_call" != "function_call_output" by {
          assert |"function_call"| != |"function_call_output"|;
        }
        UserSays("[Previous tool call: " + (if name == "" then "tool" else name) + "] arguments:\n" + arguments);
      } else {
        OutputText(callId, output);
        var origin := if callId == "" then "previous tool" else "previous tool (call_id=" + callId + ")";
        UserSays("[Output from " + origin + "]\n" + output);
      }
    } else if w.Omission? {
      UserSays("[" + Digits(w.count) + " earlier tool calls and outputs omitted to fit context]");
    }
  }

  lemma OutputText(callId: string, output: string)
    ensures var origin := if callId == "" then "previous tool" else "previous tool (call_id=" + callId + ")";
      "[Output from " + origin + "]\n" + output ==
      "[Output from previous tool" + (if callId == "" then "" else " (call_id=" + callId + ")") + "]\n" + output
  {
    assert "[Output from " + "previous tool" == "[Output from previous tool";
    if callId != "" {
      assert "previous tool (call_id=" == "previous tool" + " (call_id=";
    }
  }

  lemma {:induction false} FilterSame(items: seq<Json>, f: Json -> bool, g: Json -> bool)
    requires forall j :: f(j) == g(j)
    ensures Filter(items, f) == Filter(items, g)
  {
    if items != [] {
      FilterSame(items[..|items| - 1], f, g);
    }
  }

  lemma OthersAre(items: seq<Json>)
    ensures Others(items) == Filter(items, j => Harmless(j))
  {
    hide Harmless, IsTool, IsReasoning;
    forall j
      ensures Harmless(j) == (!IsTool(j) && !IsReasoning(j))
    {
      HarmlessIs(j);
    }
    FilterSame(items, j => !IsTool(j) && !IsReasoning(j), j => Harmless(j));
  }

  /** A call or its output, by its type. */
  predicate OfTool(j: Json) {
    j.Obj? && Type(j) in {"function_call", "function_call_output"}
  }

  lemma ToolsAre(items: seq<Json>)
    ensures Tools(items) == Filter(items, j => OfTool(j))
  {
    hide Type;
    FilterSame(items, j => IsTool(j), j => OfTool(j));
  }

  /** The payload that is forwarded, item by item: the last 100 tool items (all if there are fewer) as text and in order,
      every other item but reasoning and references without its ids and in order, and one omission marker directly before
      the first text exactly if there were more than 100. The input is null exactly if nothing of this is left. */
  lemma DegradedPayload(show: Printer, p: Continuation.Payload)
    requires Degrade(show, p).changed > 0
    ensures var p', ws := Degrade(show, p).payload, Entries(p);
      && "input" in p' && p'["input"] == (if Sent(p') == [] then Null else Arr(Sent(p'))) && Labelled(show, Sent(p'), ws)
      && (forall i | 0 <= i < |ws| :: Tells(show, ws[i], Sent(p')[i]))
      && KeptItems(ws) == Filter(Filter(Sent(p), j => Harmless(j)), j => !IsReference(j))
    ensures var tools, ws := Filter(Sent(p), j => OfTool(j)), Entries(p);
      var n := if |tools| < 100 then |tools| else 100;
      && TextSources(ws) == tools[|tools| - n..]
      && (HasMarker(ws) <==> |tools| > 100) && Marked(ws, |tools| - n)
      && forall i, k | 0 <= i < |ws| && 0 <= k < |ws| && ws[i].Omission? && ws[k].Omission? :: i == k
  {
    hide *;
    var items := Sent(p);
    var drop := Dropped(items);
    var all := RewriteAll(items, drop);
    DegradedInput(show, p);
    RewriteTools(items, drop);
    ScrubbedTexts(show, all);
    SurvivorSources(all);
    RewriteKeepsTail(items, drop);
    LastToolsSurvive(items);
    DroppedIs(items);
    MarkerForwarded(items, drop);
    EntriesAre(p);
    OthersAre(items);
    ToolsAre(items);
    InputIs(Sent(Degrade(show, p).payload));
    var ws := Entries(p);
    SurvivorsWritten(all);
    LabelledTells(show, Sent(Degrade(show, p).payload), ws);
    forall i, k | 0 <= i < |ws| && 0 <= k < |ws| && ws[i].Omission? && ws[k].Omission?
      ensures i == k
    {
      if i <= k {
        MarkerUnique(ws, drop, i, k);
      } else {
        MarkerUnique(ws, drop, k, i);
      }
    }
  }

  lemma InputIs(items: seq<Json>)
    ensures InputFrom(items) == if items == [] then Null else Arr(items)
  {
  }

  lemma {:induction false} SurvivorsWritten(ws: seq<Written>)
    ensures forall w | w in Survivors(ws) :: w in ws
  {
    if ws != [] {
      hide Survives;
      SurvivorsWritten(ws[..|ws| - 1]);
    }
  }

  lemma LabelledTells(show: Printer, out: seq<Json>, ws: seq<Written>)
    requires Labelled(show, out, ws) && forall w | w in ws && w.AsText? :: IsTool(w.tool)
    ensures |out| == |ws| && forall i | 0 <= i < |ws| :: Tells(show, ws[i], out[i])
  {
    hide Tells, Render, IsTool;
    forall i | 0 <= i < |ws|
      ensures Tells(show, ws[i], out[i])
    {
      assert ws[i] in ws;
      RenderTells(show, ws[i]);
      if ws[i].Kept? {
        KeptTells(show, ws[i], out[i]);
      }
    }
  }

  lemma KeptTells(show: Printer, w: Written, j: Json)
    requires w.Kept?
    ensures Tells(show, w, j)
  {
  }

  lemma EntriesAre(p: Continuation.Payload)
    ensures Entries(p) == Survivors(RewriteAll(Sent(p), Dropped(Sent(p))))
  {
  }

  lemma RewriteTools(items: seq<Json>, drop: nat)
    ensures forall w | w in RewriteAll(items, drop) && w.AsText? :: IsTool(w.tool)
  {
    hide Harmless, IsTool, RewriteAll;
    RewriteHarmless(items, drop);
  }

  // ----- The loops -----

  /** First pass: the number of tool items. */
  method CountTools(items: seq<Json>) returns (total: nat)
    ensures total == |Tools(items)|
  {
    hide IsTool;
    total := 0;
    assert items[..0] == [] && Tools([]) == [];
    for i := 0 to |items|
      invariant total == |Tools(items[..i])|
    {
      assert items[..i + 1] == items[..i] + [items[i]];
      ToolsSnoc(items[..i], items[i]);
      if IsTool(items[i]) {
        total := total + 1;
      }
    }
    assert items[..|items|] == items;
  }

  lemma RenderSnoc(show: Printer, items: seq<Json>, j: Json, drop: nat)
    ensures RenderAll(show, RewriteAll(items + [j], drop)) ==
      RenderAll(show, RewriteAll(items, drop)) + RenderAll(show, Rewrite(j, |Tools(items)|, drop))
  {
    hide Rewrite, RewriteAll, Render;
    RewriteAllSnoc(items, j, drop);
  }

  lemma ReasoningsSnoc(items: seq<Json>, j: Json)
    ensures Reasonings(items + [j]) == Reasonings(items) + (if IsReasoning(j) then 1 else 0)
  {
    FilterSnoc(items, j, x => IsReasoning(x));
  }

  /** What one pass of the second loop appends. */
  method RewriteItem(show: Printer, j: Json, drop: nat, toolsDropped: nat, markerEmitted: bool, ghost rank: nat)
    returns (out: seq<Json>, dropped: bool, marked: bool, changed: bool)
    requires toolsDropped == (if rank < drop then rank else drop) && (markerEmitted <==> drop > 0 && rank > drop)
    ensures out == RenderAll(show, Rewrite(j, rank, drop))
    ensures dropped <==> IsTool(j) && rank < drop
    ensures marked <==> IsTool(j) && drop > 0 && rank == drop
    ensures changed <==> IsReasoning(j) || (IsTool(j) && rank >= drop)
  {
    hide IsReasoning, IsTool, Render, RenderAll, Rewrite, ToolText;
    RenderRewrite(show, j, rank, drop);
    out, dropped, marked, changed := [], false, false, false;
    if IsReasoning(j) {
      changed := true;
      return;
    }
    var isTool := IsTool(j);
    if isTool && toolsDropped < drop {
      dropped := true;
      return;
    }
    if isTool && drop > 0 && !markerEmitted {
      out := [Render(show, Omission(drop))];
      marked := true;
    }
    if isTool {
      out := out + [ToolText(show, j)];
      changed := true;
    } else {
      out := out + [j];
    }
  }

  lemma RenderRewrite(show: Printer, j: Json, rank: nat, drop: nat)
    ensures !(IsTool(j) && IsReasoning(j))
    ensures RenderAll(show, Rewrite(j, rank, drop)) ==
      if IsReasoning(j) || (IsTool(j) && rank < drop) then []
      else
        (if IsTool(j) && rank == drop && drop > 0 then [Render(show, Omission(drop))] else []) +
        [if IsTool(j) then ToolText(show, j) else j]
  {
    hide IsReasoning, IsTool, ToolText;
    ToolNotReasoning(j);
  }

  method DegradePayload(show: Printer, p: Continuation.Payload) returns (d: Degraded)
    ensures d == Degrade(show, p)
  {
    hide IsTool, IsReasoning, Scrub, Tools, RewriteAll, RenderAll, Reasonings, Rewrite;
    var normalized := Continuation.Normalize(Continuation.InputOf(p));
    if normalized.Err? {
      return Degraded(p, 0, true);
    }
    var items := normalized.value;
    EmptyLists(show, Dropped(items));
    if |items| == 0 {
      return Degraded(p, 0, false);
    }
    var totalToolItems := CountTools(items);
    var dropTool := 0;
    if totalToolItems > MaxToolItems {
      dropTool := totalToolItems - MaxToolItems;
    }
    var rewritten: seq<Json>, changed, toolsDropped, markerEmitted := [], 0, 0, false;
    assert items[..0] == [];
    for i := 0 to |items|
      invariant rewritten == RenderAll(show, RewriteAll(items[..i], dropTool))
      invariant var rank := |Tools(items[..i])|;
        && toolsDropped == (if rank < dropTool then rank else dropTool)
        && (markerEmitted <==> dropTool > 0 && rank > dropTool)
        && changed == Reasonings(items[..i]) + (if rank < dropTool then 0 else rank - dropTool)
    {
      ghost var front := items[..i];
      assert items[..i + 1] == front + [items[i]];
      ToolsSnoc(front, items[i]);
      ReasoningsSnoc(front, items[i]);
      RenderSnoc(show, front, items[i], dropTool);
      ToolNotReasoning(items[i]);
      var out, dropped, marked, counted := RewriteItem(show, items[i], dropTool, toolsDropped, markerEmitted, |Tools(front)|);
      rewritten := rewritten + out;
      if dropped {
        toolsDropped := toolsDropped + 1;
      }
      if marked {
        markerEmitted := true;
      }
      if counted {
        changed := changed + 1;
      }
    }
    assert items[..|items|] == items;
    if changed == 0 && dropTool == 0 {
      return Degraded(p, 0, false);
    }
    d := Degraded(p["input" := InputFrom(Scrub(rewritten))] - {"previous_response_id"}, changed, false);
  }

  lemma EmptyLists(show: Printer, drop: nat)
    ensures Tools([]) == [] && Reasonings([]) == 0 && RenderAll(show, RewriteAll([], drop)) == []
    ensures forall d: nat :: RenderAll(show, RewriteAll([], d)) == []
  {
  }
}
