/** The rewrite of a previous-response continuation into a self-contained request, and chains of such requests. */
module Continuation {
  import opened Options
  import opened Text
  import opened ResponsesItems

  /** What is stored for a response: the full input of its request and the replayable items of its output. */
  datatype Replay = Replay(account: string, input: seq<Json>, items: seq<Json>)

  datatype Failure =
    | NotFound
    | NotReplayable
    | InvalidInput
    | Mismatch(expected: seq<string>, missing: seq<string>, unexpected: seq<string>)

  datatype Result<T> = Ok(value: T) | Err(failure: Failure)

  type Payload = map<string, Json>

  function InputOf(p: Payload): Json {
    if "input" in p then p["input"] else Null
  }

  function PreviousId(p: Payload): string {
    TrimSpace(Field(Obj(p), "previous_response_id"))
  }

  function Normalize(input: Json): Result<seq<Json>> {
    match input
    case Null => Ok([])
    case Arr(items) => Ok(items)
    case Obj(_) => Ok([input])
    case Str(s) => Ok([Obj(map["role" := Str("user"), "content" := Str(s)])])
    case Bool(_) => Err(InvalidInput)
    case Num(_) => Err(InvalidInput)
  }

  // ----- Validation of tool outputs -----

  /** The distinct expected ids that are not provided. */
  function Missing(expected: seq<string>, provided: seq<string>): (r: seq<string>)
    ensures forall x :: x in r <==> x in UniqueTrimmed(expected) && x !in UniqueTrimmed(provided)
  {
    MissingFrom(UniqueTrimmed(expected), UniqueTrimmed(provided))
  }

  function MissingFrom(expected: seq<string>, provided: seq<string>): (r: seq<string>)
    ensures forall x :: x in r <==> x in expected && x !in provided
  {
    if expected == [] then []
    else
      var before, x := MissingFrom(expected[..|expected| - 1], provided), expected[|expected| - 1];
      assert expected == expected[..|expected| - 1] + [x];
      if x in provided then before else before + [x]
  }

  method DiffExpected(expected: seq<string>, provided: seq<string>) returns (missing: seq<string>)
    ensures missing == Missing(expected, provided)
  {
    hide UniqueTrimmed;
    var wanted := CollectUnique(expected);
    var given := CollectUnique(provided);
    var seen: set<string> := set x | x in given;
    missing := [];
    for i := 0 to |wanted|
      invariant missing == MissingFrom(wanted[..i], given)
    {
      assert wanted[..i + 1][..i] == wanted[..i];
      if wanted[i] !in seen {
        missing := missing + [wanted[i]];
      }
    }
    assert wanted[..|wanted|] == wanted;
  }

  function Validate(items: seq<Json>, current: seq<Json>): Option<Failure> {
    var pending, provided := CallIds(items), OutputIds(current);
    var missing, unexpected := Missing(pending, provided), Missing(provided, pending);
    if pending == [] || (missing == [] && unexpected == []) then None
    else Some(Mismatch(pending, missing, unexpected))
  }

  /** Input is accepted exactly when no call is pending, or it answers each pending call and nothing else. */
  lemma ValidateIff(items: seq<Json>, current: seq<Json>)
    ensures Validate(items, current) == None <==> CallIds(items) == [] || SameIds(CallIds(items), OutputIds(current))
  {
    hide UniqueTrimmed, CallIdFields, Filter;
    var pending, provided := CallIds(items), OutputIds(current);
    UniqueFixed(CallIdFields(Filter(items, j => IsCall(j))));
    UniqueFixed(CallIdFields(Filter(current, j => IsCallOutput(j))));
    assert UniqueTrimmed(pending) == pending && UniqueTrimmed(provided) == provided;
    var missing, unexpected := Missing(pending, provided), Missing(provided, pending);
    assert missing != [] ==> missing[0] in missing;
    assert unexpected != [] ==> unexpected[0] in unexpected;
  }

  /** Listing distinct trimmed ids again changes nothing. */
  lemma UniqueFixed(values: seq<string>)
    ensures UniqueTrimmed(UniqueTrimmed(values)) == UniqueTrimmed(values)
  {
    UniqueOfDistinct(UniqueTrimmed(values));
  }

  lemma {:induction false} UniqueOfDistinct(xs: seq<string>)
    requires forall x | x in xs :: x != "" && TrimSpace(x) == x
    requires forall i, j | 0 <= i < j < |xs| :: xs[i] != xs[j]
    ensures UniqueTrimmed(xs) == xs
  {
    hide TrimSpace, UniqueTrimmed;
    if xs == [] {
      NothingUnique();
    } else {
      var front, x := xs[..|xs| - 1], xs[|xs| - 1];
      assert front + [x] == xs;
      assert forall v | v in front :: v in xs;
      assert x in xs;
      UniqueOfDistinct(front);
      UniqueTrimmedSnoc(front, x);
    }
  }

  lemma NothingUnique()
    ensures UniqueTrimmed([]) == []
  {
  }

  // ----- The rewrite -----

  /** The payload after the rewrite, given what the replay store returned for the previous id. */
  function Rewritten(p: Payload, found: Option<Replay>): Result<Payload> {
    if PreviousId(p) == "" then Ok(p)
    else if found.None? then Err(NotFound)
    else if found.value.items == [] then Err(NotReplayable)
    else
      var current := Normalize(InputOf(p));
      if current.Err? then Err(InvalidInput)
      else
        var clean := Scrub(current.value);
        var failure := Validate(found.value.items, clean);
        if failure.Some? then Err(failure.value)
        else Ok(p["input" := Arr(found.value.input + found.value.items + clean)] - {"previous_response_id"})
  }

  /** What the client's input adds to the stored conversation. */
  function Addition(input: Json): seq<Json> {
    match input
    case Str(s) => [Obj(map["role" := Str("user"), "content" := Str(s)])]
    case Obj(_) => Scrub([input])
    case Arr(items) => Scrub(items)
    case _ => []
  }

  /** The payload names a previous response. */
  predicate Continues(p: Payload) {
    "previous_response_id" in p && p["previous_response_id"].Str? && !Blank(p["previous_response_id"].s)
  }

  lemma ContinuesIs(p: Payload)
    ensures Continues(p) <==> PreviousId(p) != ""
  {
    BlankEmpty();
  }

  /** The rewrite in the payload's own terms: without a previous id nothing changes; an unknown response, one without replayable
      items, and input that is a number or a boolean are refused; and an accepted continuation forwards the stored input, the
      stored items and the client's own addition, drops the previous id and keeps every other field. */
  lemma RewriteReads(p: Payload, found: Option<Replay>)
    ensures !Continues(p) ==> Rewritten(p, found) == Ok(p)
    ensures Continues(p) && found.None? ==> Rewritten(p, found) == Err(NotFound)
    ensures Continues(p) && found.Some? && found.value.items == [] ==> Rewritten(p, found) == Err(NotReplayable)
    ensures Continues(p) && found.Some? && found.value.items != [] ==>
      var input := if "input" in p then p["input"] else Null;
      if input.Bool? || input.Num? then Rewritten(p, found) == Err(InvalidInput)
      else
        var calls, outputs := CallIds(found.value.items), OutputIds(Addition(input));
        if calls == [] || SameIds(calls, outputs) then
          && Rewritten(p, found).Ok?
          && var p' := Rewritten(p, found).value;
          && "previous_response_id" !in p' && "input" in p'
          && p'["input"] == Arr(found.value.input + found.value.items + Addition(input))
          && forall k | k != "previous_response_id" && k != "input" :: (k in p' <==> k in p) && (k in p ==> p'[k] == p[k])
        else Rewritten(p, found).Err? && Tells(Rewritten(p, found).failure, calls, outputs)
  {
    hide Scrub, CallIds, OutputIds, Validate, PreviousId, Continues;
    ContinuesIs(p);
    var input := InputOf(p);
    assert |"input"| != |"previous_response_id"|;
    if found.Some? && Normalize(input).Ok? {
      AdditionIs(input);
      ValidateIff(found.value.items, Addition(input));
      ValidateExpected(found.value.items, Addition(input));
    }
  }

  /** A text, as the user's message, has nothing to scrub. */
  lemma AdditionIs(input: Json)
    requires Normalize(input).Ok?
    ensures Scrub(Normalize(input).value) == Addition(input)
  {
    if input.Str? {
      var m := Obj(map["role" := Str("user"), "content" := Str(input.s)]);
      UserMessageClean(m, input.s);
      ScrubFixed([m]);
    }
  }

  lemma UserMessageClean(m: Json, s: string)
    requires m == Obj(map["role" := Str("user"), "content" := Str(s)])
    ensures Clean([m])
  {
    assert |"role"| == |"type"| && "role"[0] != "type"[0] && |"content"| != |"type"|;
    assert |"id"| != |"role"| && |"id"| != |"content"|;
    assert Field(m, "type") == "";
    BlankEmpty();
    assert ToLower("") == "";
  }

  /** A mismatch names the pending calls, those without an output, and the outputs without a call. */
  ghost predicate Tells(f: Failure, calls: seq<string>, outputs: seq<string>) {
    && f.Mismatch? && f.expected == calls
    && (forall x :: x in f.missing <==> x in calls && x !in outputs)
    && (forall x :: x in f.unexpected <==> x in outputs && x !in calls)
  }

  lemma ValidateExpected(items: seq<Json>, current: seq<Json>)
    ensures Validate(items, current).Some? ==> Tells(Validate(items, current).value, CallIds(items), OutputIds(current))
  {
    hide UniqueTrimmed, CallIdFields, Filter;
    UniqueFixed(CallIdFields(Filter(items, j => IsCall(j))));
    UniqueFixed(CallIdFields(Filter(current, j => IsCallOutput(j))));
  }

  /** A request payload, rewritten in place; it is left alone if the rewrite fails. */
  class Request {
    var payload: Payload

    constructor (payload: Payload)
      ensures this.payload == payload
    {
      this.payload := payload;
    }

    method RewritePrevious(found: Option<Replay>) returns (failure: Option<Failure>)
      modifies this
      ensures match Rewritten(old(payload), found)
        case Ok(p) => failure == None && payload == p
        case Err(f) => failure == Some(f) && payload == old(payload)
    {
      hide CallIds, OutputIds, Scrub, Missing;
      if PreviousId(payload) == "" {
        return None;
      }
      if found.None? {
        return Some(NotFound);
      }
      var entry := found.value;
      if |entry.items| == 0 {
        return Some(NotReplayable);
      }
      var current := Normalize(InputOf(payload));
      if current.Err? {
        return Some(InvalidInput);
      }
      var clean := Scrub(current.value);
      failure := ValidateOutputs(entry.items, clean);
      if failure.Some? {
        return;
      }
      var rebuilt := entry.input + entry.items + clean;
      payload := payload["input" := Arr(rebuilt)] - {"previous_response_id"};
    }
  }

  method ValidateOutputs(items: seq<Json>, current: seq<Json>) returns (failure: Option<Failure>)
    ensures failure == Validate(items, current)
  {
    hide CallIds, OutputIds, Missing;
    var pending := CallIds(items);
    if |pending| == 0 {
      return None;
    }
    var provided := OutputIds(current);
    var missing := DiffExpected(pending, provided);
    var unexpected := DiffExpected(provided, pending);
    if |missing| == 0 && |unexpected| == 0 {
      return None;
    }
    return Some(Mismatch(pending, missing, unexpected));
  }

  // ----- Chains -----

  /** One turn: the client's request and the output of the response to it. */
  datatype Turn = Turn(payload: Payload, output: seq<Json>)

  /** What is stored once a turn has been forwarded and answered; `found` is what the store held for its previous id. */
  function Stored(account: string, found: Option<Replay>, t: Turn): Option<Replay> {
    var p := Rewritten(t.payload, found);
    if p.Err? then None
    else
      var input, items := Normalize(InputOf(p.value)), ReplayItems(t.output);
      if input.Err? || input.value == [] || items == [] then None else Some(Replay(account, input.value, items))
  }

  /** The replay stored after turns that each continue the one before. */
  function Chain(account: string, turns: seq<Turn>): Option<Replay> {
    if turns == [] then None
    else Stored(account, Chain(account, turns[..|turns| - 1]), turns[|turns| - 1])
  }

  /** The first turn starts afresh and the others name a previous response. */
  ghost predicate Chained(turns: seq<Turn>) {
    forall k | 0 <= k < |turns| :: PreviousId(turns[k].payload) == "" <==> k == 0
  }

  function Given(t: Turn): seq<Json> {
    if Normalize(InputOf(t.payload)).Ok? then Normalize(InputOf(t.payload)).value else []
  }

  /** The whole conversation: the first input, then by turns the replayed output and the scrubbed next input. */
  function Transcript(turns: seq<Turn>): seq<Json> {
    if turns == [] then []
    else
      var front, last := turns[..|turns| - 1], turns[|turns| - 1];
      if front == [] then Given(last)
      else Transcript(front) + ReplayItems(front[|front| - 1].output) + Scrub(Given(last))
  }

  /** Turn `k` can be stored: it has valid input, a replayable output, and answers exactly the pending calls. */
  ghost predicate TurnOk(turns: seq<Turn>, k: nat)
    requires k < |turns|
  {
    && Normalize(InputOf(turns[k].payload)).Ok? && ReplayItems(turns[k].output) != []
    && (k == 0 ==> Given(turns[0]) != [])
    && (k > 0 ==> Answers(turns[k - 1], turns[k]))
  }

  /** The tool outputs of a turn answer exactly the calls of the turn before, if it made any. */
  ghost predicate Answers(before: Turn, t: Turn) {
    var calls := CallIds(ReplayItems(before.output));
    calls == [] || SameIds(calls, OutputIds(Scrub(Given(t))))
  }

  /** Chaining rebuilds exactly the conversation, and it succeeds exactly when every turn fits the one before. */
  lemma {:induction false} ChainRebuilds(account: string, turns: seq<Turn>)
    requires Chained(turns) && turns != []
    ensures Chain(account, turns).Some? <==> forall k | 0 <= k < |turns| :: TurnOk(turns, k)
    ensures Chain(account, turns).Some? ==>
      Chain(account, turns).value == Replay(account, Transcript(turns), ReplayItems(turns[|turns| - 1].output))
  {
    hide ReplayItems, Scrub, CallIds, OutputIds, Validate, Answers, Normalize, PreviousId, Stored, Transcript;
    var n := |turns| - 1;
    var front, last := turns[..n], turns[n];
    var found := Chain(account, front);
    assert Chain(account, turns) == Stored(account, found, last);
    if n == 0 {
      assert front == [];
      FirstStored(account, found, last);
      FirstTranscript(turns);
      assert (forall k | 0 <= k < |turns| :: TurnOk(turns, k)) <==> TurnOk(turns, 0);
    } else {
      assert Chained(front);
      ChainRebuilds(account, front);
      TranscriptStep(turns);
      PrefixOk(turns);
      assert found.Some? ==> TurnOk(front, n - 1);
      NextStored(account, found, last);
      AnswersIff(turns[n - 1], last);
      assert (forall k | 0 <= k < |turns| :: TurnOk(turns, k)) <==> (forall k | 0 <= k < n :: TurnOk(front, k)) && TurnOk(turns, n);
    }
  }

  lemma PrefixOk(turns: seq<Turn>)
    requires turns != []
    ensures var front := turns[..|turns| - 1]; forall k | 0 <= k < |front| :: TurnOk(turns, k) <==> TurnOk(front, k)
  {
    hide Normalize, Answers, ReplayItems, Given;
    var front := turns[..|turns| - 1];
    forall k | 0 <= k < |front|
      ensures TurnOk(turns, k) <==> TurnOk(front, k)
    {
      assert front[k] == turns[k];
      assert k > 0 ==> front[k - 1] == turns[k - 1];
    }
  }

  lemma FirstTranscript(turns: seq<Turn>)
    requires |turns| == 1
    ensures Transcript(turns) == Given(turns[0])
  {
  }

  lemma FirstStored(account: string, found: Option<Replay>, t: Turn)
    requires PreviousId(t.payload) == ""
    ensures Stored(account, found, t).Some? <==>
            Normalize(InputOf(t.payload)).Ok? && ReplayItems(t.output) != [] && Given(t) != []
    ensures Stored(account, found, t).Some? ==>
            Stored(account, found, t).value == Replay(account, Given(t), ReplayItems(t.output))
  {
    hide ReplayItems;
  }

  lemma NextStored(account: string, found: Option<Replay>, t: Turn)
    requires PreviousId(t.payload) != ""
    ensures Stored(account, found, t).Some? <==>
            && found.Some? && found.value.items != [] && Normalize(InputOf(t.payload)).Ok?
            && Validate(found.value.items, Scrub(Given(t))) == None && ReplayItems(t.output) != []
    ensures Stored(account, found, t).Some? ==>
            Stored(account, found, t).value == Replay(account, found.value.input + found.value.items + Scrub(Given(t)), ReplayItems(t.output))
  {
    hide ReplayItems, Scrub, Validate, TrimSpace, Field;
    var current := Normalize(InputOf(t.payload));
    if found.Some? && current.Ok? {
      var all := found.value.input + found.value.items + Scrub(current.value);
      assert |"input"| != |"previous_response_id"|;
      assert InputOf(t.payload["input" := Arr(all)] - {"previous_response_id"}) == Arr(all);
    }
  }

  lemma AnswersIff(before: Turn, t: Turn)
    ensures Validate(ReplayItems(before.output), Scrub(Given(t))) == None <==> Answers(before, t)
  {
    ValidateIff(ReplayItems(before.output), Scrub(Given(t)));
  }

  /** The request forwarded in turn `k` carries the conversation so far, without the previous id. */
  lemma ForwardedInput(account: string, turns: seq<Turn>)
    requires Chained(turns) && |turns| > 1 && Chain(account, turns[..|turns| - 1]).Some?
    ensures var last := turns[|turns| - 1];
      var p := Rewritten(last.payload, Chain(account, turns[..|turns| - 1]));
      p.Ok? ==>
        && "input" in p.value && p.value["input"] == Arr(Transcript(turns)) && "previous_response_id" !in p.value
        && forall f | f in p.value && f != "input" :: f in last.payload && p.value[f] == last.payload[f]
  {
    hide ReplayItems, Scrub, Validate, Transcript;
    var front := turns[..|turns| - 1];
    assert Chained(front);
    ChainRebuilds(account, front);
    TranscriptStep(turns);
    assert |"input"| != |"previous_response_id"|;
  }

  lemma TranscriptStep(turns: seq<Turn>)
    requires |turns| > 1
    ensures var front, last := turns[..|turns| - 1], turns[|turns| - 1];
      Transcript(turns) == Transcript(front) + ReplayItems(front[|front| - 1].output) + Scrub(Given(last))
  {
  }
}
