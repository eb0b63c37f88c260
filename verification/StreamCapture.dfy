/** The capture that reads a translated stream back to learn what to store for the next turn. */
module StreamCapture {
  import opened Text
  import opened ResponsesEvents

  datatype Captured = Captured(responseId: string, replayItems: seq<Item>)

  const Nothing := Captured("", [])

  /** Of the items a translated stream carries, function calls are the replayable ones. */
  function Calls(items: seq<Item>): (r: seq<Item>)
    ensures forall x | x in r :: x.FunctionCall? && x in items
  {
    if items == [] then []
    else
      var last := items[|items| - 1];
      var before := Calls(items[..|items| - 1]);
      if last.FunctionCall? then before + [last] else before
  }

  /** The response id an event carries: only created and terminal events have a response object. */
  function EventResponseId(e: Event): string {
    if e.Created? || e.Terminal? then TrimSpace(e.responseId) else ""
  }

  function Learn(c: Captured, e: Event): Captured {
    var id := EventResponseId(e);
    var c1 := if id == "" then c else c.(responseId := id);
    if e.Terminal? && Calls(e.output) != [] then c1.(replayItems := Calls(e.output))
    else if (e.ItemAdded? || e.ItemDone?) && e.item.FunctionCall? then c1.(replayItems := c1.replayItems + [e.item])
    else c1
  }

  function LearnAll(trace: seq<Event>): Captured {
    if trace == [] then Nothing else Learn(LearnAll(trace[..|trace| - 1]), trace[|trace| - 1])
  }

  /** A captured call is one of the finished calls, possibly seen before its call id was known. */
  ghost predicate Provisional(x: Item, output: seq<Item>) {
    x.FunctionCall? && exists k :: 0 <= k < |output| && output[k].FunctionCall? && x.callId in {"", output[k].callId}
  }

  /** Before the terminal event the capture holds provisional calls only, and none if the stream has none. */
  lemma {:induction false} MidStream(t: seq<Event>, responseId: string, n: nat)
    requires StreamGrammar(t, responseId) && 0 < n < |t|
    ensures LearnAll(t[..n]).responseId == TrimSpace(responseId)
    ensures forall x | x in LearnAll(t[..n]).replayItems :: Provisional(x, t[|t| - 1].output)
  {
    hide StreamGrammar, Learn, TrimSpace, Provisional;
    assert t[..n][..n - 1] == t[..n - 1] && t[..n][n - 1] == t[n - 1];
    if n == 1 {
      assert t[..0] == [];
      FirstEvent(t, responseId);
    } else {
      MidStream(t, responseId, n - 1);
      LearnProvisional(t, responseId, n - 1, LearnAll(t[..n - 1]));
    }
  }

  lemma FirstEvent(t: seq<Event>, responseId: string)
    requires StreamGrammar(t, responseId)
    ensures Learn(Nothing, t[0]) == Captured(TrimSpace(responseId), [])
  {
    hide TrimSpace;
    BlankEmpty();
  }

  /** Events before the terminal one add only provisional calls. */
  lemma LearnProvisional(t: seq<Event>, responseId: string, i: nat, c: Captured)
    requires StreamGrammar(t, responseId) && 0 < i < |t| - 1
    ensures Learn(c, t[i]).responseId == c.responseId
    ensures forall x | x in Learn(c, t[i]).replayItems :: x in c.replayItems || Provisional(x, t[|t| - 1].output)
  {
    hide ItemTrace;
    var e := t[i];
    assert Indexed(e) && e.index < |t[|t| - 1].output|;
    if (e.ItemAdded? || e.ItemDone?) && e.item.FunctionCall? {
      var output := t[|t| - 1].output;
      ProjectMember(t, e.index, e);
      ItemTraceAt(Project(t, e.index), e.index, output[e.index], e);
      assert e.item.callId in {"", output[e.index].callId};
      assert Provisional(e.item, output);
    }
  }

  lemma {:induction false} CallsComplete(items: seq<Item>, k: nat)
    requires k < |items| && items[k].FunctionCall?
    ensures items[k] in Calls(items)
  {
    if k < |items| - 1 {
      CallsComplete(items[..|items| - 1], k);
    }
  }

  /** Whatever duplicates and unfinished calls were picked up on the way, a whole stream leaves the capture with the
      minted response id and exactly the finished calls of the snapshot, in order. */
  lemma CapturesCalls(t: seq<Event>, responseId: string)
    requires StreamGrammar(t, responseId)
    ensures LearnAll(t) == Captured(TrimSpace(responseId), Calls(t[|t| - 1].output))
  {
    hide TrimSpace, Learn, ItemTrace, Provisional, Calls;
    var n, output := |t| - 1, t[|t| - 1].output;
    MidStream(t, responseId, n);
    var c := LearnAll(t[..n]);
    LearnTerminal(c, t[n], responseId);
    if c.replayItems != [] {
      assert c.replayItems[0] in c.replayItems;
      ProvisionalCall(c.replayItems[0], output);
    }
  }

  lemma LearnTerminal(c: Captured, e: Event, responseId: string)
    requires e.Terminal? && e.responseId == responseId && c.responseId == TrimSpace(responseId)
    ensures Learn(c, e) == Captured(TrimSpace(responseId), if Calls(e.output) != [] then Calls(e.output) else c.replayItems)
  {
    hide TrimSpace, Calls;
  }

  lemma ProvisionalCall(x: Item, output: seq<Item>)
    requires Provisional(x, output)
    ensures Calls(output) != []
  {
    var k :| 0 <= k < |output| && output[k].FunctionCall? && x.callId in {"", output[k].callId};
    CallsComplete(output, k);
  }

  /** The calls of a trace as it goes by: each once when it is announced and once more when it is finished. */
  function Seen(t: seq<Event>): seq<Item> {
    if t == [] then []
    else
      var before := Seen(t[..|t| - 1]);
      match t[|t| - 1]
      case ItemAdded(_, FunctionCall(id, status, callId, name, args)) => before + [FunctionCall(id, status, callId, name, args)]
      case ItemDone(_, FunctionCall(id, status, callId, name, args)) => before + [FunctionCall(id, status, callId, name, args)]
      case _ => before
  }

  /** A stream that is cut off before its terminal event leaves exactly the calls seen so far, finished or not. */
  lemma {:induction false} CutStreamHolds(t: seq<Event>)
    requires forall e | e in t :: !e.Terminal?
    ensures LearnAll(t).replayItems == Seen(t)
  {
    if t != [] {
      hide EventResponseId;
      var front, e := t[..|t| - 1], t[|t| - 1];
      assert e in t && forall x | x in front :: x in t;
      CutStreamHolds(front);
    }
  }

  /** A stream cut short anywhere binds no call id that the whole stream would not have delivered. */
  lemma CutStreamBindsNoForeignId(t: seq<Event>, responseId: string, n: nat, x: Item)
    requires StreamGrammar(t, responseId) && 0 < n <= |t|
    requires x in LearnAll(t[..n]).replayItems && x.FunctionCall? && !Blank(x.callId)
    ensures exists y :: y in Calls(t[|t| - 1].output) && y.callId == x.callId
  {
    hide ItemTrace, LearnAll, TrimSpace;
    var output := t[|t| - 1].output;
    if n == |t| {
      assert t[..n] == t;
      CapturesCalls(t, responseId);
    } else {
      MidStream(t, responseId, n);
      BlankEmpty();
      var k :| 0 <= k < |output| && output[k].FunctionCall? && x.callId in {"", output[k].callId};
      CallsComplete(output, k);
    }
  }

  class Capture {
    var ResponseID: string
    var ReplayItems: seq<Item>

    constructor ()
      ensures State() == Nothing
    {
      ResponseID, ReplayItems := "", [];
    }

    function State(): Captured
      reads this
    {
      Captured(ResponseID, ReplayItems)
    }

    /** One event line of the stream. */
    method AbsorbLine(e: Event)
      modifies this
      ensures State() == Learn(old(State()), e)
    {
      var responseId := EventResponseId(e);
      if responseId != "" {
        ResponseID := responseId;
      }
      if e.Terminal? {
        var items := Calls(e.output);
        if |items| > 0 {
          ReplayItems := items;
          return;
        }
      }
      if (e.ItemAdded? || e.ItemDone?) && e.item.FunctionCall? {
        ReplayItems := ReplayItems + [e.item];
      }
    }
  }

  method CaptureStream(trace: seq<Event>) returns (c: Captured)
    ensures c == LearnAll(trace)
  {
    var capture := new Capture();
    for i := 0 to |trace|
      invariant capture.State() == LearnAll(trace[..i])
    {
      capture.AbsorbLine(trace[i]);
      assert trace[..i + 1][..i] == trace[..i];
    }
    assert trace[..|trace|] == trace;
    c := capture.State();
  }
}
