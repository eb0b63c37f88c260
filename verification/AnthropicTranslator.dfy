/** The chunk-by-chunk translation into Anthropic events over a mutable stream state, proved to compute `AnthropicStream.Events`. */
module AnthropicTranslator {
  import opened Text
  import opened AnthropicStream

  class StreamState {
    var messageStartSent: bool
    var contentBlockIndex: nat
    var contentBlockOpen: bool
    var toolCalls: map<int, ToolCall>
    ghost var state: State
    /** All events returned so far. */
    ghost var sent: seq<Event>

    constructor ()
      ensures Valid() && !messageStartSent && state == Init && sent == []
    {
      messageStartSent, contentBlockIndex, contentBlockOpen, toolCalls := false, 0, false, map[];
      state, sent := Init, [];
    }

    ghost predicate Valid()
      reads this
    {
      && state.index == contentBlockIndex && state.open == contentBlockOpen && state.tools == toolCalls
      && sent == (if messageStartSent then [MessageStart, Ping] else []) + state.trace
      && (!messageStartSent ==> state == Init)
    }

    method CloseContentBlock() returns (events: seq<Event>)
      requires Valid() && messageStartSent
      modifies this
      ensures Valid() && messageStartSent
      ensures state == Close(old(state)) && sent == old(sent) + events && state.trace == old(state).trace + events
    {
      if !contentBlockOpen {
        return [];
      }
      contentBlockOpen := false;
      events := [BlockStop(contentBlockIndex)];
      contentBlockIndex := contentBlockIndex + 1;
      state, sent := Close(state), old(sent) + events;
    }

    method HandleText(text: string) returns (events: seq<Event>)
      requires Valid() && messageStartSent
      modifies this
      ensures Valid() && messageStartSent
      ensures state == OnText(old(state), text) && sent == old(sent) + events
    {
      events := [];
      if !contentBlockOpen || |toolCalls| > 0 {
        events := CloseContentBlock();
        events := events + [BlockStart(contentBlockIndex, TextBlock)];
        contentBlockOpen := true;
      }
      events := events + [BlockDelta(contentBlockIndex, TextPiece(text))];
      state, sent := OnText(old(state), text), old(sent) + events;
      assert state.trace == old(state).trace + events;
    }

    method HandleToolCall(d: ToolDelta) returns (events: seq<Event>)
      requires Valid() && messageStartSent
      modifies this
      ensures Valid() && messageStartSent
      ensures state == Step(old(state), Tool(d)) && sent == old(sent) + events
    {
      events := [];
      if d.id != "" {
        events := CloseContentBlock();
        toolCalls := toolCalls[d.index := ToolCall(d.id, d.name, "")];
        events := events + [BlockStart(contentBlockIndex, ToolUse(d.id, d.name))];
        contentBlockOpen := true;
      }
      if d.arguments != "" {
        if d.index in toolCalls {
          var call := toolCalls[d.index];
          toolCalls := toolCalls[d.index := call.(arguments := call.arguments + d.arguments)];
        }
        events := events + [BlockDelta(contentBlockIndex, JsonPiece(d.arguments))];
      }
      state, sent := Step(old(state), Tool(d)), old(sent) + events;
      assert state.trace == old(state).trace + events;
    }

    method HandleFinish(reason: string) returns (events: seq<Event>)
      requires Valid() && messageStartSent
      modifies this
      ensures Valid() && messageStartSent
      ensures state == OnStop(old(state), reason) && sent == old(sent) + events
    {
      events := CloseContentBlock();
      events := events + [MessageDelta(StopReason(reason))];
      state, sent := OnStop(old(state), reason), old(sent) + events;
      assert state.trace == old(state).trace + events;
    }

    method HandleToolCalls(tools: seq<ToolDelta>) returns (events: seq<Event>)
      requires Valid() && messageStartSent
      modifies this
      ensures Valid() && messageStartSent
      ensures state == StepAll(old(state), ToolOps(tools)) && sent == old(sent) + events
    {
      hide Step;
      events := [];
      for i := 0 to |tools|
        invariant Valid() && messageStartSent
        invariant state == StepAll(old(state), ToolOps(tools[..i])) && sent == old(sent) + events
      {
        var more := HandleToolCall(tools[i]);
        events := events + more;
        assert ToolOps(tools[..i + 1])[..i] == ToolOps(tools[..i]);
      }
      assert tools[..|tools|] == tools;
    }

    method HandleChoice(choice: Choice) returns (events: seq<Event>)
      requires Valid() && messageStartSent
      modifies this
      ensures Valid() && messageStartSent
      ensures state == StepAll(old(state), ChoiceOps(choice)) && sent == old(sent) + events
    {
      hide OnText, OnStop, ToolOps, Valid, StepAll;
      events := [];
      ghost var first: seq<Op> := if choice.content == "" then [] else [Say(choice.content)];
      ghost var last: seq<Op> := if choice.finish.Done? then [Stop(choice.finish.reason)] else [];
      ChoiceSteps(state, choice, first, last);
      if choice.content != "" {
        events := HandleText(choice.content);
      }
      if choice.tools != [] {
        var more := HandleToolCalls(choice.tools);
        events := events + more;
      }
      if choice.finish.Done? {
        var more := HandleFinish(choice.finish.reason);
        events := events + more;
      }
    }

    static lemma ChoiceSteps(st: State, choice: Choice, first: seq<Op>, last: seq<Op>)
      requires first == if choice.content == "" then [] else [Say(choice.content)]
      requires last == if choice.finish.Done? then [Stop(choice.finish.reason)] else []
      ensures var st1 := if choice.content == "" then st else OnText(st, choice.content);
        var st2 := if choice.tools == [] then st1 else StepAll(st1, ToolOps(choice.tools));
        StepAll(st, ChoiceOps(choice)) == if choice.finish.Done? then OnStop(st2, choice.finish.reason) else st2
    {
      hide OnText, OnStop;
      StepAllConcat(st, first + ToolOps(choice.tools), last);
      StepAllConcat(st, first, ToolOps(choice.tools));
      StepAllOne(st, first);
      StepAllOne(StepAll(st, first + ToolOps(choice.tools)), last);
    }

    static lemma StepAllOne(st: State, ops: seq<Op>)
      requires |ops| <= 1
      ensures StepAll(st, ops) == if ops == [] then st else Step(st, ops[0])
    {
    }

    /** The events of one chunk; the first chunk also announces the message. */
    method TranslateChunk(chunk: Chunk) returns (events: seq<Event>)
      requires Valid()
      modifies this
      ensures Valid() && messageStartSent
      ensures state == StepAll(old(state), ChunkOps(chunk)) && sent == old(sent) + events
    {
      hide ChoiceOps, Step;
      events := [];
      if !messageStartSent {
        messageStartSent := true;
        events := [MessageStart, Ping];
        sent := events;
      }
      for i := 0 to |chunk|
        invariant Valid() && messageStartSent
        invariant state == StepAll(old(state), ChunkOps(chunk[..i])) && sent == old(sent) + events
      {
        var more := HandleChoice(chunk[i]);
        events := events + more;
        assert chunk[..i + 1][..i] == chunk[..i];
        StepAllConcat(old(state), ChunkOps(chunk[..i]), ChoiceOps(chunk[i]));
      }
      assert chunk[..|chunk|] == chunk;
    }
  }

  /** All events sent for a stream of chunks. */
  method TranslateStream(chunks: seq<Chunk>) returns (events: seq<Event>)
    ensures events == Events(chunks)
  {
    hide ChunkOps, Step;
    var s := new StreamState();
    events := [];
    for i := 0 to |chunks|
      invariant s.Valid() && (s.messageStartSent <==> i > 0) && fresh(s)
      invariant s.state == Reach(Ops(chunks[..i])) && s.sent == events
    {
      var more := s.TranslateChunk(chunks[i]);
      events := events + more;
      assert chunks[..i + 1][..i] == chunks[..i];
      StepAllConcat(Init, Ops(chunks[..i]), ChunkOps(chunks[i]));
    }
    assert chunks[..|chunks|] == chunks;
  }
}
