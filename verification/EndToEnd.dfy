/** What the parts promise together: recovered streams feed the capture, and captured turns feed the next request. */
module EndToEnd {
  import opened Options
  import opened Text
  import ResponsesEvents
  import StreamCapture
  import Chat = ChatStream
  import ChatStreamTrace
  import ChatStreamMeaning
  import Msg = MessagesStream
  import MessagesIndices
  import MessagesMeaning
  import ResponsesItems
  import Continuation
  import ReplayStore
  import ReplayStoreLaws

  /** After a chat recovery, however it ends, the gateway has bound the minted response id to exactly the calls that the
      upstream stream means. */
  lemma ChatRecoveryIsCaptured(responseId: string, chunks: seq<Chat.Chunk>, end: Chat.StreamEnd)
    ensures StreamCapture.LearnAll(Chat.Translate(responseId, chunks, end)) ==
            StreamCapture.Captured(TrimSpace(responseId), StreamCapture.Calls(Chat.Denote(Chat.Ops(chunks))))
  {
    hide *;
    var t := Chat.Translate(responseId, chunks, end);
    ChatStreamTrace.TraceGrammar(responseId, chunks, end);
    StreamCapture.CapturesCalls(t, responseId);
    ChatStreamMeaning.SnapshotIsMeaning(Chat.Ops(chunks));
    LastOfChat(responseId, chunks, end);
  }

  lemma LastOfChat(responseId: string, chunks: seq<Chat.Chunk>, end: Chat.StreamEnd)
    ensures var t := Chat.Translate(responseId, chunks, end);
      t[|t| - 1].Terminal? && t[|t| - 1].output == Chat.Snapshot(Chat.Ops(chunks))
  {
    hide Chat.Body, Chat.Snapshot;
  }

  /** The same for a messages recovery without index conflict and upstream error. */
  lemma MessagesRecoveryIsCaptured(responseId: string, events: seq<Msg.MsgEvent>, end: Chat.StreamEnd)
    requires MessagesIndices.ConflictFree(events) && forall e | e in events :: !e.Error?
    ensures StreamCapture.LearnAll(Msg.Translate(responseId, events, end)) ==
            StreamCapture.Captured(TrimSpace(responseId), StreamCapture.Calls(MessagesMeaning.Denote(events)))
  {
    hide *;
    var t := Msg.Translate(responseId, events, end);
    MessagesMeaning.StreamGrammarIff(responseId, events, end);
    StreamCapture.CapturesCalls(t, responseId);
    MessagesMeaning.SnapshotIsMeaning(responseId, events, end);
    LastOfMessages(responseId, events, end);
  }

  lemma LastOfMessages(responseId: string, events: seq<Msg.MsgEvent>, end: Chat.StreamEnd)
    ensures var t := Msg.Translate(responseId, events, end);
      t[|t| - 1].Terminal? && t[|t| - 1].output == Msg.Snapshot(Msg.Final(responseId, events, end))
  {
    hide Msg.Reach, Msg.Settle, Msg.Snapshot;
    var st := Msg.Reach(responseId, events);
    SnapshotSettled(st, responseId, Msg.OutcomeOf(st, end));
  }

  lemma SnapshotSettled(st: Msg.State, responseId: string, outcome: ResponsesEvents.Outcome)
    ensures Msg.Snapshot(Msg.Finish(st, responseId, outcome)) == Msg.Snapshot(Msg.Settle(st))
  {
  }

  // ----- Chains over the three-tier store -----

  function Found(loaded: Option<ReplayStore.Replay>): Option<Continuation.Replay> {
    if loaded.None? then None
    else Some(Continuation.Replay(loaded.value.account, loaded.value.payload.input, loaded.value.payload.items))
  }

  /** The last store under an id is what a chain of turns produced. */
  ghost predicate Holds(last: Option<ReplayStore.Binding>, r: Continuation.Replay) {
    last.Some? && last.value.account == r.account && last.value.payload == ReplayStore.Payload(r.input, r.items)
  }

  /** A turn that continues a stored chain either continues exactly that chain, whatever the cache lost and refilled in
      between, or is refused because the previous response was not found. */
  lemma ChainSurvivesStore(c: ReplayStore.Config, events: seq<ReplayStore.Event>, load: ReplayStore.Event, s: ReplayStore.State,
                           account: string, turns: seq<Continuation.Turn>, next: Continuation.Turn)
    requires c.metadata && ReplayStore.Run(c, events + [load], s) && ReplayStore.MetaSucceeds(events + [load]) && load.Load?
    requires Continuation.Chain(account, turns).Some? && Continuation.PreviousId(next.payload) != ""
    requires Holds(ReplayStore.Last(c, events, TrimSpace(load.id)), Continuation.Chain(account, turns).value)
    ensures if load.loaded.Some?
      then Continuation.Stored(account, Found(load.loaded), next) == Continuation.Chain(account, turns + [next])
      else Continuation.Rewritten(next.payload, Found(load.loaded)) == Continuation.Err(Continuation.NotFound)
  {
    hide ReplayStore.Run, Continuation.Normalize, Continuation.Validate, ResponsesItems.Scrub, Continuation.PreviousId,
         ReplayStore.Last, ReplayStore.MetaSucceeds, TrimSpace, ReplayStoreLaws.Loadable;
    ReplayStoreLaws.LoadFindsLast(c, events, load, s);
    assert (turns + [next])[..|turns|] == turns;
  }
}
