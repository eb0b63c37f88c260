# Verified model of the gateway's stateful cores

The gateway forwards Responses, chat-completions and messages requests to upstream accounts. Clients continue
conversations by response id and call id, and those belong to the account that minted them. Most of the hard code keeps
that promise or repairs it when it breaks. This project models that code in Dafny and proves what it guarantees, for all
inputs, all upstream behaviours and all runs.

## What is modelled

**Stream translators.** `ChatStream`, `MessagesStream` and `AnthropicStream` are the three machines that turn one delta
stream into a bracketed event stream, written as functions of the parsed stream. Beside each stands what the stream
*means*, read off its operations by position (`ChatStream.Denote`, `MessagesMeaning.Denote`, `AnthropicStream.Denote`),
and the proofs that the machine delivers it in a stream that obeys the grammar of `ResponsesEvents.StreamGrammar`. The
classes in `ChatTranslator`, `MessagesTranslator` and `AnthropicTranslator` have the fields of the original and are
proved to send exactly the specified events. `StreamCapture` is the reader that stores what a stream minted.
`ReaderAgreement`, with `ReaderLockstep` and `SerialStreams`, compares the two ways from chat to Responses, and `EndToEnd`
composes translation and capture.

**Request retry and recovery.** `ResponsesRetry` is a machine over one account with five bits of state.
`ProxyResponses.Handle` is the request loop with its three pins, its flags, its modes and its growing bound. It is proved to
do what the machine does, so the laws in `ResponsesRetryLaws` and `DispatchLaws` hold of the loop. Pool, rate limiter,
upstream and refresh are arbitrary functions of the attempt. `CallIdRewrite` is the pass that turns mangled call ids back
first.

**Continuation stores.** `TurnCache` and `ReplayStore` are transition systems of the hot, table and cold tiers, with every
clock reading and the outcome of every read and write explicit. Their laws compare all runs with the map of last stores. The
classes in `TurnStore` and `ReplayTiers` follow the transitions. `HotCache` is the pruning both share. `SessionResolution`
and `SessionLaws` classify a request's call ids. `ResponsesItems` and `Continuation` rebuild the transcript of a chain.

**Recovery text.** `History` and `HistoryBuilder` pair calls with results through cells shared by a list and a directory.
`HistoryText` prints the bounded, escaped block and reads it back. `RecoveryTranscript` is the conversation around it.
`OrphanDegrade` is the lossy fallback.

**Resource managers.** `WorkerState` and `WorkerSupervisor` keep ports and workers in step while the reapers of dying
children and the health loop run wherever a call does not hold the lock, also while a port is pending. `RateLimiter` is the
token bucket over the reals.

## What turned out false, and exactly when the code is right

- After an upstream error event the messages translator goes on reading: the client sees one terminal event more than
  there were errors (`MessagesMeaning.ErrorEndsTwice`, `MessagesMeaning.TerminalCount`).
- A reused content-block index makes the index counter count it twice (`MessagesMeaning.ReusedIndexSkips`). Numbering is
  right exactly for streams without an index conflict, a condition on the upstream events alone
  (`MessagesGrammar.WellNumberedIffConflictFree`). Both conditions together are exact (`MessagesMeaning.StreamGrammarIff`).
- A mangled call id whose minted body starts with an underscore is not turned back (`CallIdRewrite.UnmanglesIff`).
- Chat arguments that arrive before any id or name are kept but never sent as deltas
  (`ChatStreamMeaning.EmittedArguments`).
- The Anthropic translator sends argument deltas even without an open block (`AnthropicStream.ArgumentPlacement`), and since
  its tool map is never emptied, after the first call every content delta opens a block of its own. So the direct reader and
  the detour part over a second content delta after a call (`ReaderAgreement.ContentAfterCallDiffers`), over content on
  either side of a finish reason (`ReaderAgreement.ContentAfterFinishDiffers`), and over tool deltas that do not go on with
  the call opened last (`ReaderAgreement.LateArgumentsDiffer`).
- An empty finish reason is one to the Anthropic translator and none to the direct reader. Text that carries it on every
  delta becomes a message for each on the detour (`ReaderAgreement.EmptyReasonsSplit`), and after the length reason it turns
  an incomplete response into a completed one (`ReaderAgreement.LimitForgotten`). That is the only way in which the two
  statuses differ (`ReaderAgreement.SameStatusIff`).
- The two readers end alike wherever the stream is cut off exactly if the limit is never forgotten in this way and every
  operation is in step (`ReaderAgreement.ReadersAgreeIff`, `ReaderLockstep.InStep`): content opens an item in both readers or
  in neither, an id comes with a new index, and a tool delta without id goes on with a known call, brings no late name, and
  adds its arguments to the same call in both readers, unless they are blank enough to go unheard. At the end alone the
  readers can agree again after having parted (`ReaderAgreement.LateIdMeetsAgain`).
- A positive replay check does not promise a later load (`ReplayStoreLaws.CheckedThenMissed`): the load succeeds exactly if
  the hot entry still lives, or the payload was archived, its row has not expired and both can be read
  (`ReplayStoreLaws.CanReplayThenLoad`).
- A refilled hot entry is as old as its refill, so an answer can outlive its row by the hot lifetime and by the time between
  reading the row and refilling, and no longer (`TurnCacheLaws.AnswersPastExpiry`, `TurnCacheLaws.LookupFindsLast`).
- The degrade leaves custom tool calls and their outputs alone (`OrphanDegrade.CallsLeftIffCustom`).
- Requests that only their account limit denies still cost global tokens, and so can lock out every other account
  (`RateLimiter.DeniedRequestsDrain`).

## Conventions

Strings are sequences of Unicode code points. Minted identifiers are positions in a supply of fresh ones, so that an item's
identifier is its opening number. A method that changes state is specified by a function or a transition relation, and the
properties are proved of that. `hide` statements keep each proof small.

## Model

| member | source | states |
|---|---|---|
| `ChatStreamTrace.TraceGrammar` | instance/orphan_translate/output.go:215-464 | for every chunk sequence, ended cleanly or by a read error: one created event, first; one terminal event, last; indices exactly 0..n-1; each item added, streamed and closed under its own index, in snapshot order |
| `ChatStreamTrace.BodyTrace` | instance/orphan_translate/output.go:232-407 | the events under index k are exactly the added, delta, done and item-done events of snapshot item k, and nothing carries a larger index |
| `ChatStreamTrace.EndingReported` | instance/orphan_translate/output.go:134-148 | the last event: failed with the reader's error after a read error; incomplete exactly if the last finish reason that is not empty is length; completed otherwise |
| `ChatStreamMeaning.SnapshotIsMeaning` | instance/orphan_translate/output.go:409-464 | the final snapshot is the list of items read off the stream by position: one message per run of content, one call per tool index with its first id and name and all its fragments |
| `ChatStreamMeaning.TextConserved` | instance/orphan_translate/output.go:232-272 | the message texts in output order join to all content deltas: nothing is lost, repeated or reordered |
| `ChatStreamMeaning.EmittedArguments` | instance/orphan_translate/output.go:303-322 | the argument deltas shown are the arguments minus what arrived before the first id or name, and they are the whole arguments exactly if nothing did |
| `ChatTranslator.Translator.NextOutputIndex` | instance/orphan_translate/output.go:497-515 | the counter over the output list and the live items returns the number of items opened so far |
| `ChatTranslator.Translator.HandleContentDelta` | instance/orphan_translate/output.go:232-272 | content extends the open message or opens a new one |
| `ChatTranslator.Translator.HandleToolCallDelta` | instance/orphan_translate/output.go:274-323 | a tool delta closes open text, finds or creates its call, sets id and name once, announces it once, buffers or shows the fragment |
| `ChatTranslator.Translator.CloseTextItem` | instance/orphan_translate/output.go:325-361 | closing text reports three done events and files the message; without open text nothing happens |
| `ChatTranslator.Translator.CloseToolCalls` | instance/orphan_translate/output.go:363-407 | every call is closed once, in opening order, announced first if it never was |
| `ChatTranslator.Translator.ApplyChunk` | instance/orphan_translate/output.go:215-230 | one chunk is its content, then its tool deltas in order, then its finish reason |
| `ChatTranslator.Translator.Finalize` | instance/orphan_translate/output.go:409-427 | a clean end closes everything and reports completed, or incomplete for the finish reason length |
| `ChatTranslator.Translator.EmitFailed` | instance/orphan_translate/output.go:429-442 | a read error closes everything and reports failed |
| `ChatTranslator.TranslateStream` | instance/orphan_translate/output.go:116-148 | the read loop sends exactly the specified translation |
| `ChatTranslator.EntriesSort` | instance/orphan_translate/output.go:454-464 | although text closes before calls, the stable sort by index yields the items in opening order |
| `ResponsesEvents.SnapshotOrder` | instance/orphan_translate/output.go:454-464 | sorting entries with distinct indices below their number gives the items by index, in whatever order they were closed |
| `MessagesMeaning.StreamGrammarIff` | instance/orphan_translate/messages_output.go:142-563 | the messages translator emits a well-formed Responses stream exactly when the upstream has no index conflict and no error event |
| `MessagesGrammar.WellNumberedIffConflictFree` | instance/orphan_translate/messages_output.go:226-227 | items are numbered, streamed and closed correctly exactly when no started block takes the index of an open item and none starts while an open item sits on a reused index |
| `MessagesGrammar.ConflictFreeIsWellNumbered` | instance/orphan_translate/messages_output.go:509-563 | without conflicts items get the indices 0..n-1 in start order and snapshot item k is the item announced at k |
| `MessagesIndices.CounterIsExact` | instance/orphan_translate/messages_output.go:550-563 | the index counter never falls short while no item is lost, and it is exact if and only if no open item sits on an index that was started before |
| `MessagesMeaning.SnapshotIsMeaning` | instance/orphan_translate/messages_output.go:194-449 | each item holds its seed and the deltas of its kind sent to its block up to the block's stop; blank arguments become an empty object |
| `MessagesMeaning.SentFragments` | instance/orphan_translate/messages_output.go:301-344 | what is sent as deltas of an item is its text seed and its deltas; a tool's initial input is never sent as a delta |
| `MessagesMeaning.TerminalCount` | instance/orphan_translate/messages_output.go:373-386 | the last event is terminal and there is one terminal event more than there are upstream errors |
| `MessagesMeaning.EndingReported` | instance/orphan_translate/messages_output.go:135-140 | the last event: failed with the reader's error after a read error; incomplete exactly if the last stop reason that is not empty is max_tokens; completed otherwise |
| `MessagesMeaning.ErrorEndsTwice` | instance/orphan_translate/messages_output.go:373-475 | a single upstream error gives the client a failed and then a completed event |
| `MessagesMeaning.ReusedIndexSkips` | instance/orphan_translate/messages_output.go:554-563 | block 0 starts, stops and starts again, then block 1 starts: the client sees items announced under the indices 0, 1 and 3 |
| `MessagesIndices.LostStays` | instance/orphan_translate/messages_output.go:226-297 | an open item whose block index was taken over stays without done events to the end |
| `MessagesTranslator.Translator.NextOutputIndex` | instance/orphan_translate/messages_output.go:550-563 | the loop over the started indices computes the specified counter |
| `MessagesTranslator.Translator.HandleContentBlockStart` | instance/orphan_translate/messages_output.go:194-299 | a start creates the item, a dropped thinking block, or nothing |
| `MessagesTranslator.Translator.HandleContentBlockDelta` | instance/orphan_translate/messages_output.go:301-344 | a delta of the right kind extends its open block and is shown; others are dropped |
| `MessagesTranslator.Translator.CloseBlock` | instance/orphan_translate/messages_output.go:388-449 | closing reports the done events of the kind and files the finished item once |
| `MessagesTranslator.Translator.CloseStragglers` | instance/orphan_translate/messages_output.go:459-465 | the loop closes every block still open, in the order of the started indices |
| `MessagesTranslator.Translator.OnEvent` | instance/orphan_translate/messages_output.go:142-172 | every parsed event has its specified effect |
| `MessagesTranslator.TranslateStream` | instance/orphan_translate/messages_output.go:100-140 | the read loop sends exactly the specified translation |
| `StreamCapture.CapturesCalls` | instance/responses_replay.go:126-151 | reading back any well-formed stream leaves the minted response id and exactly the finished calls, in order, despite the duplicates seen mid-stream |
| `StreamCapture.CutStreamBindsNoForeignId` | instance/responses_replay.go:126-151 | a stream cut anywhere binds no call id that the whole stream would not have delivered |
| `StreamCapture.CutStreamHolds` | instance/responses_replay.go:126-151 | a stream cut off before its end leaves exactly the calls seen so far, announced or finished |
| `StreamCapture.Capture.AbsorbLine` | instance/responses_replay.go:126-151 | one event changes the capture as specified |
| `StreamCapture.CaptureStream` | instance/responses_replay.go:126-151 | the loop over the lines folds them |
| `EndToEnd.ChatRecoveryIsCaptured` | instance/responses_replay.go:126-151 | after any chat recovery the gateway has bound the minted response id to exactly the calls the upstream stream means |
| `EndToEnd.MessagesRecoveryIsCaptured` | instance/responses_replay.go:126-151 | the same for a messages recovery without index conflict and error |
| `AnthropicStream.EventsBracketed` | anthropic/stream_translation.go:33-205 | content blocks are strictly bracketed, numbered 0, 1, 2, ... and open one at a time; the message start is first and unique; text only goes to an open text block |
| `AnthropicStream.ArgumentPlacement` | anthropic/stream_translation.go:127-164 | an argument delta lies in a tool block exactly if the last block-changing operation is a tool delta with an id, and then in the block that delta opened |
| `AnthropicContent.AssembledContent` | anthropic/stream_translation.go:64-186 | a client assembles one block per opening, holding the fragments up to the next opening or finish |
| `AnthropicContent.SerialCallsReassemble` | anthropic/stream_translation.go:149-164 | if argument deltas follow the id delta of their tool, each call is reassembled whole in its own block |
| `AnthropicContent.FinishesReported` | anthropic/stream_translation.go:167-186 | the client is told every finish reason in order: max_tokens for length, tool_use for tool_calls, end_turn for all others |
| `AnthropicTranslator.StreamState.TranslateChunk` | anthropic/stream_translation.go:13-189 | the events of a chunk are those of its operations, preceded by the message start on the first chunk |
| `AnthropicTranslator.StreamState.CloseContentBlock` | anthropic/stream_translation.go:191-205 | closing an open block reports its stop and advances the index; otherwise nothing happens |
| `AnthropicTranslator.StreamState.HandleToolCall` | anthropic/stream_translation.go:121-165 | an id closes the open block and opens the tool's; arguments are recorded for a known tool and always sent |
| `AnthropicTranslator.TranslateStream` | anthropic/stream_translation.go:13-205 | chunk by chunk the specified events are sent |
| `ReaderAgreement.ReadersAgreeIff` | anthropic/stream_translation.go:64-205 | the direct chat reader and the reader through Anthropic events end alike, however the deltas are spread over chunks and however early the stream is cut off, exactly if its operations are in lockstep and no empty finish reason follows the length reason |
| `ReaderAgreement.TerminalsAgreeIff` | instance/orphan_translate/messages_output.go:142-475 | for every stream the two terminal events agree, up to ids and blank arguments, exactly if the direct reader's items and the assembled content blocks agree one by one and the limit is not forgotten |
| `ReaderAgreement.ReadersAgree` | instance/orphan_translate/output.go:215-427 | text followed by serial tool calls gives the same items in the same order and the same status both ways, exactly unless an empty finish reason follows the length reason |
| `ReaderLockstep.AgreeingThroughoutIff` | anthropic/stream_translation.go:88-164 | lockstep, a condition on each operation and those before it, holds exactly if the items agree after every operation |
| `SerialStreams.RegularIsLockstep` | anthropic/stream_translation.go:149-164 | streams whose argument fragments only go to the call opened last are in lockstep |
| `ReaderAgreement.SameStatusIff` | anthropic/stream_translation.go:169-186 | both readers report the same status exactly unless the last named finish reason is length and the last one present is empty; then the direct reader says incomplete and the detour complete |
| `ReaderAgreement.LimitForgotten` | anthropic/stream_translation.go:169-186 | length and then an empty finish reason: the direct reader ends incomplete, the detour complete |
| `ReaderAgreement.EmptyReasonsSplit` | anthropic/stream_translation.go:169-186 | text with an empty finish reason on every delta: the direct reader ends with one message, the detour with one for each delta |
| `ReaderAgreement.ThroughAnthropicGrammar` | instance/orphan_translate/messages_output.go:142-563 | through Anthropic events every chat stream becomes a well-formed Responses stream |
| `ReaderAgreement.BracketedIsConflictFree` | anthropic/stream_translation.go:191-205 | bracketed Anthropic events never meet the messages reader's index conflict |
| `ReaderAgreement.ContentAfterCallDiffers` | anthropic/stream_translation.go:88-105 | two content deltas after a call: the detour makes two messages, the direct reader one, and the terminal events differ |
| `ReaderAgreement.ContentAfterFinishDiffers` | anthropic/stream_translation.go:167-186 | content on either side of a finish reason, empty or not: the terminal events differ |
| `ReaderAgreement.LateArgumentsDiffer` | anthropic/stream_translation.go:149-163 | arguments for a call whose block the next call has closed go to the wrong call, and the terminal events differ |
| `ReaderAgreement.LateIdMeetsAgain` | anthropic/stream_translation.go:127-147 | a call whose id comes late parts the readers until the id is there, so agreement at the end does not mean agreement throughout |
| `ProxyResponses.Handle` | handler/proxy.go:1429-2035 | the loop ends by itself with exactly one reply, and does what the small policy machine prescribes, for all outcomes of pool, limiter, upstream and refresh |
| `ProxyResponses.Bind` | handler/proxy.go:1556-1674 | the classification before the loop: pin the owner, arm recovery, pass through, degrade, or refuse with the typed error |
| `ProxyResponses.Attempt` | handler/proxy.go:1676-1809 | one pass keeps the loop invariant: the request is live exactly if its continuation pin is set, all pins agree, nothing rolls over to another account, and done actions plus what the policy still does are the whole run |
| `ProxyResponses.Resolve` | handler/proxy.go:1677-1704 | a pin decides the account, else the pool is asked once and its answer kept |
| `ProxyResponses.CanDetach` | handler/proxy.go:1762-1772 | a bound continuation never detaches |
| `ProxyResponses.SelectMode` | handler/proxy.go:1773-1809 | the mode is direct unless recovery has a route; the detached modes are unreachable |
| `ProxyResponses.OnProxyError` | handler/proxy.go:1818-1847 | a transport error is retried without continuation state and budget permitting, else answered 502 |
| `ProxyResponses.OnReplayInvalid` | handler/proxy.go:1849-1951 | a rejected history leads to the opt-in degrade, the one late recovery, a retry of an armed one, or the typed 502 |
| `ProxyResponses.OnUnauthorized` | handler/proxy.go:1978-2000 | a 401 causes one refresh and one more try on the same account; success grants one extra attempt |
| `ProxyResponses.OnResponse` | handler/proxy.go:1849-2033 | every upstream response is answered or retried as the policy says |
| `ResponsesRetryLaws.DispatchBound` | handler/proxy.go:1474-1474 | at most maxAttempts + 2 dispatches, at most 2 when maxAttempts is 1 |
| `ResponsesRetryLaws.DispatchBoundTight` | handler/proxy.go:1676-2034 | the bound is reached: five dispatches for three attempts, two for one |
| `ResponsesRetryLaws.DispatchDiscipline` | handler/proxy.go:1676-1809 | all dispatches go to one account, never in a detached mode; continuation state never comes back; a recovery route, once taken, is the mode of every later dispatch |
| `ResponsesRetryLaws.LiveDispatches` | handler/proxy.go:1556-1562 | continuation ids are only sent directly to the available owner of the history, first or right after a 401 |
| `ResponsesRetryLaws.LastOutcomeAnswers` | handler/proxy.go:1818-2033 | only transport errors, lost histories, fatal codes, 401, 429 and 5xx are thrown away, and the reply tells the last outcome unless the rate limiter stops the request |
| `ResponsesRetryLaws.GivesUpLate` | handler/proxy.go:2002-2023 | a transient failure reaches the client only from a live continuation or once all configured attempts are used |
| `ResponsesRetryLaws.OrphanAnswer` | handler/proxy.go:1900-1950 | the client is told that the history is lost only if late recovery cannot be armed or the request was already degraded or recovered |
| `ResponsesRetryLaws.SideEffects` | handler/proxy.go:1691-1704 | the pool is consulted at most once, first, and never for a bound continuation; tokens are refreshed at most once |
| `DispatchLaws.RefusedIff` | handler/proxy.go:1558-1671 | 503 exactly for an owned history whose owner is blocked or stopped, 409 exactly for a scattered one, 410 exactly for an unowned one that neither passes through nor is degraded; the first two only if no translation can be armed; nothing is sent then |
| `DispatchLaws.FirstDispatch` | handler/proxy.go:1556-1674 | what is sent first, by the fields of the request: live ids to the available owner, a textified body for an opted-in unowned history, a translation where it can be armed |
| `DispatchLaws.ContinuationDispatch` | handler/proxy.go:1556-1809 | every attempt of a continuation is live and direct to its owner, or textified, or translated, or the passthrough of an unowned history that nobody opted to degrade and that cannot be translated |
| `DispatchLaws.OptedInOrphan` | handler/proxy.go:1648-1671 | an unowned history that the client opted to degrade goes out directly, as text, in every attempt |
| `DispatchLaws.PlainDispatch` | handler/proxy.go:1752-1765 | a request without continuation ids starts directly and never carries ids or a textified body |
| `DispatchLaws.TranslatedDispatch` | handler/proxy.go:660-726 | translations need both switches; the gpt-5 family and Claude go through messages, all others through chat; the turn of a direct attempt seeds the translation exactly if there was one |
| `DispatchLaws.NextDispatch` | handler/proxy.go:1818-2023 | what the next attempt carries: the same again after a passing failure; a degraded or a translated request after a lost history, degraded first if the client opted in and an attempt is left |
| `DispatchLaws.LostReply` | handler/proxy.go:1869-1950 | the client is told of a lost history only when neither degrade nor translation is left to try |
| `DispatchLaws.PoolChoice` | handler/proxy.go:1676-1704 | the pool is asked exactly for what is not bound, excluding only the accounts without a worker of a legacy passthrough, and its answer serves the request |
| `DispatchLaws.Admitted` | handler/proxy.go:1743-1746 | the limiter admits every attempt directly before it is sent, its refusal is the reply, and a token is refreshed only directly behind an attempt |
| `ResponsesRetry.ReactDecreases` | handler/proxy.go:1676-2034 | every retry uses up budget, the refresh or the recovery, so the growing bound still ends the loop |
| `CallIdRewrite.UnmanglesIff` | handler/proxy.go:347-355 | a mangled call id is turned back exactly if the minted body does not start with an underscore |
| `CallIdRewrite.PairsKept` | handler/proxy.go:357-425 | outputs that answered the calls before the rewrite answer them after it |
| `CallIdRewrite.RewrittenIds` | handler/proxy.go:377-398 | after the rewrite exactly the canonical forms of the listed ids are listed |
| `CallIdRewrite.RewriteCallIds` | handler/proxy.go:399-425 | the pass rewrites every item that bears a call id, and reports a change exactly if some id changed |
| `TurnCacheLaws.LookupFindsLast` | instance/copilot_turns.go:368-401 | an unexpired binding that can be read always decides a lookup, whatever was pruned; an account returned is the last one stored, at most the hot lifetime and the longest refill delay past its expiry |
| `TurnCacheLaws.AnswersPastExpiry` | instance/copilot_turns.go:368-382 | the bound is reached: a row read in its last second and made hot d later answers a whole hot lifetime after that |
| `TurnCacheLaws.LookupWithinLifetime` | instance/copilot_turns.go:368-382 | if every refill is made at the time of its read, no answer is more than the hot lifetime past the expiry |
| `TurnCacheLaws.LoadFindsLast` | instance/copilot_turns.go:258-310 | a loaded context is the last one stored for the key, as it was or, later than the hot lifetime, field by field without outer white space, and only for its own account |
| `TurnCacheLaws.EvictedStaysGone` | instance/copilot_turns.go:508-535 | after an eviction no lookup resolves to the account and no context is loaded for it until it stores again |
| `TurnCacheLaws.RunInv` | instance/continuation_metadata_sqlite.go:404-461 | after every run whose table writes succeeded both tiers agree with the map of last stored bindings |
| `HotCache.Prune` | instance/copilot_turns.go:617-641 | stale entries go, and above the bound exactly the least recently used |
| `HotCache.FreshKept` | instance/copilot_turns.go:617-641 | within the bound only stale entries go |
| `TurnStore.Cache.StoreHot` | instance/copilot_turns.go:563-580 | a store prunes, inserts and prunes again |
| `TurnStore.Cache.FindHot` | instance/copilot_turns.go:582-615 | a hit is touched; a foreign account is a miss |
| `TurnStore.Cache.Store` | instance/copilot_turns.go:244-256 | a store fills the hot tier and the table |
| `TurnStore.Cache.LookupAccount` | instance/copilot_turns.go:368-382 | hot tier, then table, then refill |
| `TurnStore.Cache.LoadContext` | instance/copilot_turns.go:258-273 | hot tier, then the row of the same account, then refill |
| `TurnStore.Cache.EvictAccount` | instance/copilot_turns.go:508-548 | entries and rows of the account go |
| `TurnStore.Cache.LookupAny` | instance/copilot_turns.go:384-401 | the first owner among the distinct ids |
| `TurnStore.Cache.ResolveSession` | instance/copilot_turns.go:438-481 | each distinct id is looked up once and the answers are classified |
| `SessionLaws.SessionFollowsBindings` | instance/copilot_turns.go:438-481 | when every binding is absent, or unexpired and readable, the resolution is exactly the classification of the bindings, whatever the hot cache did meanwhile |
| `SessionResolution.OrderIrrelevant` | instance/copilot_turns.go:438-481 | order and repetition of the ids do not matter |
| `SessionResolution.Classify` | instance/copilot_turns.go:463-480 | orphan, canonical or split by the number of owners; hits and misses add up to the ids; the split list is sorted |
| `SessionResolution.SortedUnique` | instance/copilot_turns.go:473-479 | the sorted list is determined by its members |
| `Text.CollectUnique` | instance/copilot_turns.go:643-661 | the distinct trimmed non-blank ids in order of first appearance |
| `Text.UniqueTrimmedMembers` | instance/copilot_turns.go:643-661 | exactly the trimmed non-blank values are listed |
| `ReplayStoreLaws.LoadFindsLast` | instance/responses_replay.go:395-453 | a load is a miss or exactly the last store for the id; an unexpired binding whose payload reached the cold tier is found whenever the reads succeed, and nothing else later than the hot lifetime after the store |
| `ReplayStoreLaws.CanReplayThenLoad` | instance/responses_replay.go:473-490 | after a positive check the owner's load right behind it succeeds exactly if the hot entry still lives or the archived row is unexpired and readable; after a negative check that could read the metadata no load finds replayable items |
| `ReplayStoreLaws.CheckedThenMissed` | instance/responses_replay.go:473-490 | a run with a failed cold write, a positive check and a later load that finds nothing |
| `ReplayStoreLaws.OwnerIsLast` | instance/responses_replay.go:455-471 | the owner reported is that of the last store, and an unexpired binding that can be read is always reported |
| `ReplayStoreLaws.EvictedStaysGone` | instance/copilot_turns.go:508-535 | after an eviction no replay of the account is loaded until it stores again, even if its cold payload could not be deleted |
| `ReplayStoreLaws.EvictionClears` | instance/copilot_turns.go:518-531 | an eviction whose deletes succeed leaves nothing of the account in any of the three tiers, and takes nothing else |
| `ReplayStoreLaws.RunInv` | instance/responses_replay_duckdb.go:103-208 | metadata that says ready always has the last payload of the right account in the cold tier, whichever cold writes failed |
| `ReplayTiers.Tiers.StoreReplay` | instance/responses_replay.go:365-393 | hot tier, cold tier, then metadata recording whether the cold write worked |
| `ReplayTiers.Tiers.LoadReplay` | instance/responses_replay.go:395-453 | hot hit or archived payload, refilled with its own creation time |
| `ReplayTiers.Tiers.CanReplayContinuation` | instance/responses_replay.go:473-490 | hot items decide, else ready metadata |
| `ReplayTiers.Tiers.LookupOwner` | instance/responses_replay.go:455-471 | metadata first, then the hot tier |
| `ReplayTiers.Tiers.EvictAccount` | instance/copilot_turns.go:518-531 | each tier loses the account's rows, as far as its delete succeeds |
| `Continuation.ChainRebuilds` | instance/responses_replay.go:54-124 | a chain of turns succeeds exactly when every turn has valid input, replayable output and answers exactly the pending calls, and then stores exactly the first input, each output and each scrubbed next input |
| `Continuation.ForwardedInput` | instance/responses_replay.go:85-91 | the forwarded request carries the whole conversation, no previous id, and every other field unchanged |
| `Continuation.RewriteReads` | instance/responses_replay.go:54-92 | the rewrite in the payload's own terms: a text becomes a user message, an object or a list is scrubbed, missing input adds nothing, numbers and booleans are refused; the stored input and items come first; a mismatch names the pending, missing and unexpected ids |
| `ResponsesItems.ReplayItemsAre` | instance/responses_replay.go:288-310 | of an output exactly the objects typed reasoning, function_call or custom_tool_call are kept, in order |
| `Continuation.ValidateIff` | instance/responses_replay.go:230-250 | tool outputs are accepted exactly when no call is pending or they answer each pending call and nothing else |
| `Continuation.Request.RewritePrevious` | instance/responses_replay.go:54-92 | the payload is rewritten in place, and left alone if the rewrite fails |
| `Continuation.DiffExpected` | instance/tool_validation.go:103-123 | the distinct expected ids that are not provided |
| `Continuation.Missing` | instance/tool_validation.go:103-123 | an id is reported exactly if it is expected and not provided |
| `ResponsesItems.ScrubClean` | instance/responses_replay.go:186-228 | no reference and no item id is left at any depth of content |
| `ResponsesItems.ScrubFixed` | instance/responses_replay.go:204-228 | items without references and ids are not changed |
| `ResponsesItems.ScrubIdempotent` | instance/responses_replay.go:186-228 | scrubbing twice is scrubbing once |
| `ResponsesItems.ScrubKeepsOutputIds` | instance/responses_replay.go:271-286 | a scrub keeps the call ids of all tool outputs |
| `EndToEnd.ChainSurvivesStore` | instance/responses_replay.go:54-72 | a turn that continues a stored chain continues exactly that chain or is refused as not found, whatever the tiers lost and refilled |
| `OrphanDegrade.DegradedPayload` | instance/responses_replay.go:595-706 | the forwarded payload, item by item: the last min(total, 100) tool items as text in order, calls in the assistant's words and outputs in the user's; all others but reasoning and references without ids in order; one omission marker directly before the first text exactly if there were more than 100; null exactly if nothing is left |
| `OrphanDegrade.ScrubbedTexts` | instance/responses_replay.go:186-228 | the final scrub leaves every text and marker the gateway wrote in place and unchanged, and drops nothing but references |
| `OrphanDegrade.NothingOwnedIsLeft` | instance/responses_replay.go:696-706 | after a degrade the payload sends no reasoning, function_call or function_call_output item, and no ids or references |
| `OrphanDegrade.CallsLeftIffCustom` | instance/responses_replay.go:650-693 | a call of any type is left exactly if the request had custom tool items, which the code does not touch |
| `OrphanDegrade.DegradeIdempotent` | instance/responses_replay.go:584-707 | degrading again changes nothing |
| `OrphanDegrade.ChangedCount` | instance/responses_replay.go:614-706 | the count is reasoning items plus surviving tool items; a count of zero leaves the payload untouched |
| `OrphanDegrade.DegradePayload` | instance/responses_replay.go:584-707 | the two passes with their counters and flags compute the rewrite by rank |
| `History.FoldIsListed` | instance/orphan_translate/input.go:339-375 | the shared list and directory keep one entry per call id in order of first appearance, with the latest call and latest result, and one per item without id |
| `History.ReasoningListed` | instance/orphan_translate/input.go:339-348 | a reasoning item is listed exactly if it has a readable summary or encrypted content, and shows the summary or says that it cannot be read |
| `History.ToolListed` | instance/orphan_translate/input.go:350-375 | a call or result opens an entry exactly if its trimmed id is blank or new, and the entry bears that id |
| `HistoryBuilder.Builder.ToolCell` | instance/orphan_translate/input.go:363-375 | the shared cell of an id is made on its first appearance; a blank id always gets its own |
| `HistoryBuilder.Builder.AddToolCall` | instance/orphan_translate/input.go:350-355 | a call is written through the shared cell |
| `HistoryBuilder.Builder.AddToolResult` | instance/orphan_translate/input.go:357-361 | a result is written through the shared cell |
| `HistoryBuilder.Builder.AddReasoning` | instance/orphan_translate/input.go:339-348 | a readable summary, a stock phrase for encrypted reasoning, or nothing |
| `HistoryBuilder.Builder.Render` | instance/orphan_translate/input.go:377-431 | the loop renders the block of the last 80 entries |
| `HistoryBuilder.BuildHistory` | instance/orphan_translate/input.go:86-125 | the items of a request give the block of their listed entries |
| `HistoryText.BlockReadsBack` | instance/orphan_translate/input.go:377-431 | the block reads back as the shown part of the last 80 entries, with a note exactly if some were left out |
| `HistoryText.ShownReads` | instance/orphan_translate/input.go:484-493 | a field is shown without outer white space, or as its first 6000 characters and a note; the last 80 entries are shown |
| `HistoryText.RenderInjective` | instance/orphan_translate/input.go:377-431 | different shown entries never render alike |
| `HistoryText.EscapeNoMarkup` | instance/orphan_translate/input.go:480-482 | escaped fields contain no angle bracket or quote and grow at most fivefold |
| `HistoryText.UnescapeEscape` | instance/orphan_translate/input.go:480-482 | escaping loses nothing |
| `HistoryText.RenderBound` | instance/orphan_translate/input.go:313-316 | apart from the digits of the omitted count the length of the block has a constant bound |
| `RecoveryTranscript.Recover` | instance/orphan_translate/input.go:77-129 | real messages in order, the history block if there is any history, and a prompt to go on unless a real user speaks last |
| `RecoveryTranscript.EndsForUser` | instance/orphan_translate/input.go:544-571 | the conversation always ends with a user turn, and the gateway's turns come after all real ones |
| `WorkerState.MarkKeeps` | instance/worker_supervisor.go:633-651 | a reaper that has not marked yet marks its own child and no newer one |
| `WorkerState.ReleaseKeeps` | instance/worker_supervisor.go:740-744 | a port that is given back is used by no child that may still run |
| `WorkerState.RemoveKeeps` | instance/worker_supervisor.go:391-399 | unregistering a finished worker keeps ports and workers one to one |
| `WorkerState.AddKeeps` | instance/worker_supervisor.go:263-280 | registering on a reserved port keeps ports and workers one to one |
| `WorkerState.ReserveKeeps` | instance/worker_supervisor.go:726-737 | reserving a free port in the range keeps the correspondence, with the port pending |
| `WorkerState.ProgressKeeps` | instance/worker_supervisor.go:633-651 | exits, marks and closes never disturb the correspondence |
| `WorkerState.RegisteringTwiceBreaks` | instance/worker_supervisor.go:217-280 | a second registration over a live worker would break it, which is why public calls are serialized |
| `WorkerSupervisor.Supervisor.Spawn` | instance/worker_supervisor.go:212-309 | it succeeds exactly if the account is named and unregistered, the supervisor open, the home made, a port free and bindable, and the child started and ready; the error is that of the first condition that fails; success registers a ready worker on the preferred or the first free port, failure leaves registrations and ports as they were |
| `WorkerSupervisor.Supervisor.Stop` | instance/worker_supervisor.go:342-406 | success removes exactly this worker and frees its port after its child has exited; a cancelled stop keeps both |
| `WorkerSupervisor.Supervisor.Restart` | instance/worker_supervisor.go:410-415 | stop, then spawn: exactly when it succeeds, and what is registered and taken after each outcome |
| `WorkerSupervisor.Supervisor.TryAdopt` | instance/worker_supervisor.go:535-579 | the outcome by the first condition that fails; adoption registers the live process on its recorded port; every failure gives the port back |
| `WorkerSupervisor.Supervisor.Shutdown` | instance/worker_supervisor.go:453-464 | afterwards only workers whose stop was cancelled remain, and without cancellation no port is taken |
| `WorkerSupervisor.Supervisor.ReaperStep` | instance/worker_supervisor.go:633-637 | exit, mark and close, in this order, for any child at any time, also while a port is pending |
| `WorkerSupervisor.Supervisor.HealthMark` | instance/worker_supervisor.go:639-651 | the health loop's mark keeps the correspondence, whichever worker the account has by then |
| `WorkerSupervisor.Supervisor.Unregister` | instance/worker_supervisor.go:391-399 | with reapers between each step: the finished worker leaves the registry, then its port is free, and no child that may run uses it |
| `WorkerSupervisor.Supervisor.Alloc` | instance/worker_supervisor.go:708-722 | the first free bindable port, or none exists |
| `WorkerSupervisor.Supervisor.Reserve` | instance/worker_supervisor.go:726-737 | a port is reserved exactly if it is in the range and free |
| `WorkerSupervisor.Supervisor.SelectPort` | instance/worker_supervisor.go:311-318 | the preferred port if it is in range, bindable and free, else the first free one |
| `RateLimiter.WindowBound` | instance/rate_limiter.go:31-49 | in any window of length T at most rpm + T * rpm / 60 calls are allowed, whatever came before |
| `RateLimiter.WaitingHelps` | instance/rate_limiter.go:46-48 | a client that waits as told is served if nobody else was served in between |
| `RateLimiter.WaitIsTight` | instance/rate_limiter.go:46-48 | a second less than told is not enough |
| `RateLimiter.TokensConserved` | instance/rate_limiter.go:36-44 | tokens spent and left never exceed what was there and what flowed in |
| `RateLimiter.GlobalWindowBound` | instance/rate_limiter.go:89-111 | the window bound of the global limit holds over all accounts together |
| `RateLimiter.DeniedRequestsDrain` | instance/rate_limiter.go:89-111 | n requests that only their account limit denies cost n global tokens: afterwards every account is locked out exactly if fewer than n + 1 were there |
| `RateLimiter.TokenBucket.Allow` | instance/rate_limiter.go:32-49 | refill, cap, take or tell the wait |
| `RateLimiter.Manager.Check` | instance/rate_limiter.go:89-129 | the account limit is asked only after the global one allowed |

## Left out

- SSE byte framing, JSON encoding, HTTP, goroutines, pipes and headers: streams are sequences of parsed values.
- Whether a forwarded upstream body can still be read after it was closed for a retry that did not happen.
- Usage counters, model names and timestamps inside events, and the closing message-stop event the handler adds.
- ResponsesItems.ScrubItem: the lower-casing of item types is for ASCII letters only.
- OrphanDegrade.DegradePayload: the printing of values that are not strings is a parameter.
- Session affinity, pool selection strategies and telemetry; the eligibility of accounts for a recovery is a parameter.
- ProxyResponses.Handle: the exclusion set is tracked for the one pool pick that reads it; account blocking and disabling
  after a fatal answer are effects outside the request.
- `proxyMessages` and `proxyCompletions`: bounded by three attempts, they would add easy members.
- TurnStore.Cache.LookupAccount: one operation of a store is not interrupted by another; the hot lock, the table and the
  refill are separate critical sections in the code, so a lookup racing an eviction can refill an evicted account.
- ReplayTiers.Tiers.LoadReplay: the same; also the cold reference is always the response id, as the code writes it.
- TurnCacheLaws.LookupFindsLast: assumes that table writes succeed; a failed write leaves an older row behind the hot entry.
- The snapshot file used when the metadata tables are disabled, and the import of legacy snapshots.
- TurnStore.Cache.Store: the last-seen column of the tables is written but never read, and is not modelled.
- Compaction items, turn headers and token-limit fields of a forwarded request.
- ReaderAgreement.ReadersAgreeIff: for streams of one choice that end cleanly or are cut off; a read error of the upstream is
  left to each translator alone, and so are payloads that only one of the two can decode, as content that is not a string.
- CallIdRewrite.UnmanglesIff: lengths and positions count code points, where the code counts bytes; the two differ only for
  ids that are not ASCII.
- CallIdRewrite.RewriteCallIds: the same.
- HistoryBuilder.AddReasoning: the search for a summary inside a reasoning item, and the JSON text of structured arguments
  and outputs, are done before the item reaches the builder.
- RecoveryTranscript.Recover: image and file parts of messages and the tool list are not modelled.
- WorkerSupervisor.Supervisor.Stop: signals, pid reuse and the five-second escalation are one waiting step.
- The health loop's choice of what to restart, the stored account records, log files and home directories.
- RateLimiter.Manager.Check: account buckets are values in the map, so a reset of the limit, also while a request holds its
  old bucket, is not modelled; tokens are reals, without rounding.
