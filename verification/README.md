# OpenFrame client and chat: verified models

Dafny models of the stateful protocols in the OpenFrame desktop client (Rust) and chat application
(TypeScript and Rust), each with proofs about all inputs, all runs or all interleavings. One module per
component:

- **Deactivation** – the client that keeps receiving `410 Gone`: a counter, a phase, a persisted marker, a
  probe backoff and a stream of commands to a supervisor. Any number of tasks take the lock in any order,
  the uninstall request is made after the lock is dropped, and the process may restart at any time.
- **CleanOutput** – captured command output is cut at a character boundary, freed of NULs and decoded with
  malformed bytes dropped. Well-formedness is the grammar of section 4 of RFC 3629.
- **ChatStore** – tool-execution chunks that come late, twice or without an id are merged into nested
  messages, mixed with approval results.
- **EventDelivery** – a buffer flushed by whichever of two callbacks runs first, followed by two filters on
  sequence numbers with different reset rules.
- **TokenWatcher** – a polling loop that skips reads while the modification time stands still, against the
  loop that always reads.
- **AgentConfig** – read-modify-write of one file under a lock.
- **LogCollection** – the budgeted round-robin over log sources and the de-duplication of what they return.
- **ServiceControl** – stopping, deleting and starting a Windows service against a manager that may answer
  anything, or nothing. The manager is a function from the trace so far to its next answer.
- **DurableExecution** – batches of scripts with a journal and an outbox. Handlers of any number of batches,
  the outbox flusher, crashes and recovery interleave between any two store calls or publications.
- **PathCodec** – editing the system PATH, down to its UTF-16LE bytes (section 2 of RFC 2781).
- **TitleCache** – the bounded, insertion-ordered cache that carries tool titles from one event to the next.

Code that changes state step by step is a class or a loop whose postcondition gives its whole new state as a
function of the old one; the properties are then proved of those functions over whole runs. Clocks, store
and file outcomes, and what remote parties answer are parameters or arbitrary choices.

## What does not hold

Some things one might expect are false of the code. The model keeps the code's behaviour, shows a concrete
case, and proves when the expectation holds.

- A recovery does not always prevent the uninstall: the decision is acted on after the lock is dropped
  (`Deactivation.UninstallCanFollowRecovery`). The tools are found stopped if and only if the last five recorded replies
  are 410 (`Deactivation.UninstallFindsToolsStoppedIff`, from `CommandsFollowThePattern` and
  `SuspendedIffLastFiveGone`), and the decision itself always meets the deadline.
- A redelivered chunk is not always harmless: an EXECUTED chunk without an id takes over a second card or
  appends one (`ChatStore.RedeliveryIsIdempotent`, an if-and-only-if).
- The token watcher misses a rotation within one tick of the file clock
  (`TokenWatcher.RotationWithinOneTickIsMissed`; `TokenWatcher.SameEmissionsIff` says exactly when it emits what a watcher
  that always reads does).
- A wait that uses all 20 polls can have 11 of them unanswered (`ServiceControl.ElevenOfTwentyUnanswered`), exactly if
  they are polls 1, 3, ..., 19 and 20 (`ServiceControl.UnansweredPolls`). The comment in
  `clients/openframe-client/src/config/mod.rs:18` puts the worst case near 210 s; with at most 11 queries timing out after
  10 s each, it is about 120 s.
- A batch that names a script twice can lose a result without any failure (`DurableExecution.TwinResultIsLost`): both
  requests are filed under one key. The earlier result is lost exactly if it still waits unpublished when the later one
  is stored (`DurableExecution.EarlierTwinLostIff`); the later request runs without a journal record, and is lost exactly
  by a crash or if its result can be neither stored nor published (`DurableExecution.LaterTwinLostIff`).
- A batch that is redelivered after it completed runs again, and the flusher, between publishing the first result and
  removing it, can remove the second one unpublished (`DurableExecution.RedeliveryLosesAResult`).
  `DurableExecution.NoResultIsForgotten` says exactly in which runs a result goes missing; if no other accepted request
  has its key it never does (`DurableExecution.UncontestedResultIsKept`).
- Adding a directory to the PATH twice is not always adding it once: a semicolon or a trailing NUL in it
  defeats the search (`PathCodec.AddTwiceIff`, an if-and-only-if). Removing undoes adding only
  for a directory with neither (`PathCodec.RemoveUndoesAddIff`, `PathCodec.TrailingNulSurvivesRemoval`).
- Bringing a title again does not refresh its place in the cache (`TitleCache.RefreshedEntryStaysOld`); the bound
  of 999 is for new ids.

Two comments disagree with the code, which the model follows: the marker comment speaks of a 24-hour clock
(`clients/openframe-client/src/services/deactivation_service.rs:303`) where the deadline is two hours, and the chat
store's "first match wins" (`clients/openframe-chat/src/hooks/useChatMessages.ts:240`) is the newest match.

## Model

| member | source | states |
|---|---|---|
| Deactivation.DeactivationService.constructor | clients/openframe-client/src/services/deactivation_service.rs:75-103 | a new process is healthy, with no replies counted, and knows only the time in the marker |
| Deactivation.DeactivationService.RecordGoneLocked | clients/openframe-client/src/services/deactivation_service.rs:173-209 | the whole new state and command stream after a 410, and the decision whether the uninstall is due |
| Deactivation.DeactivationService.RecordHealthy | clients/openframe-client/src/services/deactivation_service.rs:215-249 | a 2xx resets the count, the time, the backoff and the marker, and restarts tools that were stopped; after a triggered uninstall it does nothing |
| Deactivation.DeactivationService.TakeRequest | clients/openframe-client/src/services/deactivation_service.rs:277-284 | the locked half of a request: it wins exactly if the uninstall had not been triggered, and triggers it |
| Deactivation.DeactivationService.RequestUninstall | clients/openframe-client/src/services/deactivation_service.rs:277-291 | without another task in between, the first request triggers the uninstall and sends it; later ones do nothing |
| Deactivation.DeactivationService.OnGatewayStatus | clients/openframe-client/src/services/deactivation_service.rs:112-121 | without another task in between, 410 and 2xx are recorded, a due 410 requests the uninstall, any other status changes nothing |
| Deactivation.DeactivationService.NextProbeDelay | clients/openframe-client/src/services/deactivation_service.rs:124-130 | returns the current delay and doubles it up to the cap |
| Deactivation.TrailingGoneMeansLastEntries | clients/openframe-client/src/services/deactivation_service.rs:173-209 | the counter the design speaks of is about the last replies of this process: at least n exactly when the last n entries of the log are 410s |
| Deactivation.FirstGoneIsAfterLastHealthy | clients/openframe-client/src/services/deactivation_service.rs:181-189 | the reference time is that of the first 410 after the last 2xx, across restarts; there is none exactly when every 410 was followed by a 2xx |
| Deactivation.GoneDecisionMatchesLog | clients/openframe-client/src/services/deactivation_service.rs:252-273 | the decision taken under the lock is the one the log of replies justifies |
| Deactivation.RunInv | clients/openframe-client/src/services/deactivation_service.rs:173-291 | flag, phase, counter, marker, command stream and owed sends follow the log in every run of any tasks with any restarts |
| Deactivation.CommandsFollowThePattern | clients/openframe-client/src/services/deactivation_service.rs:173-291 | for every interleaving the commands are (StopTools RestartTools)* StopTools? Uninstall?; the gate is closed exactly while suspended; a triggered uninstall is sent once or owed by one task; and it finds the tools stopped exactly when suspended |
| Deactivation.SuspendedIffLastFiveGone | clients/openframe-client/src/services/deactivation_service.rs:173-249 | outbound calls are gated exactly when the last five recorded replies of the process are 410 |
| Deactivation.MarkerHoldsFirstGone | clients/openframe-client/src/services/deactivation_service.rs:298-323 | across restarts the marker reads back as the time in memory whenever its last access succeeded, and as the first 410 after the last 2xx if all did |
| Deactivation.DueExactlyAtDeadline | clients/openframe-client/src/services/deactivation_service.rs:252-273 | a 410 decides the uninstall if and only if it is the fifth or later in a row in this process, the process was started an hour before, and two hours have passed since the first 410 after the last 2xx |
| Deactivation.UninstallOnlyAfterDeadline | clients/openframe-client/src/services/deactivation_service.rs:173-212 | unless asked from outside, a process sends the uninstall only after it recorded a 410 that met the deadline |
| Deactivation.UninstallCanFollowRecovery | clients/openframe-client/src/services/deactivation_service.rs:206-212 | a run in which a 2xx between the decision and the request restarts the tools before the uninstall is sent |
| Deactivation.UninstallFindsToolsStoppedIff | clients/openframe-client/src/services/deactivation_service.rs:206-212 | an uninstall that was sent finds the tools stopped if and only if the last five recorded replies are 410 |
| Deactivation.ProbeDelayDoublesToCap | clients/openframe-client/src/services/deactivation_service.rs:124-130 | in every run the next probe waits 60 s, doubled once for each probe since the 410 that suspended, or since the last 2xx or start if that is later, but at most half an hour |
| CleanOutput.MaskSelectsTails | clients/openframe-client/src/executor/output.rs:60-68 | the mask the truncation loop tests selects exactly the UTF8-tail bytes |
| CleanOutput.CutToCap | clients/openframe-client/src/executor/output.rs:60-68 | the decrementing loop stops at the largest non-tail position within the cap |
| CleanOutput.RemoveNuls | clients/openframe-client/src/executor/output.rs:70 | the filter keeps every byte that is not NUL, in order |
| CleanOutput.DecodeLossy | clients/openframe-client/src/executor/output.rs:72-89 | the decode loop ends and yields the characters with malformed sequences skipped |
| CleanOutput.CleanString | clients/openframe-client/src/executor/output.rs:59-90 | truncation, NUL removal and decoding, in that order |
| CleanOutput.ScanIsExact | clients/openframe-client/src/executor/output.rs:72-89 | one validation step finds a character exactly when the grammar has one there, and what it skips contains none |
| CleanOutput.SkipsLongestBeginning | clients/openframe-client/src/executor/output.rs:72-89 | what is skipped at once is the longest beginning of a character, or one byte; the input ends too early exactly if all of it is such a beginning |
| CleanOutput.ValidIsWellFormed | clients/openframe-client/src/executor/output.rs:72-89 | the validator accepts exactly the grammar of section 4 of RFC 3629 |
| CleanOutput.CharsAreEncodings | clients/openframe-client/src/executor/output.rs:72-89 | the characters of that grammar are exactly the encodings of scalar values by the bit layout of section 3 of RFC 3629, each of one value |
| CleanOutput.ValidIsEncodedText | clients/openframe-client/src/executor/output.rs:72-89 | so what is accepted is exactly the encodings of texts |
| CleanOutput.DecodeError | clients/openframe-client/src/executor/output.rs:74-87 | one round of the loop: what was valid is kept, the reported error length skipped, an unfinished end dropped |
| CleanOutput.DecodeKeepsValidPrefix | clients/openframe-client/src/executor/output.rs:72-89 | a well-formed beginning is kept whatever follows it |
| CleanOutput.DecodeKeepsCharacters | clients/openframe-client/src/executor/output.rs:72-89 | decoding loses only bytes that belong to no character, however long the sequences it skips at once |
| CleanOutput.BoundariesOfWellFormed | clients/openframe-client/src/executor/output.rs:60-68 | the well-formed prefixes of well-formed input are those that end on a boundary, and one is at most three bytes back |
| CleanOutput.TruncationIsLongest | clients/openframe-client/src/executor/output.rs:60-68 | well-formed input over the cap is cut to its longest well-formed prefix within the cap, at most three bytes short of it |
| CleanOutput.CleanIsSafe | clients/openframe-client/src/executor/output.rs:59-90 | on every byte string the result is well-formed, free of NUL, within the cap and a subsequence of the input |
| CleanOutput.CleanFixesExactlyTheClean | clients/openframe-client/src/executor/output.rs:59-90 | a byte string comes through unchanged if and only if it is well-formed, NUL-free and within the cap; cleaning twice is cleaning once |
| CleanOutput.CleanOfWellFormed | clients/openframe-client/src/executor/output.rs:59-90 | well-formed input loses nothing but NULs and what lies beyond the cap |
| CleanOutput.CleanOfText | clients/openframe-client/src/executor/output.rs:59-90 | any text within the cap comes through without its NUL characters and otherwise unchanged |
| CleanOutput.DropNulRemovesNuls | clients/openframe-client/src/executor/output.rs:70 | the filter removes every NUL and no other byte |
| ChatStore.ChatMessages.UpdateToolExecutionById | clients/openframe-chat/src/hooks/useChatMessages.ts:249-371 | the store becomes the merged one: newest match replaced, else a card appended to the last assistant message, else a new message |
| ChatStore.ChatMessages.FindNewest | clients/openframe-chat/src/hooks/useChatMessages.ts:249-285 | the backward search over messages and segments finds the newest match, or reports that there is none |
| ChatStore.ChatMessages.UpdateApprovalStatusById | clients/openframe-chat/src/hooks/useChatMessages.ts:204-236 | by position: every card with the request id has the new status, and the new name if there is one; every other segment and message, and all ids, stay |
| ChatStore.ApprovalChangesItsCards | clients/openframe-chat/src/hooks/useChatMessages.ts:204-236 | that positional description holds of exactly one result, the one computed |
| ChatStore.FindIsNewest | clients/openframe-chat/src/hooks/useChatMessages.ts:249-285 | the search finds a match whenever there is one and none comes after it |
| ChatStore.UpdateTouchesOnePlace | clients/openframe-chat/src/hooks/useChatMessages.ts:249-371 | each update replaces the newest segment the chunk is for by what that takes from it, field by field, or only if it is for none appends one card, or only without an assistant message appends one message; ids and all other segments, and the other runs, calls, status and resolver of a batch, stay |
| ChatStore.UpdatedPlace | clients/openframe-chat/src/hooks/useChatMessages.ts:249-371 | the one position an update touches, what it held and what it holds after |
| ChatStore.RedeliveryIsIdempotent | clients/openframe-chat/src/hooks/useChatMessages.ts:249-371 | a chunk delivered twice acts as once if and only if it has an id or is EXECUTING |
| ChatStore.ChunkStep | clients/openframe-chat/src/hooks/useChatMessages.ts:249-371 | one chunk shows a run as done exactly when it already was or the chunk finishes it, and never gives it a second card |
| ChatStore.DoneExactlyWhenFinished | clients/openframe-chat/src/hooks/useChatMessages.ts:204-371 | for any sequence of chunks and approvals a run is shown done if and only if it was at the start or its EXECUTED chunk was applied, and it is held at most once |
| ChatStore.DoneShowsLastOutcome | clients/openframe-chat/src/hooks/useChatMessages.ts:249-371 | after any sequence, a run shown done shows the result and success that the last EXECUTED chunk for it brought |
| ChatStore.CardShowsItsChunks | clients/openframe-chat/src/hooks/useChatMessages.ts:299-310 | a run that comes up for the first time is shown exactly if there was a chunk for it, by one card with the data of the last chunk that counts and the last title, explanation and parameters any of them gave |
| ChatStore.VisibleUnlessSwallowed | clients/openframe-chat/src/hooks/useChatMessages.ts:249-371 | a run with a card keeps it as long as later chunks carry ids |
| ChatStore.ApprovalAndChunkCommute | clients/openframe-chat/src/hooks/useChatMessages.ts:204-371 | an approval result and a tool chunk can be applied in either order |
| EventDelivery.NatsBridgeClient.OnMessage | clients/openframe-chat/src/services/natsTauri.ts:126-148 | an event joins the buffer, and the first one schedules the callbacks |
| EventDelivery.NatsBridgeClient.Flush | clients/openframe-chat/src/services/natsTauri.ts:130-138 | the callback hands the whole buffer on in order and empties it; a second one does nothing |
| EventDelivery.DialogFeed.OnEvent | clients/openframe-chat/src/services/natsTauri.ts:287-330 | the subscription filter: other dialogs and numbers not above the highest are dropped |
| EventDelivery.DialogFeed.HandleChunk | clients/openframe-chat/src/hooks/useChat.ts:585-615 | the chat filter: numbers not above the last applied are dropped, everything else is applied |
| EventDelivery.DialogFeed.Open | clients/openframe-chat/src/hooks/useChat.ts:585-592 | opening another dialog resets both filters |
| EventDelivery.DialogFeed.Enable | clients/openframe-chat/src/services/natsTauri.ts:287-330 | subscribing again resets only the lower filter |
| EventDelivery.BufferLosesNothing | clients/openframe-chat/src/services/natsTauri.ts:126-148 | in every interleaving delivered followed by pending is received, and a non-empty buffer has a timer outstanding that empties it |
| EventDelivery.EitherCallbackDelivers | clients/openframe-chat/src/services/natsTauri.ts:139-147 | the message that finds the buffer empty schedules both callbacks, and each of them would deliver it |
| EventDelivery.AppliedExactlyTheNew | clients/openframe-chat/src/hooks/useChat.ts:585-615 | across any re-subscriptions, since the dialog opened exactly the events whose number exceeds every earlier one, or that have none, are applied, so numbers strictly increase |
| EventDelivery.AppliedFromHeard | clients/openframe-chat/src/hooks/useChat.ts:585-615 | in every run, across dialog changes and re-subscriptions, the applied events are the new ones among those for the open dialog delivered while it was subscribed since it was opened |
| EventDelivery.AppliedFromReceived | clients/openframe-chat/src/services/natsTauri.ts:126-148 | end to end: with one dialog subscribed and the buffer empty, the applied events are the new ones among those received for it |
| EventDelivery.NewEventsIncrease | clients/openframe-chat/src/hooks/useChat.ts:600-606 | the numbers of the new events strictly increase |
| EventDelivery.LowerMarkIsOfThisSubscription | clients/openframe-chat/src/services/natsTauri.ts:287-330 | in every run the lower mark is the greatest number heard since the dialog was last subscribed |
| TokenWatcher.Watch | clients/openframe-chat/src-tauri/src/token_watcher.rs:100-151 | the polling loop emits what the fast-path watcher emits |
| TokenWatcher.LockstepIff | clients/openframe-chat/src-tauri/src/token_watcher.rs:113-151 | the fast path stays in the same state, missing polls counted, as a watcher that reads on every poll if and only if every skipped poll would have read the token last emitted |
| TokenWatcher.SameEmissionsIff | clients/openframe-chat/src-tauri/src/token_watcher.rs:113-151 | both watchers emit the same after every poll if and only if no skipped poll would read a token other than the one last emitted, and no skipped poll without a token begins three of them while the frontend has a token |
| TokenWatcher.FastPathIsInvisible | clients/openframe-chat/src-tauri/src/token_watcher.rs:113-151 | if the token stands still while the modification time does, both emit the same updates |
| TokenWatcher.RotationWithinOneTickIsMissed | clients/openframe-chat/src-tauri/src/token_watcher.rs:113-122 | without that proviso a rotation within one tick of the clock is never emitted |
| TokenWatcher.EmissionsDiffer | clients/openframe-chat/src-tauri/src/token_watcher.rs:123-151 | on any polls, adjacent updates differ and the first is a token |
| TokenWatcher.FrontendHolds | clients/openframe-chat/src-tauri/src/token_watcher.rs:123-151 | the frontend holds the last token read until three polls in a row found none |
| TokenWatcher.ClearAfterExactlyThree | clients/openframe-chat/src-tauri/src/token_watcher.rs:136-150 | a poll emits a clear if and only if it is the third in a row without a token, after one with |
| AgentConfig.AgentConfigurationService.SaveRegistrationData | clients/openframe-client/src/services/agent_configuration_service.rs:31-41 | a successful save changes exactly the registration fields; a failed one changes nothing |
| AgentConfig.AgentConfigurationService.UpdateTokens | clients/openframe-client/src/services/agent_configuration_service.rs:43-52 | a successful save changes exactly the token fields; a failed one changes nothing |
| AgentConfig.FileIsSequential | clients/openframe-client/src/services/agent_configuration_service.rs:31-52 | for any interleaving of savers with any failures and crashes the file is what the completed saves give one after the other |
| AgentConfig.ReplayKeepsLast | clients/openframe-client/src/services/agent_configuration_service.rs:82-104 | saves made in sequence leave the fields of the last one of each kind |
| AgentConfig.LastSavesWin | clients/openframe-client/src/services/agent_configuration_service.rs:31-52 | the file holds the last completed registration together with the last completed tokens |
| LogCollection.Deduplicate | clients/openframe-client/src/logging/log_parser.rs:123-141 | the loop with its index map yields the kept entries with their counts |
| LogCollection.KeptIsFirstOccurrences | clients/openframe-client/src/logging/log_parser.rs:123-141 | kept are exactly the client entries and the first tool entry with each message |
| LogCollection.DedupIsFirstsWithRepeats | clients/openframe-client/src/logging/log_parser.rs:90-141 | entry by entry: kept are, in order, the entries of the client, which are those not of level TOOL that name it, and the first of every other message; each is as it was but for the number of its later repeats |
| LogCollection.DedupDistinct | clients/openframe-client/src/logging/log_parser.rs:123-141 | no two tool entries of the result have the same message |
| LogCollection.DedupSnoc | clients/openframe-client/src/logging/log_parser.rs:123-141 | what one more entry does to the result |
| LogCollection.ClientLogsUnchanged | clients/openframe-client/src/logging/log_parser.rs:90-95 | client entries come through unchanged and in order |
| LogCollection.CountsAreOccurrences | clients/openframe-client/src/logging/log_parser.rs:123-141 | on entries without counts, the count of a kept message is its number of occurrences |
| LogCollection.TotalIsConserved | clients/openframe-client/src/logging/log_parser.rs:123-141 | on entries without counts, the counts sum to the number of entries |
| LogCollection.DedupIsIdempotent | clients/openframe-client/src/logging/log_parser.rs:123-141 | de-duplicating twice is de-duplicating once, on any entries |
| LogCollection.LogSource.Read | clients/openframe-client/src/logging/log_source.rs:27-32 | the contract of a source: it fails or returns at most what was asked for, and what was asked and answered is noted |
| LogCollection.LogSourceRegistry.ReadRound | clients/openframe-client/src/logging/log_source.rs:142-172 | one round over the sources: budget, active sources and entries afterwards; the reads of each source are what it was asked and answered in the round |
| LogCollection.LogSourceRegistry.ReadAll | clients/openframe-client/src/logging/log_source.rs:134-177 | terminates, reads at most the total, and either spends it or has seen every source fail or come short; every round is fair; the reads of each source, in order, are what it was asked and answered meanwhile, and the result is their de-duplicated entries |
| LogCollection.VisitInRound | clients/openframe-client/src/logging/log_source.rs:142-172 | within a round the budget still covers a full quota for every active source to come |
| LogCollection.RoundEnds | clients/openframe-client/src/logging/log_source.rs:142-172 | a round is fair, and budget plus active sources strictly decreases |
| ServiceControl.ServiceManager.WaitForServiceStop | clients/openframe-client/src/platform/system_service.rs:420-446 | the polling loop against its specification, for every manager |
| ServiceControl.ServiceManager.WaitForServiceRunning | clients/openframe-client/src/platform/system_service.rs:120-138 | the polling loop against its specification, with the three ways to end |
| ServiceControl.ServiceManager.DeleteService | clients/openframe-client/src/platform/system_service.rs:649-695 | existence check, delete call, confirmation polls and the last check |
| ServiceControl.ServiceManager.ForceStopService | clients/openframe-client/src/platform/system_service.rs:311-417 | kill rounds by process id or image path, and deletion only if allowed |
| ServiceControl.ServiceManager.StopService | clients/openframe-client/src/platform/system_service.rs:253-308 | the stop call with its outcomes and the escalation |
| ServiceControl.ServiceManager.StartService | clients/openframe-client/src/platform/system_service.rs:74-116 | up to three start calls, each confirmed by polling |
| ServiceControl.WaitSettles | clients/openframe-client/src/platform/system_service.rs:420-446 | a wait only polls, and is confirmed exactly by the first poll that reaches the goal |
| ServiceControl.WaitCalls | clients/openframe-client/src/platform/system_service.rs:120-138 | polls and unanswered polls of a wait, from any point of it |
| ServiceControl.UnansweredPolls | clients/openframe-client/src/config/mod.rs:18-30 | a wait leaves at most 11 of its 20 polls unanswered, and 11 if and only if polls 1, 3, ..., 19 and 20 go unanswered and the others are answered short of the goal |
| ServiceControl.ElevenOfTwentyUnanswered | clients/openframe-client/src/platform/system_service.rs:420-446 | a manager against which a wait uses all 20 polls with 11 unanswered |
| ServiceControl.DeleteSettles | clients/openframe-client/src/platform/system_service.rs:649-695 | deletion succeeds exactly when its last observation, and no earlier one, is that the service is missing |
| ServiceControl.StopIsSafe | clients/openframe-client/src/platform/system_service.rs:253-446 | for every manager: success exactly when the last observation, and no earlier one, is stopped, not active or missing; never a delete without permission, and at most one; kills only the process, or by the image path, the manager just named; at most 57 timed calls |
| ServiceControl.StopIsEvents | clients/openframe-client/src/platform/system_service.rs:253-446 | event by event: the stop call; if accepted, polls; unless one of these confirms, up to six rounds, each a status and the kill of the process it names, or else a configuration query and the kill by its path; a failure is a kill that could not be launched or comes after six rounds, with a deletion tried if allowed |
| ServiceControl.WedgedServiceCostsTheBound | clients/openframe-client/src/platform/system_service.rs:253-446 | a wedged service costs exactly 57 timed calls, or 34 without permission to delete: the bound is tight |
| ServiceControl.StartIsConfirmed | clients/openframe-client/src/platform/system_service.rs:74-138 | success exactly when the last poll, and no earlier one, shows RUNNING after a start call that succeeded with only polls between; failure only after three start calls; at most 3 start calls and 63 timed calls |
| ServiceControl.StartIsEvents | clients/openframe-client/src/platform/system_service.rs:74-138 | event by event: up to three attempts, each a start call and, if it was accepted or the service was running already, polls; three unless one succeeds |
| DurableExecution.Agent.HandleDurable | clients/openframe-client/src/listener/execution_listener.rs:152-222 | whatever fails and whoever interferes: a batch that reaches the journal is skipped if and only if a record is there under its execution, or under its execution, a colon and more, and then runs nothing; otherwise every request runs exactly once and in order |
| DurableExecution.SkippedExactlyInFlight | clients/openframe-client/src/services/result_store.rs:371-384 | in every run, a message that reaches the journal is skipped exactly in that case, and accepted in every other |
| DurableExecution.SkippedOnlyForAnEarlierMessage | clients/openframe-client/src/services/result_store.rs:139-163 | a message is skipped only if an earlier one brought a request still in the journal, of the same execution or of one whose name continues it after a colon |
| DurableExecution.KeysOfDistinctScripts | clients/openframe-client/src/services/result_store.rs:48-53 | requests of one execution share a key only if they name the same script |
| DurableExecution.Agent.RunRequest | clients/openframe-client/src/listener/execution_listener.rs:196-221 | the steps taken for one request: mark, execute, complete and prune, or after a failed completion a best-effort publication |
| DurableExecution.Agent.PublishBestEffort | clients/openframe-client/src/listener/execution_listener.rs:205-217 | the steps taken: a publication, and a clearing of the journal record only if it succeeded |
| DurableExecution.Agent.PublishDirectly | clients/openframe-client/src/listener/execution_listener.rs:224-241 | without the journal every request runs exactly once and in order, and its publication is tried after each |
| DurableExecution.Agent.Recover | clients/openframe-client/src/services/result_store.rs:228-272 | success empties the journal and leaves every accepted request that shares its key with no other stored, published or pruned; nothing is run |
| DurableExecution.PruneOldest | clients/openframe-client/src/services/result_store.rs:330-368 | the victims are oldest entries, exactly as many as exceed the cap |
| DurableExecution.NoResultIsForgotten | clients/openframe-client/src/listener/execution_listener.rs:152-222 | in every run, crashes, redeliveries and scripts named twice included: the result of a request of a journalled batch is awaited, journalled, stored, in hand, published or pruned if and only if no step of the run was one that takes away the last of these |
| DurableExecution.StepMisses | clients/openframe-client/src/listener/execution_listener.rs:196-221 | a step makes a result go missing if and only if it is a crash or failed publication of one that is nowhere else, a failed publication of one only the flusher holds, an overwriting or removal of its unpublished entry, or the removal of its journal record as the only thing left |
| DurableExecution.UncontestedResultIsKept | clients/openframe-client/src/listener/execution_listener.rs:152-222 | a request whose key no other accepted request has is in every run journalled, stored, published or pruned, and journalled until its handler is done |
| DurableExecution.PruningKeepsNewest | clients/openframe-client/src/services/result_store.rs:322-368 | results are pruned only from an outbox over 500 entries, oldest first, leaving 500 |
| DurableExecution.EntriesAreDated | clients/openframe-client/src/services/result_store.rs:205-226 | every entry of the outbox is dated by the step that stored it |
| DurableExecution.FlushEmptiesOutbox | clients/openframe-client/src/services/result_outbox_run_manager.rs:44-89 | if nothing fails or interferes, one pass of the flusher publishes everything that waits and empties the outbox |
| DurableExecution.KeptAfterRecovery | clients/openframe-client/src/services/result_store.rs:228-272 | once the journal is empty no result of such a request depends on it |
| DurableExecution.RunsInOrder | clients/openframe-client/src/listener/execution_listener.rs:152-241 | in every run, what ran of a batch is its own first requests, each once and in order; of a skipped batch nothing |
| DurableExecution.ResultsAreTrue | clients/openframe-client/src/services/result_store.rs:228-272 | whatever is stored or published is true: executed; possibly begun, as a request under its key; or not executed, unless marking it had failed |
| DurableExecution.UncontestedReportsAreTrue | clients/openframe-client/src/services/result_store.rs:228-272 | of a request that shares its key with no other, interrupted is said only if it may itself have begun |
| DurableExecution.BookkeepingIsOfTheRun | clients/openframe-client/src/listener/execution_listener.rs:196-241 | published are exactly the results whose publication succeeded in the run, and unmarked the requests whose marking failed |
| DurableExecution.EarlierTwinLostIff | clients/openframe-client/src/services/result_store.rs:205-220 | of two requests of a batch with one key: when the later stores its result, that of the earlier is lost if and only if it still waits unpublished in the outbox and not in the hand of the flusher |
| DurableExecution.TwinsShareARecord | clients/openframe-client/src/services/result_store.rs:205-220 | storing a result takes the only journal record of every request with its key |
| DurableExecution.RecordsDoNotReturn | clients/openframe-client/src/services/result_store.rs:139-163 | a journal record that is gone does not come back |
| DurableExecution.LaterTwinLostIff | clients/openframe-client/src/listener/execution_listener.rs:196-221 | a request that runs without a record is lost if and only if the process crashes or its result can be neither stored nor published |
| DurableExecution.TwinResultIsLost | clients/openframe-client/src/services/result_store.rs:48-53 | any batch that names a script twice, whenever it arrives, loses the earlier result in a run without any failure |
| DurableExecution.RunInv | clients/openframe-client/src/services/result_store.rs:139-226 | journal, outbox, handlers and flusher stay consistent in every run, scripts named twice included |
| DurableExecution.RedeliveryLosesAResult | clients/openframe-client/src/services/result_outbox_run_manager.rs:70-75 | a run without any failure in which the flusher removes the result of a redelivered batch unpublished |
| PathCodec.Registry.AddToPath | clients/openframe-client/src/service.rs:577-613 | a directory already there changes no byte; otherwise it is appended behind exactly one semicolon, keeping the value type |
| PathCodec.Registry.RemoveFromPath | clients/openframe-client/src/service.rs:616-646 | every matching entry goes, the value type stays |
| PathCodec.ReadWritten | clients/openframe-client/src/service.rs:650-668 | writing and reading back loses trailing NULs and nothing else: the same string exactly when it has no trailing NUL |
| PathCodec.WrittenIsTerminated | clients/openframe-client/src/service.rs:663-668 | two bytes for each unit and then two zero bytes |
| PathCodec.BytesLayout | clients/openframe-client/src/service.rs:650-668 | each unit is written low byte first |
| PathCodec.EncodeDecode | clients/openframe-client/src/service.rs:650-659 | reading and writing back keeps the UTF-16 units if and only if every surrogate is paired |
| PathCodec.UnpairedIsReplaced | clients/openframe-client/src/service.rs:650-659 | an unpaired surrogate is read as U+FFFD |
| PathCodec.JoinSplit | clients/openframe-client/src/service.rs:631-637 | joining undoes splitting |
| PathCodec.SplitJoin | clients/openframe-client/src/service.rs:631-637 | splitting undoes joining entries without semicolons |
| PathCodec.AppendedLast | clients/openframe-client/src/service.rs:598-602 | the other entries stay in order and the directory comes last |
| PathCodec.MatchesUpToBlanksAndCase | clients/openframe-client/src/service.rs:593 | an entry is taken for the directory if and only if they are equal up to surrounding white space and the case of ASCII letters |
| PathCodec.AddTwiceIff | clients/openframe-client/src/service.rs:577-613 | on the stored bytes adding twice is adding once if and only if the directory was there, has neither a semicolon nor a trailing NUL, or is nothing but NULs |
| PathCodec.RemoveUndoesAddIff | clients/openframe-client/src/service.rs:577-646 | on the stored bytes, adding an absent directory and removing it restores the PATH, but for one trailing semicolon and NULs before it, if and only if the directory has neither a semicolon nor a trailing NUL; otherwise it stays |
| PathCodec.TrailingNulSurvivesRemoval | clients/openframe-client/src/service.rs:577-646 | a directory with a trailing NUL, added to an empty PATH, survives its removal |
| PathCodec.RemovedKeepsOthers | clients/openframe-client/src/service.rs:631-637 | on the stored bytes: after a removal exactly the other entries remain, in order, the last without trailing NULs, or one empty entry; the directory is found again if and only if that last one matches it |
| TitleCache.Cache.RememberTitle | clients/openframe-chat/src/utils/applyToolTitle.ts:27-33 | evicts the oldest entry of a full cache first, then updates in place or appends |
| TitleCache.Cache.OverrideToolTitle | clients/openframe-chat/src/utils/applyToolTitle.ts:35-50 | the data shown and the cache after one event |
| TitleCache.ShownUnderItsTitle | clients/openframe-chat/src/utils/applyToolTitle.ts:35-50 | a starting event with a title is shown under it, and with an id remembered; a finishing event with an id is shown under the title the cache holds for it; everything else as it is |
| TitleCache.NeverExceedsBound | clients/openframe-chat/src/utils/applyToolTitle.ts:24-33 | in every run at most 1000 entries, each id once |
| TitleCache.Survives | clients/openframe-chat/src/utils/applyToolTitle.ts:27-33 | an entry survives as many remembered titles as there is room plus older entries, and keeps the latest title |
| TitleCache.SlackIsTight | clients/openframe-chat/src/utils/applyToolTitle.ts:27-33 | against fresh ids it survives exactly that many |
| TitleCache.FinishedToolShowsItsTitle | clients/openframe-chat/src/utils/applyToolTitle.ts:35-50 | a title brought under a new id is shown, in its latest form, when the tool finishes after any events of which at most 999 bring titles |
| TitleCache.RefreshedEntryStaysOld | clients/openframe-chat/src/utils/applyToolTitle.ts:27-33 | a title brought again for an id that is present does not make its entry younger |

## Left out

- Deactivation: the platforms on which the service is disabled, the supervisor that acts on the commands and
  launches the uninstaller, and the text format of the marker. A failed write may leave any timestamp or none.
- Deactivation.DeactivationService.RequestUninstall: is the uninterrupted case; the two halves with other tasks in
  between are the steps `TakeRequestLock` and `Send` of the system.
- Deactivation.DeactivationService.OnGatewayStatus: is likewise for a caller that no other task interrupts; interrupted, it
  is the steps `Reply`, `TakeRequestLock` and `Send`.
- Deactivation.DueExactlyAtDeadline: is stated at the moment of the decision, not of the send, because of the
  recovery that can come between.
- CleanOutput: reading the pipes and their timeouts.
- ChatStore: names, avatars, timestamps and the in-turn segment accumulator; the store is a value that each
  updater replaces, as React state is. The execution id passed to the updater is taken to be the data's own.
- EventDelivery: the connection to the broker, consumer creation, and errors thrown by listeners.
- EventDelivery.AppliedFromReceived: is for a dialog that stays subscribed, where nothing received is missed;
  `AppliedFromHeard` is the statement for every run.
- TokenWatcher: decryption, and a file that changes between reading its modification time and its contents; a
  poll's token is what the read gives.
- AgentConfig: the JSON text; a file that cannot be read or parsed makes a save fail.
- LogCollection: parsing of log lines and the file offsets behind a source; a source is any script of answers of
  at most the requested length.
- LogCollection.Deduplicate: counts are unbounded; `TotalIsConserved` bounds them by the number of entries.
- ServiceControl: sleeping between polls, the pool of permits (a refused permit is a time-out), logging, process
  enumeration, and the macOS and Linux variants.
- DurableExecution: the contents of results and their truncation, broker subscriptions, and the store's file
  format. A store call that reports failure is taken to have changed nothing.
- PathCodec: opening the registry key and broadcasting the change, and the conversion of the directory path to
  text.
- TitleCache: applying titles to whole messages, which maps the same function over their parts.
- Liveness: no fairness of tasks, timers or pollers is assumed, so nothing says that a step eventually happens.
- HTTP clients, user interface, encryption, installers, other listeners and update services are not part of this
  model.
