# Verification of the coordination worker

A Dafny model of the repository's protocols over single-document writes, of its pure execution state machine, and
of the checks around them. Everything is proved for all inputs, all runs and all interleavings.

Each protocol is a state, an action type and a total step function, with one action for each atomic database write or
for each stretch of code between two awaits, and its theorems hold for every list of actions, crashes included.
Code that changes things step by step is also written as methods of classes over the stored documents; their contracts
tie them to the step functions.

| file | what it covers |
|---|---|
| SuggestionStore, SuggestionProtocol, SuggestionTheorems, SuggestionOutcomes, SuggestionService | accepting and dismissing work suggestions, while events are archived |
| OutboxDocuments, OutboxProtocol, OutboxTheorems, OutboxService | the outbox: claims, retries, releases, markers, archiving, partitions |
| TaskLease, LeaseService | the execution lease and the stuck-task detector |
| ExecutionStates, ExecutionRuns, ExecutionTraces | the execution state machine |
| ShadowHistory, TaskDocuments | the bounded state history, policy early exits, cancellation |
| RefreshProtocol, RefreshStore | the single-flight refresh of suggestions |
| ShutdownProtocol, WorkerShutdown | stopping a worker |
| ExecutionPolicy, RequestGates, ApprovalLoop, ApprovalReentry | the execution policy, the request gates, explicit manager requests, human approval |
| RetryProtocol, RetryTheorems, RetryService | retry scheduling and its scanner |
| Clarification | resolving e-mail recipients by asking |
| Paging, KeysetPaging, NotifyApproval | the compose directory and the approval notifier |
| PromptFence | fencing untrusted text |
| Strings, Wrappers | shared string operations and option types |

## Assumptions

- One shared monotone clock. An operation carries a timestamp taken at some time not after its write.
- Every `findOneAndUpdate`, `updateOne` and `deleteOne` is atomic.
- Dedupe keys of tasks and of outbox events, and (organization, user) of memberships, are unique indexes.
- Execution modes are always enforced, and the state machine is always written.
- A write to a document that an open transaction has written waits for the end of that transaction, and a read outside
  it sees the committed document.
- The archiving job may delete an event at any time after its insert in the suggestion and the retry protocol; when it
  does is modelled in the outbox. The marker store may drop a marker before its seven days are over; the runs that
  reopen an event wait them out.
- Retry delays of the outbox run loop are at least 250 ms (apps/task-worker/index.ts:367).
- Object ids never repeat; run ids are never empty.

## Findings

Where the code does not do what its comments or its shape suggest, the code was modelled as it is.

- A converted suggestion need not get its `task.created` event (`AnnouncedExactlyWhen`): not when the accept that won
  the swap had reused another one's task (`ReuserNeverAnnounces`), and, as long as the accepted event is kept, not when
  another accept wrote it first, since the duplicate key error is not caught (`WinnerCanBeOvertaken`).
- An accepted suggestion's retry is called idempotent, but for the same reason it returns normally only while the
  accepted event is missing (`AcceptedAgainReturnsExactlyWhen`): for the first accept that gets there, and once more
  after each archiving of the event (`AcceptsReturnAtMost`, `EveryNumberReturns`).
- Terminal outbox statuses are not absorbing (`TerminalIsFinalExactlyWhen`, `CompletedIsReopened`), a release followed
  by a deferral refunds an attempt twice and lets a failed mark too many through (`BoundIsAttained`), and crashes alone
  never reach the dead letter (`CrashesAreNeverBuried`).
- Partitions miss events with negative hashes (`CoveredUnlessNegative`).
- A remediating detector with the default cutoff clears leases above two seconds before they expire
  (`WholeLeaseIsExclusiveExactlyWhen`), a lease of one second cannot be renewed at its interval (`NextBeatSucceeds`), and
  a run that returns after the window of its last renewal passes its value on although another worker may have owned
  the lease meanwhile (`ReturnedValueIsExclusiveExactlyWhen`).
- A policy batch breaks the replay of the history unless the state was queued (`PolicyBatchKeepsReplay`).
- An explicit manager request under suggest_only is never executed: the action put up for approval drops the explicit
  flag (`ExplicitRequestRunsExactlyWhenFlagIsKept`), and the request cannot be repeated (`FirstRequestIsTheLast`).
- Were that flag kept, the approved bypass of suggest_only would also lift denials that its comment excludes
  (`BothFlagsLiftMoreThanTheMode`); an explicit request names no tool, so for it that is a deny list with "none"
  (`KeptFlagSkipsTheDenyList`). No request that reaches the handler today carries both flags.
- The shadow write of a transactional retry is made outside its session and waits for the transaction that waits for
  it, so with the execution state at retry_scheduled a pass ends in an abort or a failed save
  (`SaveWaitsForItsTransaction`), and after an abort the save leaves the task ready without an event, where no pass finds
  it again (`TransactionalPass`, `AbortLosesRetry`, `LostForGood`). A late shadow write can do the same without
  transactions (`LateSaveLosesRetry`).
- A retry whose event exists but whose claim was reverted stops every scanner pass (`ScannerCannotGetPast`) until the
  event is archived; then the same retry is enqueued again (`EveryNumberIsEnqueued`).
- An approved action runs only when the approval lifts everything that stood in its way (`ApprovedRunsExactlyWhen`);
  under require_approval nothing ever runs (`RequireApprovalNeverRuns`).
- A manager's request that stops between its two writes blocks all later ones without ever being handled
  (`StoppedRequestBlocksAll`).
- A clarification accepts placeholders again (`PlaceholderReplyIsNoProgress`), and an address that starts with a number
  can select another option (`ReplyByAddress`, `AddressSelectsAnother`).

## Model

| member | source | states |
|---|---|---|
| `SuggestionTheorems.LinksNeverDangle` | packages/services/work-suggestion.service.ts:593-884 | in every run of accepts and dismisses interleaved at each database operation, with crashes and with events archived at any time: a converted suggestion links to an existing task, an accept key has at most one task, and the "missing its task" error is never raised |
| `SuggestionTheorems.StatusIsFinal` | packages/services/work-suggestion.service.ts:670-682 | a suggestion leaves "proposed" at most once; afterwards neither its status nor its link changes in any continuation |
| `SuggestionTheorems.ProposedIsConvertedOrDismissed` | packages/services/work-suggestion.service.ts:670-682 | in every run a suggestion that was proposed is still so, or linked to its task, or dismissed without a link |
| `SuggestionTheorems.OutcomesTellTheStatus` | packages/services/work-suggestion.service.ts:593-884 | in every run, and for good: dismissed after a normal dismiss, linked to the returned task after a normal accept, no longer proposed after a conflict, missing after not found |
| `SuggestionTheorems.OneKindReturns` | packages/services/work-suggestion.service.ts:593-884 | of the accepts and dismisses of one suggestion only one kind returns normally, and any two such accepts return the same task |
| `SuggestionOutcomes.UndisturbedDismiss` | packages/services/work-suggestion.service.ts:792-884 | in every run, a dismiss that nothing interrupts dismisses a proposed suggestion, writes the event of a dismissed one unless it is there, and changes nothing else; any other status is a conflict |
| `SuggestionOutcomes.UndisturbedAccept` | packages/services/work-suggestion.service.ts:593-790 | in every run, an accept that nothing interrupts converts a proposed suggestion to its one task, made if there was none, writes the accepted event, and task.created exactly for a task it made; for a converted one it writes the accepted event; any other status is a conflict |
| `SuggestionOutcomes.LostInsert` | packages/services/work-suggestion.service.ts:208-247 | whoever loses the insert of the task goes on with the winner's task, and rethrows exactly when that is gone again |
| `SuggestionOutcomes.LostAcceptSwap` | packages/services/work-suggestion.service.ts:670-789 | an accept that loses the swap writes the accepted event of its own linked task; otherwise it is a conflict, and a task it made is deleted |
| `SuggestionOutcomes.LostDismissSwap` | packages/services/work-suggestion.service.ts:828-884 | a dismiss that loses to another dismiss writes the event like it; to anything else it is a conflict |
| `SuggestionTheorems.StraysAreCrashes` | packages/services/work-suggestion.service.ts:315-333 | once no call on the suggestion can move, an unlinked accept task remains exactly when some accept crashed between inserting it and linking or deleting it |
| `SuggestionTheorems.SettledCounts` | packages/services/work-suggestion.service.ts:662-789 | without such a crash a settled converted suggestion has exactly its linked accept task and any other settled suggestion has none, whichever accept inserted it and whichever won |
| `SuggestionTheorems.OrphanIsNeverLinked` | packages/services/work-suggestion.service.ts:319-326 | the early return of the orphan deletion is never taken |
| `SuggestionTheorems.AcceptsReturnAtMost` | packages/services/work-suggestion.service.ts:267-285 | the accepted event has a unique key, its insert does not catch the duplicate, and only archiving frees the key: the accepts of a suggestion that returned normally, the "idempotent retry" included, are at most the archivings of its accepted event, plus one while the event is there |
| `SuggestionTheorems.ArchivedBetweenWrites` | packages/services/outbox.service.ts:81-96 | between any two writes of the accepted event of one suggestion that event was archived |
| `SuggestionTheorems.EveryNumberReturns` | packages/services/outbox.service.ts:81-96 | the bound is attained for every number: in a run from a fresh database n archivings let n + 1 accepts of one suggestion return normally |
| `SuggestionTheorems.AnnouncedExactlyWhen` | packages/services/work-suggestion.service.ts:684-711 | at every call that won the swap task.created is not written yet, and some continuation that does not archive the accepted event writes it exactly when that call inserted the task itself, finds the accepted event unwritten and has not crashed; it is then the call's next write but one |
| `SuggestionTheorems.AnnouncedAtAllExactlyWhen` | packages/services/work-suggestion.service.ts:684-711 | whatever is archived, some continuation writes task.created exactly when the winner inserted the task itself and has not crashed |
| `SuggestionTheorems.AcceptedAgainReturnsExactlyWhen` | packages/services/work-suggestion.service.ts:620-645 | the idempotent retry, and the loser that finds its own task linked, return normally exactly when the accepted event is not written yet; otherwise they end in the duplicate key error |
| `SuggestionTheorems.ReuserNeverAnnounces` | packages/services/work-suggestion.service.ts:235-237 | a concrete run without crash or overtaking: the accept that inserted the task loses the swap to one that reused it, both are done, the suggestion is linked and task.created is not written |
| `SuggestionTheorems.StepKeepsAnnounceInv` | packages/services/work-suggestion.service.ts:593-884 | the invariant behind it: only winners announce, each its own task, one winner for each task, and no task is announced before its suggestion is converted |
| `SuggestionTheorems.WinnerCanBeOvertaken` | packages/services/work-suggestion.service.ts:684-711 | a second concrete run: an accept that runs between the winner's swap and its event writes the accepted event, the winner throws, and task.created is not written |
| `SuggestionProtocol.StepPreserves` | packages/services/work-suggestion.service.ts:593-884 | the invariant behind these: unique accept keys, live links, one owner for each unlinked accept task, an insert of the accepted event for each call that wrote it; every step of every call keeps it |
| `SuggestionProtocol.OperationIsSound` | packages/services/work-suggestion.service.ts:181-333 | every single database operation keeps the documents and its call consistent and changes only what the other calls can bear |
| `SuggestionProtocol.GuaranteeIsRespected` | packages/services/work-suggestion.service.ts:593-884 | what one operation may change never breaks what another call remembers between its operations |
| `SuggestionService.WorkSuggestionService.AcceptWorkSuggestion` | packages/services/work-suggestion.service.ts:593-790 | whatever runs between its operations, an accept follows the protocol step by step to its outcome, returns normally only linked to a live task, and never reports a missing task |
| `SuggestionService.WorkSuggestionService.DismissWorkSuggestion` | packages/services/work-suggestion.service.ts:792-884 | whatever runs between its operations, a dismiss follows the protocol to its outcome: done or duplicate means that the stored status is dismissed and the event is written, not found that there is no suggestion, conflict that it is neither proposed nor dismissed |
| `SuggestionService.WorkSuggestionService.CreateOrReuseAcceptTask` | packages/services/work-suggestion.service.ts:181-247 | finds by key, else inserts, else finds again after the duplicate key error |
| `SuggestionService.WorkSuggestionService.DiscardOrphanAcceptTask` | packages/services/work-suggestion.service.ts:315-333 | deletes the orphan and leaves it deleted |
| `OutboxDocuments.PartitionConfig` | packages/services/outbox.helpers.ts:6-18 | the partition id lies in range for every pair of environment values |
| `OutboxDocuments.PartitionIdIsCongruent` | packages/services/outbox.helpers.ts:15-17 | the wrapped id is the id modulo the count, negative ids included |
| `OutboxDocuments.PartitionsAreDisjoint` | packages/services/outbox.helpers.ts:42-54 | no event matches the filters of two partitions |
| `OutboxDocuments.CoveredUnlessNegative` | packages/services/outbox.helpers.ts:45-52 | an event matches the filter of some partition exactly when its hash is non-negative or a multiple of the count, since the database remainder truncates |
| `OutboxDocuments.UnfinishedIsClaimable` | packages/services/outbox.helpers.ts:25-36 | with locks set exactly while processing, an event matches the claim filter from a known time on exactly when it is neither completed nor dead-lettered |
| `OutboxDocuments.WritesSetTheNextClaim` | packages/services/outbox.service.ts:115-188 | when an event can be claimed again after each write: after the delay, at once when released, when its lock is stale, or never once ended |
| `OutboxDocuments.CompletedIsKept` | packages/services/outbox.helpers.ts:57-70 | a completion is archived exactly from the end of its retention time on |
| `OutboxDocuments.BuriedIsKeptUnlessCompletedBefore` | packages/services/outbox.helpers.ts:57-70 | a dead letter too, or earlier exactly when an old completion time was left on it |
| `OutboxDocuments.UnfinishedIsNotArchived` | packages/services/outbox.helpers.ts:57-70 | nothing pending, processing, failed or deferred is ever archived |
| `OutboxDocuments.UntimedGoesByUpdate` | packages/services/outbox.helpers.ts:57-70 | an ended event without either time goes by its last update |
| `OutboxDocuments.SinglePartition` | packages/services/outbox.helpers.ts:6-18 | without a count above one there is one partition and it takes every event |
| `OutboxProtocol.FailuresAreBounded` | apps/task-worker/index.ts:1494-1518 | with crashes, stale reclaims, late writes, lost acknowledgements and unlimited deferrals, an event is marked failed at most maxAttempts - 1 times plus once for each claim that was both released by a shutdown and resolved by the catch |
| `OutboxProtocol.StepKeepsInv` | packages/services/outbox.service.ts:57-76 | the key invariant: the stored attempts are claims minus refunds, and each claim recorded at least the unrefunded claims up to and with itself |
| `OutboxProtocol.FailureBound` | apps/task-worker/index.ts:1514-1518 | the accounting step from that invariant to the bound |
| `OutboxTheorems.NothingIsLost` | apps/task-worker/services/outbox-processed-marker.ts:24-55 | in every run an event is completed only after a handler for its key returned, dead-lettered only by a claim that spent the budget, deleted only after one of the two, and otherwise claimed by one of n partitioned workers from a known time on, exactly when its hash falls in one of the partitions |
| `OutboxTheorems.StepKeepsAccounted` | apps/task-worker/services/outbox-processed-marker.ts:33-54 | the invariant of that: markers, completing workers and statuses all account for a returned handler or a spent budget |
| `OutboxTheorems.TerminalIsFinalExactlyWhen` | packages/services/outbox.service.ts:98-148 | the status writes do not check the lock: an event that a run has completed or dead-lettered is reopened in some continuation exactly when a claim is left that can still fail or defer it |
| `OutboxTheorems.CompletedIsReopened` | packages/services/outbox.service.ts:115-130 | a run from a fresh event for every budget above one attempt: a hung worker whose stale claim another worker has completed throws, and the completed event is failed again |
| `OutboxTheorems.BoundIsAttained` | packages/services/outbox.service.ts:132-172 | the bound is attained for every budget and every number of double resolutions, with any retry delays and no worker claiming twice; without double resolutions that is the budget itself |
| `OutboxTheorems.CrashesAreNeverBuried` | packages/services/outbox.service.ts:53-72 | an event whose workers all crash is reclaimed any number of times, each time its lock is five minutes old, and never dead-lettered |
| `OutboxService.ExtendClaims` | packages/services/outbox.service.ts:57-76 | claiming the oldest match once more keeps the batch distinct and oldest first; a claimed event cannot match again |
| `OutboxService.OutboxCollection.FindOldest` | packages/services/outbox.service.ts:57-72 | the match with the earliest creation time, or none when nothing matches |
| `OutboxService.OutboxCollection.ClaimOutboxEvents` | packages/services/outbox.service.ts:49-79 | claims the oldest matching events, each once and in order, changes no other event, and returns fewer than the limit only when none is left |
| `OutboxService.OutboxCollection.ArchiveTerminalOutboxEvents` | packages/services/outbox.service.ts:81-96 | deletes exactly the events of the archival filter and counts them |
| `OutboxService.OutboxCollection.ProcessOneEvent` | apps/task-worker/index.ts:1423-1518 | on the stored documents: an event ends completed and unlocked exactly when it was marked or the handler returned, dead-lettered exactly when the handler threw other than busy with the budget spent, and otherwise failed, due after the delay and with one attempt refunded exactly when busy; the handler does not run for a marked event, the marker is set exactly when it was or was written, nothing else is touched, and it all is what the protocol steps do |
| `OutboxService.OutboxCollection.ReleaseClaimedOutboxEvent` | packages/services/outbox.service.ts:155-172 | fails the event, due at once and with its attempt refunded, exactly while it is processing under this worker, and says whether it did |
| `TaskLease.LeaseIsExclusive` | apps/task-worker/services/task-lease.ts:16-84 | a worker that acquired or renewed at t and has not released is the stored owner until t + min(length, cutoff), whatever acquires, late renewals, releases and detectors do; two workers are never both inside their windows; a renewal stamped inside the window is not refused |
| `TaskLease.StepPreserves` | apps/task-worker/services/task-lease.ts:16-84 | the invariant of that, for every write of every worker and detector |
| `TaskLease.WholeLeaseIsExclusiveExactlyWhen` | apps/task-worker/services/stuck-task-detector.ts:52-59 | with the default cutoff the whole lease is exclusive in every run exactly when the detector only logs or the lease is at most two seconds |
| `TaskLease.DetectorOvertakes` | apps/task-worker/services/stuck-task-detector.ts:167-181 | any clearing detector with a cutoff below the lease length lets a second worker in while the first still counts on its lease |
| `TaskLease.ReturnedValueIsExclusiveExactlyWhen` | apps/task-worker/services/lease.service.ts:152-160 | the value of a run that lost no renewal implies that no other worker owned the lease since the acquire, in every run that looks the same to the worker, exactly when it returns within the window of its last granted renewal |
| `TaskLease.GrantProvesOwnership` | apps/task-worker/services/lease.service.ts:132-145 | a granted renewal proves ownership ever since the acquire |
| `TaskLease.RenewalIsInTime` | apps/task-worker/services/task-lease.ts:12-14 | the renewal interval is inside the window exactly for leases above one second, and a missed beat is survived exactly above two |
| `TaskLease.NextBeatSucceeds` | apps/task-worker/services/task-lease.ts:45-67 | the renewal one interval later succeeds exactly for leases above one second |
| `LeaseService.LeaseDocument.AcquireTaskLease` | apps/task-worker/services/task-lease.ts:16-43 | acquires exactly a lease that is free, without expiry, expired or its own, and then owns from now for the length; nothing changes otherwise |
| `LeaseService.LeaseDocument.HeartbeatTaskLease` | apps/task-worker/services/task-lease.ts:45-67 | renews exactly a lease of its own that has not expired; nothing changes otherwise |
| `LeaseService.LeaseDocument.ReleaseTaskLease` | apps/task-worker/services/task-lease.ts:69-84 | afterwards the worker is not the owner, and nobody else lost the lease |
| `LeaseService.LeaseDocument.RemediateStuckTask` | apps/task-worker/services/stuck-task-detector.ts:97-185 | clears exactly the lease of an executing, uncancelled task whose heartbeat is older than the cutoff, in a remediation mode; owner and expiry are gone, the heartbeat stays, and the task is executing afterwards exactly under retry; nothing changes otherwise |
| `TaskLease.FailedIsNotDetectedAgain` | apps/task-worker/services/stuck-task-detector.ts:97-125 | after a fail remediation no later scan finds the task stuck or changes its lease, until the rest of the application writes the task |
| `TaskLease.RetriedIsDetectedAgain` | apps/task-worker/services/stuck-task-detector.ts:167-185 | after a retry remediation it stays stuck for every scan until somebody acquires it or the application writes it |
| `LeaseService.ExecutionLease.SendRenewal` | apps/task-worker/services/lease.service.ts:127-139 | after a refused renewal no further one is sent; a granted one leaves this worker the owner until the new expiry |
| `LeaseService.ExecutionLease.RenewalAnswered` | apps/task-worker/services/lease.service.ts:132-149 | the handle keeps the expiry of the last granted renewal, and remembers any refusal |
| `LeaseService.ExecutionLease.Finish` | apps/task-worker/services/lease.service.ts:152-160 | the run value is passed on exactly when it returned and no answer so far was a refusal; the lease is released in every case |
| `ExecutionStates.EdgesTaken` | apps/task-worker/services/execution-state-machine.ts:16-84 | the reducer takes exactly the legal edges but four: policy_blocked and blocked are never left for queued or cancelled |
| `ExecutionStates.AcceptedExactlyFrom` | apps/task-worker/services/execution-state-machine.ts:116-369 | for every event the states that accept it, as a table over events and kinds: an event is accepted exactly in the states it leaves, a resolved clarification only where a run waits for it, and leads to its target kind |
| `ExecutionStates.AcceptedCarries` | apps/task-worker/services/execution-state-machine.ts:116-369 | for every accepted event, told by the state reached: each field is the one the event names or is kept from the state left |
| `ExecutionStates.ApprovalLeadsToPlanning` | apps/task-worker/services/execution-state-machine.ts:149-155 | a granted approval ends in planning, owned by the run it names, exactly from awaiting approval |
| `ExecutionStates.AcceptedStepsAreLegal` | apps/task-worker/services/execution-state-machine.ts:111-114 | an accepted event takes a legal edge that has an event |
| `ExecutionStates.EventTakesEdge` | apps/task-worker/services/execution-state-machine.ts:116-369 | from every state of a kind, named runs provided, the chosen event takes the edge |
| `ExecutionRuns.RunLengthBound` | apps/task-worker/services/execution-state-machine.ts:116-369 | any event sequence has at most 10 b + 11 accepted events, b of them back steps |
| `ExecutionRuns.RunLength` | apps/task-worker/services/execution-state-machine.ts:116-369 | the rank argument: every accepted event that is no back step lowers a rank of the state kind |
| `ExecutionRuns.RunLengthBoundIsTight` | apps/task-worker/services/execution-state-machine.ts:116-369 | for every b some run attains the bound |
| `ExecutionRuns.PathIsARun` | apps/task-worker/services/execution-state-machine.ts:16-84 | every path of the table without the four edges is a run of accepted events |
| `ExecutionTraces.ToolsStartGranted` | apps/task-worker/services/execution-state-machine.ts:189-207 | on every event sequence from queued, a tool that starts was preceded, since the last queued state, by a policy evaluation and after it a lease or an approval |
| `ExecutionTraces.StateDataIsLatest` | apps/task-worker/services/execution-state-machine.ts:104-297 | the run, the iteration, the step id and the tool name that a state carries are those of the latest accepted event that could have named them |
| `ExecutionTraces.TraceHolds` | apps/task-worker/services/execution-state-machine.ts:116-369 | the trace invariant behind both |
| `ExecutionTraces.CancellationIsFinal` | apps/task-worker/services/execution-state-machine.ts:350-369 | after an accepted cancel request no event sequence starts a tool, succeeds, or leaves cancelling, cancelled and failed |
| `ShadowHistory.FoldEvents` | apps/task-worker/services/execution-state-shadow.ts:84-134 | the fold keeps the state after all events and exactly the last hundred entries |
| `ShadowHistory.ReplayGivesState` | apps/task-worker/services/execution-state-shadow.ts:84-134 | replaying the retained events from the first retained state gives the stored state and the retained entries |
| `ShadowHistory.FoldKeepsExplains` | apps/task-worker/services/execution-state-shadow.ts:84-134 | folding from the stored state keeps the history bounded, linked, replayable and ending in the stored state |
| `ShadowHistory.LogIsReplayable` | apps/task-worker/services/execution-state-shadow.ts:84-125 | consecutive entries link, and each is what the reducer does, rejected events included |
| `ShadowHistory.PolicyBatchKeepsReplay` | apps/task-worker/services/policy-shadow.ts:23-28 | a policy batch, which restarts from queued, keeps the history replayable exactly when the state was queued or no older entry is left |
| `TaskDocuments.TaskDocument.EmitPolicyShadowState` | apps/task-worker/services/policy-shadow.ts:42-110 | the policy batch as written to the task, with the projected legacy fields |
| `TaskDocuments.AfterCancelEvents` | apps/task-worker/services/task-cancellation.ts:133-150 | finalizing ends cancelled from cancelling, cancelled and every state one edge from cancelling, and leaves every other state as it was |
| `TaskDocuments.RequestReachesCancelling` | apps/task-worker/services/task-cancellation.ts:207-224 | a deferred request is cancelling afterwards exactly when it was, or was one edge away |
| `TaskDocuments.TaskDocument.ApplyCancellationEvents` | apps/task-worker/services/task-cancellation.ts:61-105 | the fold written to the task keeps the history replayable |
| `TaskDocuments.TaskDocument.FinalizeTaskCancellation` | apps/task-worker/services/task-cancellation.ts:130-179 | the task ends failed, closed and unleased in every case; the state machine ends cancelled exactly from the cancellable states |
| `TaskDocuments.TaskDocument.ProcessTaskCancellation` | apps/task-worker/services/task-cancellation.ts:190-239 | noop exactly for a completed or failed lifecycle or status, with nothing changed; deferred exactly when a named owner's stored expiry is later than the clock, with only the flag and the request written; finalized otherwise; so a lease that its worker acquired or renewed less than its length ago is never taken away |
| `TaskDocuments.LegacyFieldsAgree` | packages/types/task/execution-state.ts:143-211 | the legacy lifecycle and status agree with each other and with the state on what ended, how, and on what waits for whom |
| `RefreshProtocol.RefreshIsFresh` | apps/web/store/work-suggestion-store.ts:59-135 | for any interleaving of callers: at most one unfinished fetch, no more fetches than calls, and a caller returns only after a fetch that started after its call has settled |
| `RefreshProtocol.CallsShareOneFetch` | apps/web/store/work-suggestion-store.ts:59-86 | however many calls come in while a fetch is in flight, exactly one trailing fetch is due |
| `RefreshProtocol.DueIsMade` | apps/web/store/work-suggestion-store.ts:59-129 | once calls stop, exactly the fetches due are made in all, whatever the order |
| `RefreshProtocol.StepPreserves` | apps/web/store/work-suggestion-store.ts:59-135 | the invariant: the map holds the last fetch until its one owner resumes, and a pending refresh has a caller to do it |
| `RefreshProtocol.EverybodyReturns` | apps/web/store/work-suggestion-store.ts:65-134 | once calls stop, every way of going on ends within 3 n + 3 moves for n callers, with every caller returned |
| `RefreshProtocol.SomebodyMoves` | apps/web/store/work-suggestion-store.ts:66-77 | while a caller has not returned, the network or some caller can move |
| `RefreshProtocol.StepLowersRemaining` | apps/web/store/work-suggestion-store.ts:65-134 | every move that changes anything lowers what is left to do |
| `RefreshStore.SuggestionRefresher.RefreshConversation` | apps/web/store/work-suggestion-store.ts:59-86 | a call up to its first await is the protocol step for its conversation, and no other conversation changes |
| `RefreshStore.SuggestionRefresher.Resume` | apps/web/store/work-suggestion-store.ts:68-77 | so is the code from an await to the next |
| `RefreshStore.SuggestionRefresher.RunLoop` | apps/web/store/work-suggestion-store.ts:65-129 | one pass of the loop: await the fetch in flight, return, or start the trailing one |
| `ShutdownProtocol.NothingStaysClaimed` | apps/task-worker/services/worker-shutdown.ts:39-61 | however signals, timer, pending claim, handler and releases race: exit is called at most once, and then no claim is pending and every event ever claimed was finished by the loop or passed to release |
| `ShutdownProtocol.ReleasedOnce` | apps/task-worker/services/worker-shutdown.ts:43-46 | the released ids are one snapshot, so none is released twice |
| `ShutdownProtocol.SnapshotIsExact` | apps/task-worker/services/worker-shutdown.ts:43-46 | the released ids are exactly those that the loop had not finished |
| `ShutdownProtocol.GraceIsKept` | apps/task-worker/services/worker-shutdown.ts:67-81 | the first signal only sets the timer; what ends the wait is the timer, a second signal, or the loop between two events |
| `ShutdownProtocol.ImpatienceReleases` | apps/task-worker/services/worker-shutdown.ts:60-81 | the timer and a second signal release at once, or as soon as a pending claim has settled |
| `ShutdownProtocol.NothingBeginsAfterRequest` | apps/task-worker/index.ts:1475-1500 | after the request nothing is claimed and no event is begun |
| `ShutdownProtocol.StepPreserves` | apps/task-worker/services/worker-shutdown.ts:32-99 | the invariant: the tracked set is exactly what the loop holds, and nothing is claimed after the snapshot |
| `ShutdownProtocol.ShutdownIsShort` | apps/task-worker/index.ts:1475-1535 | at most eight changing steps follow a shutdown request, however large the batch |
| `ShutdownProtocol.ExitIsNotBlocked` | apps/task-worker/services/worker-shutdown.ts:63-82 | until the exit some step other than the handler is always possible: only a pending claim is waited for |
| `WorkerShutdown.Shutdowner.FinishNow` | apps/task-worker/services/worker-shutdown.ts:63-66 | runs once: clears the timer, then waits for a pending claim or releases |
| `WorkerShutdown.Shutdowner.RequestShutdown` | apps/task-worker/services/worker-shutdown.ts:70-83 | the first signal arms the timer, the second finishes |
| `WorkerShutdown.Shutdowner.ReleaseUnfinished` | apps/task-worker/services/worker-shutdown.ts:43-46 | calls release once for each unfinished id and for no other |
| `WorkerShutdown.Shutdowner.ClaimResolved` | apps/task-worker/services/worker-shutdown.ts:84-88 | all ids of the claim are tracked before anybody waiting resumes |
| `ExecutionPolicy.EvaluateExecutionPolicy` | apps/task-worker/services/execution-policy.ts:163-344 | with its early returns the evaluation gives the strictest of the independent verdicts of mode, organisation, tool and prompt guard; its reasons name the mode, recipients or domains exactly when they apply |
| `ExecutionPolicy.TighteningIsMonotone` | apps/task-worker/services/execution-policy.ts:91-344 | tightening the mode or the guard, lowering confidence, raising the threshold, or adding to the deny or approval list never makes the outcome more permissive |
| `ExecutionPolicy.AutoMeansEveryCheckPasses` | apps/task-worker/services/execution-policy.ts:163-344 | auto_execute exactly when every single check passes: mode, both lists, upstream flag, confidence, recipients and domains, participants, title and prompt guard; suggest_only blocks everything and require_approval excludes auto_execute |
| `ExecutionPolicy.BlockedExactlyWhen` | apps/task-worker/services/execution-policy.ts:163-344 | refused outright exactly under suggest_only, on the deny list by wire name, without a recipient, or with an addressee that an enforcing guard does not know |
| `ExecutionPolicy.StrangersAreNeverAuto` | apps/task-worker/services/prompt-guard.ts:103-142 | unless the organisation turns the guard off, an unknown addressee never goes out by itself |
| `ExecutionPolicy.KnownTells` | apps/task-worker/services/prompt-guard.ts:103-142 | participants are known to every tool, contacts to e-mail only, and nobody else is |
| `ExecutionPolicy.AddresseesTell` | apps/task-worker/services/prompt-guard.ts:103-140 | the guard looks at every recipient, and at every participant and attendee in whichever parameter |
| `ExecutionPolicy.StrangersTell` | apps/task-worker/services/prompt-guard.ts:103-142 | the findings are exactly the unknown addressees, in the order given |
| `ExecutionPolicy.ApplyExecutionModeGate` | apps/task-worker/services/execution-policy.ts:124-161 | the gate only turns auto_execute into approval_required |
| `ExecutionPolicy.FinishEvaluation` | apps/task-worker/services/execution-policy.ts:279-343 | the prompt guard and the final branches join their verdict to the earlier reasons |
| `ExecutionPolicy.ValidateToolArgs` | apps/task-worker/services/prompt-guard.ts:103-142 | finds exactly the unknown addresses, in order |
| `ExecutionPolicy.RaisingThresholdsIsMonotone` | apps/task-worker/services/execution-policy.ts:91-108 | raising thresholds of the overlay, typed or unknown, raises the threshold in force and never makes the outcome more permissive |
| `ExecutionPolicy.DomainDecides` | apps/task-worker/services/execution-policy.ts:78-82 | a recipient is outside exactly when what follows its last @ is no allowed domain, in any case |
| `ExecutionPolicy.Threshold` | apps/task-worker/services/execution-policy.ts:91-108 | the threshold lies between 0 and 1 for every overlay |
| `ExecutionPolicy.ThresholdTells` | apps/task-worker/services/execution-policy.ts:91-108 | the entry for the type comes before the one for unknown and is cut to 0 to 1; without either, 0.7 or the higher default of the type |
| `RequestGates.ProcessTaskExecutionRequested` | apps/task-worker/index.ts:510-1060 | the handler ends where a table over admission, grant, mode, flags and policy outcome says; outside suggest_only an unsafe action is refused rather than put up for approval |
| `RequestGates.EndsTell` | apps/task-worker/index.ts:529-815 | each gate stops exactly what passed the gates before it: cancelled, suspended, over quota, leaked, ungranted, and the policy last |
| `RequestGates.PolicyEndsTell` | apps/task-worker/index.ts:836-1058 | outside suggest_only the policy refuses exactly denied, unaddressed, foreign or guarded actions, and puts up for approval what it neither refuses nor passes |
| `RequestGates.SuggestOnlyRunsOnlyWithBothFlags` | apps/task-worker/index.ts:836-862 | under suggest_only the lease is reached exactly with both flags and the earlier checks passed, for every payload and policy; an explicit request without approval ends pending or at an earlier check |
| `RequestGates.RunMeansEveryCheckPassed` | apps/task-worker/index.ts:529-1060 | outside suggest_only the lease is reached exactly when the request is admitted, holds the grant it needs, and every single check of the policy passes |
| `RequestGates.BothFlagsLiftMoreThanTheMode` | apps/task-worker/index.ts:858-860 | what the handler does with a request carrying both flags, which no writer sends today: the bypass is meant to lift the mode denial only, and also lifts, exactly, the deny list, missing or foreign recipients and the prompt guard |
| `RequestGates.ExecutionEnqueue.EnqueueTaskExecutionRequested` | packages/services/task-execution-enqueue.service.ts:43-99 | nothing from an accept is written, and under suggest_only nothing without the explicit flag |
| `ApprovalLoop.ExplicitRequestRunsExactlyWhenFlagIsKept` | apps/task-worker/index.ts:940-965 | with every writer of actions and events, under suggest_only some run reaches the lease exactly when the pending action keeps the explicit flag; the worker drops it, so no explicit request is ever executed |
| `ApprovalLoop.KeptFlagSkipsTheDenyList` | packages/services/task-execution-request.service.ts:96-164 | were the flag kept: the approved run of an explicit request, which names no tool, goes through for every payload, and of the policy denials it skips exactly a deny list that names "none" |
| `ApprovalLoop.FirstRequestIsTheLast` | packages/services/task-execution-request.service.ts:75-83 | once an explicit action is in flight it stays so in every continuation, and every manager whose call checks afterwards is answered as already pending |
| `ApprovalLoop.StoppedRequestBlocksAll` | packages/services/task-execution-request.service.ts:104-166 | the action and its event are two writes: after a call that stops in between, no continuation of managers' calls and handlers writes any explicit request, and every manager is told that one is pending |
| `ApprovalLoop.RejectionIsFinal` | apps/web/app/api/task-approvals/route.ts:177-188 | a rejected action stays rejected in every continuation, and no approval of it is ever delivered |
| `ApprovalLoop.RepeatedRequestIsTold` | packages/services/task-execution-request.service.ts:135-148 | in every run a manager who meets the duplicate key of his own action is told that it is pending; the error is never passed on |
| `ApprovalLoop.HandlerPutsUp` | apps/task-worker/index.ts:938-1011 | the handler puts up at most one action, none for a duplicate, and runs exactly at the lease |
| `ApprovalLoop.NextStaysStuck` | apps/task-worker/index.ts:1195-1228 | the invariant of that, for every writer |
| `ApprovalReentry.ApprovedRunsExactlyWhen` | apps/task-worker/index.ts:1195-1231 | outside suggest_only, in every run under one policy: an approved action can reach the lease exactly when, with the approved parameters, only the upstream flag and a confidence that 0.7 satisfies stood in its way; mode, lists, recipients, participants, title and guard are evaluated again, and no number of deliveries gets past them |
| `ApprovalReentry.PendingRunsExactlyWhen` | apps/web/app/api/task-approvals/route.ts:190-226 | a pending one exactly when the approver has parameters to give it that pass |
| `ApprovalReentry.ApprovalLiftsExactly` | apps/task-worker/index.ts:1212-1230 | for every payload approved as it is: the action runs exactly then, and otherwise is approval_required once more |
| `ApprovalReentry.RejectionIsFinal` | apps/web/app/api/task-approvals/route.ts:177-188 | a rejected action stays rejected and never runs, however often it is put up or delivered again |
| `ApprovalReentry.RequireApprovalNeverRuns` | apps/task-worker/index.ts:856-858 | under require_approval nothing reaches the lease, approved or not |
| `ApprovalReentry.ApprovedInVain` | apps/task-worker/index.ts:938-1011 | a run: a certain request under require_approval is put up, approved and handled again under its existing key, and runs neither then nor in any continuation |
| `RetryTheorems.NoRetryIsLost` | apps/task-worker/services/retry-scheduler.ts:54-161 | under any interleaving of scanners, with and without transactions: each retry count is enqueued at most once more than its event was archived; no retry is lost, that is, ready without its event ever written and nobody left to write it or to revert, unless a scanner crashed, failed to revert, or overwrote it by its shadow write; and no transaction whose shadow write took effect commits |
| `RetryTheorems.LostExactlyWhen` | apps/task-worker/services/retry-shadow.ts:34-85 | the steps of any run that lose a retry are exactly these: a shadow write that makes a waiting task ready while no scanner answers for it, and the crash or the failed revert of the only scanner that does |
| `RetryTheorems.LostForGood` | apps/task-worker/services/retry-scheduler.ts:45-69 | once lost and with the scanners done, no later pass finds the retry, whatever scanners, archiving and other writers of the execution state do |
| `RetryTheorems.TransactionalPass` | apps/task-worker/services/retry-scheduler.ts:82-160 | a transactional pass over a waiting task, with any failures and aborts and undisturbed by others: it loses the retry exactly when its shadow write, made outside the session, takes effect, which takes an execution state of retry_scheduled; it writes the event exactly when it commits; otherwise it leaves the task as it was |
| `RetryTheorems.SaveWaitsForItsTransaction` | apps/task-worker/services/retry-scheduler.ts:126-131 | the shadow write waits for the transaction that waits for it: with the execution state at retry_scheduled the pass commits only after that write failed, and the write takes effect only after an abort |
| `RetryTheorems.UndisturbedPass` | apps/task-worker/services/retry-scheduler.ts:176-183 | without failures and aborts a transactional pass promotes the task exactly when the execution state is not at retry_scheduled; otherwise it stays at its save for good |
| `RetryTheorems.AbortLosesRetry` | apps/task-worker/services/retry-scheduler.ts:176-183 | a run from any waiting task with that execution state: the transaction aborts, the save stays, and the retry is lost without a crash or a failed revert |
| `RetryTheorems.LateSaveLosesRetry` | apps/task-worker/services/retry-shadow.ts:34-75 | a run without transactions: the late shadow write of one retry makes the task of the next one ready, and that one is lost |
| `RetryTheorems.ClaimedPass` | apps/task-worker/services/retry-scheduler.ts:134-161 | a pass without a transaction, with any failures and undisturbed: it promotes the task, ready and with its event, or throws with the task back in retry_scheduled unless that write failed too; it never promotes where the event exists |
| `RetryTheorems.ClaimedPassFails` | apps/task-worker/services/retry-scheduler.ts:82-160 | each of its operations but the save turns to the revert exactly when it fails, the insert of an existing event included |
| `RetryProtocol.StepPreserves` | apps/task-worker/services/retry-scheduler.ts:54-161 | the invariant behind these, for every write |
| `RetryTheorems.RetriesAreBounded` | apps/task-worker/services/schedule-retry.ts:43-116 | successive calls each raise the count by one, and schedule exactly on the retryable ones among as many calls as the budget leaves |
| `RetryTheorems.RevertLeavesEvent` | apps/task-worker/services/retry-scheduler.ts:140-158 | from any claimable task: a failure after the event is written reverts the claim although the event exists |
| `RetryTheorems.ScannerCannotGetPast` | apps/task-worker/services/retry-scheduler.ts:134-161 | while that event exists every scanner pass, with a transaction or without, throws and leaves the task as it was |
| `RetryTheorems.EveryNumberIsEnqueued` | packages/services/outbox.service.ts:81-96 | the bound on enqueues is attained for every number: n archivings let one retry count be enqueued n + 1 times |
| `RetryService.RetryScheduler.ScheduleTaskRetry` | apps/task-worker/services/schedule-retry.ts:43-116 | the task as the call leaves it, tied to the protocol |
| `RetryService.CandidatesAreFree` | apps/task-worker/services/retry-scheduler.ts:45-52 | a candidate waits for its retry, is due, and its lease is nobody's or expired |
| `RetryService.RetryScheduler.PromoteAndEnqueueRetry` | apps/task-worker/services/retry-scheduler.ts:134-161 | promotes the oldest candidate, or throws and changes nothing exactly when its event exists |
| `RetryService.RetryScheduler.RunRetryScannerOnce` | apps/task-worker/services/retry-scheduler.ts:163-207 | a pass promotes the oldest due tasks, in order and each once, counts them, writes exactly their events and changes nothing else, until the batch is full, none is left, or the oldest one throws and all younger ones wait |
| `RetryService.ExtendPromotes` | apps/task-worker/services/retry-scheduler.ts:134-161 | promoting the oldest candidate once more keeps that account |
| `Clarification.FewRounds` | apps/task-worker/services/resolve-tool-params.ts:255-283 | with replies that select addresses raising no question, a request asks at most as many questions as it has references that need one |
| `Clarification.RoundMakesProgress` | apps/task-worker/services/resolve-tool-params.ts:163-178 | a round leaves fewer such references exactly when the selected address raises no question itself |
| `Clarification.PlaceholderReplyIsNoProgress` | apps/task-worker/services/entity-resolution.service.ts:36-51 | a placeholder is accepted as the reply to a question about a placeholder, and leaves no fewer questions |
| `Clarification.ReplyByAddress` | apps/task-worker/services/entity-resolution.service.ts:53-62 | replying with an option address selects it exactly when it does not start with the number of another option |
| `Clarification.AddressSelectsAnother` | apps/task-worker/services/entity-resolution.service.ts:53-57 | a failing input: of the options a@x.com and 1b@x.com, the reply 1b@x.com selects a@x.com |
| `Clarification.ReplyByNumber` | apps/task-worker/services/entity-resolution.service.ts:53-57 | replying with the number the question lists selects that option |
| `Clarification.ReplyByName` | apps/task-worker/services/entity-resolution.service.ts:64-67 | a reply that is no number and no option's address selects the first option of that name |
| `Clarification.SelectsNothing` | apps/task-worker/services/entity-resolution.service.ts:22-70 | nothing is selected exactly by a blank reply, one that matches no option, or without options one that is no address |
| `Clarification.SelectionIsOffered` | apps/task-worker/services/entity-resolution.service.ts:22-70 | a selection is one of the offered addresses, or the valid address typed when none was offered |
| `Clarification.SnapshotReplaces` | apps/task-worker/services/resolve-tool-params.ts:163-178 | the next round reads back exactly the references with the target replaced |
| `Clarification.ReplacedAt` | apps/task-worker/services/resolve-tool-params.ts:163-178 | every occurrence of the target, in any case, becomes the address and nothing else changes |
| `Clarification.ResolveSendEmailParams` | apps/task-worker/services/resolve-tool-params.ts:180-253 | the first reference that is not taken decides; otherwise all are resolved |
| `Clarification.QuestionsAreNeeded` | apps/task-worker/services/resolve-tool-params.ts:195-244 | a question is about a reference that needs it, and a resolved request has none |
| `Clarification.AsksExactlyWhen` | apps/task-worker/services/resolve-tool-params.ts:195-244 | asked exactly about placeholders, without options, and about names that fit several contacts, with them; taken exactly when valid or found |
| `Clarification.ReferencesTell` | apps/task-worker/services/resolve-tool-params.ts:128-144 | the references are those of the first of to, recipient, recipients and email that has any |
| `Clarification.SplitAtSeparator` | apps/task-worker/services/resolve-tool-params.ts:110-126 | commas and semicolons both split, and the pieces on either side do not depend on each other |
| `Clarification.ValidEmailsAreAddresses` | apps/task-worker/services/resolve-tool-params.ts:31-33 | valid exactly when of the form local@host.top with non-empty parts without spaces or at signs |
| `Clarification.PlaceholderTells` | apps/task-worker/services/resolve-tool-params.ts:63-86 | a valid address is a placeholder exactly when its domain is one, in any case |
| `Clarification.ReservedTops` | apps/task-worker/services/resolve-tool-params.ts:61-61 | a domain is reserved exactly by its top-level domain |
| `Clarification.ResolvedRecipients` | apps/task-worker/services/resolve-tool-params.ts:193-252 | a resolved request has distinct lower-case recipients: the address of every reference and no other, whatever the contact lookups return |
| `Clarification.DedupeEmails` | apps/task-worker/services/resolve-tool-params.ts:146-161 | the loop keeps first occurrences |
| `Clarification.DedupedIsDistinct` | apps/task-worker/services/resolve-tool-params.ts:146-161 | resolved recipients are distinct and are exactly the non-blank trimmed lower-case addresses |
| `Clarification.DedupedGrows` | apps/task-worker/services/resolve-tool-params.ts:146-161 | first occurrences keep their order |
| `Paging.PagesAreTheList` | packages/services/compose-directory.service.ts:159-172 | following the cursor from null ends, and the pages are the duplicate-free list for every limit |
| `Paging.PageOrderedIds` | packages/services/compose-directory.service.ts:159-172 | a page holds at most the limit, and exactly the limit when there is a next one |
| `Paging.PagesFromCursor` | packages/services/compose-directory.service.ts:159-172 | from any cursor they are the rest of the list |
| `Paging.StaleCursorEndsTheWalk` | packages/services/compose-directory.service.ts:165-168 | a cursor that left the list ends the walk with nothing |
| `Paging.ActivePagesAreTheActiveList` | packages/services/compose-directory.service.ts:309-321 | dropping inactive users page by page gives the active users of the whole list |
| `Paging.ClampLimit` | packages/services/compose-directory.service.ts:88-93 | the page size is the one in range nearest to the limit asked for, and the largest without one |
| `Paging.LoadRecentParticipantIds` | packages/services/compose-directory.service.ts:198-209 | the first hundred distinct other participants in order, with the early return |
| `Paging.OthersAreDistinct` | packages/services/compose-directory.service.ts:198-209 | that list is duplicate-free and holds exactly the valid ids but the actor |
| `KeysetPaging.SearchPagesAreTheRows` | packages/services/compose-directory.service.ts:288-307 | from any key the search pages are all matching rows behind it, once each, in order |
| `KeysetPaging.SearchPageReadsOn` | packages/services/compose-directory.service.ts:452-458 | a page is the first rows up to the limit; there is a next cursor exactly when more rows follow, and it reads on behind the page |
| `KeysetPaging.NextQuery` | packages/services/compose-directory.service.ts:446-458 | a query behind the last row read goes on where that page ended |
| `NotifyApproval.NotifyApprovalRequired` | packages/services/notify-approval.service.ts:85-99 | the loop ends having passed every owner and admin but the actor to notifyUsers, in order, for every page size |
| `NotifyApproval.EveryManagerOnce` | packages/services/notify-approval.service.ts:35-52 | with one membership per user each of them is notified exactly once and nobody else is |
| `PromptFence.SanitizedIsClean` | apps/task-worker/services/prompt-guard.ts:42-45 | sanitized text holds no fence tag, sanitizing is idempotent, and only text with a tag changes |
| `PromptFence.ReplacesTagsOnly` | apps/task-worker/services/prompt-guard.ts:42-45 | the text is its pieces and its tags, and sanitizing keeps every piece and puts one replacement for each tag |
| `PromptFence.TagsInAnyForm` | apps/task-worker/services/prompt-guard.ts:42-45 | the tag counts in any case and with space around the name, opening or closing |
| `PromptFence.FenceHasTwoTags` | apps/task-worker/services/prompt-guard.ts:47-51 | whatever the text, the fence holds exactly one open tag, first, and one close tag |
| `PromptFence.ReplaceLeavesNoTags` | apps/task-worker/services/prompt-guard.ts:42-45 | one pass suffices: no tag is left or made by the replacement |

## Left out

- LLM calls, planner, reflection, memory, classifiers, tool execution and the step loop: their results come from outside.
- Connections, metrics, logging, tracing, sockets, e-mail sending and HTTP bridges: only the effect of each atomic write is kept.
- The execution proposal after an accept, notifications of assignees, and the task fields other than the dedupe key (packages/services/work-suggestion.service.ts:651-656, 712-742).
- Requeueing dead letters (packages/services/outbox.service.ts:200-226): it resets the counter and would start a new run of the outbox protocol.
- `clearTaskLease` without an owner (apps/task-worker/services/task-cancellation.ts:107-117): an unguarded write after an earlier read; a release in another worker's name counts as that worker's release.
- The fatal exit of the worker after a rejected claim or an error in the catch (apps/task-worker/index.ts:1542-1545): in the outbox it is a crash, in the shutdown it is not modelled.
- Fractional lease lengths and renewal intervals: times are whole milliseconds.
- The task actions that a retry writes, and automatic repetitions of an aborted transaction: each repetition is a pass of its own.
- The retry classifier, backoff delays and jitter: the decision and the due time are parameters.
- Stale in-memory retry counts: `ScheduleTaskRetry` reads the stored task.
- Database and network errors inside the request handler, other than a failed tool-grant check: they fail the outbox event and are a throw in the outbox protocol.
- The wording of policy reasons: reasons are values, so a reason whose text happens to contain another reason's text is not modelled.
- Unicode case folding: lower-casing is the ASCII one.
- Timestamps and worker ids of history entries, and the entry's error text.
- Database errors of the compose directory and of the notifier, and its e-mail texts.
- The duplicate key of a request event whose action was inserted before (packages/services/task-execution-request.service.ts:150-166): the unique key of the action comes first.
- ClaimOutboxEvents: states a batch that no other worker interrupts; the interleavings are in the outbox protocol, one event at a time.
- ProcessOneEvent: states a call that nothing interrupts and whose writes succeed; lost acknowledgements and failing writes are in the outbox protocol.
- RunRetryScannerOnce: states a pass without transactions that no other writer interrupts and whose only failure is the duplicate key; transactions and other failures are in the retry protocol.
- Authentication, invitations, sessions, React hooks and the other client stores: their invariants are easier than those above.
