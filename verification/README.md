# Durable-state protocols of the harness runtime, in Dafny

The harness keeps its durable state in SQLite rows that several processes share. Safety rests on
leases, claim tokens, version compare-and-set and an append-only event log, and, for files, on
renames. This project models those protocols and proves what they keep in every interleaving, and
says exactly where they do not.

How the model is built:

- Each SQL statement, or transaction, is one atomic effect on a row, a function that returns no row
  when it affects none (`IdempotencyRecords`, `Operations`, `Transitions`).
- The `*Protocol` modules split each call into its steps and interleave any number of calls freely
  under a clock that never goes back. `Next` takes one step and does nothing when the step is not
  possible; `Run` takes any list of steps, so a theorem about a reachable state is about every run.
  The state carries the history that the statements need: the grants, the completions, the rows as created.
- The classes `IdempotencyStore`, `OperationStore` and `TransitionService` are the calls as one caller
  sees them, on whole tables, with contracts on the new state. Each carries the protocol runs that its
  calls amount to, and `Valid()`, which every method keeps, says that the tables are what these runs
  have left. So what the protocols keep holds of the tables between any calls (`TableIsSound`, `TablesAreSound`).
- `Log`, `ArtifactRoot` and `Session` are the event log, the artifact tree and the adapter session.
  `SessionLoop` runs the polling loop over any sequence of process observations and any set of
  failing sends. `ArtifactProtocol` stops a supervisor between any two file system calls, those of a
  recursive deletion included.

Modules: `Options` and `Runs`; `Timestamps`; `IdempotencyRecords`, `ClaimProtocol` and `IdempotencyStores`;
`Operations`, `OperationProtocol` and `OperationStores`; `Lifecycles`, `EventLog`, `Transitions`,
`TransitionProtocol` and `TransitionServices`; `AgentEvents`, `ClaudeLines`, `CodexLines` and `SessionLoop`;
`ArtifactNames`, `ArtifactStore` and `ArtifactProtocol`.

## What does not hold

- The comment above the upsert of `try_claim` promises a version guard
  (crates/harness-runtime/src/idempotency.rs:104-105); the statement has none. A caller that read the
  key before it was completed can revive it, and it can then be completed a second time
  (`ClaimProtocol.CompletedKeyCanBeRevived`). This stale upsert is the only step that leaves a final
  status (`ClaimProtocol.FinalRowLeftOnlyByStaleUpsert`), so a final row is final in every run if and only
  if no call in flight has chosen the upsert (`ClaimProtocol.FinalForeverIffNoUpsertInFlight`); when no
  write falls between the read and the upsert of a call, completion is final and happens once
  (`ClaimProtocol.ExactlyOneCompletion`).
- Five statements end an execution without a version bump and without an event: the reconciler marks running
  ones lost (crates/harness-runtime/src/scheduler/reconciler.rs:154), the two gateways of the task loop
  cancel any that are not completed, failed or cancelled
  (crates/harness-runtime/src/task_loop/gateway.rs:200,
  crates/harness-runtime/src/task_loop/gateway.rs:456), so also a logged `lost` one, and the dispatcher
  fails any (crates/harness-runtime/src/scheduler/dispatch.rs:805,
  crates/harness-runtime/src/scheduler/dispatch.rs:854). The action `Mark` stands for all of them. What the log says is
  terminal stays terminal and gets no more moves, and its lifecycle changes only by such a mark
  (`TransitionProtocol.TerminalIsForever`). The compare-and-set for executions checks the version alone, so
  a call that read the row before a mark can still commit over it (`TransitionProtocol.LostMarkCanBeUndone`);
  an ended row is final, up to further marks, if and only if no such call can commit
  (`TransitionProtocol.EndIsFinalUnlessReadBefore`).
- Agent events go to the execution's own stream, from three above its highest version on
  (crates/harness-runtime/src/scheduler/event_sink.rs:66-67). A reader that polls with its last seen
  version then never receives a move committed below it (`TransitionProtocol.AgentEventCanHideMove`). It
  receives an event if and only if no poll before one that could show it showed a version as high
  (`EventLog.ReceivedExactly`), and a move if and only if no poll before the first that could show it showed
  another writer's event above it (`TransitionProtocol.MoveReceivedUnlessOvertaken`).
- The version a reader sees is cast to 32 bits. From version 2^32 on, and only then, polling again
  delivers the last event again (`EventLog.PollAgainIsEmptyIffVersionFits`).
- A directory whose marker was removed, by a close on its way to the closed marker or by a deletion, is
  reported by no later scan (`ArtifactProtocol.StrippedIsNeverReported`). So a crash in `close` between the
  removal of the old marker and the rename of the new one, and a crash in a reclaim after the marker is
  unlinked, each leave a directory that no scan ever reports
  (`ArtifactProtocol.InterruptedCloseIsMissed`, `ArtifactProtocol.InterruptedDeletionIsMissed`,
  `ArtifactProtocol.UnseenDirectoryCanRemain`). A dead supervisor's active directory stays reported if and
  only if no deletion has unlinked its marker (`ArtifactProtocol.CrashLeavesOrphans`).
- The scan reports staging directories of live creations as well. If a reclaim unlinks the marker of one,
  the creation can still put it in place, without a marker
  (`ArtifactProtocol.StrippedStagingCanBePlaced`).
- Previews of malformed lines and of tool results are cut at a byte
  (crates/harness-adapters/src/claude/mod.rs:135, crates/harness-adapters/src/claude/mod.rs:232,
  crates/harness-adapters/src/codex/mod.rs:205, crates/harness-adapters/src/codex/mod.rs:268), which panics if and
  only if the byte falls inside a character (`AgentEvents.CutPanicsExactly`). A session whose parser
  panics sends no exit and no end event (`SessionLoop.StreamShape`, `SessionLoop.StreamCanEndInPanic`).

## Assumptions

- Tokens, staging names and event ids are fresh. Ids are distinct across projects, tasks and
  executions. Idempotency keys of transitions and keys of claims are disjoint; so are keys of claims and the
  keys that other services put into the same table, where the lease service inserts pending rows
  without owner and lease (crates/harness-runtime/src/lease/service.rs:153) and the resource claims
  insert completed ones (crates/harness-runtime/src/resource_claim/repo.rs:279,
  crates/harness-runtime/src/resource_claim/repo.rs:703). An execution id is not
  used again once its directory was made, and a directory's handle closes it once.
- The clock never goes back.
- Lifecycles are written by the transition service and by the marks above; versions also by
  the two version-only updates of tasks; `event_log` also by any writer on any stream, within its two
  unique indexes (crates/harness-runtime/migrations/001_initial_schema.sql:108-122). Versions that a reader
  is shown lie between 0 and 2^32.
- A deletion counts as having opened its directory from the scan on that found it.
- The counters and `attempt_count` start at the column defaults of 1
  (crates/harness-runtime/migrations/002_idempotency_ownership.sql:8,
  crates/harness-runtime/migrations/003_operation_claim.sql:7,
  crates/harness-runtime/migrations/020_idempotency_fencing.sql:6-7).
- A NULL owner read into a plain string decodes to the empty string, as the tests of the claim API
  need; no decision of `try_claim` depends on it.

## Model

| member | source | states |
|---|---|---|
| Timestamps.TextOrderIsTimeOrder | crates/harness-runtime/src/operation.rs:178-185 | for all Gregorian dates with four-digit years, the stored texts compare as the instants they stand for, and are equal just for equal dates |
| Timestamps.TextOrderIsFieldOrder | crates/harness-runtime/src/idempotency.rs:243-250 | the zero-padded text compares field by field, most significant field first |
| Timestamps.PaddedOrder | crates/harness-runtime/src/idempotency.rs:243-250 | fixed-width decimal fields compare as numbers, then by the rest of the text |
| Timestamps.FormatReadsBack | crates/harness-runtime/src/operation.rs:178-185 | the stored text has 19 characters, its fields in their places, and each reads back as the number it was made from |
| Timestamps.DayIsGregorian | crates/harness-runtime/src/idempotency.rs:243-250 | the day of a date, summed month by month, is the day of the Gregorian calendar in closed form |
| Timestamps.EveryInstantHasADate | crates/harness-runtime/src/idempotency.rs:243-250 | every second of the first ten thousand years is the instant of a date, so with the order theorem dates and instants correspond one to one |
| Timestamps.LeaseWindow | crates/harness-runtime/src/operation.rs:178-185 | with both sides cut to whole seconds, a lease of L seconds never tests as expired within L seconds and always does from L+1 on, and the exact threshold |
| IdempotencyRecords.ExpiryGuardOnText | crates/harness-runtime/src/idempotency.rs:71 | the expiry guard evaluated on text is the guard on whole-second instants |
| IdempotencyStores.IdempotencyStore.TryClaim | crates/harness-runtime/src/idempotency.rs:23-139 | alone, a claim is granted exactly on an absent key, a retryable one or an expired pending one with the same request, under a token never granted before, which is then the latest; the row it leaves, the mismatch error; the call is a run of the protocol on its key and changes nothing else |
| IdempotencyStores.IdempotencyStore.RenewClaim | crates/harness-runtime/src/idempotency.rs:142-159 | succeeds exactly for the holder of a pending row, which is the token granted last, and moves the lease alone; one protocol step |
| IdempotencyStores.IdempotencyStore.CompleteClaim | crates/harness-runtime/src/idempotency.rs:162-178 | succeeds exactly for the holder, which is the token granted last, stores the result, and afterwards no token holds the row; one protocol step |
| IdempotencyStores.IdempotencyStore.FailClaim | crates/harness-runtime/src/idempotency.rs:181-203 | succeeds exactly for the holder, which is the token granted last, with the retryable or the final status, and afterwards no token holds the row; one protocol step |
| IdempotencyStores.IdempotencyStore.GetResult | crates/harness-runtime/src/idempotency.rs:206-217 | answers exactly on completed keys, with the result stored last in the key's whole history |
| IdempotencyStores.IdempotencyStore.RecordInTx | crates/harness-runtime/src/idempotency.rs:231-241 | completes an absent key and leaves a present one as it is; one protocol step |
| IdempotencyStores.IdempotencyStore.TableIsSound | crates/harness-runtime/src/idempotency.rs:23-241 | between any calls: pending exactly when owned and when leased, then by the token granted last; counters count the grants; a completed row shows the last result stored |
| ClaimProtocol.CountersCountGrants | crates/harness-runtime/src/idempotency.rs:106-118 | in every interleaving: pending exactly when owned and exactly when leased, so no guard meets a NULL by surprise; version, fencing token and attempts equal the number of tokens ever granted, plus one for a legacy record; no token is granted twice |
| ClaimProtocol.StaleOwnerExcluded | crates/harness-runtime/src/idempotency.rs:142-203 | a granted token that no longer holds the row can never again renew, complete or fail it, whatever happens in between |
| ClaimProtocol.OnlyLastGrantHolds | crates/harness-runtime/src/idempotency.rs:142-203 | only the token granted last can hold the row |
| ClaimProtocol.StoredResultIsByLastGranted | crates/harness-runtime/src/idempotency.rs:162-178 | a completed row shows the latest stored result, and a claim that stored it held the token granted last at that time |
| ClaimProtocol.GrantWritesTheCall | crates/harness-runtime/src/idempotency.rs:65-118 | whatever happens in between, a granted call leaves the row pending under its own token, request and lease, one more in all three counters, with an earlier result and error kept |
| ClaimProtocol.TakeOverSparesFinalRow | crates/harness-runtime/src/idempotency.rs:65-85 | although completion leaves the version alone, a takeover never touches a final row |
| ClaimProtocol.FinalRowLeftOnlyByStaleUpsert | crates/harness-runtime/src/idempotency.rs:106-118 | a final row changes if and only if the step is an upsert chosen from a read in which the row was absent or retryable |
| ClaimProtocol.FinalForeverIffNoUpsertInFlight | crates/harness-runtime/src/idempotency.rs:104-118 | a final row is the same in every run from there on if and only if no call in flight has chosen the upsert |
| ClaimProtocol.StaleReaderOfCompletedKey | crates/harness-runtime/src/idempotency.rs:34-43 | a reachable state in which a call still holds its read of an absent key after the key was completed |
| ClaimProtocol.CompletedKeyCanBeRevived | crates/harness-runtime/src/idempotency.rs:104-118 | from it the completed key becomes pending again and is completed with another result |
| ClaimProtocol.ExactlyOneCompletion | crates/harness-runtime/src/idempotency.rs:43-61 | in every run without a write between the read and the upsert of a call: at most one stored result, final rows never change, and the request hash is fixed for the key's life |
| ClaimProtocol.UndisturbedHistory | crates/harness-runtime/src/idempotency.rs:162-217 | the same from any state that satisfies the invariant |
| ClaimProtocol.DisplacementNeedsExpiry | crates/harness-runtime/src/idempotency.rs:71 | a pending claim is displaced only after its stored expiry; unrenewed, only after its whole lease since the call began |
| ClaimProtocol.LapsedClaimIsTakeable | crates/harness-runtime/src/idempotency.rs:65-85 | one second after an unrenewed lease has ended, the next uninterrupted caller with the same request is granted it |
| ClaimProtocol.UninterruptedClaim | crates/harness-runtime/src/idempotency.rs:23-139 | the three steps of a call taken without interruption are granted exactly on a claimable row, and otherwise change nothing |
| ClaimProtocol.OneTakeOverPerVersion | crates/harness-runtime/src/idempotency.rs:63-98 | of all callers that read the same version of a pending row, at most one takes it over |
| ClaimProtocol.VersionsOnlyGrow | crates/harness-runtime/src/idempotency.rs:69 | a row is never removed and its version never falls |
| OperationStores.OperationStore.Begin | crates/harness-runtime/src/operation.rs:17-31 | a new id gets a pending, unclaimed row |
| OperationStores.OperationStore.TryClaimOperation | crates/harness-runtime/src/operation.rs:35-54 | granted exactly on a pending, running or reconciliation-required row that has no token or whose expiry lies before the current second, under a token never granted before, which is then the latest; the row it leaves; the protocol steps it is |
| OperationStores.OperationStore.RenewOperationClaim | crates/harness-runtime/src/operation.rs:56-73 | succeeds exactly for the token on a non-terminal row, which is the one granted last, and moves the expiry alone; one protocol step |
| OperationStores.OperationStore.ReleaseOperationClaim | crates/harness-runtime/src/operation.rs:75-83 | clears the claim exactly when the token is on the row, whatever its status; one protocol step |
| OperationStores.OperationStore.CompleteClaimedOperation | crates/harness-runtime/src/operation.rs:85-101 | completes exactly for the token on a non-terminal row, which is the one granted last, and clears the claim; one protocol step |
| OperationStores.OperationStore.FailClaimedOperation | crates/harness-runtime/src/operation.rs:103-119 | fails exactly for the token on a non-terminal row, which is the one granted last, and clears the claim; one protocol step |
| OperationStores.OperationStore.MarkReconciliationRequired | crates/harness-runtime/src/operation.rs:121-125 | moves exactly pending and running rows; one protocol step |
| OperationStores.OperationStore.Complete | crates/harness-runtime/src/operation.rs:129-144 | completes exactly pending and running rows, claim left in place; one protocol step |
| OperationStores.OperationStore.Fail | crates/harness-runtime/src/operation.rs:146-150 | fails exactly pending and running rows, and says nothing otherwise; one protocol step |
| OperationStores.OperationStore.RepoComplete | crates/harness-runtime/src/repo.rs:620-636 | completes exactly a pending or running row of the given version, and bumps the version; one protocol step |
| OperationStores.OperationStore.RepoFail | crates/harness-runtime/src/repo.rs:637-641 | fails exactly a pending or running row of the given version, and bumps the version; one protocol step |
| OperationStores.OperationStore.TableIsSound | crates/harness-runtime/src/operation.rs:17-150 | between any calls, of both services: a token exactly where there is an expiry, and it is the one granted last; one attempt more than grants; no token granted twice |
| OperationProtocol.AttemptsCountGrants | crates/harness-runtime/src/operation.rs:35-149 | in every interleaving: token set exactly when its expiry is; attempts are one more than the grants; exactly one step has set a terminal status on a terminal row and none otherwise; no token is granted twice |
| OperationProtocol.TerminalIsForever | crates/harness-runtime/src/operation.rs:45-149 | a terminal operation keeps status, result, error and counters through every later step, and is never granted or ended again |
| OperationProtocol.ReconciledOnlyByHolder | crates/harness-runtime/src/operation.rs:121-149 | if an operation that requires reconciliation becomes terminal, the step that ended it was a claimed one under the token granted last |
| OperationProtocol.StaleTokenExcluded | crates/harness-runtime/src/operation.rs:56-119 | a superseded, released or spent token never again renews, completes, fails or clears the row |
| OperationProtocol.EarlierGrantsAreStale | crates/harness-runtime/src/operation.rs:45-48 | every token but the last granted is off the row |
| OperationProtocol.DisplacementNeedsExpiry | crates/harness-runtime/src/operation.rs:40-48 | a claim is displaced only after its stored expiry; unrenewed, only after its whole lease, though the claimant tests with the time its call began |
| OperationProtocol.UninterruptedClaim | crates/harness-runtime/src/operation.rs:35-54 | an uninterrupted claim puts its token on the row exactly if the row is pending, running or reconciliation-required and has no token or an expiry before the current second; the whole row it leaves either way |
| OperationProtocol.LapsedClaimIsTakeable | crates/harness-runtime/src/operation.rs:40-48 | one second after an unrenewed lease has ended, the next uninterrupted claimant of an open operation is granted it |
| Lifecycles.TerminalIffNoMove | crates/harness-core/src/state_machine/execution_fsm.rs:9-23 | a lifecycle is terminal if and only if it has no legal move, for all three kinds |
| Lifecycles.ExecutionMoves | crates/harness-core/src/state_machine/execution_fsm.rs:9-23 | exactly the moves by which an execution starts once, ends once, and completes or gets lost only when it runs; unknown text moves as a new execution |
| Lifecycles.TaskMoves | crates/harness-core/src/state_machine/task_fsm.rs:8-39 | exactly the moves by which a task goes forward one stage at a time, an attempt under way is retried or fails, and only what is not under way is cancelled |
| Lifecycles.ProjectMoves | crates/harness-core/src/state_machine/project_fsm.rs:6-39 | exactly the moves by which a project goes forward one stage at a time, back from approval to planning and from integration and verification to work, is cancelled from approval to verification, and fails when active |
| EventLog.Log.AppendInTx | crates/harness-runtime/src/event_log.rs:10-22 | inserts the batch in order up to the first event a unique index refuses, and succeeds exactly when the whole batch keeps the log unique |
| EventLog.OrderByVersionIsSorted | crates/harness-runtime/src/event_log.rs:31 | the ordering of the query is by version, and neither loses nor repeats an event |
| EventLog.BatchIsAboveCursor | crates/harness-runtime/src/event_log.rs:25-34 | a batch holds exactly the events of the stream above the cursor, and ends with the highest version |
| EventLog.CursorIsLargestShown | crates/harness-runtime/src/event_log.rs:25-50 | the cursor after a poll is the largest version shown so far |
| EventLog.PollsResume | crates/harness-runtime/src/event_log.rs:25-50 | on any stream, whoever writes to it, a reader with a cursor receives exactly the events above it that are there at some poll before which no poll showed a version as high |
| EventLog.ReceivedExactly | crates/harness-runtime/src/event_log.rs:25-50 | the same for a reader that starts with nothing: an event is received if and only if it is there at some poll before which only lower versions were shown |
| EventLog.NothingTwice | crates/harness-runtime/migrations/001_initial_schema.sql:108-122 | as stream and version are unique, what is received rises strictly in version over all polls, so nothing arrives twice |
| EventLog.NothingMissedExactly | crates/harness-runtime/src/event_log.rs:25-50 | every event any poll could show is received if and only if none first appears at or below a version shown before |
| EventLog.GaplessCursor | crates/harness-runtime/src/event_log.rs:25-50 | if versions rise in commit order, the whole stream is received once and in commit order |
| EventLog.PollAgainIsEmptyIffVersionFits | crates/harness-runtime/src/event_log.rs:39 | after any non-empty batch, polling again delivers nothing if and only if its last version fits 32 bits, and otherwise its last event again |
| TransitionServices.TransitionService.CommitTx | crates/harness-runtime/src/transition.rs:88-148 | commits exactly when the compare-and-set matches and the log admits the event; then row, event and key change together, otherwise nothing does; which refusal is returned when |
| TransitionServices.TransitionService.Transition | crates/harness-runtime/src/transition.rs:257-353 | alone, a call returns Ok exactly for a recorded key or a legal move of an existing row from the expected lifecycle that the log admits; the new rows, log and keys; exactly which error otherwise, never a version conflict; the protocol steps it is |
| TransitionServices.TransitionService.BumpTask | crates/harness-runtime/src/repo.rs:196-236 | bumps the version exactly when it is the expected one, lifecycle unchanged; one protocol step |
| TransitionServices.TransitionService.MarkLost | crates/harness-runtime/src/scheduler/reconciler.rs:153-158 | marks exactly running executions lost, version and log unchanged; a mark of the protocol |
| TransitionServices.TransitionService.RequestCancellation | crates/harness-runtime/src/task_loop/gateway.rs:198-208 | cancels exactly executions that are not completed, failed or cancelled, version and log unchanged; a mark of the protocol |
| TransitionServices.TransitionService.MarkFailed | crates/harness-runtime/src/scheduler/dispatch.rs:804-808 | fails any execution, version and log unchanged; a mark of the protocol |
| TransitionServices.TransitionService.TablesAreSound | crates/harness-runtime/src/transition.rs:84-148 | between any calls: legal moves of rising versions on every stream, the last ending where the row stands but for marked executions, and no key with two events |
| TransitionServices.PathSucceeds | crates/harness-runtime/src/transition.rs:28-353 | the calls along any path of legal moves each return Ok and leave the row at its end, if their keys are new and no event lies above the row's version on its stream |
| TransitionServices.TaskCanBeDone | crates/harness-core/src/state_machine/task_fsm.rs:88-103 | so a pending task becomes done by these six calls |
| TransitionServices.ProjectCanBeDone | crates/harness-core/src/state_machine/project_fsm.rs:63-80 | a created project becomes done by these nine |
| TransitionServices.ExecutionCanComplete | crates/harness-core/src/state_machine/execution_fsm.rs:15-22 | a created execution runs and completes by these two |
| TransitionProtocol.LogRefinesState | crates/harness-runtime/src/transition.rs:84-148 | in every interleaving the moves of a stream are legal, rise strictly in version up to the row's, replay from the first lifecycle, and end at the row's, but for executions that were marked as ended |
| TransitionProtocol.ReplayGivesTheRow | crates/harness-runtime/src/transition.rs:210-253 | in every run without a mark on the entity, replaying its stream, each move from where the last ended, gives exactly the row's lifecycle |
| TransitionProtocol.CommitStartsWhereValidated | crates/harness-runtime/src/transition.rs:268-316 | every commit, also by version alone, is a legal move from the lifecycle it validated, which is the one the log shows |
| TransitionProtocol.NoStageSkipped | crates/harness-core/src/state_machine/task_fsm.rs:8-39 | in every run, an entity has entered each stage up to where the log has it by a move from the stage before, since when it has not fallen back below |
| TransitionProtocol.DoneTaskWasVerified | crates/harness-core/src/state_machine/task_fsm.rs:29-37 | in every run, a task that began pending and is done was submitted, verified and then done |
| TransitionProtocol.ActiveProjectWasApproved | crates/harness-core/src/state_machine/project_fsm.rs:19-19 | in every run, a project that began created and is active or further was approved |
| TransitionProtocol.EndedExecutionRan | crates/harness-core/src/state_machine/execution_fsm.rs:15-22 | in every run, an execution that began created and that the log has as completed or lost was started |
| TransitionProtocol.TerminalIsForever | crates/harness-runtime/src/transition.rs:282-303 | once the log has an entity in a terminal lifecycle, in every run its stream gets no more moves, its row stays terminal, and only a mark still changes which terminal lifecycle that is |
| TransitionProtocol.EndIsFinalUnlessReadBefore | crates/harness-runtime/src/transition.rs:315-316 | an ended execution keeps its row in every run without a further mark if and only if no call in flight can commit on it; such a call read it before the mark, at the version it still has and in the lifecycle the log shows |
| TransitionProtocol.LostMarkCanBeUndone | crates/harness-runtime/src/scheduler/reconciler.rs:153-158 | a reachable state in which a lost execution is then completed |
| TransitionProtocol.OneEventPerKey | crates/harness-runtime/migrations/001_initial_schema.sql:117-117 | no key ever has two events, whatever overlaps |
| TransitionProtocol.RepeatedCallChangesNothing | crates/harness-runtime/src/transition.rs:33-35 | a call that starts after a commit with its key stops at the duplicate check and changes nothing |
| TransitionProtocol.KeyClashNeedsOverlap | crates/harness-runtime/src/transition.rs:147-148 | a call past its duplicate check meets its own key only in a move committed after that check, and then does not commit |
| TransitionProtocol.OneCommitPerVersion | crates/harness-runtime/src/transition.rs:91-97 | of all calls that read the same version of an entity, at most one commits |
| TransitionProtocol.MatchedCommitStoppedOnlyBy | crates/harness-runtime/migrations/001_initial_schema.sql:108-122 | a matched compare-and-set commits if and only if the key is new and no other writer holds the needed version; the service never blocks itself on a version |
| TransitionProtocol.MoveReceivedUnlessOvertaken | crates/harness-runtime/src/event_log.rs:25-50 | polls at any points of any run, any writers on the stream: a move is received if and only if no poll before the first that could show it showed another writer's event of a higher version; what is received rises strictly in version |
| TransitionProtocol.ReaderReceivesEveryMove | crates/harness-runtime/src/event_log.rs:25-50 | on a stream that only the service writes, polls at any points of any run receive every move once and in commit order |
| TransitionProtocol.AgentEventOnStream | crates/harness-runtime/src/scheduler/event_sink.rs:66-67 | a reachable state in which an agent event lies above the version a call is about to commit |
| TransitionProtocol.AgentEventCanHideMove | crates/harness-runtime/src/scheduler/event_sink.rs:247-257 | the move is then committed and no poll from that cursor on ever delivers it |
| AgentEvents.CutPanicsExactly | crates/harness-adapters/src/claude/mod.rs:135 | a preview panics if and only if the byte at which it is cut falls inside a character, and otherwise is the first part of the text of that many bytes |
| AgentEvents.TextThatSplits | crates/harness-adapters/src/codex/mod.rs:205 | such a text exists |
| AgentEvents.CutIsPreview | crates/harness-adapters/src/claude/mod.rs:227-234 | a preview is the one first part of the text that has all its bytes, or exactly as many as it may have |
| AgentEvents.Utf8IsShortest | crates/harness-adapters/src/claude/mod.rs:135 | characters are counted with as few bytes as UTF-8 needs |
| AgentEvents.FieldLaws | crates/harness-adapters/src/claude/mod.rs:143-146 | reading a field gives what was set, null where nothing was, and is not touched by other fields |
| AgentEvents.TextLaws | crates/harness-adapters/src/claude/mod.rs:146-153 | reading text gives the string that was set, and the default for anything else |
| ClaudeLines.OnlyBlankLinesAreDropped | crates/harness-adapters/src/claude/mod.rs:122-272 | no event exactly for blank lines, a panic exactly where a preview is cut inside a character, and never an exit or end event |
| ClaudeLines.ParsesExactly | crates/harness-adapters/src/claude/mod.rs:122-272 | for every line and every event, the parser makes that event of the line if and only if the line stands for it, field by field: all nine kinds of lines, undecided content blocks passed over |
| ClaudeLines.FirstUserBlockKind | crates/harness-adapters/src/claude/mod.rs:219-237 | a user message yields what its first tool result yields, and nothing only when it has none |
| ClaudeLines.ResultLines | crates/harness-adapters/src/claude/mod.rs:244-253 | a line is the agent's result exactly if its type says so; where its text and its error flag come from |
| ClaudeLines.UnknownTypesArePassedOn | crates/harness-adapters/src/claude/mod.rs:141-270 | a value is passed on whole under its own type if and only if its type is unknown |
| CodexLines.ParsesExactly | crates/harness-adapters/src/codex/mod.rs:193-330 | for every line and every event, the parser makes that event of the line if and only if the line stands for it, field by field: all kinds of lines and items |
| CodexLines.DroppedLines | crates/harness-adapters/src/codex/mod.rs:193-330 | no event exactly for blank lines and completed messages without string text, a panic exactly where a preview is cut inside a character, and never an exit or end event |
| CodexLines.ResultLines | crates/harness-adapters/src/codex/mod.rs:291-311 | a line is a result exactly if its turn completed or failed, and an error exactly if it failed; its text is the result, or the message of the error, or the default |
| CodexLines.UnknownTypesArePassedOn | crates/harness-adapters/src/codex/mod.rs:212-328 | a value is passed on whole under its own type if and only if its type is unknown |
| SessionLoop.Session.SendTask | crates/harness-adapters/src/claude/mod.rs:543-602 | an active session counts as started even when the spawn fails; an inactive one refuses |
| SessionLoop.Session.SendLines | crates/harness-adapters/src/claude/mod.rs:629-693 | sends the parsed events in line order up to and including the first failed send, or until a line panics; result received exactly when a result was among them |
| SessionLoop.Session.SendCompletion | crates/harness-adapters/src/claude/mod.rs:628-751 | then one exit and one end, with the reason and the flags that EndTellsHowTheProcessEnded states, unless the parser panicked |
| SessionLoop.Session.ReceiveEvents | crates/harness-adapters/src/codex/mod.rs:643-822 | over any observations and failing sends: what the first turn that is interrupted or not running makes it send; nothing when deactivated before; inactive afterwards, except after a panic |
| SessionLoop.Session.Interrupt | crates/harness-adapters/src/claude/mod.rs:797-809 | deactivates unless cancelling a started process fails |
| SessionLoop.StreamIsDetermined | crates/harness-adapters/src/claude/mod.rs:605-795 | captured lines and failing sends determine the whole stream |
| SessionLoop.StreamShape | crates/harness-adapters/src/codex/mod.rs:643-822 | a stream has one end event, its last, and one exit event just before it exactly on completion, unless the parser panics, and then neither |
| SessionLoop.EndTellsHowTheProcessEnded | crates/harness-adapters/src/claude/mod.rs:697-745 | the end of a completed session: cancelled if a send of a captured event failed, otherwise exactly by how the process ended, with its exit code or 1; whether a result was sent; the exit before it with the exit code or -1 |
| SessionLoop.EventsAreSaid | crates/harness-adapters/src/codex/mod.rs:643-720 | what an adapter sends of the captured lines is, in order, what each line stands for in the adapter's own format, and no line that parses is passed over |
| SessionLoop.SpoolComesFirst | crates/harness-adapters/src/claude/mod.rs:628-664 | the spool file is parsed if there is one, even if it cannot be read, and the preview only if there is none |
| SessionLoop.StreamCanEndInPanic | crates/harness-adapters/src/claude/mod.rs:628-660 | for both adapters and any failing sends, a captured line after which the session sends nothing at all |
| ArtifactNames.ExecutionPathSplitsBack | crates/harness-runtime/src/artifact.rs:107-111 | a path of valid names lies three levels below the root and splits back into them |
| ArtifactNames.ExecutionPathsAreInjective | crates/harness-runtime/src/artifact.rs:107-111 | different executions have different paths |
| ArtifactNames.AdmittedNamesAreNotReserved | crates/harness-runtime/src/artifact.rs:322-355 | no valid name, and no spool file of one, is a staging directory, the marker or its temp file |
| ArtifactNames.AdmittedExactly | crates/harness-runtime/src/artifact.rs:322-355 | exactly the names of 1 to 128 ASCII letters, digits, dashes, underscores and inner dots are admitted that do not name a device in any case, alone or with an extension |
| ArtifactStore.ArtifactRoot.CreateExecutionDir | crates/harness-runtime/src/artifact.rs:96-161 | succeeds exactly for valid names and a free path, leaves one active marked directory, and changes nothing else |
| ArtifactStore.ArtifactRoot.WriteMarker | crates/harness-runtime/src/artifact.rs:305-318 | the marker is replaced and no temp file is left |
| ArtifactStore.ArtifactRoot.RemoveDirAll | crates/harness-runtime/src/artifact.rs:222-222 | removes the directory, or on failure leaves exactly what it had not unlinked |
| ArtifactStore.ArtifactRoot.Close | crates/harness-runtime/src/artifact.rs:274-301 | deletes exactly under the policies that say so, and otherwise leaves a closed marker |
| ArtifactStore.ArtifactRoot.FindOrphans | crates/harness-runtime/src/artifact.rs:166-207 | reports each orphan once, with its marker's fields, and nothing else, in any listing order |
| ArtifactStore.NewlyMadeIsReported | crates/harness-runtime/src/artifact.rs:123-132 | what a supervisor has just made, the scan of every other reports under its project, run, execution and owner |
| ArtifactStore.ArtifactRoot.ReclaimOrphans | crates/harness-runtime/src/artifact.rs:214-241 | the reported directories are gone, except that a failed deletion leaves what it had not unlinked; the count is that of the successes; a second scan reports exactly those whose deletion failed before the marker was gone, and staging remnants |
| ArtifactProtocol.ScanMissesExactly | crates/harness-runtime/src/artifact.rs:185-202 | in every run a scan misses exactly the directories under final names that the scanner made or whose marker a close or a deletion has removed; unless a deletion has touched it, an unmarked one holds the complete closed marker in the temp file; no half-written marker is in place |
| ArtifactProtocol.StrippedIsNeverReported | crates/harness-runtime/src/artifact.rs:185-190 | a directory that has lost its marker is reported by no later scan of any supervisor, in any run |
| ArtifactProtocol.NewDirsAreReported | crates/harness-runtime/src/artifact.rs:119-142 | only a creation adds directories; every other supervisor's scan reports what it adds, under the final name complete, but for a staging directory that a reclaim has stripped, and exactly that |
| ArtifactProtocol.CreationLeavesOthersAlone | crates/harness-runtime/src/artifact.rs:119-142 | no step of a creation changes a directory other than its own staging directory |
| ArtifactProtocol.CreationBeginsExactly | crates/harness-runtime/src/artifact.rs:103-117 | a creation begins exactly for three valid names and a path that is free |
| ArtifactProtocol.UninterruptedCreate | crates/harness-runtime/src/artifact.rs:96-161 | from every reachable state, a creation for valid names and an unused path that nothing interrupts adds exactly one complete active directory and its handle |
| ArtifactProtocol.UninterruptedClose | crates/harness-runtime/src/artifact.rs:274-318 | a close of an untouched directory replaces its marker by the closed one, changes nothing else and uses the handle up |
| ArtifactProtocol.UninterruptedReclaim | crates/harness-runtime/src/artifact.rs:214-241 | a reclaim begins exactly on what the scan reports and removes it alone |
| ArtifactProtocol.UninterruptedCloseByDelete | crates/harness-runtime/src/artifact.rs:284-289 | a deleting close removes its directory alone and uses the handle up |
| ArtifactProtocol.SecondCreationCleansUp | crates/harness-runtime/src/artifact.rs:142-149 | of two creations of one path the second removes its staging directory and nothing else |
| ArtifactProtocol.DeletionFollowsRename | crates/harness-runtime/src/artifact.rs:222-222 | a deletion that has opened a staging directory empties it also after the rename, and cannot remove it any more |
| ArtifactProtocol.CrashEndsItsCalls | crates/harness-runtime/src/artifact.rs:271-273 | a crash ends exactly the calls and handles of its supervisor and touches no directory |
| ArtifactProtocol.CrashLeavesOrphans | crates/harness-runtime/src/artifact.rs:271-273 | after a supervisor died, its active directories and all staging directories are reported to every other supervisor as long as they exist, unless and only unless a deletion has since unlinked the marker |
| ArtifactProtocol.InterruptedCloseIsMissed | crates/harness-runtime/src/artifact.rs:311-317 | a crash between removal and rename of the marker leaves a directory that no scan reports |
| ArtifactProtocol.InterruptedDeletionIsMissed | crates/harness-runtime/src/artifact.rs:214-223 | a crash of a reclaim or of a deleting close that has unlinked the marker leaves a directory that no scan reports |
| ArtifactProtocol.UnseenDirectoryCanRemain | crates/harness-runtime/src/artifact.rs:214-318 | two reachable states with no call in flight whose one directory is reported to no supervisor: after an interrupted close, and after an interrupted reclaim |
| ArtifactProtocol.StrippedStagingCanBePlaced | crates/harness-runtime/src/artifact.rs:119-148 | a reachable state in which a finished creation's directory is in use, unmarked and reported to no supervisor |

## Left out

- `update_lifecycle` of the repositories, which nothing calls: it moves a row and its version without an event, so no statement about the log could survive it.
- Columns that no guard reads: `claimed_by`, `completed_at`, `updated_at`, `retry_count`, `current_execution_id`, correlation and causation ids, `reason`, and the `synthetic` and `signal` fields of events, which are constants.
- `find_stale`, the list and get queries and row mapping: filters without state.
- SQLite errors, lock waits and decoding errors: every statement that is reached runs.
- The serialised form of lifecycles: a column is modelled by what it decodes to, `Unknown` text included.
- JSON parsing, white-space trimming, spawning, waiting and cancelling of processes: a line is blank, malformed or a value, and the process manager is a sequence of observations.
- SessionLoop.Session.ReceiveEvents: bounded by the observations it is given, because a process that runs forever is polled forever.
- How the clock is read and converted to date fields: dates are given by their fields, with their instant computed from them.
- Symbolic links, the canonical-path guard, the git-ancestor search, I/O errors in creation and close, and files other than the marker and its temp file; a deletion that they stop counts as one that fails. Case-insensitive file systems are not captured either.
- ArtifactStore.ArtifactRoot.Close: states the call without an I/O error; a deletion that fails or dies midway is in ArtifactProtocol.
- ArtifactStore.ArtifactRoot.CreateExecutionDir: states the call without a crash; the crash points are those of ArtifactProtocol.
- Aliasing of store objects: each class holds its tables itself, where the source shares one connection pool.
- The goal loop, supervisor, IPC, review, commit, integration and lease services, the command line and the terminal interface.
