# Outbox and workflow kernel: a verified model

This project models two protocols of the repository and three pieces of pure
logic they sit beside, and proves what they guarantee.

**Transactional outbox.** `OutboxTable` states each SQL statement as a function
from table to table, with the constraints the schema declares; a statement that
would break one fails and changes nothing. `OutboxStorage` and
`OutboxDispatcher` are the storage object, the housekeeping loop and one
dispatcher run, statement by statement, proved against these functions.
`OutboxProtocol` interleaves any number of dispatcher runs with the reaper,
housekeeping, publishers and a shared clock; a claim reads a snapshot in one
step and commits in another. `OutboxHistory` tells the life of one event from
the log of committed steps, `OutboxSafety` proves the guarantees over whole
runs, `OutboxProgress` what can still happen from any reachable state,
`OutboxThreshold` and `OutboxRetention` which configurations the guarantees need,
and `OutboxConformance` that a run of the dispatcher object is a run of the protocol.

**Durable workflow kernel.** `WorkflowSteps` holds steps and their combinators,
`WorkflowEngine` the store and the engine as objects, `WorkflowRefinement` an
in-memory interpreter that the durable engine refines, `WorkflowProtocol` any
number of concurrent Start, Resume, reaper and clean-up calls cut at their store
statements, `WorkflowSafety` their linearisation and the lifecycle of a run, and
`WorkflowProgress` which runs can still change.

**Arithmetic and text.** `Money` and `Backoff` write out int64 wrap-around
(`Int64`), `BrlPrinter` prints and reads amounts, `JsonMerge` compares the merge
patch with section 2 of RFC 7396, `EnvFile` is the configuration editor's file
format. `Wrappers` holds the Option and Result types.

Where a method is proved against a specification function, that function is also
characterised without itself: column by column (`DeliveryOutcome`, `Rewritten`,
`PlanMeans`), by what it does to one element and to a concatenation, or by an
independent reference.

Lists that the program appends to are sequences, tables are maps held in a field
that methods replace, handlers, steps, codecs and random draws are functions
passed in.

## What turned out not to hold

Each of these is a lemma below, with a condition that says when the code does
keep the promise.

- Per-user order can be lost in two ways. One is a reaper that waits less than the
  dispatcher's five-minute job timeout: a run whose row was taken back delivers
  it late (`FifoIff`, `EarlyResetBreaksFifo`). The other, with any threshold, is
  housekeeping purging an event whose id is then inserted again after the
  successor's first claim read its snapshot (`ReinsertionBreaksFifo`). Without
  either, deliveries are in order (`PerUserFifo`), and the order is safe in every
  continuation exactly when the earlier event had failed (`OrderIsFinalIff`).
- Nothing checks the reaper's threshold when the program is configured. Lease
  safety, per-user order, the finality of a failure and the attempt accounts hold
  in every run exactly when it is at least the job timeout (`LeaseSafety`,
  `FifoIff`, `FailureIsFinalIff`, `FailureFixesOrderIff`, `AccountingIff`).
- That no event is lost needs one of two thresholds, the reaper's or the retention,
  to be at least the job timeout (`NoEventIsLostIff`); the configuration demands a
  retention of at least a day (configs/config.go:941), which is enough.
- A workflow call that loses the compare and swap sees the run conflict only
  while some run of its key is still active. When the winner finished the run it
  is told that no run was found, and a joining Start returns that as an error
  (`LoserIsTold`, `SecondCommitLoses`, with a run in `JoiningStartMayFail`).
- A run left running by a crash or by a state that cannot be encoded never changes
  again and blocks its key, because the reaper looks at suspended runs only
  (`StuckIff`, `StuckBlocksItsKey`, `CrashSticks`).
- A root step that returns Failed without an error is stored as succeeded unless
  it is wrapped in a sequence (`FailedRootSucceeds`).
- The merge departs from RFC 7396, and is not idempotent, exactly when a null
  nested in the patch meets something that is no object in the base (`MergeIsRfc`,
  `MergeIsIdempotent`).
- Half-even division goes wrong on some int64 inputs: when doubling the remainder
  overflows; over -2^63, for -2^63 itself and every numerator below 2^62 in size;
  and for the numerator -2^63, except over 1 and over those denominators below -1
  for which rounding down is right (`RoundIsExactIff` is exact for all inputs).
  The printed form of -2^63 is unreadable (`AmountRoundTrips`).
- Basis points do not come back for some totals above 2^62 cents even when no product
  overflows (`CentsRoundTrip`, `HugeTotalLosesShare`).
- Both back-off loops compute the capped power for every input exactly when the cap
  is below 2^62; with a larger cap a doubling can wrap to a negative delay
  (`DoublingBoundIsSharp`).
- A new key in the configuration form that contains `=`, starts with `#` or
  spans lines does not survive the file format (`SavedFormRoundTrips`).
- Writing a nested sequence in place changes the result when a nested step
  reports an error: the error is wrapped once less and the state reached so far
  is kept (`NestingPreservesMeaning`).

## Model

| member | source | states |
|---|---|---|
| OutboxTable.ClaimableUsersDiffer | internal/platform/outbox/storage_postgres.go:63-85 | Two rows the claim query may return are never of the same user, on any snapshot: the NOT EXISTS over earlier pending rows alone gives one row for each user. |
| OutboxTable.FreshClaimIsNeverDeferred | internal/platform/outbox/storage_postgres.go:93-102 | A claim that reads an up-to-date snapshot cannot trip the unique index; only stale snapshots are deferred. |
| OutboxTable.BatchIsUnique | internal/platform/outbox/storage_postgres.go:82-84 | ORDER BY, LIMIT and SKIP LOCKED determine the batch: two sequences meeting the query's description are equal. |
| OutboxTable.PrecedesTotal | internal/platform/outbox/storage_postgres.go:81 | (occurred_at, created_at, id) is a strict total order on the rows. |
| OutboxTable.MarkAcceptedIff | migrations/000001_initial_schema.up.sql:30-36 | A publish mark always passes the constraints; a failing mark is refused exactly on a row that is out of attempts or published. |
| OutboxHistory.ClaimsAreConserved | internal/platform/outbox/storage_postgres.go:148-202 | Over any lawful history, claims of a live event equal its failing marks plus its releases plus the one claim that is open or published, and deliveries never exceed claims. |
| OutboxHistory.GoneWasDelivered | internal/platform/outbox/storage_postgres.go:218-227 | An event that was inserted and is absent was delivered with success, then marked published, then purged, in this order after its insertion. |
| OutboxHistory.DoneWasDelivered | internal/platform/outbox/storage_postgres.go:148-158 | A published event has a successful delivery, then its publish mark, and nothing about it between or after. |
| OutboxHistory.HeldWasClaimed | internal/platform/outbox/storage_postgres.go:86-91 | An event a run holds was claimed before. |
| OutboxProtocol.StepKeepsInv | internal/platform/outbox/reaper.go:40-54 | Every step of every actor (publishers, runs, reaper, housekeeping, clock) keeps the invariant that joins the table, all runs in flight and the history, when the reaper waits at least the job timeout. |
| OutboxProtocol.Reachable | internal/platform/outbox/storage_postgres.go:33-238 | The invariant holds after every finite interleaving, when the reaper waits at least the job timeout. |
| OutboxProtocol.MarkKeepsTableInv | internal/platform/outbox/storage_postgres.go:148-184 | Marking a Processing row below its limit breaks no constraint and keeps the invariant of every row. |
| OutboxProtocol.MarkIsAccepted | internal/platform/outbox/storage_postgres.go:148-184 | Under the invariant a mark by a live run hits a row it still holds and breaks no constraint of the schema. |
| OutboxProtocol.LiveIsNotStuck | internal/platform/outbox/dispatcher.go:74 | The timing argument: the row of a run that may still mark it is too young for the reaper. |
| OutboxSafety.LeaseSafety | internal/platform/outbox/storage_postgres.go:186-202 | Leases are safe in every run of the protocol if and only if the reaper's threshold is at least the job timeout of five minutes. |
| OutboxSafety.LeaseTheft | internal/platform/outbox/storage_postgres.go:186-191 | For every shorter threshold, a run in which the reaper takes a row from a dispatcher that may still mark it. |
| OutboxSafety.MarksHitTheirOwnClaim | internal/platform/outbox/dispatcher.go:146-181 | Every mark in every run lands on a row Processing under the marking run's own claim; it publishes exactly on success, retries exactly below the attempt limit, clears the lock, counts the failure, records the error and the retry or publication time, and changes no other row. |
| OutboxSafety.ResetRowsAreDueAgain | internal/platform/outbox/storage_postgres.go:186-202 | In every reachable state and for every threshold, what the reaper frees is due again at once with its attempts and its place in the order, and all other rows are as they were. |
| OutboxSafety.TimesHold | internal/platform/outbox/storage_postgres.go:86-89 | In every reachable state and for every threshold, a held row carries the time of its claim, which is not in the future and not before it was due. |
| OutboxSafety.OneInFlightPerUser | migrations/000001_initial_schema.up.sql:70-72 | In every reachable state, whatever the configuration, all constraints hold, each said by its columns: no two Processing rows of one non-null user, attempts within the maximum, a publication time exactly on published rows. |
| OutboxSafety.ClaimTakesOnePerUser | internal/platform/outbox/storage_postgres.go:63-146 | A committed claim takes at most batchSize rows, all due and of different users, and a claim that would break the index changes nothing, even with a stale snapshot. |
| OutboxSafety.BatchIsAllowed | internal/platform/outbox/storage_postgres.go:64-91 | Whatever the claim query selects, in whatever order RETURNING lists it, is a step of the protocol. |
| OutboxSafety.PerUserFifo | internal/platform/outbox/storage_postgres.go:77-82 | When the reaper waits at least the job timeout: if e1 precedes e2 for one user and is in the snapshot of the first claim of e2, a delivery of e1 with no insertion of e1 between that snapshot and it comes before every delivery of e2. |
| OutboxThreshold.FifoIff | internal/platform/outbox/storage_postgres.go:186-191 | The statement of PerUserFifo holds for all runs, claims and deliveries if and only if the threshold is at least the job timeout. |
| OutboxThreshold.EarlyResetBreaksFifo | internal/platform/outbox/storage_postgres.go:186-191 | For every shorter threshold, a run in which the earlier event is delivered after the later one with no insertion in between. |
| OutboxSafety.SnapshotExists | internal/platform/outbox/storage_postgres.go:64-85 | The snapshot a claim reads is the table of an earlier moment of the run. |
| OutboxProgress.OrderIsFinalIff | internal/platform/outbox/storage_postgres.go:63-91 | When the reaper waits at least the job timeout, and e2 is claimed for the first time while the earlier e1 is visible: their order holds in every continuation if and only if e1 has failed. |
| OutboxThreshold.FailureFixesOrderIff | internal/platform/outbox/storage_postgres.go:186-191 | OrderIsFinalIff holds for all runs and events if and only if the threshold is at least the job timeout. |
| OutboxProgress.ReinsertionBreaksFifo | internal/platform/outbox/storage_postgres.go:218-227 | The exception is real: for every configuration that can claim anything, a run in which the earlier event is purged, inserted again and delivered after its successor. |
| OutboxProgress.DeliveredAgainIff | internal/platform/outbox/storage_postgres.go:33-61 | When the reaper waits at least the job timeout: in every reachable state an event can still be delivered at some later time if and only if it has not failed. |
| OutboxThreshold.FailureIsFinalIff | internal/platform/outbox/storage_postgres.go:173-191 | DeliveredAgainIff holds for all runs and events if and only if the threshold is at least the job timeout. |
| OutboxProgress.EventCanBePublished | internal/platform/outbox/dispatcher.go:78-104 | Progress: from every reachable state, whatever is in flight, every waiting or held event has a continuation that delivers and publishes it, losing, failing or unpublishing no other. |
| OutboxProgress.ServeOne | internal/platform/outbox/dispatcher.go:78-104 | A fresh run can claim, deliver and publish any due and unblocked event among any runs in flight, with the exact resulting state. |
| OutboxSafety.AttemptAccounting | internal/platform/outbox/storage_postgres.go:160-184 | When the reaper waits at least the job timeout: attempts is the number of failing marks since insertion, stays below the maximum except on Failed rows, each claim is delivered at most once, and claims never exceed max_attempts plus releases; once they reach it the event is published or failed. |
| OutboxThreshold.AccountingIff | internal/platform/outbox/storage_postgres.go:160-202 | These accounts are right in every reachable state if and only if the threshold is at least the job timeout; with a shorter one a claim can be paid twice, by a release and by a failing mark. |
| OutboxRetention.NoEventIsLost | internal/platform/outbox/storage_postgres.go:33-61 | When the threshold or the retention is at least the job timeout: an inserted id is in the table, or was delivered after that insertion with every handler succeeding, then published, then purged when older than the retention. |
| OutboxRetention.NoEventIsLostIff | internal/platform/outbox/storage_postgres.go:218-227 | This holds in every run if and only if the reaper's threshold or the retention is at least the job timeout. |
| OutboxRetention.EventLost | internal/platform/outbox/storage_postgres.go:148-227 | With both shorter, a run in which an event inserted under a purged id vanishes without a delivery. |
| OutboxRetention.StepKeeps | internal/platform/outbox/storage_postgres.go:33-238 | Every step keeps the invariant behind it: no live run has a ticket for an absent row or for one published before the run began, and every published row has its delivery on record. |
| OutboxStorage.Storage.Insert | internal/platform/outbox/storage_postgres.go:33-61 | Adds exactly when the id is new and the maximum is positive a pending row with no attempts that is due at once; otherwise the table is unchanged. It is the insert statement of the protocol. |
| OutboxStorage.Storage.ClaimBatch | internal/platform/outbox/storage_postgres.go:63-146 | Locks exactly the batch the query describes, at the time and for the owner given, and returns each row's id, event and attempts in the claim order; on a unique violation it returns nothing and changes nothing. |
| OutboxStorage.Storage.SelectBatch | internal/platform/outbox/storage_postgres.go:64-85 | Repeated selection of the earliest claimable row yields the ORDER BY and LIMIT batch. |
| OutboxStorage.BatchMeans | internal/platform/outbox/storage_postgres.go:64-85 | A batch is what the query says, column by column and in both directions: pending and due rows, no event of the same user in process and none waiting before it, ordered by occurrence, creation and id, as many as the limit allows, none skipped that comes earlier. |
| OutboxStorage.Storage.MarkPublished | internal/platform/outbox/storage_postgres.go:148-158 | The row with this id, whatever its status, becomes published and unlocked at the given time, no other row changes, and on a lawful table it is never refused. |
| OutboxStorage.Storage.MarkPendingRetry | internal/platform/outbox/storage_postgres.go:160-171 | The row with this id, whatever its status, becomes pending and unlocked with one more attempt, the error and the retry time, no other row changes, and on a lawful table it is refused, changing nothing, exactly when the row is out of attempts or published. |
| OutboxStorage.Storage.MarkFailed | internal/platform/outbox/storage_postgres.go:173-184 | The row with this id, whatever its status, becomes failed and unlocked with one more attempt and the error, no other row changes, and on a lawful table it is refused, changing nothing, exactly when the row is out of attempts or published. |
| OutboxStorage.Storage.ResetStuck | internal/platform/outbox/reaper.go:40-54 | Each Processing row locked longer than the threshold becomes pending and unlocked and keeps all else, every other row is as it was, and the number of changed rows is returned. |
| OutboxStorage.Storage.DeletePublishedBatch | internal/platform/outbox/storage_postgres.go:218-238 | Removes at most limit expired rows, none younger than one it leaves, and all of them when fewer than limit are removed. |
| OutboxStorage.Storage.Housekeep | internal/platform/outbox/housekeeping.go:40-68 | The loop terminates, has removed exactly the rows expired at its last batch, and counted each once. |
| OutboxStorage.PickOldest | internal/platform/outbox/storage_postgres.go:222-226 | ORDER BY published_at LIMIT: the oldest rows, as many as allowed. |
| OutboxStorage.Earliest | internal/platform/outbox/storage_postgres.go:82 | The least row of a non-empty set in claim order. |
| OutboxDispatcher.RunHandlers | internal/platform/outbox/dispatcher.go:116-144 | Success exactly when there is a handler, all handlers started before the deadline and none returned an error; otherwise all their errors, joined, or the deadline's. |
| OutboxDispatcher.NoErrorsMeansAllSucceed | internal/platform/outbox/dispatcher.go:129-143 | The joined error is empty exactly when every handler succeeded. |
| OutboxDispatcher.ErrorsInOrder | internal/platform/outbox/dispatcher.go:129-142 | The collected errors are those of the handlers that failed, in the handlers' order: one handler gives its own error or none, and two lists of handlers give the errors of the first and then of the second. |
| OutboxDispatcher.JoinedByLines | internal/platform/outbox/dispatcher.go:143 | Joining puts each error on its own line: one error is itself, two non-empty lists are joined by one line break. |
| OutboxDispatcher.Dispatcher.MarkRow | internal/platform/outbox/dispatcher.go:146-181 | Stores the mark that the outcome and the attempt count call for. |
| OutboxDispatcher.Dispatcher.ProcessClaimed | internal/platform/outbox/dispatcher.go:106-114 | A row reached before the deadline gets its delivery's outcome, told by the handlers alone (see Run), no other row changes, and on a lawful table the mark is refused exactly when it counts a failure on a row that is out of attempts or published; a later row leaves the table unchanged. |
| OutboxDispatcher.Dispatcher.Run | internal/platform/outbox/dispatcher.go:78-104 | On an undisturbed table: the batch is the query's. A row reached in time is published exactly when it has a handler and none failed, pending with one attempt more and the retry time exactly when one failed and attempts remain, and failed otherwise, with its handlers' errors and without a lock. Later rows stay locked by this run, no other row changes, and the error count is the number of rows not settled. |
| OutboxDispatcher.Dispatcher.SettleRows | internal/platform/outbox/dispatcher.go:92-97 | The loop over the batch settles each row once, from the state the claim left it in, with the outcome Run states, and touches no other row. |
| OutboxDispatcher.LockingKeepsTableInv | internal/platform/outbox/storage_postgres.go:86-89 | Locking a batch keeps every row's invariant, changes exactly the batch and nothing else. |
| OutboxConformance.RunIsProtocolRun | internal/platform/outbox/dispatcher.go:78-114 | For every batch the query may select and every outcome of the handlers, the protocol has a run, among any others in flight, that leaves exactly the table the dispatcher object leaves, and the exact entries it adds to the log. |
| OutboxConformance.DeliveriesTellTheHandlers | internal/platform/outbox/dispatcher.go:116-144 | Every delivery in those entries is of a row of the batch and says success exactly when its event has handlers and all of them succeeded, failure exactly when one failed. |
| OutboxConformance.EveryRowIsDelivered | internal/platform/outbox/dispatcher.go:92-97 | Every row reached before the deadline has its delivery among them. |
| Backoff.DoublingIsCappedPower | internal/platform/workflow/combinators.go:211-219 | For start and cap below 2^62 the doubling loop computes min(base * 2^n, cap), except that with nothing to double a start above the cap comes back as it is. |
| Backoff.DoublingBoundIsSharp | internal/platform/workflow/combinators.go:213-218 | For a cap the loop is the capped power, for every start up to it and every number of doublings, if and only if the cap is below 2^62; from there on some doubling gives a negative delay. |
| Backoff.Normalized | internal/platform/workflow/combinators.go:171-180 | Every policy becomes one with a positive base at most its cap: no base means a millisecond, a cap below the base means the base, no attempts mean one; a proper policy is unchanged. |
| Backoff.RetryBackoff | internal/platform/workflow/combinators.go:211-228 | For a cap below 2^62 the delay is half of min(base * 2^(attempt-1), cap) plus the drawn jitter, between half and all of it; the final clamp never acts. |
| Backoff.OutboxBackoff | internal/platform/outbox/dispatcher.go:183-206 | For a base and a cap below 2^62 the delay is (0.8 + 0.4u) times min(base * 2^attempts, cap), or times the base before the first retry even when it is above the cap, without the fraction of a nanosecond, for the draw u in [0, 1); so it is within 20% and never negative. |
| WorkflowSteps.ExecuteSequence | internal/platform/workflow/combinators.go:23-39 | The loop computes the recursive meaning of a sequence. |
| WorkflowSteps.SequenceConcatenates | internal/platform/workflow/combinators.go:23-39 | Running xs ++ ys is running xs and then ys from its state, unless xs errs, suspends or fails. |
| WorkflowSteps.SingletonSequence | internal/platform/workflow/combinators.go:23-39 | The other half of what a sequence means: no steps complete with the state as it is, and one step passes on its state, status and suspension, or its error under its name with the state before it. |
| WorkflowSteps.NestingPreservesMeaning | internal/platform/workflow/combinators.go:23-39 | Writing a nested sequence in place changes nothing if and only if the nested steps report no error. |
| WorkflowSteps.ExecuteRetry | internal/platform/workflow/combinators.go:190-209 | The first attempt without an error, or after the last attempt or an ended context the matching error with the initial state; never a further attempt. |
| WorkflowSteps.ExecuteParallel | internal/platform/workflow/combinators.go:78-100 | For steps that ignore cancellation the output is the same for every completion order of the workers, and it is, in the workers' own terms: their errors joined if any erred or panicked, else the first suspension, else the first failure, else the merge of all states in step order. |
| WorkflowSteps.RunWorkers | internal/platform/workflow/combinators.go:102-132 | Whatever the order, each worker's own slot ends up with its error, panic or output. |
| WorkflowSteps.ParallelPriority | internal/platform/workflow/combinators.go:86-99 | Any filled slots give that outcome, and its error joins exactly the errors in the slots. |
| WorkflowSteps.FirstIsLowest | internal/platform/workflow/combinators.go:144-156 | The collected suspension or failure is the first of its kind. |
| WorkflowSteps.NoFaults | internal/platform/workflow/combinators.go:134-142 | The joined errors are empty exactly when no worker erred. |
| WorkflowSteps.FaultsInOrder | internal/platform/workflow/combinators.go:134-142 | The joined errors are those that occurred, each once, in step order. |
| WorkflowEngine.LoadedIsTheOne | internal/platform/workflow/infrastructure/postgres/store.go:80-104 | With one active run for each key, Load finds it and nothing else. |
| WorkflowEngine.Store.Insert | internal/platform/workflow/infrastructure/postgres/store.go:37-78 | Inserts exactly when the id is new and, for an active run, Load finds none of its key; otherwise nothing changes. One active run for each key is kept. |
| WorkflowEngine.Store.Load | internal/platform/workflow/infrastructure/postgres/store.go:80-104 | The run of the key that is running or suspended, if there is one; if it finds none, every run of the key has succeeded or failed. |
| WorkflowEngine.Store.Save | internal/platform/workflow/infrastructure/postgres/store.go:193-243 | Compare and swap: a conflict exactly when the row is missing or its version is not the expected one, and then nothing changes; otherwise that row alone is rewritten, with every column named: status, suspend reason, cursor, state, attempts, error, update and end time from the snapshot, the version one higher, identity, key, limit and creation time as they were. An active row is never rejected. |
| WorkflowEngine.Store.ListSuspended | internal/platform/workflow/infrastructure/postgres/store.go:282-318 | The suspended runs of a workflow older than the cutoff, oldest first, at most limit, none left out below the limit. |
| WorkflowEngine.Engine.RunLoop | internal/platform/workflow/engine.go:306-372 | The loop over the steps from the cursor ends where the recursive specification says, with the state reached. |
| WorkflowEngine.Engine.Execute | internal/platform/workflow/engine.go:296-390 | What an execution of a plan does, for any stored runs: it gives up changing nothing, or reports without a store, or rewrites every column of its row and reports the plan's result and error, or has lost the compare and swap, changes nothing and tells the active run's stored state with a conflict, or that there is none. |
| WorkflowEngine.Engine.Start | internal/platform/workflow/engine.go:70-154 | A state that does not encode and a key with an active run are told so, with no result and nothing changed; a free key gets a first row with the identity, limit and times it should have, and the execution of it from step 0; without durability the store stays as it is. |
| WorkflowEngine.StartOnFreeKey | internal/platform/workflow/engine.go:80-124 | What Start on a free key does to the store and reports, for every codec: when the outcome cannot be encoded its first row stays as inserted, otherwise it is at version 2 with the reported status. |
| WorkflowEngine.Engine.StartConflict | internal/platform/workflow/engine.go:188-216 | Joining the run that won the insert: an error if no run is active or its state does not decode, changing nothing; a lost race with a run still active is no error. |
| WorkflowEngine.Engine.Resume | internal/platform/workflow/engine.go:218-294 | Nothing without durability or without a suspended run of the key; a stored state or a patch that cannot be used is answered with the reason and changes nothing; otherwise the patched state is executed from the suspended step. |
| WorkflowEngine.ResumeCases | internal/platform/workflow/engine.go:229-275 | Why a Resume is turned away and what it executes, for every codec, stored document and patch: the decode error, the merge error, or the patched document's state at the stored cursor. |
| WorkflowEngine.Reap | internal/platform/workflow/reaper.go:33-59 | Fails exactly the listed suspended runs older than the cutoff, with an end time, the reaper's error and the version raised and all else kept, leaves all others as they were, and counts them; below the batch limit no such run is left. |
| WorkflowEngine.EndingKeepsOneActive | migrations/000001_initial_schema.up.sql:1178-1180 | Rewriting an active run's row can never break the unique index on active keys. |
| WorkflowRefinement.LoopIsInterp | internal/platform/workflow/engine.go:306-390 | The cursor loop is the in-memory interpreter on the remaining steps, in every way it can end, with the same suspension and error. |
| WorkflowRefinement.PlanIsInterp | internal/platform/workflow/engine.go:306-390 | For every codec and snapshot: what an execution of a sequence saves and reports is the interpreter's status, state, suspension and error, column by column, and it gives up exactly when durable, not failed and the state does not encode. |
| WorkflowRefinement.InMemoryStart | internal/platform/workflow/engine.go:99-124 | Without durability Start returns the interpreter's outcome and touches no store, whatever the codec. |
| WorkflowRefinement.ExecuteRefines | internal/platform/workflow/engine.go:296-390 | Executing a stored run leaves a snapshot that represents the interpreter's outcome, hands the caller the same status, state, suspension and error, keeps the row's books (version, attempts, times), and touches no other run. |
| WorkflowRefinement.StartRefines | internal/platform/workflow/engine.go:70-154 | Start leaves in the store, and hands its caller, what interpreting all steps from the initial state gives: status, state, suspension, error. |
| WorkflowRefinement.ResumeRefines | internal/platform/workflow/engine.go:218-294 | Resume leaves in the store, and hands its caller, what merging the patch and rerunning the suspended step and those after it gives; without a suspended run it reports nothing, and with a patch that cannot be used exactly why. |
| WorkflowRefinement.JoinRefines | internal/platform/workflow/engine.go:188-216 | A Start that lost the insert executes the winner's run from its cursor and reports the interpreter's outcome for it. |
| WorkflowRefinement.PatchReachesState | internal/platform/workflow/engine.go:249-262 | The document engine and interpreter continue from: every top-level member of the patch that is neither null nor an object is in it as given, nulls delete, and what the patch does not name is as stored. |
| WorkflowRefinement.DurableRefinesInterpreter | internal/platform/workflow/engine.go:70-294 | Start followed by any number of resumes gives the interpreter's status, state, error and remaining steps, and the last call, so every call, hands its caller the interpreter's status, state, suspension and error, for every sequence root and round-tripping codec. |
| WorkflowRefinement.EngineAgreesWithSequence | internal/platform/workflow/engine.go:306-390 | For every step list the engine's loop and Sequence end at the same step, the first that stops, and the same way: its error, or its status, state and suspension. On an error the engine keeps what the failing step returned if it also said Failed, and otherwise the state before it; at the end it keeps the last step's suspension. |
| WorkflowRefinement.FailedRootSucceeds | internal/platform/workflow/engine.go:401-405 | A root that is a single step returning Failed without an error is stored as succeeded; wrapped in a sequence it fails; the two differ exactly then. |
| WorkflowRefinement.SingleRootOutcome | internal/platform/workflow/engine.go:392-468 | Everything an execution of a root that is no sequence can save and report, case by case in the step's own outcome. |
| WorkflowProtocol.PlanShape | internal/platform/workflow/engine.go:306-390 | What an execution saves keeps the run's identity, version and key, stays within the steps, and never moves the cursor back. |
| WorkflowProtocol.StepKeepsInv | internal/platform/workflow/engine.go:70-294 | Every step of every concurrent Start, Resume, reaper and clean-up keeps the invariant and only moves runs forward. |
| WorkflowProtocol.Reachable | internal/platform/workflow/engine.go:70-294 | The invariant holds after every interleaving. |
| WorkflowProtocol.FirstPlan | internal/platform/workflow/engine.go:99-124 | The starter's own execution is the one anybody would do on the snapshot it inserted. |
| WorkflowSafety.Linearises | internal/platform/workflow/engine.go:532-560 | For every interleaving the stored snapshots are those of the committed calls run one after another, and each save raises its run's version by one. |
| WorkflowSafety.ResumeIsSerial | internal/platform/workflow/engine.go:218-294 | The serial entries are real calls: a Resume running alone writes exactly its entry. |
| WorkflowSafety.StartIsSerial | internal/platform/workflow/engine.go:70-154 | A Start running alone writes exactly its first snapshot and the execution of it. |
| WorkflowSafety.JoinIsSerial | internal/platform/workflow/engine.go:188-216 | A joining Start running alone writes exactly the execution of the run it joined, or nothing. |
| WorkflowSafety.ResumeAnswersSerially | internal/platform/workflow/engine.go:218-294 | A committing Resume returns the result and error, and leaves the store, that a Resume running alone at the moment of the commit does. |
| WorkflowSafety.JoinAnswersSerially | internal/platform/workflow/engine.go:188-216 | A committing continuation returns the result and error, and leaves the store, that a joining Start running alone at the moment of the commit does. |
| WorkflowSafety.StartAnswersSerially | internal/platform/workflow/engine.go:70-154 | A committing first execution returns the result and error, and leaves the store, that its whole Start does on the store without its run. |
| WorkflowSafety.TurnedAwayAlike | internal/platform/workflow/engine.go:101-114 | A call that the protocol turns away at its first statement gets the answer the whole call alone gives, and neither changes the store; a Start is turned away exactly when its state does not encode or its key has an active run, with the matching error. |
| WorkflowProgress.StuckIff | internal/platform/workflow/engine.go:107-114 | An active run never changes again in any continuation if and only if it is running, no call is executing it as it is stored, and none is on its way to join it and able to go on. |
| WorkflowProgress.StuckBlocksItsKey | internal/platform/workflow/engine.go:107-121 | Such a run blocks its key: every later Start is turned away and Resume finds nothing to do. |
| WorkflowProgress.CrashSticks | internal/platform/workflow/engine.go:115-124 | A Start that ends after its insert, before its save, leaves such a run. |
| WorkflowProgress.StepKeepsStuck | internal/platform/workflow/reaper.go:33-59 | No step of any call, the reaper included, touches a stuck run or frees it. |
| WorkflowSafety.CommitWinsIffUnchanged | internal/platform/workflow/engine.go:532-542 | An execution commits exactly when the stored run is still the snapshot it loaded; a loser leaves store and log alone. |
| WorkflowSafety.LoserIsTold | internal/platform/workflow/engine.go:544-560 | A loser gets the run conflict, with that run's stored status and state and no suspension, exactly when some run of the key is still active and decodes, "not found" exactly when none is active; only a joining Start turns the former into a normal result. |
| WorkflowSafety.SecondCommitLoses | internal/platform/workflow/engine.go:532-560 | Of two executions of one snapshot the second never commits, and its answer depends on whether the first suspended the run or ended it. |
| WorkflowSafety.JoiningStartMayFail | internal/platform/workflow/engine.go:188-216 | A reachable run of two Starts of one key in which the loser joins: it ends with the error that no run was found exactly when the winner's execution did not suspend, and otherwise with a normal result. |
| WorkflowSafety.SavedSnapshotTellsTheResult | internal/platform/workflow/engine.go:309-389 | The stored row agrees with what the caller was told: status, state, attempt count, error, end time and suspend reason; its update time is that of the call, its version one higher, its identity as before. |
| WorkflowSafety.RunsOnlyMoveForward | internal/platform/workflow/engine.go:238-241 | Between any two moments of any interleaving: finished runs never change, versions and cursors never go back, ids are never reused. |
| WorkflowSafety.LifecycleHolds | internal/platform/workflow/store.go:17-32 | In every reachable state: one active run for each key, an end time exactly on finished runs, the cursor within the steps, a positive attempt limit. |
| WorkflowSafety.EarlierStepsNeverRerun | internal/platform/workflow/engine.go:306-307 | An execution depends only on the steps from its cursor on. |
| JsonMerge.MergeMaps | internal/platform/workflow/codec.go:48-71 | The loop, taking keys in any order, computes the recursive merge; said key by key, nulls delete, other values overrule unless both are objects, and what the patch does not name stays. |
| JsonMerge.MergeIsRfc | internal/platform/workflow/codec.go:48-71 | Merge agrees with section 2 of RFC 7396 if and only if nulls nested in the patch sit only under keys holding objects in the base. |
| JsonMerge.MergePatchIsRfc | internal/platform/workflow/codec.go:31-46 | The codec's entry point: a null document counts as an empty object, other non-objects are refused as base or as patch, and on objects the result is that of RFC 7396 if and only if the condition of MergeIsRfc holds. |
| JsonMerge.PatchOverrulesBase | internal/platform/workflow/codec.go:31-71 | At the top level the merged document holds the patch's values that are neither null nor objects, lacks its nulls, and has what it does not name from the base. |
| JsonMerge.MergeOverrules | internal/platform/workflow/codec.go:48-71 | At every path, a value of the patch that is neither null nor an object is what the merge holds there. |
| JsonMerge.MergeIsIdempotent | internal/platform/workflow/codec.go:48-71 | Merging the same patch twice equals merging it once under exactly the same condition. |
| JsonMerge.MergeWithItself | internal/platform/workflow/codec.go:48-71 | A document merged with itself is itself exactly when it holds no null. |
| JsonMerge.MergeFrame | internal/platform/workflow/codec.go:48-71 | A merge changes no path the patch does not mention. |
| JsonMerge.RfcCopies | internal/platform/workflow/codec.go:59-68 | The RFC copies a patch value unchanged onto a non-object exactly when the value holds no null, which is where the code departs from it. |
| Money.NearestIsNearest | internal/platform/money/money.go:84-107 | The reference result is a nearest integer with ties to even, for every non-zero denominator. |
| Money.NearestIsUnique | internal/platform/money/money.go:84-107 | It is the only one. |
| Money.NearestIsOdd | internal/platform/money/money.go:88-98 | It is odd in both arguments. |
| Money.NearestIsMonotone | internal/platform/money/money.go:84-107 | It is monotone in the numerator for a positive denominator. |
| Money.RoundHalfEvenDiv | internal/platform/money/money.go:84-107 | The imperative code with wrapping int64 operations returns a nearest integer with ties to even if and only if the inputs meet RoundsExactly, and 0 for denominator 0. |
| Money.RoundIsExactIff | internal/platform/money/money.go:84-107 | For all int64 inputs with a non-zero denominator, one exact condition: the remainder is below 2^62; for denominator -2^63 the numerator is above -2^63 and at least 2^62 in size; for numerator -2^63 the denominator is 1, or below -1 with the quotient rounding down. |
| Money.MinNumeratorIsExactIff | internal/platform/money/money.go:91-95 | For the numerator -2^63 the magnitude is truncated and the sign lost; the denominators for which that is right. |
| Money.MinDenominatorIsExactIff | internal/platform/money/money.go:88-101 | For the denominator -2^63, whose negation wraps, the result is right exactly for numerators of size at least 2^62 other than -2^63. |
| Money.BasisPointsAreExact | internal/platform/money/money.go:41-50 | When the product fits in int64, ApplyBasisPoints is the half-even division unless the product is -2^63, and BasisPointsOf is it if and only if the division is one the code gets right. |
| Money.LargeTotalsRoundTrip | internal/platform/money/money.go:41-50 | Taking bp of a total of at least 10000 cents and asking back gives bp, for every bp. |
| Money.RoundTripThreshold | internal/platform/money/money.go:41-50 | All shares from 0 to 10000 bp come back if and only if the total is at least 10000 cents. |
| Money.CentsRoundTrip | internal/platform/money/money.go:41-50 | For int64 totals of at least 10000 cents and products that fit, the int64 operations give bp back if and only if the second division is one the code gets right; totals up to 2^62 always are. |
| Money.HugeTotalLosesShare | internal/platform/money/money.go:45-50 | Above 2^62 the share can be lost although no product overflows: 1 bp of 2^62 + 2097 cents comes back as 0. |
| Money.SharesRoundTrip | internal/platform/money/money.go:41-50 | For shares between 0 and 100% it is enough that the total times 10000 fits. |
| Money.SplitDrift | internal/platform/money/money.go:41-43 | Splitting an amount with ApplyBasisPoints over k parts summing to 10000 bp drifts by at most k/2 cents, as long as no part overflows. |
| BrlPrinter.GroupThousands | internal/platform/money/money.go:64-82 | Grouping from the left computes groups of three counted from the right. |
| BrlPrinter.GroupingIsInvertible | internal/platform/money/money.go:64-82 | Deleting the dots gives the digits back. |
| BrlPrinter.DotsCountThree | internal/platform/money/money.go:64-82 | There is a dot exactly where a multiple of three digits is still to come. |
| BrlPrinter.AmountRoundTrips | internal/platform/money/money.go:52-58 | Reading a printed amount gives its absolute value if and only if the amount is above -2^63; the printed form of -2^63 cannot be read. |
| BrlPrinter.AmountShape | internal/platform/money/money.go:52-82 | A printed amount is grouped digits without a leading zero and with a dot before each multiple of three, a comma and two digits, and these name its absolute value in cents. |
| EnvFile.ParseEnv | cmd/configui/main.go:396-425 | The loop computes the line-by-line meaning of a file, with the first bad line as error. |
| EnvFile.ParseLinesMeans | cmd/configui/main.go:402-425 | Either every line gives its entry, or the error names the first line that has no key. |
| EnvFile.ParseLineMeans | cmd/configui/main.go:403-422 | A line of spaces is blank; one that starts with # or has no = is a comment as it stands; any other, cut at its first =, is the trimmed key and value, or an error without a key. |
| EnvFile.LinesOfFile | cmd/configui/main.go:397-400 | A line break at the very end of a file starts no further line, and an empty file has none. |
| EnvFile.TrimIsTheMiddle | cmd/configui/main.go:403 | Trimming takes away spaces at both ends, all of them and nothing else. |
| EnvFile.Serialize | cmd/configui/main.go:427-442 | Writes each entry on its own line. |
| EnvFile.SerializedByLines | cmd/configui/main.go:427-442 | The text of a list is the text of its parts in order. |
| EnvFile.SerializedEntry | cmd/configui/main.go:430-440 | One entry is its comment, nothing, or key=value, with a line break. |
| EnvFile.FileRoundTrip | cmd/configui/main.go:427-442 | Reading back what was written gives the same entries if and only if each entry is writable. |
| EnvFile.ParsedFilesRoundTrip | cmd/configui/main.go:396-442 | Whenever a file parses, writing its entries and reading them gives the same entries. |
| EnvFile.LineRoundTrip | cmd/configui/main.go:404-422 | One line reads back as its entry exactly when the entry is writable. |
| EnvFile.ApplyForm | cmd/configui/main.go:353-394 | The surviving edited entries followed by the new keys the posted lists offer. |
| EnvFile.EditEntries | cmd/configui/main.go:357-372 | The entries that survive, in order, with posted values, and the set of keys still present. |
| EnvFile.KeptEntryByEntry | cmd/configui/main.go:357-372 | Entry by entry: a variable with a del_ field is dropped, one with a val_ field gets its first value trimmed, all else stays as it is. |
| EnvFile.AddEntries | cmd/configui/main.go:374-391 | New keys are appended in order unless blank, present or offered before. |
| EnvFile.AddedKeyByKey | cmd/configui/main.go:374-391 | New key by new key: it is appended, with the value that came with it or none, unless it is blank, survives or came before. |
| EnvFile.TakenIff | cmd/configui/main.go:376-379 | A new key is taken exactly when it is not blank, not among the surviving keys, and no earlier new key is the same. |
| EnvFile.SavedFormRoundTrips | cmd/configui/main.go:353-394 | The saved file reads back as what was saved if and only if posted values and new keys fit on one line and no accepted new key reads as a comment or contains the separator. |
| EnvFile.FormKeepsTheRest | cmd/configui/main.go:357-372 | Comments, blank lines and surviving variables keep their order at the head of the result, and only a posted value changes a value. |

## Left out

- Clock skew: the model has one clock for the jobs and the database, and one reading for each call or transaction.
- OutboxSafety.MarksHitTheirOwnClaim: assumes, as the runtime context does, that no mark commits after the run's deadline; the very instant of the deadline is allowed.
- OutboxSafety.PerUserFifo: the earlier event must be visible to the snapshot of the later one's first claim; an event committed after that snapshot is not ordered by the code either.
- OutboxDispatcher.Dispatcher.Run: the deadline falls between rows; one that falls between two handlers of a row has the same effect on the table and is covered by RunHandlers.
- OutboxConformance.RunIsProtocolRun: the rows settled in time are settled in the order of the clock and within the job timeout, as the runtime context sees to.
- Deliveries are recorded when the handlers start; a handler that ignores its context and goes on after the deadline is not modelled.
- OutboxDispatcher.Dispatcher.MarkRow: marks of one row are modelled as accepted or rejected by the schema; connection errors appear only as rows a run skips or as a run that ends early.
- Backoff.OutboxBackoff: the jitter is exact arithmetic on a real draw in [0, 1), not floating point.
- Backoff.RetryBackoff: the random source's panic on a bound that overflowed to a non-positive number is not modelled.
- WorkflowSteps.ExecuteParallel: steps that react to the cancellation of their siblings are not modelled, since their output then depends on timing.
- WorkflowSteps.ExecuteRetry: whether the context ended during a wait is an input.
- WorkflowProtocol.StepKeepsInv: the protocol is for one durable definition, whose codec decodes what it encoded; steps without durability have no store to share.
- WorkflowRefinement.DurableRefinesInterpreter: sequence roots only, because other roots finalise a Failed status differently.
- JsonMerge.MergeMaps: documents are JSON values; text encoding, and the float64 that numbers pass through when a document is decoded without a type, are left out.
- EnvFile.ParseEnv: text is a sequence of characters; invalid UTF-8 is not modelled.
- Branch, and the validation of new outbox events: one decision each.
- Workflow step records and their append failures, LoadLatest, CountPending, and the store's batch limit and age condition when deleting finished runs.
- Metrics, tracing, logging, updated_at of outbox rows, and the text of error messages other than the joined handler errors.
- HTTP servers, chat and payment clients, language models, module wiring and configuration loading.
