# pgtask, modelled and proved in Dafny

pgtask is a durable task queue kept in PostgreSQL. This project models the parts of it whose
correctness is not visible from one function at a time, and proves what they promise, for every
input, every run and any number of tasks, workers, waiters and schedulers:

- **The task kernel** (`Kernel`, `KernelInvariant`, `KernelRuns`): the rows of the task table, the
  lease-fenced functions that move them, and the triggers each move fires (cascading cancellation,
  waking parents, freeing queue slots). One inductive invariant carries the run theorems.
  `KernelAnswers` says what every operation answers and leaves behind, told from the run before it.
  `References` ties the kernel to the repository's own reference machines, and `CounterRuns` says how far
  attempts and failures come apart.
- **The worker** (`TransitionBatch`, `BatchWitness`, `TransitionWriter`, `ActiveLeases`, `LeaseRuns`,
  `SlowRenewals`, `Admission`, `Claiming`): batched writes against one-by-one writes, the lease table
  and its timing, the admission limit and the claim loop.
- **Waiting** (`WaitProtocol`, `Notifications`): parking a task against the transaction that wakes
  it, with reads and commits as separate steps, and the notification hub behind waiting for a result.
- **Schedules** (`Schedule`, `ScheduleRuns`): due times, misfire policies, the cron search, and
  schedulers racing on one cursor.
- **Outcomes** (`Numerals`, `Json`, `Outcome`, `Truncation`, `Preparation`): measuring `jsonb` text,
  escaping NULs, and truncating errors until they fit.
- **Replay and classification** (`Durable`, `ExceptionSearch`): checkpointed steps as a write-once
  register, and the search for a non-retryable exception in a possibly cyclic graph.

Code that works by loops and updates is a method or a class proved against a specification function;
protocols are state machines whose runs are sequences of enabled steps; the rest is functions and
lemmas. Clocks, the database's choices (fresh ids and tokens, which row a claim picks, when a lease
expires), connection failures and lost replies are inputs of the steps.
`dafny verify dfyconfig.toml` checks everything.

## Where the code falls short of what is promised

Each of these is proved, with the exact condition under which the promise does hold and an input or a
run in which it does not.

- A batch of completions or failures is not always the same as writing them one by one: a request
  that comes after one ending a task its own hangs under is accepted by the batch and fenced alone
  (`TransitionBatch.BatchExact`, and a run ending in such a batch in `BatchWitness.ShadowedBatchHappens`).
- A batch that commits and loses its reply is written again one by one. The store is right, but every
  requester whose write landed is told that its lease was lost (`TransitionWriter.LostAnswers`,
  `BatchWitness.LostReplyHappens`).
- A schedule's cursor does not always stay put or move past the clock: when the target queue is
  full it rests on the first occurrence that did not fit (`ScheduleRuns.StoreMovesPast`,
  `ScheduleRuns.RestsAtNow`). Occurrences are still created in order, whatever the clocks read, as long
  as every scheduler can parse the row (`ScheduleRuns.AlwaysInOrder`). A scheduler that cannot parse it
  defers it even when it is not due, counting 60 seconds from the first of two clock readings. That
  moves the cursor back when the second is more than 60 seconds later, and occurrences can then be
  created out of order (`ScheduleRuns.CreatedInOrder`).
- A store takes a slot of its queue for an occurrence that turns out to be stored already, and the
  queue's counter then stands above its tasks (`ScheduleRuns.SlotsMatchTasks`, `ScheduleRuns.SlotDrifts`).
  While every scheduler can parse the row, and its definition is not replaced, that never happens
  (`ScheduleRuns.SlotsNeverDrift`).
- The predicted length of a number is too large for a negative zero, such as `-0.0`
  (`Numerals.NegativeZero`), and when its whole part is zero and its exponent positive; it is exact for
  every other number (`Numerals.LengthExact`). Numbers of the second kind, such as `0e5`, reach the worker
  only in a build of `serde_json` that keeps their text (`arbitrary_precision`); as it is built, a negative
  zero is the only case (`Numerals.PrintedExact`).
- A finishing handler removes its lease entry by task id alone. Every running handler stays tracked
  exactly when none is started for a task this worker is still handling
  (`LeaseRuns.TrackedIffNoOverlap`, `LeaseRuns.OverlapLosesTrack`).
- A claim error on a later queue drops the tasks already claimed in that round
  (`Claiming.ClaimTasks`, `Claiming.LateFailureLosesTasks`).
- A waiter whose broadcast receiver is overrun can sleep on after its task has finished. So can one
  whose hub served a command while it was reconnecting: waiting for notifications is abandoned for the
  command, and with it the report that would have made waiters look again. None does while no more
  events wait to be consumed than the receiver holds and no command is served then, and only then
  (`Notifications.MissesNoneIffFits`, `Notifications.OverrunLosesTheWake`,
  `Notifications.DroppedReportLosesTheWake`).
- A concurrency limit set by hand below the minimum is raised, not lowered, by an overload
  (`Admission.OverloadRaises`, `Admission.RaisedWhenDown`).
- `specs/README.md` says attempts and failures come apart only through release. In the SQL they come
  apart by exactly one for every claim given back by a release, a suspension or a wait, so they agree if
  and only if there was none (`CounterRuns.ComeApart`, `CounterRuns.AgreeIffNoneGivenBack`). After a
  suspension the kernel grants a claim that the machines counting attempts refuse
  (`CounterRuns.SuspensionComesApart`).
- A step runs again after its value was recorded once retention has deleted the task, and only then
  (`Durable.RerunsOnlyDeleted`, `Durable.RerunAfterDeletion`).

## Model

| member | source | states |
|---|---|---|
| `Kernel.CascadeExact` | crates/pgtask-postgres/migrations/0001_initial.sql:2614-2644 | For any rows whatever: the cascade cancels exactly the tasks that hang under a finished one by unfinished rows, at any depth, and changes no other row |
| `Kernel.CascadeWholeTree` | crates/pgtask-postgres/migrations/0001_initial.sql:2614-2644 | Where no unfinished task has a finished parent, those are exactly the unfinished descendants |
| `KernelInvariant.UpdateNoOrphans` | crates/pgtask-postgres/migrations/0001_initial.sql:2614-2644 | After any update that revives no row, no unfinished task has a finished parent |
| `KernelInvariant.StepCore` | crates/pgtask-postgres/migrations/0001_initial.sql:690-1140 | Every operation keeps: running iff leased by a minted token, budget left while unfinished, parked only on what has not happened, queue counter equal to the number of unfinished tasks and within the limit |
| `KernelRuns.RunCore` | specs/README.md:72-98 | Those invariants hold in every state of every run over any number of tasks, queues and workers |
| `KernelRuns.Ledger` | specs/README.md:83-90 | `attempt` is the number of granted claims and `failed_attempts` the number of accepted failures and recovered leases; nothing else is ever charged |
| `KernelRuns.NeverStranded` | crates/pgtask-postgres/migrations/0006_keep_resumed_tasks_claimable.sql:1-91 | An unfinished task has budget left, and a claim of a pending one is granted |
| `KernelRuns.FencedExactly` | scripts/linearizability/lease.go:23-27 | Whatever lease is replayed, a write is accepted if and only if the task has been running without a break since the claim that issued it; a fenced write changes nothing |
| `KernelRuns.History` | specs/README.md:92-94 | Rows are never lost, attempts and failures never decrease, success is final, and without administrator retry every ending is |
| `KernelRuns.CompletesOnce` | scripts/linearizability/lease.go:115-134 | At most one completion of a task is ever accepted |
| `KernelRuns.RunNoOrphans` | crates/pgtask-postgres/migrations/0001_initial.sql:2614-2644 | Without administrator retry no reachable state has an unfinished task under a finished parent |
| `KernelRuns.FinishedTrees` | crates/pgtask-postgres/tests/results.rs:549-611 | Without administrator retry a finished task has no unfinished descendant at any depth |
| `KernelRuns.AdmissionExact` | crates/pgtask-postgres/migrations/0001_initial.sql:2563-2612 | A limited queue's counter is the true number of its unfinished tasks, never above the limit, and a new task is refused exactly when the queue is full |
| `KernelRuns.SignalsAreEmitted` | crates/pgtask-postgres/migrations/0001_initial.sql:1659-1664 | A signal is recorded for a task if and only if some earlier operation of the run sent it while the task existed |
| `KernelRuns.ParkedIsEarly` | crates/pgtask-postgres/migrations/0001_initial.sql:1643-2083 | In every reachable state no earlier operation of the run has sent a waiting task's signal, and the child it waits for is its own and unfinished |
| `KernelAnswers.Birth` | crates/pgtask-postgres/migrations/0001_initial.sql:546-645 | A task is there if and only if it was enqueued or spawned in the run and let in, and its parent and queue are those it was asked for with |
| `KernelAnswers.BudgetKept` | crates/pgtask-postgres/migrations/0006_keep_resumed_tasks_claimable.sql:77-88 | Its budget is the one it was created with, raised by each accepted administrator retry to one more than its failures by then |
| `KernelAnswers.NoCycles` | crates/pgtask-postgres/migrations/0001_initial.sql:1023-1139 | In every reachable state no task is its own ancestor |
| `KernelAnswers.FailExact` | crates/pgtask-postgres/migrations/0006_keep_resumed_tasks_claimable.sql:39-59 | Over every run, suspensions, releases, waits and retries included: an accepted failure makes the task pending if and only if a retry was asked for and the failures and recoveries so far, with this one, are fewer than its budget; otherwise it has failed |
| `KernelAnswers.RecoverExact` | crates/pgtask-postgres/migrations/0006_keep_resumed_tasks_claimable.sql:61-75 | Recovering the expired lease of a running task decides in the same way, and nothing else is recovered |
| `KernelAnswers.ClaimExact` | crates/pgtask-postgres/migrations/0001_initial.sql:690-802 | A claim is granted if and only if the task is pending, is numbered one more than the claims before it, and its lease owns the task |
| `KernelAnswers.WriteExact` | crates/pgtask-postgres/migrations/0001_initial.sql:804-862 | An accepted renewal changes nothing, a completion ends the task, a release or suspension makes it pending, and no trigger undoes it |
| `KernelAnswers.CancelExact` | crates/pgtask-postgres/migrations/0001_initial.sql:2281-2311 | Cancelling ends a task if and only if it is unfinished, and otherwise changes nothing |
| `KernelAnswers.WaitSignalExact` | crates/pgtask-postgres/migrations/0001_initial.sql:1715-1816 | An accepted wait for a signal is ready if and only if the signal was sent earlier in the run; otherwise the task is parked on it |
| `KernelAnswers.EmitExact` | crates/pgtask-postgres/migrations/0001_initial.sql:1643-1713 | Sending a signal makes a task parked on it pending, and leaves every other task as it is |
| `KernelAnswers.WaitResultExact` | crates/pgtask-postgres/migrations/0005_serialise_result_wait_registration.sql:1-116 | A wait for a result is refused unless the waiter itself spawned the task, ready if and only if that has finished, and otherwise parks the waiter on it |
| `KernelAnswers.ExpireExact` | crates/pgtask-postgres/migrations/0001_initial.sql:2085-2161 | A wait that times out makes its task pending, and if it was for a result the awaited child is cancelled; what does not wait does not time out |
| `KernelAnswers.AdmitExact` | crates/pgtask-postgres/migrations/0001_initial.sql:2563-2612 | An enqueued or spawned task is let in, with nothing claimed or charged, if and only if its queue is not full of unfinished tasks; otherwise nothing changes |
| `KernelAnswers.RetryExact` | crates/pgtask-postgres/migrations/0001_initial.sql:2334-2368 | An administrator's retry takes back exactly a failed or cancelled task whose queue has room, its claims and failures still counted, its budget allowing one failure more |
| `KernelAnswers.OthersExact` | crates/pgtask-postgres/migrations/0001_initial.sql:2020-2083 | Whatever the operation, a task it is not about is cancelled if and only if it was unfinished and its parent finished by it, otherwise woken if and only if the child it waits for did, and otherwise untouched |
| `References.CountersAgree` | specs/README.md:83-90 | On runs without suspension, release, waits or administrator retry of a task, deciding by attempts and deciding by failures agree; `CounterRuns.AgreeIffNoneGivenBack` has the converse |
| `CounterRuns.ComeApart` | specs/README.md:83-90 | Over every run without administrator retry of it, an unfinished task has been claimed once per charged failure, once per claim given back by suspension, release or a wait, and once more if it runs |
| `CounterRuns.AgreeIffNoneGivenBack` | specs/README.md:83-90 | So its attempts and failures agree if and only if no claim of it was given back |
| `CounterRuns.SuspensionComesApart` | crates/pgtask-postgres/migrations/0001_initial.sql:947-1021 | A run of enqueue, claim and suspension after which the kernel grants a claim that neither attempt-counting machine allows |
| `References.SimulatesLeaseMachine` | scripts/linearizability/lease.go:51-156 | On those runs every operation on a task that the lease machine knows has an answer the machine explains, and a lost answer leaves both outcomes possible; any other operation leaves the task alone or ends it unsuccessfully |
| `References.SimulatesLifecycleModel` | crates/pgtask-postgres/tests/model.rs:175-240 | On those runs the kernel reaches the state, the attempt and the existence of a stale lease of the reference lifecycle model, transition by transition |
| `References.AttemptsBounded` | specs/README.md:92-94 | On those runs a task is never claimed more often than its budget |
| `References.SimulatesAdmissionCounter` | scripts/linearizability/capacity.go:34-73 | Every kernel step answers a request for a slot as the bounded counter does, and gives back exactly one slot per task it finished, through cascades |
| `TransitionBatch.UpdateExact` | crates/pgtask-postgres/migrations/0001_initial.sql:2020-2083 | What one UPDATE of many rows leaves in each row once all its triggers have fired, in closed form |
| `TransitionBatch.BatchEqualsSequence` | crates/pgtask-postgres/migrations/0010_batch_task_transitions.sql:1-143 | A batch leaves the state and gives the answers of its requests written one by one, if none comes after a request that ends a task its own hangs under |
| `TransitionBatch.ShadowedDiffers` | crates/pgtask-postgres/migrations/0010_batch_task_transitions.sql:1-143 | The first request that does is fenced alone and accepted by the batch |
| `TransitionBatch.BatchExact` | crates/pgtask-postgres/migrations/0010_batch_task_transitions.sql:1-143 | A batch equals its one-by-one writes if and only if no request is in that position; the answers alone tell |
| `BatchWitness.ShadowedBatchHappens` | crates/pgtask-postgres/migrations/0010_batch_task_transitions.sql:1-143 | A run from an empty store ends in a batch of which one request is: a running task completed together with its running child |
| `TransitionWriter.DistinctBySize` | crates/pgtask-postgres/src/store.rs:1679-1689 | Comparing the number of distinct ids with the number of requests detects exactly the duplicates |
| `TransitionWriter.Store.WriteMany` | crates/pgtask-postgres/src/store.rs:1675-1755 | A batch call answers iff it is empty, or has distinct ids and neither is refused nor loses its reply; it applies the whole batch or nothing |
| `TransitionWriter.Store.WriteOne` | crates/pgtask-postgres/migrations/0001_initial.sql:831-906 | A single write applies its kernel operation and answers with its reply; refused, it applies nothing; with its reply lost, it is applied and reported as failed |
| `TransitionWriter.SendAnswers` | crates/pgtask-worker/src/runtime.rs:1007-1078 | Each requester gets its own answer, and nobody else's changes |
| `TransitionWriter.WriteEach` | crates/pgtask-worker/src/runtime.rs:1007-1078 | The fallback writes each request alone in order and collects its answers |
| `TransitionWriter.WritePart` | crates/pgtask-worker/src/runtime.rs:1007-1078 | Whatever becomes of the batch call, store and answers are those of the call, or of the fallback on top of what the call left |
| `TransitionWriter.Partition` | crates/pgtask-worker/src/runtime.rs:1007-1030 | Completions and failures are separated: each part is the requests of its kind, all of them, at increasing positions |
| `TransitionWriter.WriteBatch` | crates/pgtask-worker/src/runtime.rs:1007-1078 | For any requests and faults, store and answers are those of the completions' part and then the failures'; if no batch call's reply is lost and no request is about an ancestor of another's task, they are those of all completions and then all failures written one by one in arrival order |
| `TransitionWriter.BatchIsOneByOne` | crates/pgtask-worker/src/runtime.rs:1007-1078 | Why: each part, batched or fallen back, is its requests one by one |
| `TransitionWriter.PartIsOneByOne` | crates/pgtask-worker/src/runtime.rs:1007-1078 | A part whose call is answered or refused is its requests one by one, if none is shadowed |
| `TransitionWriter.PartExact` | crates/pgtask-worker/src/runtime.rs:1007-1078 | An answered part of distinct tasks is its requests one by one if and only if none is shadowed |
| `TransitionWriter.WholeBatchExact` | crates/pgtask-worker/src/runtime.rs:1007-1078 | The whole batch, both calls answered and each about distinct tasks, leaves the store and the answers of all completions and then all failures one by one if and only if no completion is shadowed, nor any failure in the store the completions leave |
| `TransitionWriter.LostReply` | crates/pgtask-worker/src/runtime.rs:1007-1078 | When a batch commits and its reply is lost, the fallback changes nothing more and every requester is told that its lease was lost, or gets an error |
| `TransitionWriter.LostAnswers` | crates/pgtask-worker/src/runtime.rs:1007-1078 | The answers that change are exactly those of the writes that landed |
| `BatchWitness.LostReplyHappens` | crates/pgtask-worker/src/runtime.rs:1007-1078 | At the end of a run, a completion that landed is answered as a lost lease |
| `WaitProtocol.LockStep` | specs/README.md:61-70 | With the source row locked from read to commit, every step keeps: whoever has decided to park or has scanned holds the row, and nothing is parked once the source has happened |
| `WaitProtocol.OwnerIsOpen` | specs/README.md:61-70 | The row is held, in every run under the lock, by exactly the transaction that has read or written under it and has not ended, so it is always released |
| `WaitProtocol.SomeoneProceeds` | specs/README.md:61-70 | No deadlock: whenever a transaction is open, it or the one holding the row can go on |
| `WaitProtocol.MovesExactly` | specs/README.md:26-59 | With the lock or without: a wait goes on without parking exactly when its read or recheck finds the source, and is parked, fenced or aborted exactly by those steps |
| `WaitProtocol.WorldExactly` | specs/README.md:26-59 | The source happens exactly by a commit, which wakes exactly the tasks its scan saw, and only parking adds one |
| `WaitProtocol.NoConcurrentRegistration` | specs/README.md:61-70 | A waiter's exposed window and a waker's never overlap |
| `WaitProtocol.LosesWithoutLock` | specs/README.md:26-59 | Without the lock, with or without the recheck, a concrete run parks a task for good on what has happened |
| `WaitProtocol.SafeIffLocked` | crates/pgtask-postgres/migrations/0005_serialise_result_wait_registration.sql:1-116 | No run of any number of waiters and wakers loses a wake-up if and only if the source is locked |
| `WaitProtocol.StepRefines` | scripts/linearizability/wait.go:48-101 | Under the lock a step changes a task's object only as the call it completes allows, also when the answer is cut off |
| `WaitProtocol.RunsLinearize` | scripts/linearizability/wait.go:20-101 | Every locked run is, task by task, a history of the atomic wait object |
| `WaitProtocol.LosingRunTold` | specs/README.md:26-59 | What callers are told in the losing run, followed by one more look at the task |
| `WaitProtocol.LostRunUnexplained` | scripts/linearizability/wait.go:34-43 | The calls of that run are explained by the atomic object in neither order of its overlapping wait and wake |
| `Schedule.NthIncreases` | crates/pgtask-core/src/schedule.rs:28-38 | Successive due times strictly increase |
| `Schedule.IntervalCountExact` | crates/pgtask-core/src/schedule.rs:45-51 | An interval's due count is the true number of due times |
| `Schedule.DueCount` | crates/pgtask-core/src/schedule.rs:45-62 | A cron's due count is the number of due times capped at 10,000; it fails only if nothing follows `now` |
| `Schedule.CronLatest` | crates/pgtask-core/src/schedule.rs:74-97 | The search terminates; what it returns is the greatest occurrence at or before `now`; and when something follows `now` it succeeds exactly when an occurrence lies strictly after `floor(first_due) - 1s` and at or before `now` |
| `Schedule.IntervalLatestExact` | crates/pgtask-core/src/schedule.rs:66-73 | The latest due time of an interval is the last of its due times, despite the truncation |
| `Schedule.LatestDue` | crates/pgtask-core/src/schedule.rs:64-99 | Both of these for either kind of schedule |
| `Schedule.CatchUpTimes` | crates/pgtask-core/src/schedule.rs:118-126 | Catching up collects the due times in order, up to the limit |
| `Schedule.PicksWithin` | crates/pgtask-core/src/schedule.rs:101-134 | Whatever the policy, the occurrences strictly increase and lie between the cursor (floored to the second for cron `Latest`) and `now` |
| `Schedule.Materialize` | crates/pgtask-core/src/schedule.rs:101-134 | Materializing a due schedule succeeds exactly when the next time exists, the interval is usable, and cron `Latest` has an occurrence; created plus skipped is the true number of due times for intervals, and for cron skipped is the capped count less the created, never below zero |
| `ScheduleRuns.StoreMovesPast` | crates/pgtask-postgres/migrations/0001_initial.sql:1581-1602 | A store leaves the cursor or moves it forward past its clock if and only if everything fits in the queue or the first occurrence that does not is the cursor itself |
| `ScheduleRuns.RestsAtNow` | crates/pgtask-postgres/migrations/0001_initial.sql:1581-1602 | A run in which the cursor moves to the clock and not past it: the queue is full |
| `ScheduleRuns.MovedBy` | crates/pgtask-postgres/migrations/0001_initial.sql:1564-1580 | Only a store or deferral whose claim is still good (not paused, cursor unmoved) moves the cursor or creates anything |
| `ScheduleRuns.ClaimedExactly` | crates/pgtask-postgres/migrations/0001_initial.sql:1536-1548 | A claim is of the cursor as it stood, is made only while the schedule runs and is due, and is held until its holder stores, defers or abandons it |
| `ScheduleRuns.WrittenBack` | crates/pgtask-postgres/migrations/0001_initial.sql:1581-1624 | Such a store creates in order exactly what fits and is not stored yet, and rests on the first left over or the next time; such a deferral creates nothing and rests 60 seconds after its clock |
| `ScheduleRuns.PausedRests` | crates/pgtask-postgres/migrations/0001_initial.sql:1497-1514 | From a pause until it is lifted nothing is claimed or created and the cursor stays, whatever claims are still held |
| `ScheduleRuns.SlotsMatchTasks` | crates/pgtask-postgres/migrations/0001_initial.sql:1604-1616 | A store takes as many slots of its queue as it adds tasks if and only if none of the occurrences it inserts is stored already |
| `ScheduleRuns.DeferralMovesPast` | crates/pgtask-postgres/src/store.rs:898-913 | A deferral by a scheduler that can parse the row always does; one by a scheduler that cannot does if and only if the cursor is at most 60 seconds after its clock |
| `ScheduleRuns.StepBehind` | crates/pgtask-postgres/migrations/0001_initial.sql:1550-1624 | Every step keeps all created occurrences in order and before anything that can still be created, and never moves that frontier back |
| `ScheduleRuns.RunBehind` | crates/pgtask-postgres/src/store.rs:865-920 | So does every run of racing schedulers, of which only those that cannot parse the row need claims within 60 seconds of their clocks |
| `ScheduleRuns.AlwaysInOrder` | crates/pgtask-postgres/src/store.rs:865-920 | When every scheduler can parse the row, then over every run and for arbitrary clocks the occurrences created strictly increase, so none is created twice even after its row was deleted, and the frontier of what can still be created never moves back |
| `ScheduleRuns.SlotsNeverDrift` | crates/pgtask-postgres/migrations/0001_initial.sql:1604-1616 | In every run of schedulers that parse the row, and of others within 60 seconds, every store does |
| `ScheduleRuns.SlotDrifts` | crates/pgtask-postgres/migrations/0001_initial.sql:1604-1616 | A run after which a store takes a slot and adds no task: its cursor was moved back to a stored occurrence |
| `ScheduleRuns.OutOfOrder` | crates/pgtask-postgres/src/store.rs:1827-1845 | One scheduler fires; another, which cannot parse the row and whose claims are one microsecond over 60 seconds ahead of its clock, defers; then an occurrence is created before one already created |
| `ScheduleRuns.CreatedInOrder` | crates/pgtask-postgres/src/store.rs:1821-1845 | In a fleet with schedulers that cannot parse the row, the occurrences created over every run strictly increase if and only if those schedulers' two clock readings are never more than 60 seconds apart |
| `Numerals.Predicted` | crates/pgtask-worker/src/outcome.rs:190-206 | What the predicted length comes to, read back from the number's text |
| `Numerals.LengthExact` | crates/pgtask-worker/src/outcome.rs:189-206 | The prediction is never below the length of the exponent-free rendering, and equal to it if and only if the number is neither a zero shifted left nor a negative zero |
| `Numerals.PrintedExact` | crates/pgtask-worker/src/outcome.rs:189-206 | A number printed without an exponent on a zero whole part is measured exactly if and only if it is not a negative zero |
| `Numerals.NegativeZero` | crates/pgtask-worker/src/outcome.rs:189-206 | For `-0.0` four characters are predicted and three are printed |
| `Numerals.ZeroShifted` | crates/pgtask-worker/src/outcome.rs:189-206 | For `0e5`, which only a build with `arbitrary_precision` passes on, six characters are predicted and fewer are printed |
| `Json.QuotedLength` | crates/pgtask-worker/src/outcome.rs:178-187 | A string's measure is the length of its escaped UTF-8 bytes |
| `Json.MeasureExact` | crates/pgtask-worker/src/outcome.rs:159-176 | A tree's measure is never below the length of its `jsonb` text, and equal to it if and only if every number in it is measured exactly |
| `Outcome.EscapeTextConcat` | crates/pgtask-worker/src/outcome.rs:58-64 | Escaping works character by character: the escape of a concatenation is the concatenation of the escapes |
| `Outcome.EscapeTextAt` | crates/pgtask-worker/src/outcome.rs:58-64 | Wherever it stands, a NUL becomes the six characters `\u0000` and any other character stays |
| `Outcome.EscapeTextNulFree` | crates/pgtask-worker/src/outcome.rs:58-64 | Escaped text has no NUL, and text without one is unchanged |
| `Outcome.EscapeClears` | crates/pgtask-worker/src/outcome.rs:58-77 | Escaping leaves no NUL in any string or key at any depth, and objects with distinct keys |
| `Outcome.EscapeKeeps` | crates/pgtask-worker/src/outcome.rs:58-77 | A value without NULs is unchanged |
| `Outcome.CollectLookup` | crates/pgtask-worker/src/outcome.rs:66-72 | Renaming keys, the last of colliding ones winning, leaves the value of every key that has neither NUL nor backslash |
| `Outcome.EscapeGet` | crates/pgtask-worker/src/outcome.rs:66-74 | Such a member of an escaped object is the escape of that member |
| `Outcome.EscapeEverywhere` | crates/pgtask-worker/src/outcome.rs:58-77 | At every path of keys and positions of the escaped tree there is the escape of what was there, and nothing else; of keys equal once escaped, the last one's value is |
| `Truncation.PrefixMaximal` | crates/pgtask-worker/src/outcome.rs:137-148 | What is kept of a string is the longest prefix of whole characters within the cap |
| `Truncation.TruncateString` | crates/pgtask-worker/src/outcome.rs:137-148 | Walking bytes back to a character boundary keeps exactly that prefix, followed by the ellipsis |
| `Truncation.CapEverywhere` | crates/pgtask-worker/src/outcome.rs:121-148 | At every path there is what was there: a string within the cap unchanged, a longer one cut to its longest beginning of whole characters within the cap and the ellipsis, arrays as long, objects with the same keys, everything else kept |
| `Truncation.CapBounds` | crates/pgtask-worker/src/outcome.rs:121-157 | A cap no string exceeds changes nothing; otherwise every string is within the cap plus the three bytes of the mark |
| `Truncation.CapKeepsShape` | crates/pgtask-worker/src/outcome.rs:121-135 | Capping introduces no NUL, keeps keys distinct and touches no number |
| `Truncation.TruncateError` | crates/pgtask-worker/src/outcome.rs:79-119 | The search ends with a cap that fits and cannot be raised by one, or is the longest string's length, assuming nothing about monotonicity; the summary is returned exactly when cap 0 does not fit |
| `Preparation.DecimalReads` | crates/pgtask-worker/src/outcome.rs:86-89 | A reported byte count reads back as itself |
| `Preparation.CandidateReplaces` | crates/pgtask-worker/src/outcome.rs:80-93 | A truncated error that fits is clean, marked with its original size, and keeps a boolean `retryable` |
| `Preparation.CandidateKeeps` | crates/pgtask-worker/src/outcome.rs:80-93 | Every member of a truncated error is still there with its strings cut to the cap; what is not an object is there as `value` |
| `Preparation.SummaryGet` | crates/pgtask-worker/src/outcome.rs:107-118 | The summary keeps the error's own type if it is a string of at most 255 bytes, else says `handler_error`; it keeps a boolean `retryable`, and reports the truncation and the original size |
| `Preparation.SummaryReplaces` | crates/pgtask-worker/src/outcome.rs:107-118 | A summary is clean, marked and keeps `retryable` too, and it always fits |
| `Preparation.PrepareError` | crates/pgtask-worker/src/outcome.rs:41-119 | Every error is written as at most 262,144 bytes of `jsonb` text without any NUL, equals the escaped input when that fits, and keeps a boolean `retryable`; an oversized one keeps every member of its escape, all strings cut to one cap that cannot be raised, or, if that cannot fit, is summed up |
| `Preparation.TooLargeSmall` | crates/pgtask-worker/src/outcome.rs:33-38 | The error that replaces an oversized result is within the error limit |
| `Preparation.PrepareResult` | crates/pgtask-worker/src/outcome.rs:26-39 | A result is written, escaped, exactly when it measures at most 1,048,576 bytes; the error in its place names the measured size and the limit |
| `Durable.StepAgreed` | crates/pgtask-postgres/migrations/0001_initial.sql:1360-1407 | Every step keeps: what is stored or returned for a key is the first value ever committed for it |
| `Durable.SameValue` | crates/pgtask-worker/src/registry.rs:84-124 | Across attempts, crashes, lost replies and stale leases, any two calls for one key that return give the same value |
| `Durable.RerunsOnlyDeleted` | crates/pgtask-worker/src/registry.rs:99-107 | A call that reads after the first commit runs its operation if and only if the task has been deleted since; otherwise it returns the recorded value |
| `Durable.RerunAfterDeletion` | crates/pgtask-worker/src/registry.rs:99-107 | A run in which a recorded step's operation is run again, its task having been deleted |
| `Durable.RecordedByOwner` | crates/pgtask-postgres/migrations/0001_initial.sql:1373-1386 | A recorded value is one an operation of the live lease's own attempt produced |
| `Durable.MovesExactly` | crates/pgtask-worker/src/registry.rs:84-124 | A call reads only if not cancelled, operates only if it found no value, returns exactly by finding one or by committing while its lease owns the task, and fails exactly when cancelled, its operation failed, an answer was lost or it does not own the task |
| `Durable.CellsExactly` | crates/pgtask-postgres/migrations/0001_initial.sql:1360-1407 | A checkpoint is put there exactly by a commit under the owning lease, keeps its first value, and stays until its task is deleted |
| `Durable.StepIsRegister` | scripts/linearizability/register.go:42-91 | Each step is one the write-once register allows, unknown outcomes included |
| `Durable.RunsLinearize` | scripts/linearizability/register.go:42-91 | Every run's operations on a key, in the order they take effect, are a history of that register |
| `Durable.SilentOnceDeleted` | crates/pgtask-postgres/migrations/0001_initial.sql:1373-1386 | After the task is deleted no call for its keys is told a value, whatever it reads or commits |
| `ActiveLeases.Leases.Snapshot` | crates/pgtask-worker/src/runtime.rs:1094 | A renewal asks about exactly the entries in the table, each once |
| `ActiveLeases.Leases.UpdateRenewed` | crates/pgtask-worker/src/runtime.rs:1153-1170 | Exactly the leases asked about and still current are touched: renewed ones get the new time, the others are cancelled |
| `ActiveLeases.Leases.CancelUncertain` | crates/pgtask-worker/src/runtime.rs:1172-1183 | Exactly the leases asked about, still current and two thirds of the lease without renewal are cancelled; the table is unchanged |
| `LeaseRuns.FailedTickIsCancelUncertain` | crates/pgtask-worker/src/runtime.rs:1108-1113 | A renewal that fails at one instant does what that method does with a snapshot of its own table |
| `LeaseRuns.Execute` | crates/pgtask-worker/src/runtime.rs:686-721 | Each step of a run is what the worker's own operations do to its table: filing and taking out a handler's entry, the snapshot, and the two loops over an outcome |
| `LeaseRuns.OlderNeverCancelsNewer` | crates/pgtask-worker/src/runtime.rs:1153-1183 | In every run, an outcome for an older lease, however late, never cancels a newer lease of the same task |
| `LeaseRuns.CancelledExactly` | crates/pgtask-worker/src/runtime.rs:1153-1183 | In every run a lease is cancelled exactly by an answer that was asked about it and leaves it out, or by a failure that finds it two thirds of the lease without renewal; no cancellation is undone |
| `LeaseRuns.EntryExactly` | crates/pgtask-worker/src/runtime.rs:686-727 | A task's entry is the one filed by its latest start, renewed exactly by answers about that very lease, until a handler of the task finishes |
| `LeaseRuns.LateInTime` | crates/pgtask-worker/src/runtime.rs:1087-1088 | With ticks a third of the lease apart, the first tick at two thirds or more since the last renewal is strictly before the lease ends |
| `LeaseRuns.CancelledWhenLate` | crates/pgtask-worker/src/runtime.rs:1080-1118 | Through any run of failing renewals on time, a lease is cancelled exactly from that tick on |
| `SlowRenewals.CancelledInTime` | crates/pgtask-worker/src/runtime.rs:1080-1118 | With each failure arriving up to some delay after its question, a slow one holding up the next question, and the table moving on in between, a lease is cancelled by a reading at two thirds of it or more and before the lease plus that delay |
| `LeaseRuns.TrackedIffNoOverlap` | crates/pgtask-worker/src/runtime.rs:686-727 | Every running handler's own lease is in the table throughout a run if and only if no handler is started for a task still being handled |
| `LeaseRuns.FinishDropsNewer` | crates/pgtask-worker/src/runtime.rs:715-723 | After an overlap the older handler's end drops the newer handler's entry |
| `LeaseRuns.OverlapLosesTrack` | crates/pgtask-worker/src/runtime.rs:686-723 | A run with an overlap, after which a running handler is not in the table |
| `Notifications.StepHub` | crates/pgtask-postgres/src/store.rs:332-401 | Every step of hub, server, connection and waiters keeps: the connection listens to every channel ever asked for, and no waiter that was not overrun is left without news while reconnections are reported |
| `Notifications.ConfirmedIsListening` | crates/pgtask-postgres/src/store.rs:316-329 | Whenever a subscription is confirmed, the connection there is listens to its channel |
| `Notifications.NeverMissed` | crates/pgtask-postgres/src/store.rs:1487-1523 | A waiter blocked on a finished task, with nothing pushed out of its receiver and every reconnection reported, has its wake in its inbox, on the wire, or about to be noticed |
| `Notifications.Drains` | crates/pgtask-postgres/src/store.rs:1500-1515 | From there the hub and the waiter alone bring the wait to a result or an error |
| `Notifications.MovesExactly` | crates/pgtask-postgres/src/store.rs:1487-1523 | A wait has a result exactly by reading its finished task, times out exactly when given up, errs exactly on a failed query, a refused subscription or news of a lost connection, and reads again exactly on news of its own task or of a reconnection |
| `Notifications.EndedBy` | crates/pgtask-postgres/src/store.rs:1487-1523 | However a wait ended in a run, that cause was there |
| `Notifications.ResultsAreReal` | crates/pgtask-postgres/src/store.rs:1508-1513 | In every run a wait that returned a result read its task after it had finished |
| `Notifications.NewsIsAlwaysTrue` | crates/pgtask-postgres/migrations/0001_initial.sql:2440-2450 | In every run nobody is told of a task that has not finished, nor on a channel that is not its own |
| `Notifications.OverrunLosesTheWake` | crates/pgtask-postgres/src/store.rs:171-191 | With 1,024 other notifications in time, a waiter sleeps on with nothing to wake it |
| `Notifications.DroppedReportLosesTheWake` | crates/pgtask-postgres/src/store.rs:358-398 | A run in which a subscription is served while the hub reconnects, and an earlier waiter sleeps on |
| `Notifications.MissesNoneIffFits` | crates/pgtask-postgres/src/store.rs:171-191 | No run in which at most n events wait to be consumed leaves a waiter on a finished task with nothing to wake it, if and only if n is at most 1,024 and no command is served during a reconnect |
| `ExceptionSearch.HoldsNonRetryable` | sdks/python/src/lib.rs:645-669 | On every finite exception graph, cyclic or not, the search ends and is true exactly when a non-retryable exception is reachable through causes and group members |
| `Admission.WorkerControl.ApplyEffective` | crates/pgtask-worker/src/runtime.rs:202-219 | A limit is applied exactly when it is within the configured concurrency |
| `Admission.OverloadDetector.Observe` | crates/pgtask-worker/src/health.rs:272-321 | A sample moves counters, proposal and limit as `Admission.SampleExact` tells, keeps them within range, and its proposal is never refused |
| `Admission.SampleExact` | crates/pgtask-worker/src/health.rs:280-320 | Told from the samples so far: an away database, leases not renewed or not in time, or lag in enough samples in a row halves the limit, down to the minimum; any other sample leaves it, or adds one after enough such samples in a row; only if enabled, and applied only if enforced |
| `Admission.LoweredExactly` | crates/pgtask-worker/src/health.rs:287-320 | The limit goes down if and only if a troubled sample finds it above the minimum, or a lower one is set by hand |
| `Admission.LagRun` | crates/pgtask-worker/src/health.rs:282-296 | Of lagging but otherwise good samples in a row, exactly the `sustained_samples`-th is the first to lower the limit |
| `Admission.Supervise` | crates/pgtask-worker/src/health.rs:246-270 | The supervisor's loop over a new worker, with limits set by hand in between, is exactly the run of its inputs, within the configured concurrency |
| `Admission.LimitInRange` | crates/pgtask-worker/src/health.rs:307-318 | Over every sequence of samples and manual changes, limit and proposal stay in 1..configured |
| `Admission.AboveMinimum` | crates/pgtask-worker/src/health.rs:307-311 | Without manual changes the limit stays at or above the minimum |
| `Admission.OverloadRaises` | crates/pgtask-worker/src/health.rs:308-311 | A troubled sample, whatever the trouble, raises the limit if and only if it was below the minimum |
| `Admission.RaisedWhenDown` | crates/pgtask-worker/src/health.rs:308-311 | A limit set to 1 by hand, with a minimum of 4, is 4 after the database goes away |
| `Admission.OverloadRun` | crates/pgtask-worker/src/health.rs:287-311 | Troubled samples in a row, whatever the troubles, halve the limit each time, down to the minimum and no further |
| `Admission.HealthyRun` | crates/pgtask-worker/src/health.rs:299-311 | Where the limit stands after any number of healthy samples, from any state |
| `Admission.RestoredExactly` | crates/pgtask-worker/src/health.rs:299-311 | After an overload, full concurrency is back after recovery samples - 1 + (configured - effective) healthy samples and not before |
| `Admission.RestoredBy` | crates/pgtask-worker/src/health.rs:299-311 | From any state that many healthy samples suffice |
| `Claiming.ClaimTasks` | crates/pgtask-worker/src/runtime.rs:621-670 | Tasks are returned exactly when no queue reached with room left fails, and then all that were claimed, within the batch size and the free slots; otherwise what earlier queues handed over is dropped |
| `Claiming.TakesInOrder` | crates/pgtask-worker/src/runtime.rs:637-668 | A round takes the first tasks of its queues in their order, as many as it may, each queue asked for all that is still free |
| `Claiming.LateFailureLosesTasks` | crates/pgtask-worker/src/runtime.rs:661-666 | A round in which one queue hands over a task, the next fails, and nothing is started |
| `Claiming.NeverOverConfigured` | crates/pgtask-worker/src/runtime.rs:635-636 | Running handlers never exceed the configured concurrency, however the limit moves and whatever fails |
| `Claiming.HandlersAccountedFor` | crates/pgtask-worker/src/runtime.rs:491-546 | No handler is lost or counted twice: over any rounds, what was started has ended or is running |
| `Claiming.RunHandlers` | crates/pgtask-worker/src/runtime.rs:491-546 | The claim loop starts exactly the tasks of the rounds whose claims all succeed, in order, and stays within the configured concurrency |

## Left out

- Each kernel function is one atomic transaction, except waits, where reads and commits are separate steps; row locks, snapshots and planner behaviour are not modelled otherwise.
- The kernel has no `run_at`, priority, queue pause, handler capability or starvation ordering: a claim may pick any claimable row. Lease expiry is a free choice of the recovery step.
- Idempotency keys, retention deletion and changes of a queue's limit are not part of the kernel; a spawn checkpoint that replays an existing child is not either.
- Administrator retry is in the kernel, but terminal stability and the descendant invariants are stated without it, since it deliberately breaks them.
- TransitionWriter.WriteBatch: absent shutdown.
- KernelRuns.AdmissionExact: tasks inserted by schedules are not a kernel operation of their own; they are enqueues exactly when no occurrence is stored already (`ScheduleRuns.SlotsMatchTasks`).
- KernelAnswers.WaitSignalExact: for a step whose outcome is not recorded yet; a wait replayed after its outcome was recorded, by a signal or a timeout, is answered from the record, which is not part of the kernel.
- KernelAnswers.WaitResultExact: likewise.
- Notifications.MovesExactly: for a task that exists; reading one that does not is answered as not found before any wait.
- WaitProtocol.SafeIffLocked: timeouts of waits are not part of this protocol; the kernel has them as one step.
- Schedule.Materialize: does not say which error is reported when several apply; every one of them defers the schedule.
- ScheduleRuns.AlwaysInOrder: for a schedule whose definition is not replaced during the run; the row lock a claim holds is not relied on. `ScheduleRuns.SlotsNeverDrift` likewise: replacing a definition resets the cursor.
- Cron expressions are a set of whole-second instants with a successor; parsing and calendar rules are not modelled.
- Numerals.LengthExact: for exponents PostgreSQL accepts, below half of `INT_MAX`; the overflow of `scale + 1` near the ends of `i64` is not modelled.
- JSON objects are sequences of entries with distinct keys; their sort order is not modelled.
- Outcome.EscapeClears: escaping is modelled on values, so not the update in place.
- Truncation.TruncateString: returns the shortened bytes instead of shortening the string in place.
- Preparation.PrepareError: for values whose measured size fits in 64 bits.
- Durable.RunsLinearize: up to the deletion of the task, after which `Durable.SilentOnceDeleted` holds; suspension, signal and result checkpoints are not modelled.
- LeaseRuns.CancelledWhenLate: for failures at the instant of their tick; `SlowRenewals.CancelledInTime` has the bound for later ones, and for ticks they hold up.
- Notifications.Drains: shows that the end is reachable without outside help; that the runtime eventually takes those steps is not modelled. That an abandoned receive leaves no report is what the driver is taken to do; the driver is not part of this model.
- Heartbeats, health endpoints, telemetry, shutdown grace and the listener's worker wake-ups are not modelled.
- The web interface, the command line, benchmarks, Docker files, the website, and the client libraries other than the exception search are not modelled.
- Name validation, storage protocol ranges, retry backoff and row conversions would only add easy members.
