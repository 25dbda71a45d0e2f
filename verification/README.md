# Workflow orchestrator: a verified model of the durable engine

The orchestrator runs workflows: DAGs of steps, each tried up to `MaxAttempts` times by
workers that claim attempts from a queue. All state lives in a store of rows that are
changed by compare-and-set operations, and every entry point of the engine ends in a
reconcile pass that skips, dispatches and concludes. This project models that machinery in
Dafny and proves what it promises over every run, every interleaving of its transactions
and every order in which Go may visit a map.

How the model is built:

- `Rows` holds the rows of one run and the statuses. `Transitions` gives one action to
  every indivisible effect on a run: the actions of a pass, the two commits of the lease
  reaper, the claim and the separate best-effort display update, publishing and marking in
  the relay. A trace is any sequence of enabled actions. A crash, a duplicate delivery, a
  racing poller or a late update is just another choice of the next action.
- `Invariants` proves one joint invariant over steps, attempts, timers, outbox, signals and
  the run for every reachable state; `Effects` reduces every action to the step state
  machine. `Verdicts`, `Ownership`, `Leases`, `Histories`, `Chronicles`, `Evaluator` and
  `Bounds` hold the theorems about whole runs.
- `Reconciling` defines a pass as a function of a `Schedule`, the orders in which the pass
  visits the step map. `Skips`, `Convergence`, `Settling` and `LateSignals` prove what
  passes do in all schedules. `Results` proves where outputs come from, `StaleTimers` which
  timers outlive a run.
- `Transactions` puts actions together as they are committed: alone, or with the pass that
  ends their transaction. `Moving` and `Finishing` prove which steps can advance and which
  runs can come to an end. What can happen is shown by such transactions, what cannot by all
  traces of actions.
- `Storage`, `Engines`, `Server`, `Relay`, `Polling` and `Registry` are the imperative code:
  classes with the source's fields and loops. Each method is proved to leave the store in
  exactly the state that the functions above name, for some schedule, and to keep the class
  invariant `Store.Valid()`, which says that the store holds a reachable state of a valid
  DAG. Every theorem about reachable states therefore holds after every call.
- `Cycles` and `Dsl` are the depth-first search and the validation that establish the
  acyclicity the engine relies on. `Ring` is the consistent-hash ring, `Backoff` the retry
  delays, `Policies` what of them validation lets through.

Conventions: an attempt's id and idempotency key are its position in the table, so both are
fresh; `owed` holds attempts marked EXPIRED whose outcome has not been applied (whether the
reaper still holds them or died with them); `consumer` and `stream` record which step took
which signal and what the queue has accepted. The clock, the lease length and the random
draw are parameters.

Where the code and its comments or documentation differ, the model follows the code:

- `internal/engine/reconcile.go:346-361` calls redundant passes no-ops. That holds of a pass
  after an idle state (`PassIsNoOpIffIdle`), not of every second pass: a signal that came
  early is consumed in the second loop and may leave a step ready behind it
  (`OnePassMayNotBeEnough`). `OnePassEnoughIff` says exactly, of the state in front of a
  pass, when one pass is enough in every visiting order.
- `README.md:84` of the repository shows a READY status. No code assigns it
  (`LiveRunHasNoCancelledStep`).
- The cap on retry delays is applied before the jitter, so a delay can exceed
  `MaxBackoffMS`, also with a policy that validation accepts (`AcceptedDelayMayPassCap`);
  `DelayMayPassCapIff` says exactly when.
- `internal/engine/engine.go:5-6` and `internal/engine/reconcile.go:602-606` say that a crash
  loses nothing and that recovery is a matter of reconciling again. The reaper commits twice:
  it marks attempts EXPIRED, then applies each outcome. Only LEASED rows are reaped, so an
  outcome whose second commit is missed, by a crash or by an error that is only logged
  (`internal/engine/reconcile.go:536-538`), is lost: no report, redelivery, timer or pass ever
  moves its step again (`LostOutcomeStays`, `OutcomeCanBeLost`). `LeavesHandIff` says exactly
  which steps are not affected.
- `internal/workflowdsl/dsl.go:71-137` accepts a signal_wait step that wants the signal
  `__cancel__`, by its name or by its input. That name cancels the run and is never stored
  (`internal/engine/reconcile.go:547-549`), so the step never completes (`NeverAnswered`,
  `SignalCanNeverCome`); `WaitingCompletesIff` says exactly which waiting steps can. It can
  still be skipped, as long as a task it depends on can fail or has failed.
- These two are all that keeps a run from ending: `RunCanFinishIff` says so, both ways.
- The end of a run cancels its timers (`EndLeavesNoTimer`), but a retry timer is inserted
  before the step is guarded (`internal/engine/reconcile.go:409-419`), so a cancelled run can
  hold a pending timer (`TimerCanOutliveRun`). `StaleTimerIff` says exactly what leaves one,
  `StaleTimersCounted` how many there are, and `StaleTimersOnlyAfterCancel` that firing one
  retries nothing.

## Model

| member | source | states |
|---|---|---|
| `Evaluator.SchedulerRefinesEvaluator` | `internal/engine/reconcile.go:60-340` | For a fixed outcome of every (step, attempt number), every interleaving that ends COMPLETED or FAILED leaves exactly the statuses and attempt counts of a recursive evaluation of the DAG, and is COMPLETED iff the evaluation completes every step. |
| `Evaluator.SchedulesAgree` | `internal/engine/reconcile.go:60-74` | Two interleavings of the same work that both end COMPLETED or FAILED agree on the verdict, every status and every attempt count. |
| `Evaluator.EveryRunObeysItsRecord` | `internal/engine/reconcile.go:384-450` | Every run obeys the oracle that its own attempt table records, so the refinement applies to every run. |
| `Evaluator.FinishedRunIsEvaluated` | `internal/engine/reconcile.go:276-340` | Every reachable COMPLETED or FAILED run is the evaluation of the DAG under its recorded outcomes, verdict included. |
| `Evaluator.FinishedStepTries` | `internal/engine/reconcile.go:384-450` | The attempt table of a finished step shows that it was tried until its first success, or MaxAttempts times. |
| `Invariants.TraceKeeps` | `internal/engine/reconcile.go:57-74` | Every sequence of actions keeps the joint invariant of steps, attempts, timers, outbox, signals and run. |
| `Invariants.ReachableInv` | `internal/engine/engine.go:69-117` | Every state a created run can reach satisfies the joint invariant. |
| `Effects.ActionEffect` | `internal/store/types.go:24-57` | Whatever happens to a run moves at most one step, along an edge of the step state machine and with the event that records it, or moves the run, or cancels everything. |
| `Ownership.AtMostOneLiveAttempt` | `internal/engine/reconcile.go:222-272` | No step ever has two attempts that are queued, leased, or expired with the outcome still owed. |
| `Ownership.InHandStepHasLiveAttempt` | `internal/store/memory/memory.go:352-433` | A QUEUED or RUNNING step has exactly one attempt that can still deliver, and it is number AttemptCount. |
| `Ownership.OutcomesAreCurrent` | `internal/engine/reconcile.go:384-450` | No stale outcome is ever applied: it belongs to the step's current attempt, and the step still waits for it unless the run was cancelled, even when the display update comes late. |
| `Ownership.AttemptsNumbered` | `internal/store/postgres/migrations/0001_init.sql:76` | The attempts of a step are numbered 1 to AttemptCount without gap or repeat, and AttemptCount stays within MaxAttempts. |
| `Ownership.RetryTimerConservation` | `internal/engine/reconcile.go:407-430` | In a live run a step is in RETRY_BACKOFF iff it has a pending timer, it has at most one, and firing it retries the step. |
| `Ownership.StaleTimersOnlyAfterCancel` | `internal/engine/reconcile.go:506-512` | A pending timer finds nothing to retry iff the run was cancelled. |
| `StaleTimers.StaleTimerIff` | `internal/engine/reconcile.go:407-430` | In a terminal run without pending timers an action leaves one iff the run was cancelled and the action fails an attempt of a step with attempts left. |
| `StaleTimers.TimersAfterEnd` | `internal/engine/reconcile.go:407-430` | After the end exactly those late failures add a pending timer, one each, and exactly firing one takes it away. |
| `StaleTimers.StaleTimersCounted` | `internal/engine/reconcile.go:407-430` | From the end of a run on, over any trace, pending timers = late failures − timers fired. |
| `StaleTimers.EndLeavesNoTimer` | `internal/engine/reconcile.go:336-338` | Whatever ends a run leaves none of its timers pending. |
| `StaleTimers.TimerCanOutliveRun` | `internal/engine/reconcile.go:409-419` | A reachable run: dispatch, claim, cancel, report a failure; it stays CANCELLED with a pending timer. |
| `Ownership.OutboxMatchesAttempts` | `internal/engine/reconcile.go:222-255` | Attempts and outbox rows correspond one to one, with equal id, step, number and key; the message carries the type, input and timeout of the step, on the stream of its type, and no signal_wait step has one. |
| `Ownership.StreamPerTaskType` | `internal/engine/reconcile.go:222-255` | Two attempts go to the same stream iff their steps have the same task type. |
| `Ownership.RelayNeitherInventsNorLoses` | `internal/outbox/relay.go:59-82` | Every message on a stream is that of a committed attempt, payload and all, and every outbox row is still to be published or already on its stream. |
| `Ownership.SignalConservation` | `internal/engine/reconcile.go:176-216` | As many signals are processed as signal_wait steps are COMPLETED. |
| `Ownership.CompletedWaitConsumedOne` | `internal/engine/reconcile.go:176-216` | A completed signal_wait step carries the payload of one signal of the name it wants, shared with no other step, and all earlier signals of that name are processed. |
| `Results.CompletedTaskWasReported` | `internal/engine/reconcile.go:395-406` | In any run the output of a completed task step is the one in an accepted report of its attempt number AttemptCount. |
| `Results.OneReportedSuccess` | `internal/store/memory/memory.go:390-410` | A step has at most one succeeded attempt, and it is number AttemptCount. |
| `Results.OnlyReportsComplete` | `internal/engine/reconcile.go:395-406` | Nothing completes a task step but a successful report of its current attempt, which leaves its output. |
| `Results.SignalsAreDeliveries` | `internal/engine/reconcile.go:551-557` | In any run the stored signals have the names and payloads of the deliveries, in order, taken or not. |
| `Results.CompletedWaitWasDelivered` | `internal/engine/reconcile.go:176-216` | In any run the output of a completed signal_wait step is the payload of a delivery under the name in its input, or else its own. |
| `Leases.LeaseIsTold` | `internal/store/memory/memory.go:352-433` | In any run an attempt is owned by the worker that claimed it, up to the time of the last claim or heartbeat; it is queued until claimed, and leased from then until reported or reaped. |
| `Leases.WhoMayAct` | `internal/store/memory/memory.go:352-433` | Told from the trace alone: one claim per attempt, with its own key; then heartbeats and one report by the claiming worker only; and reaping iff the time of the last claim or heartbeat is past. |
| `Leases.ReapingIsRight` | `internal/store/memory/memory.go:417-433` | Picking expired rows takes only attempts held past their last claim or heartbeat, and all of them if there was room. |
| `Verdicts.TerminalRunFrozen` | `internal/store/types.go:49-57` | After the end of a run nothing changes a step, an attempt count, the verdict or the outputs, and no attempt is created. |
| `Verdicts.SkippedHasFailedAncestor` | `internal/engine/reconcile.go:79-117` | From every SKIPPED step a chain of dependencies leads down to a FAILED one, skipped all the way. |
| `Verdicts.CompletedRunCompletesAll` | `internal/engine/reconcile.go:288-340` | A COMPLETED run has every step COMPLETED and its output maps each to its output. |
| `Verdicts.FailedRunHasFailedStep` | `internal/engine/reconcile.go:288-321` | A FAILED run names a FAILED step, each of its steps is completed, failed, or skipped below a failed one, and its output maps exactly the completed steps to theirs. |
| `Verdicts.LiveRunHasNoCancelledStep` | `internal/engine/reconcile.go:570-600` | A CANCELLED step exists only in a CANCELLED run, and READY is never used. |
| `Verdicts.TransitiveDepsCompleted` | `internal/engine/reconcile.go:122-171` | Whatever has an attempt, is waiting, completed or failed has every transitive dependency COMPLETED. |
| `Histories.HistoryReconstructsRun` | `internal/store/memory/memory.go:657-669` | Folding the events gives back the run status, every attempt count and every step status up to QUEUED/RUNNING and PENDING/WAITING; sequence numbers are 1 to HistorySeq. |
| `Histories.DispatchesFollowCompletions` | `internal/engine/reconcile.go:264-271` | In every history a dispatch, or a completion by signal, comes after the completion of each dependency. |
| `Chronicles.HistoryIsLegal` | `internal/store/memory/memory.go:657-669` | Every history starts with the creation of all steps, and each later event is one that the state replayed from the events before it allows, with the attempt number or signal name that state calls for. |
| `Chronicles.EveryDeliveryIsLogged` | `internal/engine/reconcile.go:551-560` | In any run the signal_received events name the delivered signals, in order of delivery. |
| `Bounds.StatusChangesBounded` | `internal/engine/reconcile.go:407-442` | In any run a step changes status at most 3·MaxAttempts times. |
| `Bounds.StepClaimsBounded` | `internal/store/memory/memory.go:352-368` | In any run workers successfully claim attempts of a step at most MaxAttempts times. |
| `Bounds.ClaimedOnceDeliveredOnce` | `internal/store/memory/memory.go:352-410` | However often its message is delivered, an attempt is claimed at most once and accepts at most one outcome. |
| `Skips.PropagationIsLeastFixpoint` | `internal/engine/reconcile.go:79-117` | In every visiting order propagation skips exactly the undispatched steps that reach a failed, skipped or cancelled step through undispatched ones, changes nothing else, and never stops for its pass bound. |
| `Skips.PassesReachFixpoint` | `internal/engine/reconcile.go:80-115` | More passes than undispatched steps always include one that changes nothing. |
| `Reconciling.ReconcileTrace` | `internal/engine/reconcile.go:60-74` | A pass, in any order, is a trace of actions of a pass only. |
| `Reconciling.ReconcileLeads` | `internal/engine/reconcile.go:60-74` | A pass, in any order, is a sequence of enabled actions. |
| `Reconciling.PassKeepsTimers` | `internal/engine/reconcile.go:60-74` | A pass adds no timer and moves none; it can only cancel them. |
| `Reconciling.PassKeepsSignals` | `internal/engine/reconcile.go:60-74` | A pass adds no signal, changes no name or payload, and gives none back. |
| `Reconciling.PassStartsIff` | `internal/engine/reconcile.go:276-290` | A pass ends a live run iff it leaves every step terminal; if not, the run is RUNNING iff it was before or some step has been dispatched, waits, backs off or is completed. |
| `Convergence.PassIsNoOpIffIdle` | `internal/engine/reconcile.go:346-361` | A pass leaves the run unchanged iff no action of a pass is possible. |
| `Finishing.RunCanFinishIff` | `internal/engine/reconcile.go:526-567` | A live run has a continuation by whole transactions to COMPLETED or FAILED, without cancelling it and without applying lost outcomes, iff none of the owed outcomes is lost and every open step that wants the reserved signal depends, directly or not, on a task that has not completed. |
| `Finishing.RunCanFinish` | `internal/engine/reconcile.go:60-74` | From every reachable live run without such a dead end workers, the relay, timers, signals, passes and the application of owed outcomes can bring about COMPLETED or FAILED; where nothing is owed, without the reaper. |
| `Finishing.SomeRound` | `internal/engine/reconcile.go:60-74` | In a live run without a dead end some transactions that complete no task and do not cancel use up status changes, or end the run. |
| `Finishing.NoDeadEndsMade` | `internal/engine/reconcile.go:79-117` | A trace that completes no task, cancels nothing and marks no lease makes no dead end. |
| `Finishing.OutcomeCanBeLost` | `internal/engine/reconcile.go:531-539` | A reachable run: dispatch, start, claim, lease runs out, attempt is marked; without its owed outcome it never ends and its step never leaves hand. |
| `Finishing.SignalCanNeverCome` | `internal/engine/reconcile.go:546-549` | A definition that validation accepts and a reachable run of it that owes nothing, whose only step waits for the reserved signal: it never completes and the run never ends unless cancelled. |
| `Moving.DeadEndStays` | `internal/engine/reconcile.go:546-549` | No trace at all takes a run with a dead end to COMPLETED or FAILED. |
| `Moving.NeverAnswered` | `internal/engine/reconcile.go:546-567` | In no reachable run is a step completed that wants the reserved signal. |
| `Moving.WaitingCompletesIff` | `internal/engine/reconcile.go:126-133` | A WAITING step of a live run can be completed without cancelling iff it does not want the reserved signal. |
| `Moving.LeavesHandIff` | `internal/store/memory/memory.go:417-433` | A QUEUED or RUNNING step can leave hand, without cancelling and without lost outcomes, iff the outcome of its attempt is not lost. |
| `Moving.LostOutcomeStays` | `internal/engine/reconcile.go:531-539` | An owed outcome stays owed, its step in hand and the run live, through every trace that neither applies it nor cancels the run. |
| `Moving.NoStuckRun` | `internal/engine/reconcile.go:60-171` | A run that a pass leaves unchanged is terminal or has a step in flight, and unless that step's outcome is lost or it waits for the reserved signal, at most three transactions other than cancelling complete it, settle it, or retry it with the next attempt. |
| `Moving.InFlightAdvances` | `internal/engine/reconcile.go:365-450` | Every step in flight of a live run, with the same two exceptions, can be brought out of hand, out of backoff into its next attempt, or past its signal by at most three transactions. |
| `Transactions.TransactionsTrace` | `internal/store/memory/memory.go:53-57` | Committed transactions are a trace of their own actions and those of their passes. |
| `Convergence.UnchangedRunHasStepInFlight` | `internal/engine/reconcile.go:60-171` | A run that a pass leaves unchanged is terminal or has a step in flight. |
| `Convergence.IdleAfterPassIff` | `internal/engine/reconcile.go:122-171` | After a pass a further one has something to do iff the run is live and holds a ready step. |
| `Convergence.PassWithoutLateSignalSettles` | `internal/engine/reconcile.go:135-169` | A pass whose second loop completes no signal_wait step leaves nothing for the next pass. |
| `Convergence.ReconcileConverges` | `internal/engine/reconcile.go:346-361` | With no new input at most one pass more than there are signal_wait steps changes anything, in any orders. |
| `Settling.OnePassEnoughIff` | `internal/engine/reconcile.go:60-171` | After a pass a further one finds nothing, whatever orders the pass visits the steps in, iff no step may be late. That is read off the state before the pass, once doomed steps are skipped: an undispatched step may be late iff it awaits undispatched signal_wait steps; what else it and they await is WAITING; there are distinct signals for all of those; and there are distinct signals for the awaited steps together with all WAITING steps that want the same names. |
| `Settling.SecondLoopSettlesIff` | `internal/engine/reconcile.go:135-169` | Given the state after the first loop, every order of the second settles the run iff no undispatched step awaits only signal_wait steps that are ready and can each have a signal of their own. |
| `Settling.OvertakableGetsLate` | `internal/engine/reconcile.go:126-133` | For a step that may be late there is an order of the first loop after which it awaits only ready signal_wait steps with distinct signals. |
| `Settling.LateWasOvertakable` | `internal/engine/reconcile.go:126-133` | Conversely, a step that awaits only those after the first loop, in any order, was one that may be late. |
| `Settling.ServedStepsComplete` | `internal/engine/reconcile.go:176-216` | In either loop, steps that can be matched to distinct signals all complete, in any order, although each takes the oldest match. |
| `Settling.BecameReadyIsLate` | `internal/engine/reconcile.go:135-169` | If the second loop makes any step ready behind itself, there was a step waiting only for ready signal_wait steps with distinct signals. |
| `Settling.TasksAloneSettle` | `internal/engine/reconcile.go:122-171` | In a DAG without signal_wait steps one pass is always enough. |
| `LateSignals.OnePassMayNotBeEnough` | `internal/engine/reconcile.go:135-169` | A reachable run and a visiting order after which every further pass still changes the run. |
| `Engines.RunState.AllStepsTerminal` | `internal/engine/reconcile.go:38-45` | True iff every step is terminal. |
| `Engines.RunState.AnyDispatchedOrRunning` | `internal/engine/reconcile.go:47-55` | True iff some step is queued, running, backing off, waiting or completed. |
| `Engines.RunState.AnyDepBroken` | `internal/engine/reconcile.go:86-96` | True iff some dependency is failed, skipped or cancelled. |
| `Engines.RunState.AllDepsCompleted` | `internal/engine/reconcile.go:139-146` | True iff every dependency exists and is completed. |
| `Engines.RunState.Tally` | `internal/engine/reconcile.go:292-305` | The outputs of exactly the completed steps, a failed step iff there is one, and whether any step is cancelled. |
| `Engines.Engine.VisitForSkip` | `internal/engine/reconcile.go:83-110` | One visit skips its step iff it is undispatched with a broken dependency, in the store, the copy and the log alike. |
| `Engines.Engine.SkipPass` | `internal/engine/reconcile.go:81-111` | One sweep of the map is the sweep in the order visited, and reports a change iff the store changed. |
| `Engines.Engine.PropagateSkips` | `internal/engine/reconcile.go:79-117` | The loop is the bounded iteration of sweeps whose least-fixpoint property is proved above. |
| `Engines.Engine.TryResolveSignalWait` | `internal/engine/reconcile.go:176-216` | Completes the step with the oldest unprocessed signal of the wanted name, or changes nothing if there is none. |
| `Engines.Engine.DispatchStep` | `internal/engine/reconcile.go:222-272` | Succeeds iff the guard on the status holds; then attempt, outbox row, move to QUEUED and event agree; otherwise step and log are as before. |
| `Engines.Engine.VisitWaiting` | `internal/engine/reconcile.go:127-132` | A visit of the first loop completes a WAITING step iff its signal is there. |
| `Engines.Engine.VisitReady` | `internal/engine/reconcile.go:136-168` | A visit of the second loop dispatches, parks or completes its step iff it is undispatched with all dependencies completed. |
| `Engines.Engine.ResolveWaiting` | `internal/engine/reconcile.go:126-133` | The first loop is a sweep over all steps in the order visited. |
| `Engines.Engine.DispatchPending` | `internal/engine/reconcile.go:135-169` | The second loop is a sweep over all steps in the order visited. |
| `Engines.Engine.DispatchReady` | `internal/engine/reconcile.go:122-171` | The two loops, each over all steps, in two independent orders. |
| `Engines.Engine.CheckRunCompletion` | `internal/engine/reconcile.go:276-340` | Starts the run iff something is in flight, ends it iff every step is terminal, with the verdict the steps call for. |
| `Engines.Engine.Close` | `internal/engine/reconcile.go:307-339` | FAILED before CANCELLED before COMPLETED, with outputs, event and all pending timers cancelled. |
| `Engines.Engine.ReconcileTx` | `internal/engine/reconcile.go:60-74` | Nothing in a terminal run; otherwise one full pass for some schedule. |
| `Engines.Engine.ReconcileRun` | `internal/engine/reconcile.go:349-361` | One full pass that keeps the store in a reachable state. |
| `Engines.Engine.HandleTaskResult` | `internal/engine/reconcile.go:365-379` | Accepts a result iff the attempt is leased by that worker, then applies it and reconciles; otherwise changes nothing. A failure with attempts left adds one retry timer, due within 20% of the planned delay from now; any other result adds none. |
| `Engines.Engine.HandleAttemptOutcome` | `internal/engine/reconcile.go:384-450` | Success completes the step; failure adds a retry timer while attempts are left, due within 20% (less a millisecond) of the delay that multiplying and capping attempt by attempt gives, and fails the step otherwise; a step no longer in hand is left alone, and no earlier timer moves. |
| `Engines.Engine.HandleFiredTimer` | `internal/engine/reconcile.go:466-521` | Applies a timer iff it was pending, retries the step iff that still backs off in a live run, fires no other timer, and keeps the store reachable. |
| `Engines.Engine.ApplyExpired` | `internal/engine/reconcile.go:533-535` | Applies the outcome of an attempt expired earlier, whatever happened in between, with its retry timer due as after a reported failure. |
| `Engines.Engine.ReapExpiredLeases` | `internal/engine/reconcile.go:526-541` | Marks attempts held past the time of their last claim or heartbeat, at most limit, and all of them if fewer; then applies each outcome and reconciles, one after the other; exactly the outcomes whose transaction fails stay owed. |
| `Engines.Engine.ApplySignal` | `internal/engine/reconcile.go:546-567` | Cancels on the reserved name; otherwise the signal is stored behind the others with its name and payload, no earlier one is changed but for being taken, and the run is reconciled. |
| `Engines.Engine.CancelRun` | `internal/engine/reconcile.go:570-600` | Does nothing to a terminal run; otherwise the run and every step not over are CANCELLED, no timer is pending, one event is logged, and steps that are over, attempts, outbox and signals are as they were. |
| `Engines.Engine.CancelOpenSteps` | `internal/engine/reconcile.go:583-590` | Exactly the non-terminal steps become CANCELLED. |
| `Storage.Store.constructor` | `internal/store/memory/memory.go:249-267` | A new run: every step PENDING without attempts, everything else empty, one event. |
| `Storage.Store.UpdateWorkflowRunStatus` | `internal/store/memory/memory.go:217-240` | Changes the run iff its status is expected, keeping output and error unless new ones are given. |
| `Storage.Store.UpdateStepStatus` | `internal/store/memory/memory.go:303-329` | Changes the one step iff its status is expected. |
| `Storage.Store.CreateTaskAttempt` | `internal/store/memory/memory.go:338-345` | Appends a queued attempt with a fresh id and key. |
| `Storage.Store.ClaimTaskAttempt` | `internal/store/memory/memory.go:352-368` | Leases the attempt iff it is queued and the key is its own; tells an unknown attempt from a taken one. |
| `Storage.Store.HeartbeatTaskAttempt` | `internal/store/memory/memory.go:375-383` | Extends the lease iff the worker holds it. |
| `Storage.Store.CompleteTaskAttempt` | `internal/store/memory/memory.go:390-410` | Settles the attempt iff the worker holds its lease. |
| `Storage.Store.ReapExpiredAttempts` | `internal/store/memory/memory.go:417-433` | Marks distinct attempts, at most limit: those held past the time of their last claim or heartbeat, and all of them if there are fewer. |
| `Storage.Store.InsertOutboxMessage` | `internal/store/memory/memory.go:471-479` | Appends a pending row. |
| `Storage.Store.FetchAndLockPendingOutbox` | `internal/store/memory/memory.go:486-511` | The pending rows in order of id, at most limit, none for a run of another shard. |
| `Storage.Store.MarkOutboxPublished` | `internal/store/memory/memory.go:517-524` | Marks the one row, if it exists. |
| `Storage.Store.InsertTimer` | `internal/store/memory/memory.go:533-545` | Appends a pending timer with its due time. |
| `Storage.Store.ListDueTimers` | `internal/store/memory/memory.go:552-572` | Distinct pending timers whose time has come, at most limit, all of them if there are fewer, none for a run of another shard. |
| `Storage.Store.FireTimerCAS` | `internal/store/memory/memory.go:579-588` | Fires a timer iff it is pending, so only once. |
| `Storage.Store.CancelTimersForRun` | `internal/store/memory/memory.go:595-602` | Exactly the pending timers become cancelled. |
| `Storage.Store.InsertSignal` | `internal/store/memory/memory.go:611-618` | Appends an unprocessed signal. |
| `Storage.Store.ListUnprocessedSignals` | `internal/store/memory/memory.go:625-634` | The unprocessed signals in order of arrival. |
| `Storage.Store.MarkSignalProcessed` | `internal/store/memory/memory.go:641-648` | Marks a signal iff it was unprocessed, so only once. |
| `Storage.Store.AppendHistory` | `internal/store/memory/memory.go:657-669` | Appends an event with the next number. |
| `Storage.FirstMatchIsOldest` | `internal/engine/reconcile.go:187-194` | The first match in the list of unprocessed signals is the oldest unprocessed signal of that name. |
| `Storage.UnprocessedAscending` | `internal/store/memory/memory.go:625-634` | The list of unprocessed signals is ascending, contains only such signals, and all of them. |
| `Storage.ExpireAllLeads` | `internal/store/memory/memory.go:417-433` | Marking a batch of leases is a sequence of single expiries. |
| `Registry.Definitions.Register` | `internal/engine/engine.go:54-63` | Stores a definition iff it is well formed and its name and version are new; the refusal explains the first problem. The rows of its runs have every column as declared, or the default where it is unset. |
| `Registry.Definitions.Lookup` | `internal/engine/engine.go:70-79` | The version asked for, or the latest, and nothing iff there is none. |
| `Registry.Definitions.CreateRun` | `internal/engine/engine.go:69-117` | A run of the chosen definition, reachable and after its first pass, iff the definition exists; one row per step and no other, column by column as the definition says, each with a positive retry policy. |
| `Server.WorkerService.ClaimTask` | `internal/grpcapi/server.go:78-131` | Each answer exactly in its case; CLAIMED only in a live run, with what the message of the attempt announced and the lease end; the step is then RUNNING if it was QUEUED, and nothing else is changed. |
| `Server.AssignmentMatchesMessage` | `internal/grpcapi/server.go:114-131` | Whatever lease it is given, an attempt is assigned with the step, type, input, number and timeout of its message. |
| `Server.WorkerService.Answer` | `internal/grpcapi/server.go:103-131` | The second half of a claim, at any later moment: a cancelled run is answered so, otherwise the answer carries the row as it was claimed and the step is shown as running iff it is still queued. |
| `Server.NoClaimAfterEnd` | `internal/grpcapi/server.go:78-131` | Whatever happens between the end of a run, a claim and the look at the run, a claim that succeeds finds the run cancelled; in a COMPLETED or FAILED run none succeeds. |
| `Server.ClaimableRun` | `internal/grpcapi/server.go:103-112` | A COMPLETED or FAILED run holds no claimable attempt. |
| `Relay.OutboxRelay.Tick` | `internal/outbox/relay.go:59-82` | For a failure at any row, before or after its publish, with or without rollback: the rows up to it are published in order, so is one whose mark fails, exactly the right ones are marked, and the store stays reachable; a full tick leaves nothing pending. |
| `Relay.OutboxRelay.RelayRows` | `internal/outbox/relay.go:70-78` | Publishes and marks row after row, stopping at the first failure. |
| `Relay.TickLeads` | `internal/outbox/relay.go:65-80` | Publishing some rows and marking a part of them is a sequence of relay actions. |
| `Relay.MessagesInOrder` | `internal/outbox/relay.go:70-78` | The rows are published one message each, in their order, with stream and payload of the row. |
| `Relay.FetchedArePending` | `internal/store/memory/memory.go:486-511` | The fetched rows are pending, ascending, at most limit, and all pending ones if fewer. |
| `Polling.TimerPoller.Tick` | `internal/timers/poller.go:48-64` | Fires pending timers whose time has come and no others, at most a batch; each whose transaction goes through is pending no more, no timer moves, and the store stays reachable. |
| `Polling.TimersStayDue` | `internal/store/memory/memory.go:533-602` | Whatever happens in a run, a timer stays in the table, for its step, due when it was. |
| `Polling.RetryWaitsOut` | `internal/engine/reconcile.go:407-430` | No retry comes early: a timer found due has waited out at least 80% of the planned delay since the failure, less the millisecond cut off. |
| `Cycles.FindCycle` | `internal/workflowdsl/dsl.go:141-179` | Answers "" iff the graph is acyclic; any other answer lies on a cycle. |
| `Cycles.CycleFinder.Visit` | `internal/workflowdsl/dsl.go:154-170` | Terminates, and either blackens everything below the step and restores the stack, or answers with a step on a cycle. |
| `Cycles.AcyclicHasRoot` | `internal/workflowdsl/dsl.go:115-131` | An acyclic graph has a step without dependencies, so the root check never rejects one. |
| `Dsl.Definition.Validate` | `internal/workflowdsl/dsl.go:71-137` | Accepts iff the definition is well formed, filling in all defaults and yielding a DAG the engine can run; otherwise reports the first failing check. |
| `Dsl.Definition.FillDefaults` | `internal/workflowdsl/dsl.go:82-113` | Stops at the first unnamed, repeated or untyped step, having filled in exactly the steps before it. |
| `Dsl.Definition.CheckDependencies` | `internal/workflowdsl/dsl.go:115-131` | Stops at the first unknown or self dependency, then asks for a root. |
| `Dsl.Definition.CheckCycles` | `internal/workflowdsl/dsl.go:133-136` | Reports a step on a cycle, or the graph is acyclic. |
| `Dsl.Filled` | `internal/workflowdsl/dsl.go:95-109` | Exactly the unset fields get their default. |
| `Dsl.ExplainedIsIllFormed` | `internal/workflowdsl/dsl.go:71-137` | Every problem that can be reported is one no well-formed definition has. |
| `Dsl.ValidatedDag` | `internal/workflowdsl/dsl.go:183-199` | The step rows of a validated definition form a closed, ranked DAG with at least one attempt per step: one row per step and no other, each column as set in the definition, or 1 attempt, 1000 ms, 2.0, 60 s, 30 s and {} where unset. |
| `Dsl.DagDeclared` | `internal/workflowdsl/dsl.go:183-199` | The same rows for any definition with distinct step names. |
| `Dsl.DefaultedTwice` | `internal/workflowdsl/dsl.go:95-112` | Filling in the defaults a second time changes nothing. |
| `Dsl.BlankIffTrimsAway` | `internal/workflowdsl/dsl.go:72` | A string counts as missing iff trimming white space at both ends leaves nothing. |
| `Ring.HashRing.constructor` | `internal/scheduler/ring.go:27-41` | The sorted hashes are exactly the points of the ring, with 32 replicas when none are asked for. |
| `Ring.PointsExactly` | `internal/scheduler/ring.go:32-37` | A hash is a point of the ring iff it is that of some replica of some node of the list, and then it is the point of the last such node. |
| `Ring.WithoutKeepsOthers` | `internal/scheduler/ring.go:32-37` | Taking a node off a list leaves every other node, as often as it was there. |
| `Ring.HashRing.Search` | `internal/scheduler/ring.go:48` | Binary search finds the first hash at or above the key. |
| `Ring.HashRing.Get` | `internal/scheduler/ring.go:44-53` | The owner is the node at the least hash at or above the key, or at the least hash of all; "" for an empty ring. |
| `Ring.AssignShards` | `internal/scheduler/ring.go:61-68` | Every shard has the owner that a ring of 32 replicas per node gives it, a node of the list if there is one. |
| `Ring.OwnerUnique` | `internal/scheduler/ring.go:44-53` | A key has at most one owner. |
| `Ring.MinimalMovement` | `internal/scheduler/ring.go:27-53` | Removing a node moves only the keys it owned, and adding one moves keys only to it, through hash collisions. |
| `Ring.ShardsMoveMinimally` | `internal/scheduler/ring.go:61-68` | The same over a whole shard assignment. |
| `Policies.ValidatedPolicy` | `internal/workflowdsl/dsl.go:98-106` | Every step of a validated definition has a positive first delay, multiplier and cap, as the lemmas on delays require. |
| `Policies.AcceptedDelaysMayFall` | `internal/workflowdsl/dsl.go:101-103` | A definition with multiplier 0.5 is well formed, and its delays fall at some attempt. |
| `Policies.AcceptedDelayMayPassCap` | `internal/workflowdsl/dsl.go:98-106` | A definition whose first delay equals the cap is well formed, and some draw passes the cap. |
| `Backoff.ClosedFormMatchesIff` | `internal/engine/reconcile.go:454-458` | The closed form equals multiplying and capping attempt by attempt, at all attempts, iff the multiplier is at least 1 or the first delay is within the cap. |
| `Backoff.MonotoneIff` | `internal/engine/reconcile.go:454-458` | Delays before jitter never fall iff the multiplier is at least 1. |
| `Backoff.DelayBounds` | `internal/engine/reconcile.go:454-461` | The delay before jitter is positive and at most the cap; the final delay is within 20% of it, up to the millisecond cut off. |
| `Backoff.DelayIsNearPlanned` | `internal/engine/reconcile.go:454-461` | The delay is within 20%, less a millisecond, of multiplying and capping attempt by attempt where that agrees with the closed form, and of the capped power otherwise. |
| `Backoff.DelayMayPassCapIff` | `internal/engine/reconcile.go:454-461` | Some draw takes the final delay past the cap iff 1.2 times the capped delay exceeds the cap by more than a millisecond. |

## Left out

- Several runs at once: the model holds the rows of one run; runs share no row, and a batch of the relay or the reaper is modelled as its part for this run.
- `internal/store/postgres`: SQL and isolation levels; the memory store under its single mutex gives the semantics of a transaction.
- Error paths of the memory store that leave rows behind, such as a signal for an unknown run: calls are on an existing run.
- `Polling.TimerPoller.Tick`: a transaction that fails is rolled back, as a database does; the memory store would keep what it had written.
- `Engines.Engine.ReapExpiredLeases`: a transaction that fails is rolled back, as a database does; the memory store would keep what it had written.
- `Finishing.RunCanFinish`: what can happen, not what will: no fairness of workers, pollers or callers is modelled.
- `Backoff.ComputeBackoff`: floating-point rounding and overflow of the duration; delays are computed over the reals.
- `Ring.HashRing.constructor`: CRC32 is any function to 32-bit values, and the sort is an insertion sort.
- `Storage.Store.ListUnprocessedSignals`: signals with equal time stamps are taken in the order of insertion, which the unstable sort does not promise.
- `Storage.Store.FetchAndLockPendingOutbox`: the shard filter is a flag, as all rows are of one run.
- `Storage.Store.ListDueTimers`: the shard filter is a flag, as all rows are of one run.
- `Storage.Store.UpdateWorkflowRunStatus`: time stamps, and the error text beyond the name of the failed step; nothing in the engine reads them.
- `Storage.Store.UpdateStepStatus`: the error column and time stamps, which nothing in the engine decides on.
- `Storage.Store.CompleteTaskAttempt`: the result and error columns of an attempt, which are written and only displayed; the step's output is modelled.
- `Registry.Definitions.CreateRun`: the run's own input and its shard, which are stored and not used by a pass.
- `Evaluator.SchedulerRefinesEvaluator`: cancelled runs, whose statuses depend on when the cancellation came.
- JSON and YAML decoding: inputs and payloads are opaque, and the wanted signal name of a step is given with the step instead of read from its input.
- Heartbeat and ReportResult of the gRPC server: they parse identifiers and call operations that are modelled.
- List and filter queries, shard recovery and the run-to-shard hash: they read rows or group runs and change no run.
- Redis streams and locks, the scheduler's leader election, and the loops that call the pollers, the reaper and the worker again and again: they only choose which modelled action comes next.
- HTTP API, authentication, configuration, worker registry, generated code, load test and frontend.
