/** What can still move in a run and when it can come to an end; and the two things that
    stop it for good: an expired attempt whose outcome is never applied, and a step that
    waits for the one signal that is never stored.  What can happen is shown by whole
    transactions, what cannot by all traces of actions. */
module Moving {
  import opened Rows
  import opened Dags
  import opened Transitions
  import opened Invariants
  import opened Verdicts
  import opened Ownership
  import opened Reconciling
  import opened Skips
  import opened Convergence
  import opened Effects
  import opened Bounds
  import opened Evaluator
  import opened Results
  import opened Transactions
  import opened StaleTimers
  import Settling

  // ------------------------------------------------------------- what is lost

  /** The action does not cancel the run, and does not apply an outcome that is lost. */
  predicate Spares(act: Action, lost: set<nat>) {
    !act.Cancel? && (act.ApplyExpiry? ==> act.a !in lost)
  }

  predicate ActionsSpare(tr: seq<Action>, lost: set<nat>) {
    forall i :: 0 <= i < |tr| ==> Spares(tr[i], lost)
  }

  predicate AllSpare(txs: seq<Transaction>, lost: set<nat>) {
    forall i :: 0 <= i < |txs| ==> txs[i].Pass? || Spares(txs[i].act, lost)
  }

  /** The step's attempt is among the lost ones. */
  ghost predicate Stranded(w: World, lost: set<nat>, n: Name) {
    exists a :: a in lost && a < |w.attempts| && w.attempts[a].step == n
  }

  /** Attempt a is owed its outcome, by a step in hand of a live run. */
  ghost predicate Owes(w: World, a: nat, n: Name) {
    && a in w.owed && a < |w.attempts| && w.attempts[a].step == n
    && n in w.steps && InHand(w.steps[n].status) && !RunTerminal(w.run.status)
  }

  lemma OwedIsInHand(d: Dag, w: World, a: nat)
    requires ValidDag(d) && Reachable(d, w) && a in w.owed && w.run.status != RunCancelled
    ensures a < |w.attempts| && Owes(w, a, w.attempts[a].step)
  {
    hide Reachable, ValidDag, TimersOk, OutboxOk, SignalsOk;
    ReachableInv(d, w);
    var n := w.attempts[a].step;
    LiveAttempt(d, w.steps, w.attempts, w.owed, a);
    LiveRunHasNoCancelledStep(d, w, n);
  }

  lemma OutcomeSparesOwed(d: Dag, w: World, act: Action, a: nat, n: Name)
    requires Owes(w, a, n) && Enabled(d, w, act) && Spares(act, {a}) && (act.Report? || act.ApplyExpiry?)
    ensures var w' := Apply(d, w, act);
      && a in w'.owed && a < |w'.attempts| && w'.attempts[a].step == n && w'.run.status == w.run.status
  {
    hide Outcome;
    match act
    case Report(b, _, success, output, due) =>
      OutcomeShape(d, SetAttempt(w, b, if success then AttemptSucceeded else AttemptFailed), b, success, output, due);
    case ApplyExpiry(b, due) => OutcomeShape(d, w.(owed := w.owed - {b}), b, false, None, due);
  }

  lemma OtherSparesOwed(d: Dag, w: World, act: Action, a: nat, n: Name)
    requires Owes(w, a, n) && Enabled(d, w, act) && Spares(act, {a}) && !act.Report? && !act.ApplyExpiry?
    ensures var w' := Apply(d, w, act);
      && a in w'.owed && a < |w'.attempts| && w'.attempts[a].step == n && w'.run.status != RunCancelled
  {
    hide FindSignal, Blocked, DepsCompleted, AnyActive, CancelTimers, Outputs;
  }

  /** Nothing but its own application, or cancelling the run, ever delivers an owed
      outcome: meanwhile its step stays in hand and the run live. */
  lemma {:induction false} LostOutcomeStays(d: Dag, w: World, tr: seq<Action>, a: nat)
    requires ValidDag(d) && Reachable(d, w) && a in w.owed && w.run.status != RunCancelled
    requires Valid(d, w, tr) && ActionsSpare(tr, {a})
    ensures a < |w.attempts| && Owes(After(d, w, tr), a, w.attempts[a].step)
    decreases |tr|
  {
    hide Enabled, Apply, Owes, Reachable, ValidDag;
    OwedIsInHand(d, w, a);
    if tr != [] {
      var k := |tr| - 1;
      var w1, w' := After(d, w, tr[..k]), After(d, w, tr);
      LostOutcomeStays(d, w, tr[..k], a);
      if tr[k].Report? || tr[k].ApplyExpiry? {
        OutcomeSparesOwed(d, w1, tr[k], a, w.attempts[a].step);
      } else {
        OtherSparesOwed(d, w1, tr[k], a, w.attempts[a].step);
      }
      TraceReaches(d, w, tr);
      OwesLive(w1, a, w.attempts[a].step);
      OwedIsInHand(d, w', a);
    }
  }

  lemma OwesLive(w: World, a: nat, n: Name)
    requires Owes(w, a, n)
    ensures w.run.status != RunCancelled
  {
  }

  lemma TraceReaches(d: Dag, w: World, tr: seq<Action>)
    requires Reachable(d, w) && Valid(d, w, tr)
    ensures Reachable(d, After(d, w, tr))
  {
    assert Leads(d, w, After(d, w, tr));
    StepKeepsReachable(d, w, After(d, w, tr));
  }

  lemma SparingTrace(d: Dag, w: World, txs: seq<Transaction>, lost: set<nat>) returns (tr: seq<Action>)
    requires Committable(d, w, txs) && AllSpare(txs, lost)
    ensures Valid(d, w, tr) && After(d, w, tr) == Committed(d, w, txs) && ActionsSpare(tr, lost)
  {
    hide Committable, Committed, Valid, After;
    tr := TransactionsTrace(d, w, txs);
    forall i | 0 <= i < |tr| ensures Spares(tr[i], lost) {
      assert PartOfSome(tr[i], txs);
      if !ReconcileAction(tr[i]) {
        var j :| 0 <= j < |txs| && PartOf(tr[i], txs[j]);
      }
    }
  }

  lemma SparesFewer(tr: seq<Action>, lost: set<nat>, a: nat)
    requires ActionsSpare(tr, lost) && a in lost
    ensures ActionsSpare(tr, {a})
  {
    forall i | 0 <= i < |tr| ensures Spares(tr[i], {a}) {
      assert Spares(tr[i], lost);
    }
  }

  // ---------------------------------------------------- what is never answered

  /** A signal_wait step that wants the reserved name. */
  predicate Unanswerable(d: Dag, n: Name) {
    n in d && SignalWait(d, n) && WantedSignal(d, n) == CANCEL_SIGNAL
  }

  /** A path of dependencies from n down to a task that has not completed. */
  ghost predicate AwaitsTask(d: Dag, steps: map<Name, Step>, n: Name, p: seq<Name>) {
    && Path(Edges(d), p) && |p| > 1 && p[0] == n
    && p[|p| - 1] in d && p[|p| - 1] in steps && !SignalWait(d, p[|p| - 1]) && steps[p[|p| - 1]].status != StepCompleted
  }

  /** An open step that is never answered, and cannot be skipped either: no task it
      depends on, directly or not, can still fail or has failed. */
  ghost predicate DeadEnd(d: Dag, w: World, n: Name) {
    && Unanswerable(d, n) && n in w.steps && !StepTerminal(w.steps[n].status)
    && forall p :: !AwaitsTask(d, w.steps, n, p)
  }

  ghost predicate NoDeadEnds(d: Dag, w: World) {
    forall n :: !DeadEnd(d, w, n)
  }

  lemma NoReservedSignal(d: Dag, w: World, i: nat)
    requires ValidDag(d) && Reachable(d, w) && i < |w.signals|
    ensures w.signals[i].name != CANCEL_SIGNAL
  {
    hide Reachable, ValidDag, StepsOk, AttemptsOk, TimersOk, OutboxOk, RunOk, ConsumedOk, Fifo, OneSignalEach, EachHasSignal;
    ReachableInv(d, w);
  }

  /** An unanswerable step never completes. */
  lemma NeverAnswered(d: Dag, w: World, n: Name)
    requires ValidDag(d) && Reachable(d, w) && Unanswerable(d, n) && n in w.steps
    ensures w.steps[n].status != StepCompleted
  {
    hide Reachable, ValidDag;
    if w.steps[n].status == StepCompleted {
      var i := CompletedWaitConsumedOne(d, w, n);
      NoReservedSignal(d, w, i);
    }
  }

  lemma {:induction false} TerminalRowsStay(d: Dag, w: World, tr: seq<Action>, n: Name)
    requires ValidDag(d) && Reachable(d, w) && Valid(d, w, tr) && n in d
    ensures n in w.steps && n in After(d, w, tr).steps
    ensures StepTerminal(w.steps[n].status) ==> After(d, w, tr).steps[n] == w.steps[n]
    decreases |tr|
  {
    hide Enabled, Apply, Reachable, ValidDag, StepOk;
    StepsAlong(d, w, []);
    StepsAlong(d, w, tr);
    if tr != [] {
      var k := |tr| - 1;
      TerminalRowsStay(d, w, tr[..k], n);
      StepsAlong(d, w, tr[..k]);
      if StepTerminal(w.steps[n].status) {
        TerminalRowStays(d, After(d, w, tr[..k]), tr[k], n);
      }
    }
  }

  lemma FailedIsTask(d: Dag, w: World, n: Name)
    requires ValidDag(d) && Reachable(d, w) && n in w.steps && w.steps[n].status == StepFailed
    ensures n in d && !SignalWait(d, n)
  {
    ReachableSteps(d, w);
    assert StepOk(d, w.steps, n);
  }

  /** Whatever happens, a run with a dead end does not complete or fail. */
  lemma DeadEndStays(d: Dag, w: World, tr: seq<Action>, n: Name)
    requires ValidDag(d) && Reachable(d, w) && DeadEnd(d, w, n) && Valid(d, w, tr)
    ensures After(d, w, tr).run.status != RunCompleted && After(d, w, tr).run.status != RunFailed
  {
    hide Enabled, Apply, Reachable, ValidDag, Path;
    var w' := After(d, w, tr);
    TraceReaches(d, w, tr);
    TerminalRowsStay(d, w, tr, n);
    NeverAnswered(d, w', n);
    if w'.run.status == RunCompleted {
      CompletedRunCompletesAll(d, w', n);
    } else if w'.run.status == RunFailed {
      var p := FailedRunHasFailedStep(d, w', n);
      WaitDoesNotFail(d, w', n);
      LongChain(d, w'.steps, n, p);
      FailedIsTask(d, w', p[|p| - 1]);
      TerminalRowsStay(d, w, tr, p[|p| - 1]);
      FailedWasAwaited(d, w.steps, w'.steps, n, p);
    }
  }

  /** A task that has failed since had not completed. */
  lemma FailedWasAwaited(d: Dag, steps: map<Name, Step>, steps': map<Name, Step>, n: Name, p: seq<Name>)
    requires Path(Edges(d), p) && |p| > 1 && p[0] == n
    requires var f := p[|p| - 1];
      && f in d && f in steps && f in steps' && !SignalWait(d, f) && steps'[f].status == StepFailed
      && (StepTerminal(steps[f].status) ==> steps'[f] == steps[f])
    ensures AwaitsTask(d, steps, n, p)
  {
    hide Path;
  }

  /** A signal_wait step does not fail. */
  lemma WaitDoesNotFail(d: Dag, w: World, n: Name)
    requires ValidDag(d) && Reachable(d, w) && n in w.steps && n in d && SignalWait(d, n)
    ensures w.steps[n].status != StepFailed
  {
    hide Reachable, ValidDag;
    if w.steps[n].status == StepFailed {
      FailedIsTask(d, w, n);
    }
  }

  lemma LongChain(d: Dag, steps: map<Name, Step>, n: Name, p: seq<Name>)
    requires FailureChain(d, steps, n, p) && n in steps && steps[n].status != StepFailed
    ensures Path(Edges(d), p) && |p| > 1 && p[0] == n
  {
  }

  // ------------------------------------------------------------ passes in between

  lemma AnySchedule(d: Dag, w: World) returns (sch: Schedule)
    requires w.steps.Keys == d.Keys
    ensures Fits(d, w, sch)
  {
    var order := SomeOrder(d.Keys);
    sch := Settling.SomeSchedule(d, order);
    hide Orders, Swept;
    if !RunTerminal(w.run.status) {
      var failed := Settling.NameFailure(d, w, sch);
      sch := sch.(failed := failed);
    }
  }

  /** An action of a pass leaves decided rows, and the reaper's lists, as they are. */
  lemma PassActionKeeps(d: Dag, w: World, act: Action, n: Name)
    requires ReconcileAction(act) && Enabled(d, w, act) && n in w.steps
    requires !Undispatched(w.steps[n].status) && w.steps[n].status != StepWaiting
    ensures n in Apply(d, w, act).steps && Apply(d, w, act).steps[n] == w.steps[n] && Apply(d, w, act).owed == w.owed
  {
    hide FindSignal, Blocked, DepsCompleted, AllTerminal, AnyActive, CancelTimers, Outputs, NamesFailure, Verdict, VerdictEvent;
  }

  lemma {:induction false} PassActionsKeep(d: Dag, w: World, tr: seq<Action>, n: Name)
    requires Valid(d, w, tr) && PassActions(tr) && n in w.steps
    requires !Undispatched(w.steps[n].status) && w.steps[n].status != StepWaiting
    ensures n in After(d, w, tr).steps && After(d, w, tr).steps[n] == w.steps[n] && After(d, w, tr).owed == w.owed
    decreases |tr|
  {
    hide Enabled, Apply;
    if tr != [] {
      var k := |tr| - 1;
      PassActionsKeep(d, w, tr[..k], n);
      PassActionKeeps(d, After(d, w, tr[..k]), tr[k], n);
    }
  }

  lemma PassKeepsRow(d: Dag, w: World, sch: Schedule, n: Name)
    requires Fits(d, w, sch) && n in w.steps && !Undispatched(w.steps[n].status) && w.steps[n].status != StepWaiting
    ensures n in Reconcile(d, w, sch).steps && Reconcile(d, w, sch).steps[n] == w.steps[n]
  {
    hide Fits, Reconcile, Enabled, Apply;
    var tr := ReconcileTrace(d, w, sch);
    PassActionsKeep(d, w, tr, n);
  }

  lemma RowsOf(d: Dag, w: World, act: Action)
    requires ValidDag(d) && Reachable(d, w) && Enabled(d, w, act)
    ensures Apply(d, w, act).steps.Keys == d.Keys
  {
    hide Enabled, Apply, Reachable, ValidDag;
    ActionKeepsReachable(d, w, act);
    ReachableKeys(d, Apply(d, w, act));
  }

  lemma ReachableKeys(d: Dag, w: World)
    requires ValidDag(d) && Reachable(d, w)
    ensures w.steps.Keys == d.Keys && StepsOk(d, w.steps)
  {
    ReachableSteps(d, w);
  }

  /** Commits an action together with a pass that leaves its step alone. */
  lemma CommitWithPass(d: Dag, w: World, act: Action, n: Name) returns (tx: Transaction)
    requires ValidDag(d) && Reachable(d, w) && CommitsWithPass(act) && Enabled(d, w, act)
    requires n in Apply(d, w, act).steps
    requires !Undispatched(Apply(d, w, act).steps[n].status) && Apply(d, w, act).steps[n].status != StepWaiting
    ensures tx.WithPass? && tx.act == act && Possible(d, w, tx)
    ensures n in Commit(d, w, tx).steps && Commit(d, w, tx).steps[n] == Apply(d, w, act).steps[n]
  {
    hide Enabled, Apply, Reachable, ValidDag, Fits, Reconcile;
    RowsOf(d, w, act);
    var sch := AnySchedule(d, Apply(d, w, act));
    tx := WithPass(act, sch);
    PassKeepsRow(d, Apply(d, w, act), sch, n);
  }

  // ------------------------------------------------------------ how steps advance

  /** What a step gets to: out of hand, out of backoff with a new attempt, past its
      signal.  Cancelling is no advance. */
  predicate Advanced(s: Step, s': Step) {
    && s'.status != StepCancelled
    && match s.status
       case StepQueued => !InHand(s'.status)
       case StepRunning => !InHand(s'.status)
       case StepRetryBackoff => s'.status == StepQueued && s'.attemptCount == s.attemptCount + 1
       case StepWaiting => s'.status == StepCompleted
       case _ => false
  }

  /** The reaper is not needed. */
  predicate NoReaper(txs: seq<Transaction>) {
    forall i :: 0 <= i < |txs| ==> txs[i].Pass? || (!txs[i].act.Expire? && !txs[i].act.ApplyExpiry?)
  }

  /** At most three transactions advance step m.  They spare what is lost, and need the
      reaper only for what is owed. */
  ghost predicate Advances(d: Dag, w: World, lost: set<nat>, txs: seq<Transaction>, m: Name) {
    && 1 <= |txs| <= 3 && Committable(d, w, txs) && AllSpare(txs, lost)
    && m in w.steps && m in Committed(d, w, txs).steps && Advanced(w.steps[m], Committed(d, w, txs).steps[m])
    && (w.owed == {} ==> NoReaper(txs))
  }

  lemma LiveRow(d: Dag, w: World, a: nat)
    requires ValidDag(d) && Reachable(d, w) && a < |w.attempts|
    ensures var at := w.attempts[a];
      && at.step in d && at.step in w.steps && at.idempotencyKey == a
      && (at.status == AttemptLeased ==> at.leaseOwner.Some? && at.leaseExpiresAt.Some?)
      && (a in w.owed ==> at.status == AttemptExpired)
  {
    ReachableInv(d, w);
    assert AttemptOk(d, w.steps, w.attempts, w.owed, a);
  }

  /** The message of an attempt is on its stream, or the relay puts it there. */
  lemma MessageArrives(d: Dag, w: World, a: nat) returns (txs: seq<Transaction>, w1: World)
    requires ValidDag(d) && Reachable(d, w) && a < |w.attempts|
    ensures |txs| <= 1 && Committable(d, w, txs) && w1 == Committed(d, w, txs) && OnStream(w1, a, a)
    ensures w1 == w.(stream := w1.stream) && forall i :: 0 <= i < |txs| ==> txs[i].Alone? && txs[i].act.Publish?
  {
    hide Reachable, ValidDag;
    OutboxRow(d, w, a);
    if w.outbox[a].published {
      txs, w1 := [], w;
      RowIsOnStream(w, a);
    } else {
      var tx := Alone(Publish(a));
      First(d, w, tx);
      txs, w1 := [tx], Commit(d, w, tx);
      assert w1.stream[|w.stream|] == MessageOf(w.outbox[a]);
    }
  }

  lemma OutboxRow(d: Dag, w: World, a: nat)
    requires ValidDag(d) && Reachable(d, w) && a < |w.attempts|
    ensures a < |w.outbox| && w.outbox[a].payload.attempt == a && w.outbox[a].payload.idempotencyKey == a
    ensures w.outbox[a].published ==> MessageOf(w.outbox[a]) in w.stream
  {
    hide Reachable, ValidDag;
    LiveRow(d, w, a);
    OutboxMatchesAttempts(d, w, a);
    RelayNeitherInventsNorLoses(d, w, MessageOf(w.outbox[a]), a);
  }

  lemma RowIsOnStream(w: World, a: nat)
    requires a < |w.outbox| && w.outbox[a].payload.attempt == a && w.outbox[a].payload.idempotencyKey == a
    requires MessageOf(w.outbox[a]) in w.stream
    ensures OnStream(w, a, a)
  {
    var i :| 0 <= i < |w.stream| && w.stream[i] == MessageOf(w.outbox[a]);
  }

  /** What the worker's report makes of a step in hand. */
  predicate SettledAs(s: Step, success: bool) {
    !InHand(s.status) && !Undispatched(s.status) && s.status != StepWaiting && s.status != StepCancelled
    && (success <==> s.status == StepCompleted)
  }

  lemma ReportSettles(d: Dag, w: World, a: nat, worker: string, n: Name, success: bool)
    requires Enabled(d, w, Report(a, worker, success, None, 0)) && w.attempts[a].step == n && InHand(w.steps[n].status)
    ensures var w' := Apply(d, w, Report(a, worker, success, None, 0)); n in w'.steps && SettledAs(w'.steps[n], success)
  {
  }

  lemma ExpirySettles(d: Dag, w: World, a: nat, n: Name)
    requires Enabled(d, w, ApplyExpiry(a, 0)) && w.attempts[a].step == n && InHand(w.steps[n].status)
    ensures var w' := Apply(d, w, ApplyExpiry(a, 0)); n in w'.steps && SettledAs(w'.steps[n], false)
  {
  }

  /** A leased attempt is reported, as a success or a failure. */
  lemma LeasedSettles(d: Dag, w: World, a: nat, success: bool) returns (tx: Transaction)
    requires ValidDag(d) && Reachable(d, w) && a < |w.attempts| && w.attempts[a].status == AttemptLeased
    requires w.attempts[a].step in w.steps && InHand(w.steps[w.attempts[a].step].status)
    ensures tx.WithPass? && tx.act.Report? && tx.act.success == success && Possible(d, w, tx)
    ensures var n := w.attempts[a].step; n in Commit(d, w, tx).steps && SettledAs(Commit(d, w, tx).steps[n], success)
  {
    hide Reachable, ValidDag, Outcome, Commit, Possible;
    LiveRow(d, w, a);
    var act := Report(a, w.attempts[a].leaseOwner.value, success, None, 0);
    ReportSettles(d, w, a, w.attempts[a].leaseOwner.value, w.attempts[a].step, success);
    tx := CommitWithPass(d, w, act, w.attempts[a].step);
  }

  /** The transaction neither cancels nor marks leases; it applies attempt a's outcome at
      most, if that is owed, and reports nothing but `success`. */
  predicate Mild(tx: Transaction, success: bool, a: nat, owed: bool) {
    || tx.Pass?
    || (&& !tx.act.Cancel? && !tx.act.Expire? && (tx.act.ApplyExpiry? ==> owed && tx.act.a == a)
        && (tx.act.Report? ==> tx.act.success == success))
  }

  predicate AllMild(txs: seq<Transaction>, success: bool, a: nat, owed: bool) {
    forall i :: 0 <= i < |txs| ==> Mild(txs[i], success, a, owed)
  }

  /** At most three mild transactions settle step n, whose live attempt is a. */
  ghost predicate SettlesStep(d: Dag, w: World, txs: seq<Transaction>, n: Name, success: bool, a: nat) {
    && 1 <= |txs| <= 3 && Committable(d, w, txs) && AllMild(txs, success, a, a in w.owed)
    && n in Committed(d, w, txs).steps && SettledAs(Committed(d, w, txs).steps[n], success && a !in w.owed)
  }

  lemma ClaimLeases(d: Dag, w: World, a: nat)
    requires a < |w.attempts| && w.attempts[a].status == AttemptQueued && w.attempts[a].idempotencyKey == a && OnStream(w, a, a)
    ensures Possible(d, w, Alone(Claim(a, a, "worker", 0)))
    ensures var w' := Commit(d, w, Alone(Claim(a, a, "worker", 0)));
      && a < |w'.attempts| && w'.attempts[a].status == AttemptLeased && w'.attempts[a].step == w.attempts[a].step
      && w'.steps == w.steps
  {
  }

  lemma QueuedSettles(d: Dag, w: World, a: nat, n: Name, success: bool) returns (txs: seq<Transaction>)
    requires ValidDag(d) && Reachable(d, w) && a < |w.attempts| && w.attempts[a].status == AttemptQueued && a !in w.owed
    requires w.attempts[a].step == n && n in w.steps && InHand(w.steps[n].status)
    ensures SettlesStep(d, w, txs, n, success, a)
  {
    hide Reachable, ValidDag, Possible, Commit, Apply, Enabled, Committable, Committed, OnStream;
    LiveRow(d, w, a);
    var first, w1 := MessageArrives(d, w, a);
    var claim := Alone(Claim(a, a, "worker", 0));
    ClaimLeases(d, w1, a);
    var w2 := Commit(d, w1, claim);
    Extend(d, w, first, claim);
    CommittedReachable(d, w, first + [claim]);
    var report := LeasedSettles(d, w2, a, success);
    Extend(d, w, first + [claim], report);
    txs := first + [claim] + [report];
  }

  /** A step in hand is settled by its worker, or by the reaper if its attempt is owed. */
  lemma InHandSettles(d: Dag, w: World, n: Name, success: bool) returns (txs: seq<Transaction>, a: nat)
    requires ValidDag(d) && Reachable(d, w) && n in w.steps && InHand(w.steps[n].status)
    ensures a < |w.attempts| && w.attempts[a].step == n && SettlesStep(d, w, txs, n, success, a)
  {
    hide Reachable, ValidDag, Commit, Possible, Outcome;
    a := InHandStepHasLiveAttempt(d, w, n);
    LiveRow(d, w, a);
    if w.attempts[a].status == AttemptQueued {
      txs := QueuedSettles(d, w, a, n, success);
    } else if w.attempts[a].status == AttemptLeased {
      var report := LeasedSettles(d, w, a, success);
      First(d, w, report);
      txs := [report];
    } else {
      ExpirySettles(d, w, a, n);
      var tx := CommitWithPass(d, w, ApplyExpiry(a, 0), n);
      First(d, w, tx);
      txs := [tx];
    }
  }

  /** A worker completes a step in hand, unless its attempt has expired; then the reaper
      moves it, unless the outcome is lost. */
  lemma InHandAdvances(d: Dag, w: World, lost: set<nat>, n: Name) returns (txs: seq<Transaction>)
    requires ValidDag(d) && Reachable(d, w) && n in w.steps && InHand(w.steps[n].status) && !Stranded(w, lost, n)
    ensures Advances(d, w, lost, txs, n)
  {
    hide Reachable, ValidDag, Committable, Committed;
    var a;
    txs, a := InHandSettles(d, w, n, true);
    forall i | 0 <= i < |txs| ensures txs[i].Pass? || Spares(txs[i].act, lost) {
      assert Mild(txs[i], true, a, a in w.owed);
    }
    if w.owed == {} {
      forall i | 0 <= i < |txs| ensures txs[i].Pass? || (!txs[i].act.Expire? && !txs[i].act.ApplyExpiry?) {
        assert Mild(txs[i], true, a, a in w.owed);
      }
    }
  }

  lemma RetryRequeues(d: Dag, w: World, t: nat, n: Name)
    requires Enabled(d, w, Retry(t)) && w.timers[t].step == Some(n)
    ensures var w' := Apply(d, w, Retry(t));
      n in w'.steps && n in w.steps && w'.steps[n].status == StepQueued && w'.steps[n].attemptCount == w.steps[n].attemptCount + 1
  {
  }

  /** Its timer retries a step that backs off. */
  lemma BackoffAdvances(d: Dag, w: World, lost: set<nat>, n: Name) returns (txs: seq<Transaction>)
    requires ValidDag(d) && Reachable(d, w) && !RunTerminal(w.run.status) && n in w.steps && w.steps[n].status == StepRetryBackoff
    ensures Advances(d, w, lost, txs, n) && |txs| == 1 && txs[0].WithPass? && txs[0].act.Retry?
  {
    hide Reachable, ValidDag, Apply, Commit, Possible;
    RetryTimerConservation(d, w, n);
    var t :| PendingFor(w.timers, t, n);
    RetryRequeues(d, w, t, n);
    var tx := CommitWithPass(d, w, Retry(t), n);
    First(d, w, tx);
    txs := [tx];
  }

  // ------------------------------------------------------------- answering a step

  lemma WaitingStaysThroughSkips(d: Dag, w: World, sch: Schedule, n: Name)
    requires Underway(d, w) && Orders(d, sch) && n in w.steps && w.steps[n].status == StepWaiting
    ensures Skipped(d, w, sch).steps[n].status == StepWaiting && Skipped(d, w, sch).signals == w.signals
  {
    hide Skipped, Orders;
    PropagationIsLeastFixpoint(d, w, sch);
  }

  lemma ServableAlone(d: Dag, signals: seq<Signal>, n: Name)
    requires n in d && FindSignal(signals, WantedSignal(d, n)).Some?
    ensures Settling.Servable(d, signals, {n})
  {
    var f := map[n := FindSignal(signals, WantedSignal(d, n)).value];
    assert Settling.ServesAll(d, signals, f, {n});
  }

  /** A pass that visits n first completes it, if its signal is there. */
  lemma PassAnswers(d: Dag, w: World, n: Name) returns (sch: Schedule)
    requires Underway(d, w) && n in w.steps && w.steps[n].status == StepWaiting
    requires FindSignal(w.signals, WantedSignal(d, n)).Some?
    ensures Fits(d, w, sch) && n in Reconcile(d, w, sch).steps && Reconcile(d, w, sch).steps[n].status == StepCompleted
  {
    hide Sweep, SkipPasses, FindSignal, Reconcile, IsOrder, AllOrders, NamesFailure;
    var any := SomeOrder(d.Keys);
    sch := Settling.SomeSchedule(d, any);
    var w1 := Skipped(d, w, sch);
    WaitingStaysThroughSkips(d, w, sch, n);
    ServableAlone(d, w1.signals, n);
    var order := Settling.NeededFirst(d, w1, {n});
    sch := sch.(waiting := order);
    var failed := Settling.NameFailure(d, w, sch);
    sch := sch.(failed := failed);
    AnsweredStays(d, w, sch, n);
  }

  lemma AnsweredStays(d: Dag, w: World, sch: Schedule, n: Name)
    requires Fits(d, w, sch) && !RunTerminal(w.run.status) && n in d && Resolved(d, w, sch).steps[n].status == StepCompleted
    ensures n in Reconcile(d, w, sch).steps && Reconcile(d, w, sch).steps[n].status == StepCompleted
  {
    hide Sweep, Resolved, Reconcile, AllOrders, NamesFailure;
    PassEnds(d, w, sch);
    Settling.SweepKeeps(d, Resolved(d, w, sch), Dispatching, sch.ready, n);
  }

  lemma LastSignalFound(signals: seq<Signal>, want: string, payload: Payload)
    requires FindSignal(signals, want).None?
    ensures FindSignal(signals + [Signal(want, payload, false)], want) == Some(|signals|)
  {
    assert (signals + [Signal(want, payload, false)])[..|signals|] == signals;
  }

  lemma SignalStored(d: Dag, w: World, n: Name)
    requires Underway(d, w) && n in w.steps && w.steps[n].status == StepWaiting && WantedSignal(d, n) != CANCEL_SIGNAL
    requires FindSignal(w.signals, WantedSignal(d, n)).None?
    ensures Enabled(d, w, Deliver(WantedSignal(d, n), ""))
    ensures var w1 := Apply(d, w, Deliver(WantedSignal(d, n), ""));
      && Underway(d, w1) && w1.steps == w.steps && w1.run.status == w.run.status
      && FindSignal(w1.signals, WantedSignal(d, n)) == Some(|w.signals|)
  {
    LastSignalFound(w.signals, WantedSignal(d, n), "");
    hide FindSignal;
  }

  /** A signal completes a step that waits for one, unless it wants the reserved name. */
  lemma WaitingAdvances(d: Dag, w: World, lost: set<nat>, n: Name) returns (txs: seq<Transaction>)
    requires Underway(d, w) && n in w.steps && w.steps[n].status == StepWaiting && WantedSignal(d, n) != CANCEL_SIGNAL
    ensures Advances(d, w, lost, txs, n)
  {
    hide Apply, Enabled, FindSignal, Fits, Reconcile;
    if FindSignal(w.signals, WantedSignal(d, n)).Some? {
      var sch := PassAnswers(d, w, n);
      var tx := Pass(sch);
      First(d, w, tx);
      txs := [tx];
    } else {
      SignalStored(d, w, n);
      var act := Deliver(WantedSignal(d, n), "");
      var sch := PassAnswers(d, Apply(d, w, act), n);
      var tx := WithPass(act, sch);
      First(d, w, tx);
      txs := [tx];
    }
  }

  /** Some transactions, none of which cancels, complete step n. */
  ghost predicate Completes(d: Dag, w: World, n: Name, txs: seq<Transaction>) {
    && Committable(d, w, txs) && AllSpare(txs, {})
    && n in Committed(d, w, txs).steps && Committed(d, w, txs).steps[n].status == StepCompleted
  }

  /** A WAITING step can complete iff it does not want the reserved name. */
  lemma WaitingCompletesIff(d: Dag, w: World, n: Name)
    requires ValidDag(d) && Reachable(d, w) && !RunTerminal(w.run.status) && n in w.steps && w.steps[n].status == StepWaiting
    ensures n in d && ((exists txs :: Completes(d, w, n, txs)) <==> !Unanswerable(d, n))
  {
    hide Reachable, ValidDag, Committable, Committed;
    ReachableKeys(d, w);
    assert StepOk(d, w.steps, n);
    if Unanswerable(d, n) {
      forall txs | Committable(d, w, txs) ensures !Completes(d, w, n, txs) {
        CommittedReachable(d, w, txs);
        if n in Committed(d, w, txs).steps {
          NeverAnswered(d, Committed(d, w, txs), n);
        }
      }
    } else {
      var txs := WaitingAdvances(d, w, {}, n);
      assert Completes(d, w, n, txs);
    }
  }

  // --------------------------------------------------------- out of hand, or never

  /** Every step in flight advances, unless its outcome is lost or it is never answered. */
  lemma InFlightAdvances(d: Dag, w: World, lost: set<nat>, m: Name) returns (txs: seq<Transaction>)
    requires ValidDag(d) && Reachable(d, w) && Underway(d, w) && m in w.steps && InFlight(w.steps[m].status)
    requires !Stranded(w, lost, m) && !(w.steps[m].status == StepWaiting && Unanswerable(d, m))
    ensures Advances(d, w, lost, txs, m)
  {
    hide Reachable, ValidDag, Advances, Stranded;
    if InHand(w.steps[m].status) {
      txs := InHandAdvances(d, w, lost, m);
    } else if w.steps[m].status == StepRetryBackoff {
      txs := BackoffAdvances(d, w, lost, m);
    } else {
      WaitingIsSignalWait(d, w, m);
      txs := WaitingAdvances(d, w, lost, m);
    }
  }

  lemma WaitingIsSignalWait(d: Dag, w: World, n: Name)
    requires ValidDag(d) && Reachable(d, w) && n in w.steps && w.steps[n].status == StepWaiting
    ensures n in d && SignalWait(d, n)
  {
    ReachableSteps(d, w);
    assert StepOk(d, w.steps, n);
  }

  /** Step n leaves hand, without cancelling and without what is lost. */
  ghost predicate LeavesHand(d: Dag, w: World, lost: set<nat>, n: Name, txs: seq<Transaction>) {
    && Committable(d, w, txs) && AllSpare(txs, lost)
    && n in Committed(d, w, txs).steps && !InHand(Committed(d, w, txs).steps[n].status)
  }

  /** A step in hand can leave hand iff its attempt's outcome is not lost. */
  lemma LeavesHandIff(d: Dag, w: World, lost: set<nat>, n: Name)
    requires ValidDag(d) && Reachable(d, w) && n in w.steps && InHand(w.steps[n].status) && lost <= w.owed
    ensures (exists txs :: LeavesHand(d, w, lost, n, txs)) <==> !Stranded(w, lost, n)
  {
    hide Reachable, ValidDag, Committable, Committed, Valid, After;
    if Stranded(w, lost, n) {
      var a :| a in lost && a < |w.attempts| && w.attempts[a].step == n;
      InHandIsLive(d, w, n);
      forall txs | Committable(d, w, txs) && AllSpare(txs, lost) ensures !LeavesHand(d, w, lost, n, txs) {
        var tr := SparingTrace(d, w, txs, lost);
        SparesFewer(tr, lost, a);
        LostOutcomeStays(d, w, tr, a);
      }
    } else {
      var txs := InHandAdvances(d, w, lost, n);
      assert LeavesHand(d, w, lost, n, txs);
    }
  }

  lemma InHandIsLive(d: Dag, w: World, n: Name)
    requires ValidDag(d) && Reachable(d, w) && n in w.steps && InHand(w.steps[n].status)
    ensures !RunTerminal(w.run.status)
  {
    ReachableSteps(d, w);
  }

  /** No stuck run, but for what is lost or never answered: a run that a pass leaves
      unchanged has ended, or has a step in flight that advances unless its attempt's
      outcome is lost or it waits for the reserved name. */
  lemma NoStuckRun(d: Dag, w: World, sch: Schedule, lost: set<nat>) returns (m: Name, txs: seq<Transaction>)
    requires ValidDag(d) && Reachable(d, w) && Fits(d, w, sch) && Reconcile(d, w, sch) == w && lost <= w.owed
    ensures RunTerminal(w.run.status)
      || (&& m in w.steps && InFlight(w.steps[m].status)
          && (|| Stranded(w, lost, m) || (w.steps[m].status == StepWaiting && Unanswerable(d, m))
              || Advances(d, w, lost, txs, m)))
  {
    hide Reachable, ValidDag, Advances, Stranded, Reconcile, Orders, NamesFailure, Unanswerable;
    m, txs := "", [];
    if !RunTerminal(w.run.status) {
      m := UnchangedRunHasStepInFlight(d, w, sch);
      if !Stranded(w, lost, m) && !(w.steps[m].status == StepWaiting && Unanswerable(d, m)) {
        txs := InFlightAdvances(d, w, lost, m);
      }
    }
  }
}
