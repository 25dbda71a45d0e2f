/** Exactly which runs can come to an end, without being cancelled. */
module Finishing {
  import opened Rows
  import opened Dags
  import opened Transitions
  import opened Invariants
  import opened Verdicts
  import opened Ownership
  import opened Reconciling
  import opened Convergence
  import opened Bounds
  import opened Results
  import opened Transactions
  import opened StaleTimers
  import opened Moving
  import Dsl

  // ---------------------------------------------------------------- a measure

  ghost function Pick(keys: set<Name>): (n: Name)
    requires keys != {}
    ensures n in keys
  {
    var n :| n in keys; n
  }

  ghost function TotalFuel(d: Dag, steps: map<Name, Step>, keys: set<Name>): int
    requires keys <= d.Keys && keys <= steps.Keys
  {
    if keys == {} then 0
    else var n := Pick(keys); Fuel(d, n, steps[n]) + TotalFuel(d, steps, keys - {n})
  }

  lemma {:induction false} TotalFuelFalls(d: Dag, steps: map<Name, Step>, steps': map<Name, Step>, keys: set<Name>, m: Name)
    requires keys <= d.Keys && keys <= steps.Keys && keys <= steps'.Keys
    requires forall n :: n in keys ==> Fuel(d, n, steps'[n]) <= Fuel(d, n, steps[n])
    ensures TotalFuel(d, steps', keys) <= TotalFuel(d, steps, keys)
    ensures m in keys && Fuel(d, m, steps'[m]) < Fuel(d, m, steps[m]) ==> TotalFuel(d, steps', keys) < TotalFuel(d, steps, keys)
    decreases keys
  {
    hide Fuel;
    if keys != {} {
      var n := Pick(keys);
      TotalFuelFalls(d, steps, steps', keys - {n}, m);
    }
  }

  lemma {:induction false} TotalFuelIsNat(d: Dag, w: World, keys: set<Name>)
    requires ValidDag(d) && StepsOk(d, w.steps) && keys <= d.Keys && keys <= w.steps.Keys
    ensures TotalFuel(d, w.steps, keys) >= 0
    decreases keys
  {
    hide Fuel, StepsOk, ValidDag;
    if keys != {} {
      var n := Pick(keys);
      FuelBounds(d, w, n);
      TotalFuelIsNat(d, w, keys - {n});
    }
  }

  /** The status changes that are left to all steps together, and the start of the run. */
  ghost function Measure(d: Dag, w: World): int
    requires w.steps.Keys == d.Keys
  {
    2 * TotalFuel(d, w.steps, d.Keys) + if w.run.status == RunPending then 1 else 0
  }

  lemma MeasureIsNat(d: Dag, w: World)
    requires ValidDag(d) && Reachable(d, w)
    ensures w.steps.Keys == d.Keys && Measure(d, w) >= 0
  {
    hide Reachable, ValidDag, TotalFuel, StepsOk;
    ReachableKeys(d, w);
    TotalFuelIsNat(d, w, d.Keys);
  }

  /** Along a trace no fuel is gained, and a step that changed its status has cost some. */
  lemma TraceBurns(d: Dag, w: World, tr: seq<Action>, m: Name)
    requires ValidDag(d) && Reachable(d, w) && Valid(d, w, tr) && m in d
    ensures var w' := After(d, w, tr);
      && w.steps.Keys == d.Keys && w'.steps.Keys == d.Keys
      && TotalFuel(d, w'.steps, d.Keys) <= TotalFuel(d, w.steps, d.Keys)
      && (w'.steps[m].status != w.steps[m].status ==> Measure(d, w') < Measure(d, w))
  {
    hide Reachable, ValidDag, Fuel, TotalFuel, StepsOk, Valid, After;
    var w' := After(d, w, tr);
    ReachableKeys(d, w);
    TraceReaches(d, w, tr);
    ReachableKeys(d, w');
    forall n | n in d ensures Fuel(d, n, w'.steps[n]) <= Fuel(d, n, w.steps[n]) {
      FuelAlong(d, w, tr, n);
    }
    FuelAlong(d, w, tr, m);
    TotalFuelFalls(d, w.steps, w'.steps, d.Keys, m);
  }

  lemma PassActionMoves(d: Dag, w: World, act: Action)
    requires ReconcileAction(act) && Enabled(d, w, act) && !act.Start? && !act.Finish?
    ensures act.n in d && act.n in w.steps && act.n in Apply(d, w, act).steps
    ensures Apply(d, w, act).steps[act.n].status != w.steps[act.n].status
  {
    hide FindSignal, Blocked, DepsCompleted;
  }

  lemma StartStarts(d: Dag, w: World)
    requires Enabled(d, w, Start)
    ensures w.run.status == RunPending && Apply(d, w, Start).steps == w.steps && Apply(d, w, Start).run.status == RunRunning
  {
  }

  /** Every action of a pass but the last one of a run is progress. */
  lemma PassActionBurns(d: Dag, w: World, act: Action)
    requires ValidDag(d) && Reachable(d, w) && ReconcileAction(act) && Enabled(d, w, act) && !act.Finish?
    ensures w.steps.Keys == d.Keys && Apply(d, w, act).steps.Keys == d.Keys && Measure(d, Apply(d, w, act)) < Measure(d, w)
  {
    hide Reachable, ValidDag, TotalFuel, Enabled, Apply, StepsOk;
    ReachableKeys(d, w);
    RowsOf(d, w, act);
    if act.Start? {
      StartStarts(d, w);
    } else {
      PassActionMoves(d, w, act);
      OneTrace(d, w, act);
      TraceBurns(d, w, [act], act.n);
    }
  }

  lemma FinishEnds(d: Dag, w: World, failed: Option<Name>)
    requires Enabled(d, w, Finish(failed))
    ensures RunTerminal(Apply(d, w, Finish(failed)).run.status)
  {
  }

  lemma PassNeedsLiveRun(d: Dag, w: World, act: Action)
    requires ReconcileAction(act) && Enabled(d, w, act)
    ensures !RunTerminal(w.run.status)
  {
  }

  lemma {:induction false} PassBurns(d: Dag, w: World, tr: seq<Action>)
    requires ValidDag(d) && Reachable(d, w) && Valid(d, w, tr) && PassActions(tr) && !RunTerminal(After(d, w, tr).run.status)
    ensures w.steps.Keys == d.Keys && After(d, w, tr).steps.Keys == d.Keys
    ensures Measure(d, After(d, w, tr)) + |tr| <= Measure(d, w)
    decreases |tr|
  {
    hide Reachable, ValidDag, Measure, Enabled, Apply;
    ReachableKeys(d, w);
    if tr != [] {
      var k := |tr| - 1;
      var w1 := After(d, w, tr[..k]);
      PassNeedsLiveRun(d, w1, tr[k]);
      PassBurns(d, w, tr[..k]);
      TraceReaches(d, w, tr[..k]);
      if tr[k].Finish? {
        FinishEnds(d, w1, tr[k].failed);
      }
      PassActionBurns(d, w1, tr[k]);
    }
  }

  /** A pass over a run with something to do is progress, or ends the run. */
  lemma BusyPassBurns(d: Dag, w: World, sch: Schedule)
    requires ValidDag(d) && Reachable(d, w) && Fits(d, w, sch) && !Idle(d, w)
    ensures var w' := Reconcile(d, w, sch);
      RunTerminal(w'.run.status) || (w.steps.Keys == d.Keys && w'.steps.Keys == d.Keys && Measure(d, w') < Measure(d, w))
  {
    hide Reachable, ValidDag, Measure, Enabled, Apply, Reconcile, Idle, Fits;
    PassIsNoOpIffIdle(d, w, sch);
    var tr := ReconcileTrace(d, w, sch);
    if !RunTerminal(Reconcile(d, w, sch).run.status) {
      PassBurns(d, w, tr);
    }
  }

  // ----------------------------------------------------- what keeps the end open

  /** Neither completes a task, nor cancels, nor marks a lease. */
  predicate Quiet(act: Action) {
    !act.Cancel? && !act.Expire? && !(act.Report? && act.success)
  }

  predicate ActionsQuiet(tr: seq<Action>) {
    forall i :: 0 <= i < |tr| ==> Quiet(tr[i])
  }

  predicate AllQuiet(txs: seq<Transaction>) {
    forall i :: 0 <= i < |txs| ==> txs[i].Pass? || Quiet(txs[i].act)
  }

  lemma QuietTrace(d: Dag, w: World, txs: seq<Transaction>) returns (tr: seq<Action>)
    requires Committable(d, w, txs) && AllQuiet(txs)
    ensures Valid(d, w, tr) && After(d, w, tr) == Committed(d, w, txs) && ActionsQuiet(tr)
  {
    hide Committable, Committed, Valid, After;
    tr := TransactionsTrace(d, w, txs);
    forall i | 0 <= i < |tr| ensures Quiet(tr[i]) {
      assert PartOfSome(tr[i], txs);
      if !ReconcileAction(tr[i]) {
        var j :| 0 <= j < |txs| && PartOf(tr[i], txs[j]);
      }
    }
  }

  lemma {:induction false} TasksStayOpen(d: Dag, w: World, tr: seq<Action>, t: Name)
    requires ValidDag(d) && Reachable(d, w) && Valid(d, w, tr) && ActionsQuiet(tr)
    requires t in d && t in w.steps && !SignalWait(d, t) && w.steps[t].status != StepCompleted
    ensures t in After(d, w, tr).steps && After(d, w, tr).steps[t].status != StepCompleted
    decreases |tr|
  {
    hide Enabled, Apply, Reachable, ValidDag, Reported;
    if tr != [] {
      var k := |tr| - 1;
      var w1 := After(d, w, tr[..k]);
      TasksStayOpen(d, w, tr[..k], t);
      TraceReaches(d, w, tr[..k]);
      TraceReaches(d, w, tr);
      ReachableKeys(d, After(d, w, tr));
      if After(d, w, tr).steps[t].status == StepCompleted {
        CompletionIsReport(d, w1, tr[k], t);
      }
    }
  }

  lemma CompletionIsReport(d: Dag, w: World, act: Action, t: Name)
    requires ValidDag(d) && Reachable(d, w) && Enabled(d, w, act) && t in d && t in w.steps && !SignalWait(d, t)
    requires w.steps[t].status != StepCompleted && t in Apply(d, w, act).steps && Apply(d, w, act).steps[t].status == StepCompleted
    ensures act.Report? && act.success
  {
    hide Enabled, Apply, Reachable, ValidDag;
    ReachableInv(d, w);
    OnlyReportsComplete(d, w, act, t);
  }

  /** Nothing quiet makes a dead end. */
  lemma NoDeadEndsMade(d: Dag, w: World, tr: seq<Action>)
    requires ValidDag(d) && Reachable(d, w) && Valid(d, w, tr) && ActionsQuiet(tr) && NoDeadEnds(d, w)
    ensures NoDeadEnds(d, After(d, w, tr))
  {
    hide Enabled, Apply, Reachable, ValidDag, Path, Valid, After;
    var w' := After(d, w, tr);
    forall n | Unanswerable(d, n) && n in w'.steps && !StepTerminal(w'.steps[n].status) ensures !DeadEnd(d, w', n) {
      TerminalRowsStay(d, w, tr, n);
      assert !DeadEnd(d, w, n);
      var p :| AwaitsTask(d, w.steps, n, p);
      TasksStayOpen(d, w, tr, p[|p| - 1]);
      assert AwaitsTask(d, w'.steps, n, p);
    }
  }

  /** A step that waits for the reserved name is a dead end. */
  lemma WaitingForReservedIsDeadEnd(d: Dag, w: World, n: Name)
    requires ValidDag(d) && Reachable(d, w) && n in w.steps && w.steps[n].status == StepWaiting && Unanswerable(d, n)
    ensures DeadEnd(d, w, n)
  {
    hide Reachable, ValidDag;
    forall p ensures !AwaitsTask(d, w.steps, n, p) {
      if AwaitsTask(d, w.steps, n, p) {
        TransitiveDepsCompleted(d, w, p);
      }
    }
  }

  lemma {:induction false} OwedShrinks(d: Dag, w: World, tr: seq<Action>)
    requires Valid(d, w, tr) && ActionsQuiet(tr)
    ensures After(d, w, tr).owed <= w.owed
    decreases |tr|
  {
    hide Enabled, Apply;
    if tr != [] {
      var k := |tr| - 1;
      OwedShrinks(d, w, tr[..k]);
      OwedNotAdded(d, After(d, w, tr[..k]), tr[k]);
    }
  }

  lemma OwedNotAdded(d: Dag, w: World, act: Action)
    requires Enabled(d, w, act) && !act.Expire?
    ensures Apply(d, w, act).owed <= w.owed
  {
    hide FindSignal, Blocked, DepsCompleted, AllTerminal, AnyActive, CancelSteps, CancelTimers, Outputs, Verdict, VerdictEvent;
  }

  lemma ActionDecides(d: Dag, w: World, act: Action)
    requires ValidDag(d) && Reachable(d, w) && !RunTerminal(w.run.status) && Enabled(d, w, act) && !act.Cancel?
    ensures Apply(d, w, act).run.status != RunCancelled
  {
    hide Reachable, ValidDag, FindSignal, Blocked, DepsCompleted, AnyActive, CancelTimers, Outputs, StepsOk;
    ReachableSteps(d, w);
  }

  /** Without cancelling, a run that ends is COMPLETED or FAILED. */
  lemma {:induction false} EndDecides(d: Dag, w: World, tr: seq<Action>)
    requires ValidDag(d) && Reachable(d, w) && w.run.status != RunCancelled && Valid(d, w, tr)
    requires forall i :: 0 <= i < |tr| ==> !tr[i].Cancel?
    ensures After(d, w, tr).run.status != RunCancelled
    decreases |tr|
  {
    hide Enabled, Apply, Reachable, ValidDag;
    if tr != [] {
      var k := |tr| - 1;
      var w1 := After(d, w, tr[..k]);
      EndDecides(d, w, tr[..k]);
      TraceReaches(d, w, tr[..k]);
      if RunTerminal(w1.run.status) {
        StatusFrozen(d, w1, tr[k]);
      } else {
        ActionDecides(d, w1, tr[k]);
      }
    }
  }

  lemma StatusFrozen(d: Dag, w: World, act: Action)
    requires ValidDag(d) && Reachable(d, w) && RunTerminal(w.run.status) && Enabled(d, w, act)
    ensures Apply(d, w, act).run.status == w.run.status
  {
    hide Enabled, Apply, Reachable, ValidDag, StepsOk;
    ReachableSteps(d, w);
    ActionFreezes(d, w, act);
  }

  // ------------------------------------------------------------------- one round

  /** Quiet transactions that are progress, or end the run; the reaper is needed only
      where something is owed. */
  ghost predicate Round(d: Dag, w: World, txs: seq<Transaction>) {
    && Committable(d, w, txs) && AllQuiet(txs) && (w.owed == {} ==> NoReaper(txs))
    && var w' := Committed(d, w, txs);
       || RunTerminal(w'.run.status)
       || (w.steps.Keys == d.Keys && w'.steps.Keys == d.Keys && Measure(d, w') < Measure(d, w))
  }

  lemma BusyRound(d: Dag, w: World, sch: Schedule) returns (txs: seq<Transaction>)
    requires ValidDag(d) && Reachable(d, w) && Fits(d, w, sch) && !Idle(d, w)
    ensures Round(d, w, txs)
  {
    hide Reachable, ValidDag, Measure, Reconcile, Fits, Idle;
    BusyPassBurns(d, w, sch);
    First(d, w, Pass(sch));
    txs := [Pass(sch)];
  }

  /** Transactions after which step m has another status. */
  lemma MovingRound(d: Dag, w: World, txs: seq<Transaction>, m: Name)
    requires ValidDag(d) && Reachable(d, w) && Committable(d, w, txs) && AllQuiet(txs) && (w.owed == {} ==> NoReaper(txs))
    requires m in d && m in w.steps && m in Committed(d, w, txs).steps
    requires Committed(d, w, txs).steps[m].status != w.steps[m].status
    ensures Round(d, w, txs)
  {
    hide Reachable, ValidDag, Measure, Committable, Committed, Valid, After;
    var tr := QuietTrace(d, w, txs);
    TraceBurns(d, w, tr, m);
  }

  /** The step in hand fails once more, for the last time or not. */
  lemma FailingRound(d: Dag, w: World, m: Name) returns (txs: seq<Transaction>)
    requires ValidDag(d) && Reachable(d, w) && m in w.steps && InHand(w.steps[m].status)
    ensures Round(d, w, txs)
  {
    hide Reachable, ValidDag, Round, Committable, Committed;
    var a;
    txs, a := InHandSettles(d, w, m, false);
    ReachableKeys(d, w);
    forall i | 0 <= i < |txs| ensures (txs[i].Pass? || Quiet(txs[i].act))
                                      && (w.owed == {} ==> txs[i].Pass? || (!txs[i].act.Expire? && !txs[i].act.ApplyExpiry?)) {
      assert Mild(txs[i], false, a, a in w.owed);
    }
    MovingRound(d, w, txs, m);
  }

  lemma RetryingRound(d: Dag, w: World, m: Name) returns (txs: seq<Transaction>)
    requires ValidDag(d) && Reachable(d, w) && !RunTerminal(w.run.status) && m in w.steps && w.steps[m].status == StepRetryBackoff
    ensures Round(d, w, txs)
  {
    hide Reachable, ValidDag, Round, Committable, Committed;
    txs := BackoffAdvances(d, w, {}, m);
    ReachableKeys(d, w);
    MovingRound(d, w, txs, m);
  }

  lemma NotIdleWithSignal(d: Dag, w: World, n: Name)
    requires Underway(d, w) && n in w.steps && w.steps[n].status == StepWaiting
    requires FindSignal(w.signals, WantedSignal(d, n)).Some?
    ensures !Idle(d, w)
  {
    hide FindSignal;
    var act := Consume(n, FindSignal(w.signals, WantedSignal(d, n)).value);
    assert Enabled(d, w, act) && ReconcileAction(act);
  }

  lemma NoSignalWhenIdle(d: Dag, w: World, n: Name)
    requires Underway(d, w) && Idle(d, w) && n in w.steps && w.steps[n].status == StepWaiting
    ensures FindSignal(w.signals, WantedSignal(d, n)).None?
  {
    hide Idle, FindSignal;
    if FindSignal(w.signals, WantedSignal(d, n)).Some? {
      NotIdleWithSignal(d, w, n);
    }
  }

  /** A signal arrives, and some step that waits for it completes. */
  lemma SignalRound(d: Dag, w: World, n: Name) returns (txs: seq<Transaction>)
    requires ValidDag(d) && Reachable(d, w) && Underway(d, w) && Idle(d, w)
    requires n in w.steps && w.steps[n].status == StepWaiting && WantedSignal(d, n) != CANCEL_SIGNAL
    ensures Round(d, w, txs)
  {
    hide Reachable, ValidDag, TotalFuel, Reconcile, Fits, Idle, Apply, Enabled, FindSignal;
    NoSignalWhenIdle(d, w, n);
    SignalStored(d, w, n);
    var act := Deliver(WantedSignal(d, n), "");
    var w1 := Apply(d, w, act);
    ActionKeepsReachable(d, w, act);
    NotIdleWithSignal(d, w1, n);
    var sch := AnySchedule(d, w1);
    BusyPassBurns(d, w1, sch);
    var tx := WithPass(act, sch);
    First(d, w, tx);
    txs := [tx];
  }

  /** As long as a live run has no dead end, there is a round to go. */
  lemma SomeRound(d: Dag, w: World) returns (txs: seq<Transaction>)
    requires ValidDag(d) && Reachable(d, w) && !RunTerminal(w.run.status) && NoDeadEnds(d, w)
    ensures Round(d, w, txs)
  {
    hide Reachable, ValidDag, Round, Idle, Reconcile, DeadEnd, Fits;
    ReachableKeys(d, w);
    var sch := AnySchedule(d, w);
    if !Idle(d, w) {
      txs := BusyRound(d, w, sch);
    } else {
      PassIsNoOpIffIdle(d, w, sch);
      var m := UnchangedRunHasStepInFlight(d, w, sch);
      if InHand(w.steps[m].status) {
        txs := FailingRound(d, w, m);
      } else if w.steps[m].status == StepRetryBackoff {
        txs := RetryingRound(d, w, m);
      } else {
        WaitingIsSignalWait(d, w, m);
        if Unanswerable(d, m) {
          WaitingForReservedIsDeadEnd(d, w, m);
        }
        txs := SignalRound(d, w, m);
      }
    }
  }

  // ---------------------------------------------------------------- the theorem

  /** The run comes to an end, without cancelling and without what is lost. */
  ghost predicate Finishes(d: Dag, w: World, lost: set<nat>, txs: seq<Transaction>) {
    && Committable(d, w, txs) && AllSpare(txs, lost)
    && (Committed(d, w, txs).run.status == RunCompleted || Committed(d, w, txs).run.status == RunFailed)
  }

  lemma RoundFacts(d: Dag, w: World, txs: seq<Transaction>)
    requires ValidDag(d) && Reachable(d, w) && !RunTerminal(w.run.status) && NoDeadEnds(d, w) && Round(d, w, txs)
    ensures Committable(d, w, txs) && AllSpare(txs, {}) && (w.owed == {} ==> NoReaper(txs))
    ensures var w' := Committed(d, w, txs);
      && Reachable(d, w') && NoDeadEnds(d, w') && w'.run.status != RunCancelled && w'.owed <= w.owed
      && (RunTerminal(w'.run.status) ||
          (w.steps.Keys == d.Keys && w'.steps.Keys == d.Keys && Measure(d, w') < Measure(d, w)))
  {
    hide Reachable, ValidDag, Measure, NoDeadEnds, Committable, Committed, Valid, After;
    var tr := QuietTrace(d, w, txs);
    TraceReaches(d, w, tr);
    NoDeadEndsMade(d, w, tr);
    OwedShrinks(d, w, tr);
    EndDecides(d, w, tr);
  }

  lemma {:induction false} FinishWithin(d: Dag, w: World, rounds: nat) returns (txs: seq<Transaction>)
    requires ValidDag(d) && Reachable(d, w) && !RunTerminal(w.run.status) && NoDeadEnds(d, w)
    requires w.steps.Keys == d.Keys && Measure(d, w) <= rounds
    ensures Finishes(d, w, {}, txs) && (w.owed == {} ==> NoReaper(txs))
    decreases rounds
  {
    hide Reachable, ValidDag, Measure, NoDeadEnds, Round, Committable, Committed;
    var first := SomeRound(d, w);
    RoundFacts(d, w, first);
    var w1 := Committed(d, w, first);
    if RunTerminal(w1.run.status) {
      txs := first;
    } else {
      MeasureIsNat(d, w1);
      var rest := FinishWithin(d, w1, rounds - 1);
      Append(d, w, first, rest);
      txs := first + rest;
    }
  }

  /** Every live run without a dead end can come to an end, as long as every owed outcome
      can be applied; where none is owed, without the reaper. */
  lemma RunCanFinish(d: Dag, w: World) returns (txs: seq<Transaction>)
    requires ValidDag(d) && Reachable(d, w) && !RunTerminal(w.run.status) && NoDeadEnds(d, w)
    ensures Finishes(d, w, {}, txs) && (w.owed == {} ==> NoReaper(txs))
  {
    hide Reachable, ValidDag, Measure, NoDeadEnds, Finishes, NoReaper;
    MeasureIsNat(d, w);
    txs := FinishWithin(d, w, Measure(d, w));
  }

  lemma LostDoesNotFinish(d: Dag, w: World, lost: set<nat>, txs: seq<Transaction>, a: nat)
    requires ValidDag(d) && Reachable(d, w) && !RunTerminal(w.run.status) && lost <= w.owed && a in lost
    ensures !Finishes(d, w, lost, txs)
  {
    hide Reachable, ValidDag, Committable, Committed, Valid, After;
    if Finishes(d, w, lost, txs) {
      var tr := SparingTrace(d, w, txs, lost);
      SparesFewer(tr, lost, a);
      LostOutcomeStays(d, w, tr, a);
    }
  }

  lemma DeadEndDoesNotFinish(d: Dag, w: World, lost: set<nat>, txs: seq<Transaction>, n: Name)
    requires ValidDag(d) && Reachable(d, w) && DeadEnd(d, w, n)
    ensures !Finishes(d, w, lost, txs)
  {
    hide Reachable, ValidDag, DeadEnd, Committable, Committed, Valid, After;
    if Finishes(d, w, lost, txs) {
      var tr := TransactionsTrace(d, w, txs);
      DeadEndStays(d, w, tr, n);
    }
  }

  /** A live run can come to an end, without cancelling it, iff no outcome is lost and
      every open step that wants the reserved signal still depends on a task that has
      not completed. */
  lemma RunCanFinishIff(d: Dag, w: World, lost: set<nat>)
    requires ValidDag(d) && Reachable(d, w) && !RunTerminal(w.run.status) && lost <= w.owed
    ensures (exists txs :: Finishes(d, w, lost, txs)) <==> lost == {} && NoDeadEnds(d, w)
  {
    hide Reachable, ValidDag, DeadEnd, Finishes;
    if a :| a in lost {
      forall txs ensures !Finishes(d, w, lost, txs) {
        LostDoesNotFinish(d, w, lost, txs, a);
      }
    } else if n :| DeadEnd(d, w, n) {
      forall txs ensures !Finishes(d, w, lost, txs) {
        DeadEndDoesNotFinish(d, w, lost, txs, n);
      }
    } else {
      var txs := RunCanFinish(d, w);
      assert lost == {};
      assert Finishes(d, w, lost, txs);
    }
  }

  // ------------------------------------------------------- a lost outcome, by example

  /** The lease of the only attempt ran out and was marked so. */
  predicate Expired(w: World) {
    && w.run.status == RunRunning && w.steps == map["a" := Step(StepQueued, 1, None)] && w.owed == {0}
    && w.attempts == [Attempt("a", 1, 0, AttemptExpired, QueueName("task"), Some("worker"), Some(30))]
  }

  lemma CanExpire() returns (w: World)
    ensures Reachable(OneStep(), w) && Expired(w)
  {
    hide Reachable;
    var w1 := CanLease();
    ActionKeepsReachable(OneStep(), w1, Expire(0, 31));
    w := Apply(OneStep(), w1, Expire(0, 31));
  }

  /** Dispatch, start, claim, let the lease run out, mark it, and lose the list: only
      cancelling ends this run. */
  lemma OutcomeCanBeLost() returns (w: World)
    ensures ValidDag(OneStep()) && Reachable(OneStep(), w) && !RunTerminal(w.run.status) && w.owed == {0}
    ensures forall txs :: !Finishes(OneStep(), w, w.owed, txs)
    ensures forall txs :: !LeavesHand(OneStep(), w, w.owed, "a", txs)
  {
    hide Reachable, ValidDag, Finishes, LeavesHand, NoDeadEnds;
    OneStepIsValid();
    w := CanExpire();
    RunCanFinishIff(OneStep(), w, w.owed);
    assert Stranded(w, w.owed, "a");
    LeavesHandIff(OneStep(), w, w.owed, "a");
  }

  // ----------------------------------------------- a step never answered, by example

  /** A definition of one signal_wait step that wants the reserved name. */
  function ReservedWait(): seq<Dsl.StepSpec> {
    [Dsl.StepSpec("a", SIGNAL_WAIT, [], "{}", CANCEL_SIGNAL, 1, 1000, 2.0, 60_000, 30)]
  }

  function ReservedWaitDag(): Dag {
    map["a" := NewStep(SIGNAL_WAIT, [], "{}", CANCEL_SIGNAL, 1, 1000, 2.0, 60_000, 30)]
  }

  lemma ReservedWaitIsAccepted()
    ensures Dsl.WellFormed("w", ReservedWait()) && Dsl.DagOf(Dsl.Defaulted(ReservedWait())) == ReservedWaitDag()
    ensures ValidDag(ReservedWaitDag())
  {
    var steps := ReservedWait();
    assert steps[..0] == [];
    assert Dsl.GraphOf(steps) == map["a" := []];
    var rank: map<Name, nat> := map["a" := 0];
    assert Ranked(Dsl.GraphOf(steps), rank);
    RankedIsAcyclic(Dsl.GraphOf(steps), rank);
    assert !Dsl.IsSpace("w"[0]) && !Dsl.IsSpace("a"[0]) && !Dsl.IsSpace(SIGNAL_WAIT[0]);
    var defaulted := Dsl.Defaulted(steps);
    assert defaulted[..0] == [];
    Dsl.ValidatedDag("w", steps, rank);
  }

  /** The run as the first pass of CreateRun leaves it. */
  predicate Parked(w: World) {
    w.run.status == RunRunning && w.steps == map["a" := Step(StepWaiting, 0, None)] && w.owed == {}
  }

  lemma CanPark() returns (w: World)
    ensures Reachable(ReservedWaitDag(), w) && Parked(w)
  {
    hide Reachable;
    var d := ReservedWaitDag();
    var w0 := Created(d);
    CreatedReachable(d);
    assert w0.steps == map["a" := Step(StepPending, 0, None)];
    ActionKeepsReachable(d, w0, Park("a"));
    var w1 := Apply(d, w0, Park("a"));
    assert w1.steps == map["a" := Step(StepWaiting, 0, None)];
    assert Active(w1.steps["a"].status);
    ActionKeepsReachable(d, w1, Start);
    w := Apply(d, w1, Start);
  }

  /** Validation accepts a step that waits for the reserved name; its run parks it, owes
      nothing, and only cancelling ends it. */
  lemma SignalCanNeverCome() returns (w: World)
    ensures Dsl.WellFormed("w", ReservedWait()) && Dsl.DagOf(Dsl.Defaulted(ReservedWait())) == ReservedWaitDag()
    ensures Reachable(ReservedWaitDag(), w) && !RunTerminal(w.run.status) && w.owed == {}
    ensures forall txs :: !Finishes(ReservedWaitDag(), w, {}, txs)
    ensures forall txs :: !Completes(ReservedWaitDag(), w, "a", txs)
  {
    hide Reachable, ValidDag, Finishes, Completes, NoDeadEnds, DeadEnd;
    ReservedWaitIsAccepted();
    var d := ReservedWaitDag();
    w := CanPark();
    assert Unanswerable(d, "a");
    WaitingForReservedIsDeadEnd(d, w, "a");
    SomeDeadEnd(d, w, "a");
    RunCanFinishIff(d, w, {});
    WaitingCompletesIff(d, w, "a");
  }

  lemma SomeDeadEnd(d: Dag, w: World, n: Name)
    requires DeadEnd(d, w, n)
    ensures !NoDeadEnds(d, w)
  {
  }
}
