/** When a reconcile pass does nothing, what it then leaves in flight, and how often
    passes can do something. */
module Convergence {
  import opened Rows
  import opened Dags
  import opened Transitions
  import opened Invariants
  import opened Reconciling
  import opened Skips

  /** No action of a pass is possible. */
  ghost predicate Idle(d: Dag, w: World) {
    forall act :: Enabled(d, w, act) ==> !ReconcileAction(act)
  }

  // ------------------------------------------------- idle runs, and only those

  lemma {:induction false} SkipPassesProgress(d: Dag, w: World, passes: seq<seq<Name>>)
    requires Underway(d, w) && AllWithin(passes, d.Keys)
    ensures Progress(SkipPasses(d, w, passes)) >= Progress(w)
    ensures Progress(SkipPasses(d, w, passes)) == Progress(w) && passes != [] ==> Sweep(d, w, Skipping, passes[0]) == w
    decreases |passes|
  {
    if passes != [] {
      SweepIdle(d, w, Skipping, passes[0]);
      var w1 := Sweep(d, w, Skipping, passes[0]);
      if w1 != w {
        SkipPassesProgress(d, w1, passes[1..]);
      }
    }
  }

  lemma ConcludeProgress(d: Dag, w: World, failed: Option<Name>)
    requires Underway(d, w) && NamesFailure(w.steps, failed)
    ensures Progress(Conclude(d, w, failed)) >= Progress(w)
    ensures Progress(Conclude(d, w, failed)) == Progress(w) ==> !AllTerminal(w.steps) && !Enabled(d, w, Start)
  {
  }

  lemma IdleSweepsNothing(d: Dag, w: World, ph: Phase, order: seq<Name>)
    requires Underway(d, w) && Idle(d, w) && IsOrder(order, d.Keys)
    ensures Sweep(d, w, ph, order) == w
  {
    SweepIdle(d, w, ph, order);
    forall n | n in order ensures VisitAction(d, w, ph, n).None? {
      var r := VisitAction(d, w, ph, n);
      if r.Some? {
        assert false;
      }
    }
  }

  lemma IdlePassChangesNothing(d: Dag, w: World, sch: Schedule)
    requires Fits(d, w, sch) && Idle(d, w)
    ensures Reconcile(d, w, sch) == w
  {
    if !RunTerminal(w.run.status) {
      IdleSweepsNothing(d, w, Skipping, sch.passes[0]);
      IdleSweepsNothing(d, w, Resolving, sch.waiting);
      IdleSweepsNothing(d, w, Dispatching, sch.ready);
      assert !Enabled(d, w, Start) && !Enabled(d, w, Finish(sch.failed));
    }
  }

  /** The sweeps of a pass that adds no progress changed nothing. */
  lemma QuietPassSweeps(d: Dag, w: World, sch: Schedule)
    requires Fits(d, w, sch) && !RunTerminal(w.run.status) && Reconcile(d, w, sch) == w
    ensures Sweep(d, w, Skipping, sch.passes[0]) == w
    ensures Sweep(d, w, Resolving, sch.waiting) == w && Sweep(d, w, Dispatching, sch.ready) == w
    ensures !AllTerminal(w.steps) && !Enabled(d, w, Start)
  {
    hide Sweep, Conclude;
    SkipPassesProgress(d, w, sch.passes);
    SweepIdle(d, Skipped(d, w, sch), Resolving, sch.waiting);
    SweepIdle(d, Resolved(d, w, sch), Dispatching, sch.ready);
    ConcludeProgress(d, Swept(d, w, sch), sch.failed);
    assert Skipped(d, w, sch) == w;
  }

  lemma QuietSweepsMeanIdle(d: Dag, w: World, sch: Schedule, act: Action)
    requires Underway(d, w) && Orders(d, sch) && ReconcileAction(act) && Enabled(d, w, act)
    requires Sweep(d, w, Skipping, sch.passes[0]) == w
    requires Sweep(d, w, Resolving, sch.waiting) == w && Sweep(d, w, Dispatching, sch.ready) == w
    ensures act.Start? || act.Finish?
  {
    hide Sweep, Enabled, VisitAction;
    if !act.Start? && !act.Finish? {
      var ph := SomeVisitActs(d, w, act);
      QuietOrder(d, w, ph, if ph == Skipping then sch.passes[0] else if ph == Resolving then sch.waiting else sch.ready, act.n);
    }
  }

  lemma QuietOrder(d: Dag, w: World, ph: Phase, order: seq<Name>, n: Name)
    requires Underway(d, w) && IsOrder(order, d.Keys) && n in d && (forall m :: m in order ==> m in d)
    requires Sweep(d, w, ph, order) == w
    ensures VisitAction(d, w, ph, n).None?
  {
    hide Sweep, VisitAction, Progress, Open;
    SweepIdle(d, w, ph, order);
    assert n in order;
  }

  lemma FinishNeedsAllTerminal(d: Dag, w: World, act: Action)
    requires Enabled(d, w, act) && act.Finish?
    ensures AllTerminal(w.steps)
  {
  }

  lemma SomeVisitActs(d: Dag, w: World, act: Action) returns (ph: Phase)
    requires Underway(d, w) && ReconcileAction(act) && Enabled(d, w, act) && !act.Start? && !act.Finish?
    ensures act.n in d && VisitAction(d, w, ph, act.n).Some?
  {
    ph := if act.Skip? then Skipping else if act.Consume? && w.steps[act.n].status == StepWaiting then Resolving else Dispatching;
  }

  /** A pass leaves a run unchanged, in one visiting order or in all, exactly when no
      action of a pass is possible. */
  lemma PassIsNoOpIffIdle(d: Dag, w: World, sch: Schedule)
    requires Fits(d, w, sch)
    ensures Reconcile(d, w, sch) == w <==> Idle(d, w)
  {
    hide Sweep, Swept, Enabled, Conclude, NamesFailure, AllTerminal;
    if RunTerminal(w.run.status) {
      TerminalRunIsIdle(d, w);
    } else if Idle(d, w) {
      IdlePassChangesNothing(d, w, sch);
    } else if Reconcile(d, w, sch) == w {
      QuietPassSweeps(d, w, sch);
      var act :| Enabled(d, w, act) && ReconcileAction(act);
      QuietSweepsMeanIdle(d, w, sch, act);
      FinishNeedsAllTerminal(d, w, act);
    }
  }

  // ---------------------------------------------------------------- not stuck

  predicate InFlight(s: StepStatus) {
    InHand(s) || s == StepRetryBackoff || s == StepWaiting
  }

  lemma IdleStepAwaitsDep(d: Dag, w: World, n: Name) returns (dep: Name)
    requires Underway(d, w) && Idle(d, w) && Closed(d) && n in d && Undispatched(w.steps[n].status)
    ensures dep in d[n].dependsOn && dep in d && !StepTerminal(w.steps[dep].status)
  {
    var signal := FindSignal(w.signals, WantedSignal(d, n));
    assert !Enabled(d, w, Skip(n)) && !Enabled(d, w, Dispatch(n)) && !Enabled(d, w, Park(n));
    assert signal.Some? ==> !Enabled(d, w, Consume(n, signal.value));
    assert !DepsCompleted(d, w.steps, n);
    dep :| dep in d[n].dependsOn && !(dep in w.steps && w.steps[dep].status == StepCompleted);
  }

  /** Below any open step of an idle run there is one in flight. */
  lemma {:induction false} OpenStepWaitsForOther(d: Dag, w: World, n: Name) returns (m: Name)
    requires ValidDag(d) && StepsOk(d, w.steps) && Underway(d, w) && Idle(d, w)
    requires n in d && !StepTerminal(w.steps[n].status)
    ensures m in w.steps && InFlight(w.steps[m].status)
    decreases Height(d, n)
  {
    hide StepsOk, Enabled, Idle;
    if InFlight(w.steps[n].status) {
      m := n;
    } else {
      var dep := IdleStepAwaitsDep(d, w, n);
      m := OpenStepWaitsForOther(d, w, dep);
    }
  }

  /** A run that a pass leaves unchanged has ended, or has a step that is queued,
      running, backing off or waiting for a signal. */
  lemma UnchangedRunHasStepInFlight(d: Dag, w: World, sch: Schedule) returns (m: Name)
    requires ValidDag(d) && Reachable(d, w) && Fits(d, w, sch) && Reconcile(d, w, sch) == w
    ensures RunTerminal(w.run.status) || (m in w.steps && InFlight(w.steps[m].status))
  {
    m := "";
    ReachableSteps(d, w);
    PassIsNoOpIffIdle(d, w, sch);
    if !RunTerminal(w.run.status) {
      QuietPassSweeps(d, w, sch);
      var n :| n in w.steps && !StepTerminal(w.steps[n].status);
      m := OpenStepWaitsForOther(d, w, n);
    }
  }

  // ------------------------------------------------------ what a pass leaves over

  ghost predicate NotReady(d: Dag, steps: map<Name, Step>, n: Name) {
    n in d && n in steps && Undispatched(steps[n].status) ==> !DepsCompleted(d, steps, n)
  }

  ghost predicate NothingReady(d: Dag, steps: map<Name, Step>) {
    forall n :: n in d ==> NotReady(d, steps, n)
  }

  ghost predicate Unresolvable(d: Dag, w: World, n: Name) {
    n in d && n in w.steps && w.steps[n].status == StepWaiting ==> FindSignal(w.signals, WantedSignal(d, n)).None?
  }

  lemma NoneStaysNone(signals: seq<Signal>, i: nat, want: string)
    requires i < |signals| && FindSignal(signals, want).None?
    ensures FindSignal(signals[i := signals[i].(processed := true)], want).None?
  {
    var signals' := signals[i := signals[i].(processed := true)];
    var r := FindSignal(signals', want);
    if r.Some? {
      assert false;
    }
  }

  lemma VisitKeepsUnresolvable(d: Dag, w: World, ph: Phase, n: Name, m: Name)
    requires Underway(d, w) && n in d && m in d && (Unresolvable(d, w, m) || (ph == Resolving && m == n))
    ensures Unresolvable(d, Visit(d, w, ph, n), m)
  {
    hide Visit, FindSignal;
    VisitChangesOne(d, w, ph, n);
    VisitSignals(d, w, ph, n);
    var found := FindSignal(w.signals, WantedSignal(d, n));
    if found.Some? && FindSignal(w.signals, WantedSignal(d, m)).None? {
      NoneStaysNone(w.signals, found.value, WantedSignal(d, m));
    }
  }

  /** A visit takes at most the signal its step wants, and parks it only without one. */
  lemma VisitSignals(d: Dag, w: World, ph: Phase, n: Name)
    requires Underway(d, w) && n in d
    ensures
      var w' := Visit(d, w, ph, n);
      var found := FindSignal(w.signals, WantedSignal(d, n));
      && (|| w'.signals == w.signals
          || (found.Some? && w'.signals == w.signals[found.value := w.signals[found.value].(processed := true)]))
      && (w'.steps[n].status == StepWaiting && (w.steps[n].status != StepWaiting || ph == Resolving) ==>
            found.None? && w'.signals == w.signals)
  {
    hide Blocked, DepsCompleted;
  }

  lemma {:induction false} SweepKeepsUnresolvable(d: Dag, w: World, ph: Phase, order: seq<Name>, m: Name)
    requires Underway(d, w) && (forall n :: n in order ==> n in d) && m in d
    requires Unresolvable(d, w, m) || (ph == Resolving && m in order)
    ensures Unresolvable(d, Sweep(d, w, ph, order), m)
    decreases |order|
  {
    if order != [] {
      var k := |order| - 1;
      if m != order[k] || Unresolvable(d, w, m) {
        SweepKeepsUnresolvable(d, w, ph, order[..k], m);
      }
      VisitKeepsUnresolvable(d, Sweep(d, w, ph, order[..k]), ph, order[k], m);
    }
  }

  /** Outside the skipping phase a visit completes, queues or parks its step, or does nothing. */
  lemma VisitMoves(d: Dag, w: World, ph: Phase, n: Name)
    requires Underway(d, w) && n in d && ph != Skipping
    ensures var steps' := Visit(d, w, ph, n).steps;
      || steps' == w.steps
      || (&& steps' == w.steps[n := steps'[n]] && !StepTerminal(w.steps[n].status)
          && (steps'[n].status == StepCompleted || steps'[n].status == StepQueued || steps'[n].status == StepWaiting))
  {
    hide FindSignal;
  }

  lemma VisitKeepsNothingToSkip(d: Dag, w: World, ph: Phase, n: Name)
    requires Underway(d, w) && n in d && ph != Skipping && NothingToSkip(d, w.steps)
    ensures NothingToSkip(d, Visit(d, w, ph, n).steps)
  {
    hide Visit;
    VisitMoves(d, w, ph, n);
    var steps' := Visit(d, w, ph, n).steps;
    forall m | m in d && m in steps' && Undispatched(steps'[m].status) ensures !Blocked(d, steps', m) {
      assert !Blocked(d, w.steps, m);
    }
  }

  lemma {:induction false} SweepKeepsNothingToSkip(d: Dag, w: World, ph: Phase, order: seq<Name>)
    requires Underway(d, w) && (forall n :: n in order ==> n in d) && ph != Skipping && NothingToSkip(d, w.steps)
    ensures NothingToSkip(d, Sweep(d, w, ph, order).steps)
    decreases |order|
  {
    if order != [] {
      var k := |order| - 1;
      SweepKeepsNothingToSkip(d, w, ph, order[..k]);
      VisitKeepsNothingToSkip(d, Sweep(d, w, ph, order[..k]), ph, order[k]);
    }
  }

  /** After the sweeps of a pass there is nothing left to skip or to resolve. */
  lemma SweptLeavesOnlyReady(d: Dag, w: World, sch: Schedule)
    requires Underway(d, w) && Orders(d, sch)
    ensures NothingToSkip(d, Swept(d, w, sch).steps)
    ensures forall n :: n in d ==> Unresolvable(d, Swept(d, w, sch), n)
  {
    var w1, w2 := Skipped(d, w, sch), Resolved(d, w, sch);
    PropagationIsLeastFixpoint(d, w, sch);
    SweepKeepsNothingToSkip(d, w1, Resolving, sch.waiting);
    SweepKeepsNothingToSkip(d, w2, Dispatching, sch.ready);
    forall n | n in d ensures Unresolvable(d, Swept(d, w, sch), n) {
      SweepKeepsUnresolvable(d, w1, Resolving, sch.waiting, n);
      SweepKeepsUnresolvable(d, w2, Dispatching, sch.ready, n);
    }
  }

  lemma PassEnds(d: Dag, w: World, sch: Schedule)
    requires Fits(d, w, sch) && !RunTerminal(w.run.status)
    ensures var w', w3 := Reconcile(d, w, sch), Swept(d, w, sch);
      && w'.steps == w3.steps && w'.signals == w3.signals && (RunTerminal(w'.run.status) <==> AllTerminal(w3.steps))
      && (!RunTerminal(w'.run.status) ==> Underway(d, w') && !AllTerminal(w'.steps) && !Enabled(d, w', Start))
  {
    hide CancelTimers, Outputs, NamesFailure;
    hide Swept;
    ConcludeEnds(d, Swept(d, w, sch), sch.failed);
    hide Conclude, Enabled;
  }

  lemma ConcludeEnds(d: Dag, w: World, failed: Option<Name>)
    requires Underway(d, w) && NamesFailure(w.steps, failed)
    ensures var w' := Conclude(d, w, failed);
      && w'.steps == w.steps && w'.signals == w.signals && (RunTerminal(w'.run.status) <==> AllTerminal(w.steps))
      && (!RunTerminal(w'.run.status) ==> Underway(d, w') && !AllTerminal(w'.steps) && !Enabled(d, w', Start))
  {
  }

  lemma ReadyStepMeansWork(d: Dag, w: World, n: Name)
    requires Underway(d, w) && n in d && !NotReady(d, w.steps, n)
    ensures !Idle(d, w)
  {
    var act := VisitAction(d, w, Dispatching, n).value;
    assert Enabled(d, w, act) && ReconcileAction(act);
  }

  lemma TerminalRunIsIdle(d: Dag, w: World)
    requires RunTerminal(w.run.status)
    ensures Idle(d, w)
  {
  }

  /** After a pass the only thing a further pass could find is a ready step. */
  lemma IdleAfterPassIff(d: Dag, w: World, sch: Schedule)
    requires Fits(d, w, sch) && !RunTerminal(w.run.status)
    ensures var w' := Reconcile(d, w, sch);
      Idle(d, w') <==> RunTerminal(w'.run.status) || NothingReady(d, w'.steps)
  {
    var w' := Reconcile(d, w, sch);
    SweptLeavesOnlyReady(d, w, sch);
    PassEnds(d, w, sch);
    hide Reconcile, Swept, Enabled, FindSignal;
    if RunTerminal(w'.run.status) {
      TerminalRunIsIdle(d, w');
    } else if NothingReady(d, w'.steps) {
      forall act | Enabled(d, w', act) ensures !ReconcileAction(act) {
        NothingEnabled(d, w', act);
      }
    } else {
      var n :| n in d && !NotReady(d, w'.steps, n);
      ReadyStepMeansWork(d, w', n);
    }
  }

  lemma NothingEnabled(d: Dag, w: World, act: Action)
    requires Underway(d, w) && NothingToSkip(d, w.steps) && NothingReady(d, w.steps)
    requires forall n :: n in d ==> Unresolvable(d, w, n)
    requires !AllTerminal(w.steps) && !Enabled(d, w, Start)
    requires Enabled(d, w, act)
    ensures !ReconcileAction(act)
  {
  }

  // ------------------------------------------------------------- how many passes

  function Done(steps: map<Name, Step>): set<Name> {
    set n | n in steps && steps[n].status == StepCompleted
  }

  lemma VisitDone(d: Dag, w: World, ph: Phase, n: Name)
    requires Underway(d, w) && n in d
    ensures Done(w.steps) <= Done(Visit(d, w, ph, n).steps) <= Done(w.steps) + {n}
    ensures ph == Dispatching && n in Done(Visit(d, w, ph, n).steps) - Done(w.steps) ==> SignalWait(d, n)
  {
    hide Visit;
    VisitChangesOne(d, w, ph, n);
  }

  lemma VisitChangesOne(d: Dag, w: World, ph: Phase, n: Name)
    requires Underway(d, w) && n in d
    ensures var steps' := Visit(d, w, ph, n).steps;
      && steps' == w.steps[n := steps'[n]]
      && (w.steps[n].status == StepCompleted ==> steps'[n] == w.steps[n])
      && (ph == Dispatching && w.steps[n].status != StepCompleted && steps'[n].status == StepCompleted ==> SignalWait(d, n))
  {
    hide FindSignal, Blocked, DepsCompleted;
    assert w.steps == w.steps[n := w.steps[n]];
  }

  lemma {:induction false} SweepDone(d: Dag, w: World, ph: Phase, order: seq<Name>)
    requires Underway(d, w) && forall n :: n in order ==> n in d
    ensures Done(w.steps) <= Done(Sweep(d, w, ph, order).steps)
    ensures ph == Dispatching ==> forall n :: n in Done(Sweep(d, w, ph, order).steps) - Done(w.steps) ==> n in d && SignalWait(d, n)
    decreases |order|
  {
    if order != [] {
      var k := |order| - 1;
      SweepDone(d, w, ph, order[..k]);
      VisitDone(d, Sweep(d, w, ph, order[..k]), ph, order[k]);
    }
  }

  lemma VisitLeavesUnready(d: Dag, w: World, n: Name)
    requires Underway(d, w) && n in d
    ensures Undispatched(Visit(d, w, Dispatching, n).steps[n].status) ==> !DepsCompleted(d, w.steps, n)
  {
    hide FindSignal;
  }

  lemma VisitReady(d: Dag, w: World, n: Name, m: Name)
    requires Underway(d, w) && n in d && m in d && (NotReady(d, w.steps, m) || m == n)
    requires Done(Visit(d, w, Dispatching, n).steps) == Done(w.steps)
    ensures NotReady(d, Visit(d, w, Dispatching, n).steps, m)
  {
    VisitMoves(d, w, Dispatching, n);
    VisitLeavesUnready(d, w, n);
    hide Visit;
    var steps' := Visit(d, w, Dispatching, n).steps;
    if Undispatched(steps'[m].status) && DepsCompleted(d, steps', m) {
      forall dep | dep in d[m].dependsOn ensures dep in w.steps && w.steps[dep].status == StepCompleted {
        assert dep in Done(steps');
        assert dep in Done(w.steps);
      }
      assert false;
    }
  }

  /** A dispatching sweep that completes no step leaves no visited step ready. */
  lemma {:induction false} SweepReady(d: Dag, w: World, order: seq<Name>, m: Name)
    requires Underway(d, w) && (forall n :: n in order ==> n in d) && m in order
    requires Done(Sweep(d, w, Dispatching, order).steps) == Done(w.steps)
    ensures NotReady(d, Sweep(d, w, Dispatching, order).steps, m)
    decreases |order|
  {
    hide Visit, VisitAction, NotReady, Done, Underway;
    var k := |order| - 1;
    var w1 := Sweep(d, w, Dispatching, order[..k]);
    SweepDone(d, w, Dispatching, order[..k]);
    VisitDone(d, w1, Dispatching, order[k]);
    if m != order[k] {
      SweepReady(d, w, order[..k], m);
    }
    VisitReady(d, w1, order[k], m);
  }

  lemma LateSweepReady(d: Dag, w: World, sch: Schedule)
    requires Underway(d, w) && Orders(d, sch)
    requires Done(Swept(d, w, sch).steps) == Done(Resolved(d, w, sch).steps)
    ensures NothingReady(d, Swept(d, w, sch).steps)
  {
    hide Sweep, Resolved;
    forall n | n in d ensures NotReady(d, Swept(d, w, sch).steps, n) {
      SweepReady(d, Resolved(d, w, sch), sch.ready, n);
    }
  }

  /** A pass whose second loop completes no signal_wait step leaves nothing for the next. */
  lemma PassWithoutLateSignalSettles(d: Dag, w: World, sch: Schedule)
    requires Fits(d, w, sch) && !RunTerminal(w.run.status)
    requires Done(Swept(d, w, sch).steps) == Done(Resolved(d, w, sch).steps)
    ensures Idle(d, Reconcile(d, w, sch))
  {
    LateSweepReady(d, w, sch);
    PassEnds(d, w, sch);
    IdleAfterPassIff(d, w, sch);
    hide *;
  }

  /** The signal_wait steps not yet completed. */
  function Waits(d: Dag, w: World): set<Name> {
    set n | n in d && n in w.steps && SignalWait(d, n) && w.steps[n].status != StepCompleted
  }

  lemma {:induction false} SkipPassesDone(d: Dag, w: World, passes: seq<seq<Name>>)
    requires Underway(d, w) && AllWithin(passes, d.Keys)
    ensures Done(w.steps) <= Done(SkipPasses(d, w, passes).steps)
    decreases |passes|
  {
    if passes != [] {
      SweepDone(d, w, Skipping, passes[0]);
      var w1 := Sweep(d, w, Skipping, passes[0]);
      if w1 != w {
        SkipPassesDone(d, w1, passes[1..]);
      }
    }
  }

  lemma PassDone(d: Dag, w: World, sch: Schedule)
    requires Underway(d, w) && Orders(d, sch)
    ensures Done(w.steps) <= Done(Resolved(d, w, sch).steps) <= Done(Swept(d, w, sch).steps)
    ensures forall n :: n in Done(Swept(d, w, sch).steps) - Done(Resolved(d, w, sch).steps) ==> n in d && SignalWait(d, n)
  {
    hide Sweep, SkipPasses;
    SkipPassesDone(d, w, sch.passes);
    SweepDone(d, Skipped(d, w, sch), Resolving, sch.waiting);
    SweepDone(d, Resolved(d, w, sch), Dispatching, sch.ready);
  }

  lemma Smaller(a: set<Name>, b: set<Name>)
    requires a <= b
    ensures |a| <= |b| && (a != b ==> |a| < |b|)
  {
    assert b == a + (b - a);
  }

  lemma LateCompletionShrinks(d: Dag, w: World, w': World, n: Name)
    requires n in d && n in w.steps && SignalWait(d, n) && n !in Done(w.steps) && n in Done(w'.steps)
    ensures Waits(d, w') != Waits(d, w)
  {
    assert n in Waits(d, w) && n !in Waits(d, w');
  }

  lemma PassShrinksWaits(d: Dag, w: World, sch: Schedule)
    requires Fits(d, w, sch) && !RunTerminal(w.run.status)
    ensures |Waits(d, Reconcile(d, w, sch))| <= |Waits(d, w)|
    ensures Idle(d, Reconcile(d, w, sch)) || |Waits(d, Reconcile(d, w, sch))| < |Waits(d, w)|
  {
    hide Reconcile, Swept, Resolved, Idle, Enabled, AllTerminal, Waits, Done, AllOrders, IsOrder, NamesFailure;
    var w2, w3, w' := Resolved(d, w, sch), Swept(d, w, sch), Reconcile(d, w, sch);
    PassDone(d, w, sch);
    PassEnds(d, w, sch);
    WaitsFollowDone(d, w, w');
    Smaller(Waits(d, w'), Waits(d, w));
    if Done(w3.steps) == Done(w2.steps) {
      PassWithoutLateSignalSettles(d, w, sch);
    } else {
      var n :| n in Done(w3.steps) && n !in Done(w2.steps);
      LateCompletionShrinks(d, w, w', n);
    }
  }

  lemma WaitsFollowDone(d: Dag, w: World, w': World)
    requires w.steps.Keys == w'.steps.Keys && Done(w.steps) <= Done(w'.steps)
    ensures Waits(d, w') <= Waits(d, w)
  {
    forall n | n in Waits(d, w') ensures n in Waits(d, w) {
      assert n !in Done(w'.steps);
      assert n !in Done(w.steps);
    }
  }

  /** The states successive passes go through fit their schedules. */
  predicate FitsAll(d: Dag, w: World, schs: seq<Schedule>)
    decreases |schs|
  {
    schs == [] || (Fits(d, w, schs[0]) && FitsAll(d, Reconcile(d, w, schs[0]), schs[1..]))
  }

  /** How many of the successive passes change something. */
  function BusyPasses(d: Dag, w: World, schs: seq<Schedule>): nat
    requires FitsAll(d, w, schs)
    decreases |schs|
  {
    if schs == [] then 0
    else
      var w' := Reconcile(d, w, schs[0]);
      (if w' != w then 1 else 0) + BusyPasses(d, w', schs[1..])
  }

  lemma {:induction false} IdleStaysIdle(d: Dag, w: World, schs: seq<Schedule>)
    requires Idle(d, w) && FitsAll(d, w, schs)
    ensures BusyPasses(d, w, schs) == 0
    decreases |schs|
  {
    if schs != [] {
      IdlePassChangesNothing(d, w, schs[0]);
      IdleStaysIdle(d, w, schs[1..]);
    }
  }

  lemma {:induction false} PassesConverge(d: Dag, w: World, schs: seq<Schedule>)
    requires FitsAll(d, w, schs)
    ensures BusyPasses(d, w, schs) <= 1 + |Waits(d, w)|
    decreases |schs|
  {
    hide Reconcile, Fits, Idle, Waits;
    if schs != [] {
      var w' := Reconcile(d, w, schs[0]);
      if RunTerminal(w.run.status) {
        TerminalRunIsIdle(d, w);
        IdleStaysIdle(d, w, schs);
      } else {
        PassShrinksWaits(d, w, schs[0]);
        if Idle(d, w') {
          IdleStaysIdle(d, w', schs[1..]);
        } else {
          PassesConverge(d, w', schs[1..]);
        }
      }
    }
  }

  /** With no new input, at most one pass more than there are signal_wait steps changes
      anything, whatever the visiting orders. */
  lemma ReconcileConverges(d: Dag, w: World, schs: seq<Schedule>)
    requires FitsAll(d, w, schs)
    ensures BusyPasses(d, w, schs) <= 1 + |set n | n in d && SignalWait(d, n)|
  {
    hide BusyPasses, FitsAll, Waits;
    PassesConverge(d, w, schs);
    WaitsAreSignalWaits(d, w);
  }

  lemma WaitsAreSignalWaits(d: Dag, w: World)
    ensures |Waits(d, w)| <= |set n | n in d && SignalWait(d, n)|
  {
    Smaller(Waits(d, w), set n | n in d && SignalWait(d, n));
  }
}
