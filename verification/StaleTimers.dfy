/** Retry timers that outlive a cancelled run: when one is left pending, and an example. */
module StaleTimers {
  import opened Rows
  import opened Dags
  import opened Transitions
  import opened Invariants
  import opened Verdicts
  import opened Ownership

  function PendingTimers(w: World): set<nat> {
    set t: nat | t < |w.timers| && w.timers[t].status == TimerPending
  }

  /** An outcome that fails, in a cancelled run, for a step with attempts left. */
  predicate LateFailure(d: Dag, w: World, act: Action) {
    && w.run.status == RunCancelled
    && (act.ApplyExpiry? || (act.Report? && !act.success))
    && act.a < |w.attempts| && w.attempts[act.a].step in d && w.attempts[act.a].step in w.steps
    && w.steps[w.attempts[act.a].step].attemptCount < d[w.attempts[act.a].step].maxAttempts
  }

  lemma OutcomeLeavesTimer(d: Dag, w: World, act: Action)
    requires ValidDag(d) && Reachable(d, w) && RunTerminal(w.run.status) && Enabled(d, w, act)
    requires act.Report? || act.ApplyExpiry?
    ensures PendingTimers(Apply(d, w, act)) == PendingTimers(w) + if LateFailure(d, w, act) then {|w.timers|} else {}
  {
    hide Reachable, ValidDag, Outcome;
    OutcomesAreCurrent(d, w, act);
    TerminalSteps(d, w, w.attempts[act.a].step);
    match act
    case Report(a, _, success, output, due) =>
      OutcomeShape(d, SetAttempt(w, a, if success then AttemptSucceeded else AttemptFailed), a, success, output, due);
    case ApplyExpiry(a, due) => OutcomeShape(d, w.(owed := w.owed - {a}), a, false, None, due);
  }

  lemma TerminalSteps(d: Dag, w: World, n: Name)
    requires ValidDag(d) && Reachable(d, w) && RunTerminal(w.run.status) && n in w.steps
    ensures StepTerminal(w.steps[n].status)
  {
    ReachableSteps(d, w);
  }

  lemma OtherActionLeavesTimers(d: Dag, w: World, act: Action)
    requires RunTerminal(w.run.status) && Enabled(d, w, act) && !act.Report? && !act.ApplyExpiry?
    ensures PendingTimers(Apply(d, w, act)) == PendingTimers(w) - if act.FireStale? then {act.t} else {}
  {
    hide FindSignal, Blocked, DepsCompleted;
  }

  /** After the end of a run exactly the late failures leave a pending timer, one each,
      and exactly the firing of one takes it away. */
  lemma TimersAfterEnd(d: Dag, w: World, act: Action)
    requires ValidDag(d) && Reachable(d, w) && RunTerminal(w.run.status) && Enabled(d, w, act)
    ensures PendingTimers(Apply(d, w, act)) ==
      PendingTimers(w) + (if LateFailure(d, w, act) then {|w.timers|} else {}) - if act.FireStale? then {act.t} else {}
  {
    hide Reachable, ValidDag, Enabled, Apply, PendingTimers;
    if act.Report? || act.ApplyExpiry? {
      OutcomeLeavesTimer(d, w, act);
    } else {
      OtherActionLeavesTimers(d, w, act);
    }
  }

  /** A terminal run without pending timers gets one by exactly this. */
  lemma StaleTimerIff(d: Dag, w: World, act: Action)
    requires ValidDag(d) && Reachable(d, w) && RunTerminal(w.run.status) && Enabled(d, w, act) && PendingTimers(w) == {}
    ensures PendingTimers(Apply(d, w, act)) != {} <==> LateFailure(d, w, act)
  {
    hide Reachable, ValidDag, Enabled, Apply;
    TimersAfterEnd(d, w, act);
    NotFired(w);
  }

  lemma NotFired(w: World)
    requires PendingTimers(w) == {}
    ensures forall t: nat :: t < |w.timers| ==> w.timers[t].status != TimerPending
  {
    forall t: nat | t < |w.timers| ensures w.timers[t].status != TimerPending {
      assert t !in PendingTimers(w);
    }
  }

  /** The end itself leaves none. */
  lemma EndLeavesNoTimer(d: Dag, w: World, act: Action)
    requires !RunTerminal(w.run.status) && Enabled(d, w, act) && RunTerminal(Apply(d, w, act).run.status)
    ensures PendingTimers(Apply(d, w, act)) == {}
  {
    hide FindSignal, Blocked, DepsCompleted, CancelSteps, Outputs, AllTerminal;
    match act
    case Report(a, _, success, output, due) =>
      OutcomeShape(d, SetAttempt(w, a, if success then AttemptSucceeded else AttemptFailed), a, success, output, due);
    case ApplyExpiry(a, due) => OutcomeShape(d, w.(owed := w.owed - {a}), a, false, None, due);
    case _ =>
  }

  // -------------------------------------------------------------- after the end

  function LateFailures(d: Dag, w: World, tr: seq<Action>): nat
    requires Valid(d, w, tr)
    decreases |tr|
  {
    if tr == [] then 0
    else
      var k := |tr| - 1;
      LateFailures(d, w, tr[..k]) + if LateFailure(d, After(d, w, tr[..k]), tr[k]) then 1 else 0
  }

  function Fires(tr: seq<Action>): nat {
    if tr == [] then 0 else Fires(tr[..|tr| - 1]) + if tr[|tr| - 1].FireStale? then 1 else 0
  }

  lemma {:induction false} TerminalTrace(d: Dag, w: World, tr: seq<Action>)
    requires ValidDag(d) && Reachable(d, w) && RunTerminal(w.run.status) && Valid(d, w, tr)
    ensures Reachable(d, After(d, w, tr)) && RunTerminal(After(d, w, tr).run.status)
    decreases |tr|
  {
    assert Leads(d, w, After(d, w, tr));
    StepKeepsReachable(d, w, After(d, w, tr));
    ReachableInv(d, w);
    TerminalRunFrozen(d, w, tr);
  }

  /** From the end of a run on, timers pending = late failures - timers fired. */
  lemma {:induction false} StaleTimersCounted(d: Dag, w: World, tr: seq<Action>)
    requires ValidDag(d) && Reachable(d, w) && RunTerminal(w.run.status) && Valid(d, w, tr) && PendingTimers(w) == {}
    ensures |PendingTimers(After(d, w, tr))| == LateFailures(d, w, tr) - Fires(tr)
    decreases |tr|
  {
    hide Reachable, ValidDag, Apply, Enabled, LateFailure, PendingTimers;
    if tr != [] {
      var k := |tr| - 1;
      var w1 := After(d, w, tr[..k]);
      StaleTimersCounted(d, w, tr[..k]);
      TerminalTrace(d, w, tr[..k]);
      TimersAfterEnd(d, w1, tr[k]);
      if LateFailure(d, w1, tr[k]) {
        OnlyOutcomesAreLate(d, w1, tr[k]);
      }
      TimerIds(d, w1, tr[k]);
    }
  }

  lemma OnlyOutcomesAreLate(d: Dag, w: World, act: Action)
    requires LateFailure(d, w, act)
    ensures !act.FireStale?
  {
  }

  lemma TimerIds(d: Dag, w: World, act: Action)
    requires Enabled(d, w, act)
    ensures |w.timers| !in PendingTimers(w)
    ensures act.FireStale? ==> act.t in PendingTimers(w)
  {
  }

  // -------------------------------------------------------------------- example

  function OneStep(): Dag {
    map["a" := NewStep("task", [], "{}", "", 2, 1000, 2.0, 60000, 30)]
  }

  /** The only attempt so far is leased and the run has been cancelled. */
  predicate CancelledUnderway(w: World) {
    && w.run.status == RunCancelled && w.steps == map["a" := Step(StepCancelled, 1, None)] && w.timers == []
    && w.attempts == [Attempt("a", 1, 0, AttemptLeased, QueueName("task"), Some("worker"), Some(30))]
  }

  lemma OneStepIsValid()
    ensures ValidDag(OneStep())
  {
    var rank: map<Name, nat> := map["a" := 0];
    assert Ranked(Edges(OneStep()), rank);
    assert "a" in OneStep().Keys;
  }

  /** The only attempt so far is leased and the run has been started. */
  predicate Leased(w: World) {
    && w.run.status == RunRunning && w.steps == map["a" := Step(StepQueued, 1, None)] && w.timers == [] && w.owed == {}
    && w.attempts == [Attempt("a", 1, 0, AttemptLeased, QueueName("task"), Some("worker"), Some(30))]
  }

  /** The run as the first pass of CreateRun leaves it. */
  predicate Started(w: World) {
    && w.run.status == RunRunning && w.steps == map["a" := Step(StepQueued, 1, None)] && w.timers == [] && w.owed == {}
    && w.attempts == [Attempt("a", 1, 0, AttemptQueued, QueueName("task"), None, None)]
  }

  lemma CanStart() returns (w: World)
    ensures Reachable(OneStep(), w) && Started(w)
  {
    hide Reachable;
    var d := OneStep();
    var w0 := Created(d);
    CreatedReachable(d);
    assert w0.steps == map["a" := Step(StepPending, 0, None)];
    ActionKeepsReachable(d, w0, Dispatch("a"));
    var w1 := Apply(d, w0, Dispatch("a"));
    assert w1.steps == map["a" := Step(StepQueued, 1, None)];
    assert Active(w1.steps["a"].status);
    ActionKeepsReachable(d, w1, Start);
    w := Apply(d, w1, Start);
  }

  lemma CanLease() returns (w: World)
    ensures Reachable(OneStep(), w) && Leased(w)
  {
    hide Reachable;
    var w1 := CanStart();
    ActionKeepsReachable(OneStep(), w1, Claim(0, 0, "worker", 30));
    w := Apply(OneStep(), w1, Claim(0, 0, "worker", 30));
  }

  lemma CanCancelUnderway() returns (w: World)
    ensures Reachable(OneStep(), w) && CancelledUnderway(w)
  {
    hide Reachable;
    var w1 := CanLease();
    ActionKeepsReachable(OneStep(), w1, Cancel);
    w := Apply(OneStep(), w1, Cancel);
    assert w.steps == map["a" := Step(StepCancelled, 1, None)];
  }

  /** Dispatch, claim, cancel, report a failure: the cancelled run keeps a pending timer. */
  lemma TimerCanOutliveRun() returns (w: World, act: Action)
    ensures ValidDag(OneStep()) && Reachable(OneStep(), w) && PendingTimers(w) == {}
    ensures Enabled(OneStep(), w, act) && Apply(OneStep(), w, act).run.status == RunCancelled
    ensures Reachable(OneStep(), Apply(OneStep(), w, act)) && PendingTimers(Apply(OneStep(), w, act)) == {0}
  {
    hide Reachable, ValidDag;
    OneStepIsValid();
    w := CanCancelUnderway();
    act := Report(0, "worker", false, None, 60);
    ActionKeepsReachable(OneStep(), w, act);
    TimersAfterEnd(OneStep(), w, act);
    assert PendingTimers(w) == {};
  }
}
