/** A run on which one reconcile pass is not enough: a signal that arrived early is
    consumed in the second loop, after the step that depends on it was visited. */
module LateSignals {
  import opened Rows
  import opened Dags
  import opened Transitions
  import opened Invariants
  import opened Reconciling
  import opened Convergence

  function Chain(): Dag {
    map["r" := NewStep("task", [], "{}", "", 1, 1000, 2.0, 60000, 30),
        "a" := NewStep(SIGNAL_WAIT, ["r"], "{}", "", 1, 1000, 2.0, 60000, 30),
        "b" := NewStep("task", ["a"], "{}", "", 1, 1000, 2.0, 60000, 30)]
  }

  lemma ChainIsValid()
    ensures ValidDag(Chain())
  {
    var rank: map<Name, nat> := map["r" := 0, "a" := 1, "b" := 2];
    assert Ranked(Edges(Chain()), rank);
    assert "r" in Chain().Keys;
  }

  /** The first step has completed and the signal for the second is there. */
  predicate SignalCameFirst(w: World) {
    && w.run.status == RunRunning && w.steps.Keys == Chain().Keys
    && w.steps["r"].status == StepCompleted && w.steps["a"].status == StepPending && w.steps["b"].status == StepPending
    && w.signals == [Signal("a", "{}", false)]
  }

  /** The run once its first step is dispatched and it has been started. */
  predicate FirstDispatched(w: World) {
    && w.run.status == RunRunning && w.steps.Keys == Chain().Keys
    && w.steps["r"] == Step(StepQueued, 1, None) && w.steps["a"].status == StepPending && w.steps["b"].status == StepPending
    && w.signals == [] && w.attempts == [Attempt("r", 1, 0, AttemptQueued, QueueName("task"), None, None)]
  }

  lemma CanDispatchFirst() returns (w: World)
    ensures Reachable(Chain(), w) && FirstDispatched(w)
  {
    hide Leads;
    var d := Chain();
    var w0 := Created(d);
    assert w0.steps["r"] == Step(StepPending, 0, None);
    var w1 := Apply(d, w0, Dispatch("r"));
    LeadsOne(d, w0, Dispatch("r"));
    assert w1.steps["r"].status == StepQueued && Active(w1.steps["r"].status);
    w := Apply(d, w1, Start);
    LeadsOne(d, w1, Start);
    LeadsTransitive(d, w0, w1, w);
  }

  /** The first step is with a worker and the signal for the second has arrived. */
  predicate SignalWhileRunning(w: World) {
    && w.run.status == RunRunning && w.steps.Keys == Chain().Keys
    && w.steps["r"] == Step(StepQueued, 1, None) && w.steps["a"].status == StepPending && w.steps["b"].status == StepPending
    && w.signals == [Signal("a", "{}", false)]
    && w.attempts == [Attempt("r", 1, 0, AttemptLeased, QueueName("task"), Some("worker"), Some(30))]
  }

  lemma SignalCanComeWhileRunning() returns (w: World)
    ensures Reachable(Chain(), w) && SignalWhileRunning(w)
  {
    hide Reachable, FindSignal;
    var d := Chain();
    var w2 := CanDispatchFirst();
    ActionKeepsReachable(d, w2, Deliver("a", "{}"));
    var w3 := Apply(d, w2, Deliver("a", "{}"));
    ActionKeepsReachable(d, w3, Claim(0, 0, "worker", 30));
    w := Apply(d, w3, Claim(0, 0, "worker", 30));
  }

  lemma SignalCanComeFirst() returns (w: World)
    ensures Reachable(Chain(), w) && SignalCameFirst(w)
  {
    hide Reachable, FindSignal;
    var d := Chain();
    var w4 := SignalCanComeWhileRunning();
    ActionKeepsReachable(d, w4, Report(0, "worker", true, None, 0));
    w := Apply(d, w4, Report(0, "worker", true, None, 0));
  }

  /** Visits b, then a, then r. */
  function BackToFront(): Schedule {
    var order := ["b", "a", "r"];
    Schedule([order, order, order, order], order, order, None)
  }

  lemma BackToFrontFits()
    ensures Orders(Chain(), BackToFront())
  {
    assert Chain().Keys == {"r", "a", "b"};
    assert |{"r", "a", "b"}| == 3;
    assert IsOrder(["b", "a", "r"], Chain().Keys);
  }

  lemma NothingBeforeSecondLoop(d: Dag, w: World, order: seq<Name>)
    requires Underway(d, w) && (forall n :: n in order ==> n in d)
    requires forall n :: n in w.steps ==> !Broken(w.steps[n].status) && w.steps[n].status != StepWaiting
    ensures Sweep(d, w, Skipping, order) == w && Sweep(d, w, Resolving, order) == w
  {
    hide Sweep, FindSignal, Visit, Apply, Enabled;
    SweepIdle(d, w, Skipping, order);
    SweepIdle(d, w, Resolving, order);
  }

  /** The second loop visits b first and finds it not ready, then completes a. */
  lemma SecondLoop(w: World)
    requires SignalCameFirst(w)
    ensures Sweep(Chain(), w, Dispatching, ["b", "a", "r"]) == CompleteBySignal(w, "a", 0)
  {
    var d, order := Chain(), ["b", "a", "r"];
    assert order[..2] == ["b", "a"] && order[..1] == ["b"] && order[..0] == [];
    assert ["b", "a"][..1] == ["b"] && ["b"][..0] == [];
    assert Sweep(d, w, Dispatching, []) == w;
    assert !DepsCompleted(d, w.steps, "b") by {
      assert "a" in d["b"].dependsOn;
    }
    assert Sweep(d, w, Dispatching, ["b"]) == w;
    assert DepsCompleted(d, w.steps, "a");
    assert FindSignal(w.signals, "a") == Some(0);
    assert Sweep(d, w, Dispatching, ["b", "a"]) == CompleteBySignal(w, "a", 0);
  }

  lemma PassSwept(w: World)
    requires SignalCameFirst(w) && Orders(Chain(), BackToFront())
    ensures Swept(Chain(), w, BackToFront()) == CompleteBySignal(w, "a", 0)
  {
    hide Sweep, Orders, IsOrder, CompleteBySignal;
    NothingBeforeSecondLoop(Chain(), w, ["b", "a", "r"]);
    SecondLoop(w);
  }

  lemma PassFits(w: World)
    requires SignalCameFirst(w) && Orders(Chain(), BackToFront())
    ensures Fits(Chain(), w, BackToFront())
  {
    hide Swept, Orders;
    PassSwept(w);
  }

  lemma LeftReady(d: Dag, w: World, sch: Schedule, n: Name)
    requires Fits(d, w, sch) && !RunTerminal(w.run.status) && n in d && !NotReady(d, Swept(d, w, sch).steps, n)
    ensures !Idle(d, Reconcile(d, w, sch))
  {
    hide Reconcile, Swept, Idle, Enabled;
    IdleAfterPassIff(d, w, sch);
    PassEnds(d, w, sch);
  }

  lemma PassLeavesWork(w: World)
    requires SignalCameFirst(w) && Orders(Chain(), BackToFront()) && Fits(Chain(), w, BackToFront())
    ensures !Idle(Chain(), Reconcile(Chain(), w, BackToFront()))
  {
    hide Reconcile, Swept, Idle, Orders, Fits;
    PassSwept(w);
    LeftReady(Chain(), w, BackToFront(), "b");
  }

  /** One pass is not always enough: there is a reachable run and a visiting order
      after which a further pass still has something to do. */
  lemma OnePassMayNotBeEnough() returns (w: World, sch: Schedule)
    ensures ValidDag(Chain()) && Reachable(Chain(), w) && Fits(Chain(), w, sch)
    ensures !Idle(Chain(), Reconcile(Chain(), w, sch))
    ensures forall sch' :: Fits(Chain(), Reconcile(Chain(), w, sch), sch') ==>
      Reconcile(Chain(), Reconcile(Chain(), w, sch), sch') != Reconcile(Chain(), w, sch)
  {
    var d := Chain();
    ChainIsValid();
    w := SignalCanComeFirst();
    sch := BackToFront();
    BackToFrontFits();
    PassFits(w);
    PassLeavesWork(w);
    var w' := Reconcile(d, w, sch);
    hide Reconcile, Idle, SignalCameFirst, Chain, Reachable, ValidDag;
    forall sch' | Fits(d, w', sch') ensures Reconcile(d, w', sch') != w' {
      PassIsNoOpIffIdle(d, w', sch');
    }
  }
}
