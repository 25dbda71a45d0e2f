/** One reconcile pass as a function of the order in which the step map is visited. */
module Reconciling {
  import opened Rows
  import opened Dags
  import opened Transitions

  datatype Phase = Skipping | Resolving | Dispatching

  /** What a visit to step n does in the given phase, if anything. */
  function VisitAction(d: Dag, w: World, ph: Phase, n: Name): (r: Option<Action>)
    requires !RunTerminal(w.run.status) && n in d && n in w.steps
    ensures r.Some? ==> Enabled(d, w, r.value) && ReconcileAction(r.value) && !r.value.Start? && !r.value.Finish?
  {
    var status := w.steps[n].status;
    var signal := FindSignal(w.signals, WantedSignal(d, n));
    match ph
    case Skipping => if Undispatched(status) && Blocked(d, w.steps, n) then Some(Skip(n)) else None
    case Resolving => if status == StepWaiting && signal.Some? then Some(Consume(n, signal.value)) else None
    case Dispatching =>
      if !Undispatched(status) || !DepsCompleted(d, w.steps, n) then None
      else if !SignalWait(d, n) then Some(Dispatch(n))
      else if signal.Some? then Some(Consume(n, signal.value))
      else Some(Park(n))
  }

  /** All steps are in d and the run is live. */
  predicate Underway(d: Dag, w: World) {
    !RunTerminal(w.run.status) && w.steps.Keys == d.Keys
  }

  function Visit(d: Dag, w: World, ph: Phase, n: Name): (w': World)
    requires Underway(d, w) && n in d
    ensures Underway(d, w') && w'.run.status == w.run.status
  {
    match VisitAction(d, w, ph, n)
    case None => w
    case Some(act) => Apply(d, w, act)
  }

  function Sweep(d: Dag, w: World, ph: Phase, order: seq<Name>): (w': World)
    requires Underway(d, w) && forall n :: n in order ==> n in d
    ensures Underway(d, w') && w'.run.status == w.run.status
  {
    if order == [] then w
    else
      var k := |order| - 1;
      Visit(d, Sweep(d, w, ph, order[..k]), ph, order[k])
  }

  predicate AllWithin(passes: seq<seq<Name>>, keys: set<Name>) {
    forall i, n :: 0 <= i < |passes| && n in passes[i] ==> n in keys
  }

  /** Sweep until a sweep changes nothing or the passes are used up. */
  function SkipPasses(d: Dag, w: World, passes: seq<seq<Name>>): (w': World)
    requires Underway(d, w) && AllWithin(passes, d.Keys)
    ensures Underway(d, w') && w'.run.status == w.run.status
    decreases |passes|
  {
    if passes == [] then w
    else
      var w1 := Sweep(d, w, Skipping, passes[0]);
      if w1 == w then w else SkipPasses(d, w1, passes[1..])
  }

  function StartIfActive(d: Dag, w: World): World {
    if Enabled(d, w, Start) then Apply(d, w, Start) else w
  }

  /** The end of a pass: start the run, then close it if nothing is left to do. */
  function Conclude(d: Dag, w: World, failed: Option<Name>): World
    requires Underway(d, w) && NamesFailure(w.steps, failed)
  {
    var w1 := StartIfActive(d, w);
    if AllTerminal(w1.steps) then Apply(d, w1, Finish(failed)) else w1
  }

  /** The orders in which one pass visits the step map, and the failed step it comes upon first. */
  datatype Schedule = Schedule(passes: seq<seq<Name>>, waiting: seq<Name>, ready: seq<Name>, failed: Option<Name>)

  predicate IsOrder(order: seq<Name>, keys: set<Name>) {
    && (forall n :: n in order ==> n in keys) && (forall n :: n in keys ==> n in order)
    && (forall i, j :: 0 <= i < j < |order| ==> order[i] != order[j])
  }

  lemma {:induction false} SomeOrder(keys: set<Name>) returns (order: seq<Name>)
    ensures IsOrder(order, keys)
    decreases keys
  {
    if keys == {} {
      order := [];
    } else {
      var n :| n in keys;
      var rest := SomeOrder(keys - {n});
      order := rest + [n];
    }
  }

  lemma OrderWithin(order: seq<Name>, keys: set<Name>)
    requires IsOrder(order, keys)
    ensures forall n :: n in order ==> n in keys
  {
  }

  predicate AllOrders(passes: seq<seq<Name>>, keys: set<Name>) {
    forall i :: 0 <= i < |passes| ==> IsOrder(passes[i], keys)
  }

  function Skipped(d: Dag, w: World, sch: Schedule): (w': World)
    requires Underway(d, w) && Orders(d, sch)
    ensures Underway(d, w')
  {
    SkipPasses(d, w, sch.passes)
  }

  function Resolved(d: Dag, w: World, sch: Schedule): (w': World)
    requires Underway(d, w) && Orders(d, sch)
    ensures Underway(d, w')
  {
    Sweep(d, Skipped(d, w, sch), Resolving, sch.waiting)
  }

  function Swept(d: Dag, w: World, sch: Schedule): (w': World)
    requires Underway(d, w) && Orders(d, sch)
    ensures Underway(d, w')
  {
    Sweep(d, Resolved(d, w, sch), Dispatching, sch.ready)
  }

  predicate Orders(d: Dag, sch: Schedule) {
    && |sch.passes| == |d.Keys| + 1
    && AllOrders(sch.passes, d.Keys)
    && IsOrder(sch.waiting, d.Keys) && IsOrder(sch.ready, d.Keys)
  }

  predicate Fits(d: Dag, w: World, sch: Schedule) {
    && w.steps.Keys == d.Keys && Orders(d, sch)
    && (!RunTerminal(w.run.status) ==> NamesFailure(Swept(d, w, sch).steps, sch.failed))
  }

  function Reconcile(d: Dag, w: World, sch: Schedule): World
    requires Fits(d, w, sch)
  {
    if RunTerminal(w.run.status) then w else Conclude(d, Swept(d, w, sch), sch.failed)
  }

  // -------------------------------------------------------- a pass is a trace

  predicate PassActions(tr: seq<Action>) {
    forall i :: 0 <= i < |tr| ==> ReconcileAction(tr[i])
  }

  /** The trace is one of actions of a pass, from w to w'. */
  ghost predicate PassTrace(d: Dag, w: World, w': World, tr: seq<Action>) {
    Valid(d, w, tr) && After(d, w, tr) == w' && PassActions(tr)
  }

  lemma NoTrace(d: Dag, w: World)
    ensures PassTrace(d, w, w, [])
  {
  }

  lemma OneTrace(d: Dag, w: World, act: Action)
    requires Enabled(d, w, act) && ReconcileAction(act)
    ensures PassTrace(d, w, Apply(d, w, act), [act])
  {
    hide Enabled, Apply;
    ActionTrace(d, w, act);
  }

  lemma JoinTraces(d: Dag, w: World, w1: World, w2: World, tr: seq<Action>, more: seq<Action>)
    requires PassTrace(d, w, w1, tr) && PassTrace(d, w1, w2, more)
    ensures PassTrace(d, w, w2, tr + more)
  {
    hide Enabled, Apply;
    Concat(d, w, tr, more);
  }

  lemma {:induction false} SweepTrace(d: Dag, w: World, ph: Phase, order: seq<Name>) returns (tr: seq<Action>)
    requires Underway(d, w) && forall n :: n in order ==> n in d
    ensures PassTrace(d, w, Sweep(d, w, ph, order), tr)
    decreases |order|
  {
    hide PassTrace, VisitAction, Apply;
    tr := [];
    NoTrace(d, w);
    if order != [] {
      var k := |order| - 1;
      tr := SweepTrace(d, w, ph, order[..k]);
      var w1 := Sweep(d, w, ph, order[..k]);
      match VisitAction(d, w1, ph, order[k])
      case None =>
      case Some(act) =>
        OneTrace(d, w1, act);
        JoinTraces(d, w, w1, Apply(d, w1, act), tr, [act]);
        tr := tr + [act];
    }
  }

  lemma {:induction false} SkipPassesTrace(d: Dag, w: World, passes: seq<seq<Name>>) returns (tr: seq<Action>)
    requires Underway(d, w) && AllWithin(passes, d.Keys)
    ensures PassTrace(d, w, SkipPasses(d, w, passes), tr)
    decreases |passes|
  {
    hide PassTrace, Sweep;
    tr := [];
    NoTrace(d, w);
    if passes != [] {
      var w1 := Sweep(d, w, Skipping, passes[0]);
      if w1 != w {
        var first := SweepTrace(d, w, Skipping, passes[0]);
        var rest := SkipPassesTrace(d, w1, passes[1..]);
        JoinTraces(d, w, w1, SkipPasses(d, w1, passes[1..]), first, rest);
        tr := first + rest;
      }
    }
  }

  lemma ConcludeTrace(d: Dag, w: World, failed: Option<Name>) returns (tr: seq<Action>)
    requires Underway(d, w) && NamesFailure(w.steps, failed)
    ensures PassTrace(d, w, Conclude(d, w, failed), tr)
  {
    hide PassTrace, NamesFailure, AllTerminal, AnyActive, FinishRun;
    tr := [];
    NoTrace(d, w);
    var w1 := StartIfActive(d, w);
    if Enabled(d, w, Start) {
      OneTrace(d, w, Start);
      tr := [Start];
    }
    if AllTerminal(w1.steps) {
      OneTrace(d, w1, Finish(failed));
      JoinTraces(d, w, w1, Apply(d, w1, Finish(failed)), tr, [Finish(failed)]);
      tr := tr + [Finish(failed)];
    }
  }

  lemma ReconcileTrace(d: Dag, w: World, sch: Schedule) returns (tr: seq<Action>)
    requires Fits(d, w, sch)
    ensures PassTrace(d, w, Reconcile(d, w, sch), tr)
  {
    hide PassTrace, Sweep, SkipPasses, Conclude, NamesFailure;
    if RunTerminal(w.run.status) {
      tr := [];
      NoTrace(d, w);
    } else {
      var w1, w2, w3 := Skipped(d, w, sch), Resolved(d, w, sch), Swept(d, w, sch);
      var a := SkipPassesTrace(d, w, sch.passes);
      var b := SweepTrace(d, w1, Resolving, sch.waiting);
      JoinTraces(d, w, w1, w2, a, b);
      var c := SweepTrace(d, w2, Dispatching, sch.ready);
      JoinTraces(d, w, w2, w3, a + b, c);
      var e := ConcludeTrace(d, w3, sch.failed);
      JoinTraces(d, w, w3, Reconcile(d, w, sch), a + b + c, e);
      tr := a + b + c + e;
    }
  }

  /** A pass, in whatever order, is a sequence of actions. */
  lemma ReconcileLeads(d: Dag, w: World, sch: Schedule)
    requires Fits(d, w, sch)
    ensures Leads(d, w, Reconcile(d, w, sch))
  {
    hide Reconcile, Fits;
    var tr := ReconcileTrace(d, w, sch);
  }

  // ------------------------------------------------------ what a pass leaves alone

  /** The same timers, except that some may have been cancelled. */
  predicate SameTimers(before: seq<Timer>, after: seq<Timer>) {
    && |after| == |before|
    && forall t :: 0 <= t < |before| ==>
         && after[t].kind == before[t].kind && after[t].step == before[t].step && after[t].fireAt == before[t].fireAt
         && (after[t].status == before[t].status || (before[t].status == TimerPending && after[t].status == TimerCancelled))
  }

  lemma ActionKeepsTimers(d: Dag, w: World, act: Action)
    requires Enabled(d, w, act) && ReconcileAction(act)
    ensures SameTimers(w.timers, Apply(d, w, act).timers)
  {
    hide FindSignal, Blocked, DepsCompleted, Outputs, AllTerminal, AnyActive, NamesFailure, Verdict, VerdictEvent;
  }

  lemma {:induction false} PassTraceKeepsTimers(d: Dag, w: World, tr: seq<Action>)
    requires Valid(d, w, tr) && PassActions(tr)
    ensures SameTimers(w.timers, After(d, w, tr).timers)
    decreases |tr|
  {
    hide Enabled, Apply, ReconcileAction;
    if tr != [] {
      var k := |tr| - 1;
      PassTraceKeepsTimers(d, w, tr[..k]);
      ActionKeepsTimers(d, After(d, w, tr[..k]), tr[k]);
    }
  }

  /** A pass adds no timer and moves none. */
  lemma PassKeepsTimers(d: Dag, w: World, sch: Schedule)
    requires Fits(d, w, sch)
    ensures SameTimers(w.timers, Reconcile(d, w, sch).timers)
  {
    hide Reconcile, Fits, SameTimers;
    var tr := ReconcileTrace(d, w, sch);
    PassTraceKeepsTimers(d, w, tr);
  }

  /** The same signals, except that some may have been taken. */
  predicate SameSignals(before: seq<Signal>, after: seq<Signal>) {
    && |after| == |before|
    && forall i :: 0 <= i < |before| ==>
         after[i].name == before[i].name && after[i].payload == before[i].payload && (before[i].processed ==> after[i].processed)
  }

  lemma ActionKeepsSignals(d: Dag, w: World, act: Action)
    requires Enabled(d, w, act) && ReconcileAction(act)
    ensures SameSignals(w.signals, Apply(d, w, act).signals)
  {
    hide Blocked, DepsCompleted, Outputs, AllTerminal, AnyActive, NamesFailure, Verdict, VerdictEvent;
  }

  lemma {:induction false} PassTraceKeepsSignals(d: Dag, w: World, tr: seq<Action>)
    requires Valid(d, w, tr) && PassActions(tr)
    ensures SameSignals(w.signals, After(d, w, tr).signals)
    decreases |tr|
  {
    hide Enabled, Apply, ReconcileAction;
    if tr != [] {
      var k := |tr| - 1;
      PassTraceKeepsSignals(d, w, tr[..k]);
      ActionKeepsSignals(d, After(d, w, tr[..k]), tr[k]);
    }
  }

  /** A pass takes signals and does nothing else to them. */
  lemma PassKeepsSignals(d: Dag, w: World, sch: Schedule)
    requires Fits(d, w, sch)
    ensures SameSignals(w.signals, Reconcile(d, w, sch).signals)
  {
    hide Reconcile, Fits, SameSignals;
    var tr := ReconcileTrace(d, w, sch);
    PassTraceKeepsSignals(d, w, tr);
  }

  /** Some step has been dispatched, waits, backs off or is completed. */
  predicate HasBegun(steps: map<Name, Step>) {
    exists n :: n in steps && steps[n].status in {StepQueued, StepRunning, StepRetryBackoff, StepWaiting, StepCompleted}
  }

  lemma ConcludeStartsIff(d: Dag, w: World, failed: Option<Name>)
    requires Underway(d, w) && NamesFailure(w.steps, failed)
    ensures var w' := Conclude(d, w, failed);
      && w'.steps == w.steps
      && (RunTerminal(w'.run.status) <==> AllTerminal(w.steps))
      && (!RunTerminal(w'.run.status) ==> (w'.run.status == RunRunning <==> w.run.status == RunRunning || HasBegun(w.steps)))
  {
    hide NamesFailure, AllTerminal, CancelTimers, Outputs, SomeIn, HasBegun, AnyActive;
    BegunIsActive(w.steps);
  }

  lemma BegunIsActive(steps: map<Name, Step>)
    ensures HasBegun(steps) <==> AnyActive(steps)
  {
    if AnyActive(steps) {
      var n :| n in steps && Active(steps[n].status);
      assert steps[n].status in {StepQueued, StepRunning, StepRetryBackoff, StepWaiting, StepCompleted};
    }
  }

  lemma SweptKeepsStatus(d: Dag, w: World, sch: Schedule)
    requires Underway(d, w) && Orders(d, sch)
    ensures Swept(d, w, sch).run.status == w.run.status
  {
    hide SkipPasses, Sweep, Orders;
  }

  /** A pass over a live run ends it exactly if it leaves every step terminal.  If not, the
      run has started exactly if it had before or some step has begun. */
  lemma PassStartsIff(d: Dag, w: World, sch: Schedule)
    requires Fits(d, w, sch) && !RunTerminal(w.run.status)
    ensures var w' := Reconcile(d, w, sch);
      && (RunTerminal(w'.run.status) <==> AllTerminal(w'.steps))
      && (!RunTerminal(w'.run.status) ==> (w'.run.status == RunRunning <==> w.run.status == RunRunning || HasBegun(w'.steps)))
  {
    hide Swept, Orders, NamesFailure, Conclude, HasBegun, AllTerminal;
    SweptKeepsStatus(d, w, sch);
    ConcludeStartsIff(d, Swept(d, w, sch), sch.failed);
  }

  // ------------------------------------------------------- visits make progress

  function Open(steps: map<Name, Step>): set<Name> {
    set n | n in steps && Undispatched(steps[n].status)
  }

  /** Grows with every action of a pass. */
  function Progress(w: World): int {
    |w.history| - |Open(w.steps)|
  }

  lemma OpenAfterMove(steps: map<Name, Step>, n: Name, s: Step)
    requires n in steps && !Undispatched(s.status)
    ensures Open(steps[n := s]) == Open(steps) - {n}
    ensures |Open(steps[n := s])| == |Open(steps)| - if Undispatched(steps[n].status) then 1 else 0
  {
    assert Open(steps[n := s]) == Open(steps) - {n};
    assert n in Open(steps) <==> Undispatched(steps[n].status);
  }

  lemma VisitProgress(d: Dag, w: World, ph: Phase, n: Name)
    requires Underway(d, w) && n in d
    ensures VisitAction(d, w, ph, n).None? ==> Visit(d, w, ph, n) == w
    ensures VisitAction(d, w, ph, n).Some? ==> Progress(Visit(d, w, ph, n)) > Progress(w)
    ensures Open(Visit(d, w, ph, n).steps) <= Open(w.steps)
    ensures ph == Skipping && VisitAction(d, w, ph, n).Some? ==> Open(Visit(d, w, ph, n).steps) < Open(w.steps)
  {
    match VisitAction(d, w, ph, n)
    case None =>
    case Some(act) =>
      var w' := Apply(d, w, act);
      assert w'.steps == w.steps[n := w'.steps[n]];
      OpenAfterMove(w.steps, n, w'.steps[n]);
      if ph == Skipping {
        assert n in Open(w.steps);
      }
  }

  lemma {:induction false} SweepProgress(d: Dag, w: World, ph: Phase, order: seq<Name>)
    requires Underway(d, w) && forall n :: n in order ==> n in d
    ensures Progress(Sweep(d, w, ph, order)) >= Progress(w)
    ensures Progress(Sweep(d, w, ph, order)) == Progress(w) ==> Sweep(d, w, ph, order) == w
    decreases |order|
  {
    hide Visit, VisitAction, Progress;
    if order != [] {
      var k := |order| - 1;
      SweepProgress(d, w, ph, order[..k]);
      VisitProgress(d, Sweep(d, w, ph, order[..k]), ph, order[k]);
    }
  }

  lemma {:induction false} SweepOpens(d: Dag, w: World, ph: Phase, order: seq<Name>)
    requires Underway(d, w) && forall n :: n in order ==> n in d
    ensures Open(Sweep(d, w, ph, order).steps) <= Open(w.steps)
    ensures ph == Skipping && Sweep(d, w, ph, order) != w ==> Open(Sweep(d, w, ph, order).steps) < Open(w.steps)
    decreases |order|
  {
    hide Visit, VisitAction, Progress, Open;
    if order != [] {
      var k := |order| - 1;
      SweepOpens(d, w, ph, order[..k]);
      VisitProgress(d, Sweep(d, w, ph, order[..k]), ph, order[k]);
    }
  }

  lemma {:induction false} IdleVisitsSweepNothing(d: Dag, w: World, ph: Phase, order: seq<Name>)
    requires Underway(d, w) && (forall n :: n in order ==> n in d) && forall n :: n in order ==> VisitAction(d, w, ph, n).None?
    ensures Sweep(d, w, ph, order) == w
    decreases |order|
  {
    hide VisitAction;
    if order != [] {
      IdleVisitsSweepNothing(d, w, ph, order[..|order| - 1]);
      assert order[|order| - 1] in order;
    }
  }

  lemma {:induction false} QuietSweepIsIdle(d: Dag, w: World, ph: Phase, order: seq<Name>, n: Name)
    requires Underway(d, w) && (forall m :: m in order ==> m in d) && Sweep(d, w, ph, order) == w && n in order
    ensures VisitAction(d, w, ph, n).None?
    decreases |order|
  {
    hide Visit, VisitAction, Progress;
    var k := |order| - 1;
    var w1 := Sweep(d, w, ph, order[..k]);
    SweepProgress(d, w, ph, order[..k]);
    VisitProgress(d, w1, ph, order[k]);
    if n != order[k] {
      QuietSweepIsIdle(d, w, ph, order[..k], n);
    }
  }

  /** A sweep that changes nothing found nothing to do at any step, and conversely. */
  lemma SweepIdle(d: Dag, w: World, ph: Phase, order: seq<Name>)
    requires Underway(d, w) && forall n :: n in order ==> n in d
    ensures Progress(Sweep(d, w, ph, order)) >= Progress(w)
    ensures Progress(Sweep(d, w, ph, order)) == Progress(w) ==> Sweep(d, w, ph, order) == w
    ensures Sweep(d, w, ph, order) == w <==> forall n :: n in order ==> VisitAction(d, w, ph, n).None?
    ensures Open(Sweep(d, w, ph, order).steps) <= Open(w.steps)
    ensures ph == Skipping && Sweep(d, w, ph, order) != w ==> Open(Sweep(d, w, ph, order).steps) < Open(w.steps)
  {
    hide Sweep, VisitAction, Progress, Open;
    SweepProgress(d, w, ph, order);
    SweepOpens(d, w, ph, order);
    if Sweep(d, w, ph, order) == w {
      forall n | n in order ensures VisitAction(d, w, ph, n).None? {
        QuietSweepIsIdle(d, w, ph, order, n);
      }
    } else if forall n :: n in order ==> VisitAction(d, w, ph, n).None? {
      IdleVisitsSweepNothing(d, w, ph, order);
    }
  }
}
