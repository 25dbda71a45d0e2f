/** The orchestration engine: one reconcile pass over the step map, and the entry
    points that end in one.  Each method is proved to do what the corresponding
    function does for the order in which the map happened to be visited. */
module Engines {
  import opened Rows
  import opened Dags
  import opened Transitions
  import opened Invariants
  import opened Reconciling
  import opened Leases
  import opened Storage
  import opened Backoff

  // ------------------------------------------------------- visiting every step

  /** The visited names, and those still to come, make up all the keys. */
  ghost predicate Visiting(order: seq<Name>, rest: set<Name>, keys: set<Name>) {
    && (forall n :: n in order ==> n in keys && n !in rest)
    && (forall n :: n in keys ==> n in order || n in rest)
    && (forall n :: n in rest ==> n in keys)
    && (forall i, j :: 0 <= i < j < |order| ==> order[i] != order[j])
  }

  lemma VisitingNext(order: seq<Name>, rest: set<Name>, keys: set<Name>, n: Name)
    requires Visiting(order, rest, keys) && n in rest
    ensures Visiting(order + [n], rest - {n}, keys)
  {
  }

  lemma VisitingDone(order: seq<Name>, keys: set<Name>)
    requires Visiting(order, {}, keys)
    ensures IsOrder(order, keys)
  {
  }

  lemma SweepSnoc(d: Dag, w: World, ph: Phase, order: seq<Name>, n: Name)
    requires Underway(d, w) && n in d && forall m :: m in order ==> m in d
    ensures Sweep(d, w, ph, order + [n]) == Visit(d, Sweep(d, w, ph, order), ph, n)
  {
    assert (order + [n])[..|order|] == order;
  }

  ghost predicate Within(order: seq<Name>, d: Dag) {
    forall n :: n in order ==> n in d
  }

  lemma StartVisit(keys: set<Name>)
    ensures Visiting([], keys, keys)
  {
  }

  lemma RestWithin(order: seq<Name>, rest: set<Name>, keys: set<Name>, n: Name)
    requires Visiting(order, rest, keys) && n in rest
    ensures n in keys
  {
  }

  // --------------------------------------------------------- passes of skipping

  /** All of the passes, without stopping early. */
  ghost function AllPasses(d: Dag, w: World, passes: seq<seq<Name>>): (w': World)
    requires Underway(d, w) && AllWithin(passes, d.Keys)
    ensures Underway(d, w')
    decreases |passes|
  {
    if passes == [] then w
    else
      var k := |passes| - 1;
      Sweep(d, AllPasses(d, w, passes[..k]), Skipping, passes[k])
  }

  /** Every pass changes something. */
  ghost predicate AllBusy(d: Dag, w: World, passes: seq<seq<Name>>)
    requires Underway(d, w) && AllWithin(passes, d.Keys)
    decreases |passes|
  {
    passes == [] || (var k := |passes| - 1; AllBusy(d, w, passes[..k]) && AllPasses(d, w, passes) != AllPasses(d, w, passes[..k]))
  }

  lemma NoOrders(keys: set<Name>)
    ensures AllOrders([], keys)
  {
  }

  lemma OrdersSnoc(passes: seq<seq<Name>>, order: seq<Name>, keys: set<Name>)
    requires AllOrders(passes, keys) && IsOrder(order, keys)
    ensures AllOrders(passes + [order], keys)
  {
  }

  lemma WithinOrders(passes: seq<seq<Name>>, keys: set<Name>)
    requires AllOrders(passes, keys)
    ensures AllWithin(passes, keys)
  {
  }

  lemma SkipPassesCons(d: Dag, w: World, order: seq<Name>, more: seq<seq<Name>>)
    requires Underway(d, w) && (forall n :: n in order ==> n in d) && AllWithin(more, d.Keys)
    ensures AllWithin([order] + more, d.Keys)
    ensures SkipPasses(d, w, [order] + more) ==
            var w1 := Sweep(d, w, Skipping, order); if w1 == w then w else SkipPasses(d, w1, more)
  {
    hide Sweep;
    assert ([order] + more)[1..] == more;
  }

  lemma {:induction false} BusyPassesRun(d: Dag, w: World, passes: seq<seq<Name>>, more: seq<seq<Name>>)
    requires Underway(d, w) && AllWithin(passes, d.Keys) && AllWithin(more, d.Keys) && AllBusy(d, w, passes)
    ensures AllWithin(passes + more, d.Keys)
    ensures SkipPasses(d, w, passes + more) == SkipPasses(d, AllPasses(d, w, passes), more)
    decreases |passes|
  {
    hide Sweep, SkipPasses, Underway;
    if passes == [] {
      assert passes + more == more;
    } else {
      var k := |passes| - 1;
      var w1 := AllPasses(d, w, passes[..k]);
      SkipPassesCons(d, w1, passes[k], more);
      BusyPassesRun(d, w, passes[..k], [passes[k]] + more);
      assert passes[..k] + ([passes[k]] + more) == passes + more;
    }
  }

  lemma AllPassesSnoc(d: Dag, w: World, passes: seq<seq<Name>>, order: seq<Name>)
    requires Underway(d, w) && AllWithin(passes, d.Keys) && forall n :: n in order ==> n in d
    ensures AllWithin(passes + [order], d.Keys)
    ensures AllPasses(d, w, passes + [order]) == Sweep(d, AllPasses(d, w, passes), Skipping, order)
    ensures AllBusy(d, w, passes) && Sweep(d, AllPasses(d, w, passes), Skipping, order) != AllPasses(d, w, passes)
            ==> AllBusy(d, w, passes + [order])
  {
    assert (passes + [order])[..|passes|] == passes;
  }

  /** Passes stop at one that changes nothing, whatever would have come after. */
  lemma StoppedPasses(d: Dag, w: World, done: seq<seq<Name>>, order: seq<Name>, fill: nat) returns (passes: seq<seq<Name>>)
    requires Underway(d, w) && AllOrders(done, d.Keys) && IsOrder(order, d.Keys) && AllBusy(d, w, done)
    requires Sweep(d, AllPasses(d, w, done), Skipping, order) == AllPasses(d, w, done)
    ensures AllOrders(passes, d.Keys) && |passes| == |done| + 1 + fill
    ensures SkipPasses(d, w, passes) == AllPasses(d, w, done)
  {
    hide Sweep, SkipPasses, Underway, IsOrder, AllPasses;
    var rest := seq(fill, _ => order);
    WithinOrders(rest, d.Keys);
    WithinOrders(done, d.Keys);
    WithinOrders([order], d.Keys);
    assert [order][0] == order;
    SkipPassesCons(d, AllPasses(d, w, done), order, rest);
    passes := done + ([order] + rest);
    BusyPassesRun(d, w, done, [order] + rest);
  }

  lemma NoPasses(d: Dag, w: World)
    requires Underway(d, w)
    ensures AllWithin([], d.Keys) && AllBusy(d, w, []) && AllPasses(d, w, []) == w
  {
  }

  lemma PassesUsedUp(d: Dag, w: World, passes: seq<seq<Name>>)
    requires Underway(d, w) && AllWithin(passes, d.Keys) && AllBusy(d, w, passes)
    ensures SkipPasses(d, w, passes) == AllPasses(d, w, passes)
  {
    BusyPassesRun(d, w, passes, []);
    assert passes + [] == passes;
  }

  // ------------------------------------------------------------------ run state

  /** The steps of a run as one pass sees them. */
  predicate AllOver(steps: map<Name, Step>) {
    forall n :: n in steps ==> steps[n].status in {StepCompleted, StepFailed, StepSkipped, StepCancelled}
  }

  /** The output of every completed step, under its name, and nothing else. */
  ghost predicate OutputsOfCompleted(steps: map<Name, Step>, outputs: map<Name, Option<Payload>>) {
    && (forall n :: n in outputs <==> n in steps && steps[n].status == StepCompleted)
    && (forall n :: n in outputs ==> outputs[n] == steps[n].output)
  }

  /** The run is closed with the verdict its steps call for: FAILED if one failed, else
      CANCELLED if one was cancelled, else COMPLETED; no timer is left pending. */
  ghost predicate ClosedAs(w: World, w': World, outputs: map<Name, Option<Payload>>, failedStep: Option<Name>, cancelledAny: bool) {
    && w'.run.output == Some(outputs)
    && (match failedStep
        case Some(f) => w'.run.status == RunFailed && w'.run.failedStep == failedStep
        case None => w'.run.status == if cancelledAny then RunCancelled else RunCompleted)
    && w'.history == w.history + [HistoryEvent(w.run.historySeq + 1,
                                               match failedStep
                                               case Some(f) => RunFailedEvent(f)
                                               case None => if cancelledAny then RunCancelledEvent else RunCompletedEvent)]
    && forall t :: 0 <= t < |w'.timers| ==> w'.timers[t].status != TimerPending
  }

  /** The run after the first half of the end of a pass. */
  function StartedIf(w: World): World {
    if w.run.status == RunPending && AnyActive(w.steps) then Log(w.(run := w.run.(status := RunRunning)), RunStartedEvent) else w
  }

  lemma ConcludeSteps(d: Dag, w: World)
    requires Underway(d, w)
    ensures forall failed :: NamesFailure(w.steps, failed) ==>
      Conclude(d, w, failed) == if AllTerminal(w.steps) then FinishRun(StartedIf(w), failed) else StartedIf(w)
  {
    hide NamesFailure, AllTerminal, AnyActive, FinishRun;
  }

  lemma FinishCloses(w: World, failed: Option<Name>)
    ensures ClosedAs(w, FinishRun(w, failed), Outputs(w.steps), failed, SomeIn(w.steps, StepCancelled))
  {
    hide Outputs, SomeIn;
  }

  class RunState {
    var byName: map<Name, Step>

    constructor (steps: map<Name, Step>)
      ensures byName == steps
    {
      byName := steps;
    }

    method AllStepsTerminal() returns (all: bool)
      ensures all == AllTerminal(byName)
      ensures all <==> AllOver(byName)
    {
      var rest := byName.Keys;
      while rest != {}
        invariant rest <= byName.Keys && forall n :: n in byName && n !in rest ==> StepTerminal(byName[n].status)
        decreases |rest|
      {
        var n :| n in rest;
        if !StepTerminal(byName[n].status) {
          return false;
        }
        rest := rest - {n};
      }
      return true;
    }

    method AnyDispatchedOrRunning() returns (any: bool)
      ensures any == AnyActive(byName)
      ensures any <==> HasBegun(byName)
    {
      var rest := byName.Keys;
      while rest != {}
        invariant rest <= byName.Keys && forall n :: n in byName && n !in rest ==> !Active(byName[n].status)
        decreases |rest|
      {
        var n :| n in rest;
        if Active(byName[n].status) {
          return true;
        }
        rest := rest - {n};
      }
      return false;
    }

    method AnyDepBroken(d: Dag, n: Name) returns (blocked: bool)
      requires n in d
      ensures blocked == Blocked(d, byName, n)
      ensures blocked <==> exists dep ::
        dep in d[n].dependsOn && dep in byName && byName[dep].status in {StepFailed, StepSkipped, StepCancelled}
    {
      var deps := d[n].dependsOn;
      for i := 0 to |deps|
        invariant forall j :: 0 <= j < i ==> !(deps[j] in byName && Broken(byName[deps[j]].status))
      {
        if deps[i] in byName && Broken(byName[deps[i]].status) {
          return true;
        }
      }
      return false;
    }

    method AllDepsCompleted(d: Dag, n: Name) returns (ready: bool)
      requires n in d
      ensures ready == DepsCompleted(d, byName, n)
    {
      var deps := d[n].dependsOn;
      for i := 0 to |deps|
        invariant forall j :: 0 <= j < i ==> deps[j] in byName && byName[deps[j]].status == StepCompleted
      {
        if deps[i] !in byName || byName[deps[i]].status != StepCompleted {
          return false;
        }
      }
      return true;
    }

    /** The outputs of the completed steps, the first failed step met, and whether a step is cancelled. */
    method Tally() returns (outputs: map<Name, Option<Payload>>, failed: Option<Name>, cancelledAny: bool)
      ensures outputs == Outputs(byName)
      ensures OutputsOfCompleted(byName, outputs)
      ensures NamesFailure(byName, failed)
      ensures cancelledAny == SomeIn(byName, StepCancelled)
    {
      outputs, failed, cancelledAny := map[], None, false;
      var rest := byName.Keys;
      while rest != {}
        invariant rest <= byName.Keys
        invariant outputs == map n | n in byName && n !in rest && byName[n].status == StepCompleted :: byName[n].output
        invariant failed.Some? ==> failed.value in byName && byName[failed.value].status == StepFailed
        invariant failed.None? ==> forall n :: n in byName && n !in rest ==> byName[n].status != StepFailed
        invariant cancelledAny ==> SomeIn(byName, StepCancelled)
        invariant !cancelledAny ==> forall n :: n in byName && n !in rest ==> byName[n].status != StepCancelled
        decreases |rest|
      {
        var n :| n in rest;
        rest := rest - {n};
        var s := byName[n];
        if s.status == StepCompleted {
          outputs := outputs[n := s.output];
        }
        if s.status == StepFailed && failed.None? {
          failed := Some(n);
        }
        if s.status == StepCancelled {
          cancelledAny := true;
        }
      }
    }
  }

  // --------------------------------------------------------------------- engine

  class Engine {
    const q: Store

    constructor (store: Store)
      ensures q == store
    {
      q := store;
    }

    /** The pass works on a copy of the steps that agrees with the store. */
    ghost predicate InPass(rs: RunState)
      reads this, q, rs
    {
      rs.byName == q.steps && Underway(q.dag, q.Contents())
    }

    // -------------------------------------------------------------------- skips

    method VisitForSkip(rs: RunState, n: Name) returns (changed: bool)
      requires InPass(rs) && n in q.dag
      modifies q`steps, q`run, q`history, rs
      ensures InPass(rs) && q.Contents() == Visit(q.dag, old(q.Contents()), Skipping, n)
      ensures changed == VisitAction(q.dag, old(q.Contents()), Skipping, n).Some?
    {
      var s := rs.byName[n];
      changed := false;
      if !Undispatched(s.status) {
        return;
      }
      var blocked := rs.AnyDepBroken(q.dag, n);
      if !blocked {
        return;
      }
      var ok := q.UpdateStepStatus(n, {s.status}, StepSkipped, None, false);
      if ok {
        rs.byName := rs.byName[n := s.(status := StepSkipped)];
        changed := true;
        q.AppendHistory(StepSkippedEvent(n));
      }
    }

    method SkipPass(rs: RunState) returns (changed: bool, ghost order: seq<Name>)
      requires InPass(rs)
      modifies q`steps, q`run, q`history, rs
      ensures InPass(rs) && IsOrder(order, q.dag.Keys)
      ensures q.Contents() == Sweep(q.dag, old(q.Contents()), Skipping, order)
      ensures changed == (q.Contents() != old(q.Contents()))
    {
      hide VisitAction, Visit, Progress, IsOrder, Visiting;
      ghost var w := q.Contents();
      var rest := rs.byName.Keys;
      changed, order := false, [];
      StartVisit(rest);
      while rest != {}
        invariant InPass(rs) && Visiting(order, rest, q.dag.Keys)
        invariant Within(order, q.dag) && q.Contents() == Sweep(q.dag, w, Skipping, order)
        invariant if changed then Progress(q.Contents()) > Progress(w) else q.Contents() == w
        decreases |rest|
      {
        var n :| n in rest;
        RestWithin(order, rest, q.dag.Keys, n);
        ghost var before := q.Contents();
        SweepSnoc(q.dag, w, Skipping, order, n);
        VisitProgress(q.dag, before, Skipping, n);
        var skipped := VisitForSkip(rs, n);
        if skipped {
          changed := true;
        }
        VisitingNext(order, rest, q.dag.Keys, n);
        rest := rest - {n};
        order := order + [n];
      }
      VisitingDone(order, q.dag.Keys);
    }

    method PropagateSkips(rs: RunState) returns (ghost passes: seq<seq<Name>>)
      requires InPass(rs)
      modifies q`steps, q`run, q`history, rs
      ensures InPass(rs) && AllOrders(passes, q.dag.Keys) && |passes| == |q.dag.Keys| + 1
      ensures AllWithin(passes, q.dag.Keys) && q.Contents() == SkipPasses(q.dag, old(q.Contents()), passes)
    {
      hide Sweep, SkipPasses, IsOrder, AllPasses, AllBusy, AllOrders, AllWithin;
      ghost var w0 := q.Contents();
      ghost var n := |q.dag.Keys|;
      passes := [];
      NoPasses(q.dag, w0);
      NoOrders(q.dag.Keys);
      var pass := 0;
      while pass < |rs.byName| + 1
        invariant InPass(rs) && pass == |passes| <= n + 1 && |rs.byName.Keys| == n
        invariant AllOrders(passes, q.dag.Keys) && AllWithin(passes, q.dag.Keys) && AllBusy(q.dag, w0, passes)
        invariant q.Contents() == AllPasses(q.dag, w0, passes)
        decreases n + 1 - pass
      {
        ghost var order;
        var changed;
        changed, order := SkipPass(rs);
        OrderWithin(order, q.dag.Keys);
        OrdersSnoc(passes, order, q.dag.Keys);
        AllPassesSnoc(q.dag, w0, passes, order);
        if !changed {
          passes := StoppedPasses(q.dag, w0, passes, order, n - pass);
          WithinOrders(passes, q.dag.Keys);
          return;
        }
        passes := passes + [order];
        pass := pass + 1;
      }
      PassesUsedUp(q.dag, w0, passes);
    }

    // ----------------------------------------------------------------- dispatch

    /** Completes n with the oldest unprocessed signal of the name it wants, if there is one. */
    method TryResolveSignalWait(rs: RunState, n: Name) returns (resolved: bool)
      requires InPass(rs) && n in q.dag
      modifies q`steps, q`run, q`history, q`signals, q`consumer, rs
      ensures InPass(rs)
      ensures var found := FindSignal(old(q.signals), WantedSignal(q.dag, n));
        && resolved == found.Some?
        && q.Contents() == if resolved then CompleteBySignal(old(q.Contents()), n, found.value) else old(q.Contents())
    {
      hide FindSignal, UnprocessedFrom, SetStatus, RunTerminal;
      var s := rs.byName[n];
      var wantName := n;
      if q.dag[n].signalName != "" {
        wantName := q.dag[n].signalName;
      }
      var ids := q.ListUnprocessedSignals();
      UnprocessedAscending(q.signals, 0);
      for k := 0 to |ids|
        invariant InPass(rs) && q.Contents() == old(q.Contents())
        invariant forall l :: 0 <= l < k ==> q.signals[ids[l]].name != wantName
      {
        var sig := q.signals[ids[k]];
        FirstMatchIsOldest(q.signals, wantName, k);
        if sig.name != wantName {
          continue;
        }
        var applied := q.MarkSignalProcessed(ids[k], n);
        assert applied;  // no other consumer inside the transaction
        var ok := q.UpdateStepStatus(n, {s.status}, StepCompleted, Some(sig.payload), false);
        if ok {
          rs.byName := rs.byName[n := s.(status := StepCompleted, output := Some(sig.payload))];
          q.AppendHistory(StepCompletedBySignalEvent(n, sig.name));
        }
        return true;
      }
      FirstMatchIsOldest(q.signals, wantName, |ids|);
      return false;
    }

    /** The outbox write path: the attempt, its outbox row and the move to QUEUED.  When
        the guard on the step's status fails, the transaction is to be given up, the
        step and the log are as before, and no dispatch is recorded. */
    method DispatchStep(n: Name, s: Step, from: set<StepStatus>) returns (ok: bool, s': Step)
      requires n in q.dag && n in q.steps
      modifies q`steps, q`run, q`history, q`attempts, q`outbox
      ensures ok <==> old(q.steps)[n].status in from
      ensures ok && s == old(q.steps)[n] ==>
        q.Contents() == Transitions.DispatchStep(q.dag, old(q.Contents()), n) && s' == q.steps[n]
      ensures !ok ==>
        && q.steps == old(q.steps) && q.run == old(q.run) && q.history == old(q.history) && s' == s
        && |q.attempts| == |old(q.attempts)| + 1 && |q.outbox| == |old(q.outbox)| + 1
        && old(q.attempts) <= q.attempts && old(q.outbox) <= q.outbox
    {
      var number := s.attemptCount + 1;
      var taskType := q.dag[n].taskType;
      var queue := QueueName(taskType);
      var id := q.CreateTaskAttempt(n, number, queue);
      q.InsertOutboxMessage(id, queue, TaskPayload(id, n, taskType, q.dag[n].input, number, q.attempts[id].idempotencyKey,
                                                       q.dag[n].timeoutSeconds));
      ok := q.UpdateStepStatus(n, from, StepQueued, None, true);
      if !ok {
        return false, s;
      }
      s' := s.(status := StepQueued, attemptCount := number);
      q.AppendHistory(StepDispatchedEvent(n, number));
    }

    method VisitWaiting(rs: RunState, n: Name)
      requires InPass(rs) && n in q.dag
      modifies q`steps, q`run, q`history, q`signals, q`consumer, rs
      ensures InPass(rs) && q.Contents() == Visit(q.dag, old(q.Contents()), Resolving, n)
    {
      hide FindSignal;
      if rs.byName[n].status != StepWaiting {
        return;
      }
      var resolved := TryResolveSignalWait(rs, n);
    }

    method VisitReady(rs: RunState, n: Name)
      requires InPass(rs) && n in q.dag
      modifies q`steps, q`run, q`history, q`signals, q`consumer, q`attempts, q`outbox, rs
      ensures InPass(rs) && q.Contents() == Visit(q.dag, old(q.Contents()), Dispatching, n)
    {
      hide FindSignal;
      var s := rs.byName[n];
      if !Undispatched(s.status) {
        return;
      }
      var ready := rs.AllDepsCompleted(q.dag, n);
      if !ready {
        return;
      }
      if q.dag[n].taskType == SIGNAL_WAIT {
        var resolved := TryResolveSignalWait(rs, n);
        if !resolved {
          var ok := q.UpdateStepStatus(n, {s.status}, StepWaiting, None, false);
          if ok {
            rs.byName := rs.byName[n := s.(status := StepWaiting)];
          }
        }
        return;
      }
      var _, s' := DispatchStep(n, s, {s.status});
      rs.byName := rs.byName[n := s'];
    }

    method ResolveWaiting(rs: RunState) returns (ghost order: seq<Name>)
      requires InPass(rs)
      modifies q`steps, q`run, q`history, q`signals, q`consumer, rs
      ensures InPass(rs) && IsOrder(order, q.dag.Keys)
      ensures q.Contents() == Sweep(q.dag, old(q.Contents()), Resolving, order)
    {
      hide VisitAction, Visit, IsOrder, Visiting;
      ghost var w := q.Contents();
      var rest := rs.byName.Keys;
      order := [];
      StartVisit(rest);
      while rest != {}
        invariant InPass(rs) && Visiting(order, rest, q.dag.Keys)
        invariant Within(order, q.dag) && q.Contents() == Sweep(q.dag, w, Resolving, order)
        decreases |rest|
      {
        var n :| n in rest;
        RestWithin(order, rest, q.dag.Keys, n);
        SweepSnoc(q.dag, w, Resolving, order, n);
        VisitWaiting(rs, n);
        VisitingNext(order, rest, q.dag.Keys, n);
        rest := rest - {n};
        order := order + [n];
      }
      VisitingDone(order, q.dag.Keys);
    }

    method DispatchPending(rs: RunState) returns (ghost order: seq<Name>)
      requires InPass(rs)
      modifies q`steps, q`run, q`history, q`signals, q`consumer, q`attempts, q`outbox, rs
      ensures InPass(rs) && IsOrder(order, q.dag.Keys)
      ensures q.Contents() == Sweep(q.dag, old(q.Contents()), Dispatching, order)
    {
      hide VisitAction, Visit, IsOrder, Visiting;
      ghost var w := q.Contents();
      var rest := rs.byName.Keys;
      order := [];
      StartVisit(rest);
      while rest != {}
        invariant InPass(rs) && Visiting(order, rest, q.dag.Keys)
        invariant Within(order, q.dag) && q.Contents() == Sweep(q.dag, w, Dispatching, order)
        decreases |rest|
      {
        var n :| n in rest;
        RestWithin(order, rest, q.dag.Keys, n);
        SweepSnoc(q.dag, w, Dispatching, order, n);
        VisitReady(rs, n);
        VisitingNext(order, rest, q.dag.Keys, n);
        rest := rest - {n};
        order := order + [n];
      }
      VisitingDone(order, q.dag.Keys);
    }

    /** Re-checks the waiting steps, then dispatches what is ready. */
    method DispatchReady(rs: RunState) returns (ghost waiting: seq<Name>, ghost ready: seq<Name>)
      requires InPass(rs)
      modifies q`steps, q`run, q`history, q`signals, q`consumer, q`attempts, q`outbox, rs
      ensures InPass(rs) && IsOrder(waiting, q.dag.Keys) && IsOrder(ready, q.dag.Keys)
      ensures q.Contents() == Sweep(q.dag, Sweep(q.dag, old(q.Contents()), Resolving, waiting), Dispatching, ready)
    {
      hide Sweep;
      waiting := ResolveWaiting(rs);
      ready := DispatchPending(rs);
    }

    // --------------------------------------------------------------- completion

    method CheckRunCompletion(rs: RunState) returns (ghost failed: Option<Name>)
      requires InPass(rs)
      modifies q`run, q`history, q`timers
      ensures NamesFailure(q.steps, failed)
      ensures q.Contents() == Conclude(q.dag, old(q.Contents()), failed)
    {
      hide Outputs, SomeIn, AllTerminal, AnyActive, NamesFailure, FinishRun, FindSignal, AllOver, HasBegun, OutputsOfCompleted, ClosedAs, Conclude;
      ConcludeSteps(q.dag, q.Contents());
      var outputs, failedStep, cancelledAny := rs.Tally();
      failed := failedStep;
      if q.run.status == RunPending {
        var active := rs.AnyDispatchedOrRunning();
        if active {
          var ok := q.UpdateWorkflowRunStatus({RunPending}, RunRunning, None, None);
          if ok {
            q.AppendHistory(RunStartedEvent);
          }
        }
      }
      var all := rs.AllStepsTerminal();
      if !all {
        return;
      }
      Close(outputs, failedStep, cancelledAny);
    }

    /** Records the verdict on a run whose steps are all terminal. */
    method Close(outputs: map<Name, Option<Payload>>, failedStep: Option<Name>, cancelledAny: bool)
      requires !RunTerminal(q.run.status) && AllTerminal(q.steps)
      requires outputs == Outputs(q.steps) && NamesFailure(q.steps, failedStep) && cancelledAny == SomeIn(q.steps, StepCancelled)
      modifies q`run, q`history, q`timers
      ensures q.Contents() == FinishRun(old(q.Contents()), failedStep)
      ensures ClosedAs(old(q.Contents()), q.Contents(), outputs, failedStep, cancelledAny)
    {
      hide CancelTimers, Outputs, SomeIn, AllTerminal, ClosedAs;
      FinishCloses(q.Contents(), failedStep);
      if failedStep.Some? {
        var ok := q.UpdateWorkflowRunStatus({RunPending, RunRunning}, RunFailed, Some(outputs), failedStep);
        if ok {
          q.AppendHistory(RunFailedEvent(failedStep.value));
        }
      } else if cancelledAny {
        var ok := q.UpdateWorkflowRunStatus({RunPending, RunRunning}, RunCancelled, Some(outputs), None);
        if ok {
          q.AppendHistory(RunCancelledEvent);
        }
      } else {
        var ok := q.UpdateWorkflowRunStatus({RunPending, RunRunning}, RunCompleted, Some(outputs), None);
        if ok {
          q.AppendHistory(RunCompletedEvent);
        }
      }
      q.CancelTimersForRun();
    }

    /** One reconcile pass: skip, dispatch, conclude. */
    method ReconcileTx() returns (ghost sch: Schedule)
      requires q.steps.Keys == q.dag.Keys
      modifies q
      ensures q.stream == old(q.stream) && q.owed == old(q.owed)
      ensures Fits(q.dag, old(q.Contents()), sch) && q.Contents() == Reconcile(q.dag, old(q.Contents()), sch)
    {
      hide Sweep, SkipPasses, Conclude, NamesFailure, IsOrder;
      if RunTerminal(q.run.status) {
        ghost var order := SomeOrder(q.dag.Keys);
        sch := Schedule(seq(|q.dag.Keys| + 1, _ => order), order, order, None);
        return;
      }
      var rs := new RunState(q.steps);
      ghost var passes := PropagateSkips(rs);
      ghost var waiting, ready := DispatchReady(rs);
      ghost var failed := CheckRunCompletion(rs);
      sch := Schedule(passes, waiting, ready, failed);
    }

    // ------------------------------------------------------------- entry points

    /** Re-evaluates the run.  What it leaves alone, and how soon, is the subject of
        the Convergence module. */
    method ReconcileRun() returns (ghost sch: Schedule)
      requires q.Valid()
      modifies q
      ensures q.Valid() && Fits(q.dag, old(q.Contents()), sch)
      ensures q.Contents() == Reconcile(q.dag, old(q.Contents()), sch)
    {
      hide Reconcile, Reachable, Leads, ValidDag;
      ReachableRows(q.dag, q.Contents());
      sch := ReconcileTx();
      PassKeepsReachable(q.dag, old(q.Contents()), sch);
    }

    /** Applies a worker's report.  It is accepted from the current lease holder only. */
    method HandleTaskResult(a: nat, worker: string, success: bool, output: Option<Payload>, now: int, u: real)
      returns (accepted: bool, ghost sch: Schedule)
      requires q.Valid()
      modifies q
      ensures q.Valid()
      ensures accepted <==> Enabled(q.dag, old(q.Contents()), Report(a, worker, success, output, 0))
      ensures !accepted ==> q.Contents() == old(q.Contents())
      ensures accepted ==>
        && HasTried(q.dag, old(q.Contents()), a)
        && var due := RetryAt(q.dag, old(q.Contents()), a, now, u);
           var w1 := Apply(q.dag, old(q.Contents()), Report(a, worker, success, output, due));
           Fits(q.dag, w1, sch) && q.Contents() == Reconcile(q.dag, w1, sch)
      ensures accepted ==> TimersAfterOutcome(q.dag, old(q.Contents()), a, success, now, u, q.timers)
    {
      hide Reconcile, Reachable, Leads, ValidDag, Outcome, Fits, SameTimers, NearPlanned;
      sch := Schedule([], [], [], None);
      ReachableRows(q.dag, q.Contents());
      ghost var w := q.Contents();
      accepted := q.CompleteTaskAttempt(a, worker, success);
      if accepted {
        AttemptRow(q.dag, w, a);
        ghost var act := Report(a, worker, success, output, RetryAt(q.dag, w, a, now, u));
        ghost var w1 := Apply(q.dag, w, act);
        sch := HandleAttemptOutcome(a, success, output, now, u);
        LeadsOne(q.dag, w, act);
        StepKeepsReachable(q.dag, w, w1);
        PassKeepsReachable(q.dag, w1, sch);
      }
    }

    /** Shared by a report and by a lease that ran out: complete, retry or fail the step,
        then re-evaluate the run. */
    method HandleAttemptOutcome(a: nat, success: bool, output: Option<Payload>, now: int, u: real)
      returns (ghost sch: Schedule)
      requires q.steps.Keys == q.dag.Keys && HasTried(q.dag, q.Contents(), a)
      modifies q
      ensures q.owed == old(q.owed)
      ensures
        var due := RetryAt(q.dag, old(q.Contents()), a, now, u);
        var w1 := Outcome(q.dag, old(q.Contents()), a, success, output, due);
        Fits(q.dag, w1, sch) && q.Contents() == Reconcile(q.dag, w1, sch)
      ensures TimersAfterOutcome(q.dag, old(q.Contents()), a, success, now, u, q.timers)
    {
      hide Reconcile, Fits, ComputeBackoff, TimersAfterOutcome;
      ghost var w := q.Contents();
      var attempt := q.attempts[a];
      var n := attempt.step;
      var step := q.steps[n];
      if success {
        var ok := q.UpdateStepStatus(n, {StepQueued, StepRunning}, StepCompleted, output, false);
        if ok {
          q.AppendHistory(StepCompletedEvent(n, attempt.number));
        }
      } else if step.attemptCount < q.dag[n].maxAttempts {
        var backoff := ComputeBackoff(q.dag[n], step.attemptCount, u);
        q.InsertTimer(TimerRetryBackoff, Some(n), now + backoff);
        var ok := q.UpdateStepStatus(n, {StepQueued, StepRunning}, StepRetryBackoff, None, false);
        if ok {
          q.AppendHistory(StepRetryScheduledEvent(n, attempt.number));
        }
      } else {
        var ok := q.UpdateStepStatus(n, {StepQueued, StepRunning}, StepFailed, None, false);
        if ok {
          q.AppendHistory(StepFailedEvent(n, attempt.number));
        }
      }
      sch := ReconcileTx();
      RetryScheduled(q.dag, w, a, success, output, now, u, sch);
    }

    /** Claims a timer and applies it in one transaction. */
    method HandleFiredTimer(t: nat) returns (applied: bool, ghost sch: Schedule)
      requires q.steps.Keys == q.dag.Keys
      requires forall u :: 0 <= u < |q.timers| && q.timers[u].step.Some? ==> q.timers[u].step.value in q.dag
      modifies q
      ensures old(q.Valid()) ==> q.Valid()
      ensures applied == (t < |old(q.timers)| && old(q.timers)[t].status == TimerPending)
      ensures !applied ==> q.Contents() == old(q.Contents())
      ensures applied ==>
        var w1 := Apply(q.dag, old(q.Contents()), TimerAction(q.dag, old(q.Contents()), t));
        if old(q.timers)[t].kind == TimerRetryBackoff && !RetryDue(q.dag, old(q.Contents()), t) then q.Contents() == w1
        else Fits(q.dag, w1, sch) && q.Contents() == Reconcile(q.dag, w1, sch)
      ensures applied ==> SameTimers(old(q.timers)[t := old(q.timers)[t].(status := TimerFired)], q.timers)
    {
      hide Reconcile, Reachable, Leads, ValidDag, Fits, SameTimers;
      sch := Schedule([], [], [], None);
      ghost var w := q.Contents();
      applied := q.FireTimerCAS(t);
      if !applied {
        return;
      }
      var timer := q.timers[t];
      TimersUnchanged(q.timers);
      ghost var act := TimerAction(q.dag, w, t);
      LeadsOne(q.dag, w, act);
      StepKeepsReachable(q.dag, w, Apply(q.dag, w, act));
      if timer.kind == TimerRetryBackoff {
        if timer.step.None? {
          return;
        }
        var n := timer.step.value;
        var step := q.steps[n];
        if step.status != StepRetryBackoff || RunTerminal(q.run.status) {
          return;
        }
        var _, _ := DispatchStep(n, step, {StepRetryBackoff});
      }
      sch := ReconcileTx();
      PassKeepsReachable(q.dag, Apply(q.dag, w, act), sch);
      PassKeepsTimers(q.dag, Apply(q.dag, w, act), sch);
    }

    /** Applies the outcome of an attempt that was marked expired in an earlier transaction. */
    method ApplyExpired(a: nat, now: int, u: real) returns (ghost sch: Schedule)
      requires q.Valid() && a in q.owed
      modifies q
      ensures q.Valid() && q.owed == old(q.owed) - {a}
      ensures AppliesExpiry(q.dag, old(q.Contents()), a, now, u, sch, q.Contents())
      ensures TimersAfterOutcome(q.dag, old(q.Contents()), a, false, now, u, q.timers)
    {
      hide Reconcile, Reachable, Leads, ValidDag, Outcome, Fits, SameTimers, NearPlanned;
      ghost var w := q.Contents();
      ReachableRows(q.dag, w);
      OwedRow(q.dag, w, a);
      AttemptRow(q.dag, w, a);
      q.owed := q.owed - {a};
      ghost var act := ApplyExpiry(a, RetryAt(q.dag, w, a, now, u));
      ghost var w1 := Apply(q.dag, w, act);
      sch := HandleAttemptOutcome(a, false, None, now, u);
      LeadsOne(q.dag, w, act);
      StepKeepsReachable(q.dag, w, w1);
      PassKeepsReachable(q.dag, w1, sch);
    }

    /** Marks leases that ran out, in one transaction, then applies each outcome in its
        own.  The i-th outcome is applied at `clock(i)` and draws `draw(i)`; if `fails(i)`,
        its transaction is rolled back, the error is logged, and the outcome stays owed. */
    method ReapExpiredLeases(limit: int, now: int, clock: nat -> int, draw: nat -> real, fails: nat -> bool)
      returns (count: nat, ghost expired: seq<nat>, ghost schs: seq<Schedule>)
      requires q.Valid()
      modifies q
      ensures q.Valid() && q.owed == old(q.owed) + Unapplied(expired, |expired|, fails)
      ensures Expirable(old(q.Contents()), expired, now) && count == |expired| <= if limit < 0 then 0 else limit
      ensures count < limit ==> forall a :: 0 <= a < |old(q.attempts)| && LeaseOver(old(q.attempts)[a], now) ==> a in expired
      ensures ReapedRight(q.dag, old(q.Contents()), expired, now, count < limit)
      ensures AppliedEach(q.dag, ExpireAll(old(q.Contents()), expired), expired, clock, draw, fails, schs, q.Contents())
    {
      hide Reconcile, Reachable, Leads, ValidDag, Fits, ExpireAll, Apply, Enabled, AppliedEach, AppliesExpiry, ReapedRight;
      ghost var w := q.Contents();
      var ids := q.ReapExpiredAttempts(limit, now);
      expired := ids;
      ExpireAllLeads(q.dag, w, ids, now);
      StepKeepsReachable(q.dag, w, q.Contents());
      ReapedOwed(q.dag, w, ids, now);
      ghost var marked := q.Contents();
      schs := [];
      AppliedNone(q.dag, marked, clock, draw, fails);
      for i := 0 to |ids|
        invariant q.Valid() && q.owed == w.owed + Unapplied(ids, i, fails) + Rest(ids, i)
        invariant AppliedEach(q.dag, marked, ids[..i], clock, draw, fails, schs, q.Contents())
      {
        RestNext(ids, i, w.owed, fails);
        ghost var mid := q.Contents();
        ghost var sch := Schedule([], [], [], None);
        if !fails(i) {
          sch := ApplyExpired(ids[i], clock(i), draw(i));
        }
        AppliedSnoc(q.dag, marked, ids, i, clock, draw, fails, schs, mid, sch, q.Contents());
        schs := schs + [sch];
      }
      assert ids[..|ids|] == ids && Rest(ids, |ids|) == {};
      count := |ids|;
    }

    /** Records a signal and re-evaluates the run; one name is reserved for cancelling. */
    method ApplySignal(name: string, payload: Payload) returns (ghost sch: Schedule)
      requires q.Valid()
      modifies q
      ensures q.Valid()
      ensures name == CANCEL_SIGNAL ==> q.Contents() == Cancelled(q.dag, old(q.Contents()))
      ensures name == "__cancel__" ==> CancelsRun(old(q.Contents()), q.Contents())
      ensures name != "__cancel__" ==> SameSignals(old(q.signals) + [Signal(name, payload, false)], q.signals)
      ensures name != CANCEL_SIGNAL ==>
        var w1 := Apply(q.dag, old(q.Contents()), Deliver(name, payload));
        Fits(q.dag, w1, sch) && q.Contents() == Reconcile(q.dag, w1, sch)
    {
      hide Reconcile, Reachable, Leads, ValidDag, Fits, Cancelled, CancelsRun, SameSignals;
      sch := Schedule([], [], [], None);
      if name == CANCEL_SIGNAL {
        CancelRun();
        return;
      }
      ghost var w := q.Contents();
      ReachableRows(q.dag, w);
      q.InsertSignal(name, payload);
      q.AppendHistory(SignalReceivedEvent(name));
      ghost var act := Deliver(name, payload);
      ghost var w1 := Apply(q.dag, w, act);
      sch := ReconcileTx();
      PassKeepsSignals(q.dag, w1, sch);
      LeadsOne(q.dag, w, act);
      StepKeepsReachable(q.dag, w, w1);
      PassKeepsReachable(q.dag, w1, sch);
    }

    /** Cancels every open step and then the run. */
    method CancelRun()
      requires q.Valid()
      modifies q
      ensures q.Valid() && q.Contents() == Cancelled(q.dag, old(q.Contents()))
      ensures CancelsRun(old(q.Contents()), q.Contents())
    {
      hide Reachable, Leads, ValidDag, CancelTimers, CancelsRun;
      ghost var w := q.Contents();
      ReachableRows(q.dag, w);
      CancelledMeans(q.dag, w);
      if RunTerminal(q.run.status) {
        return;
      }
      CancelOpenSteps();
      q.CancelTimersForRun();
      var _ := q.UpdateWorkflowRunStatus({RunPending, RunRunning}, RunCancelled, None, None);
      q.AppendHistory(RunCancelledEvent);
      LeadsOne(q.dag, w, Cancel);
      StepKeepsReachable(q.dag, w, Apply(q.dag, w, Cancel));
    }

    method CancelOpenSteps()
      modifies q`steps
      ensures q.steps == CancelSteps(old(q.steps))
    {
      var steps := q.steps;
      var rest := steps.Keys;
      while rest != {}
        invariant rest <= steps.Keys && q.steps.Keys == steps.Keys && steps == old(q.steps)
        invariant forall n :: n in steps ==> q.steps[n] == if n in rest then steps[n] else CancelSteps(steps)[n]
        decreases |rest|
      {
        var n :| n in rest;
        rest := rest - {n};
        var s := steps[n];
        if !StepTerminal(s.status) {
          var _ := q.UpdateStepStatus(n, {s.status}, StepCancelled, None, false);
        }
      }
    }
  }

  // ------------------------------------------------------------ staying reachable

  /** A fired timer retries its step, or finds nothing to retry. */
  function TimerAction(d: Dag, w: World, t: nat): (act: Action)
    requires t < |w.timers| && w.timers[t].status == TimerPending
    ensures Enabled(d, w, act)
  {
    if RetryDue(d, w, t) then Retry(t) else FireStale(t)
  }

  lemma TimersUnchanged(timers: seq<Timer>)
    ensures SameTimers(timers, timers)
  {
  }

  /** What cancelling leaves. */
  function Cancelled(d: Dag, w: World): World {
    if RunTerminal(w.run.status) then w else Apply(d, w, Cancel)
  }

  /** Cancelling a run that has ended does nothing.  Otherwise the run is CANCELLED, the
      steps that are not over are CANCELLED and the others as they were, no timer is
      pending, one event is logged, and everything else is as it was. */
  ghost predicate CancelsRun(w: World, w': World) {
    if w.run.status in {RunCompleted, RunFailed, RunCancelled} then w' == w
    else
      && w'.run == w.run.(status := RunCancelled, historySeq := w.run.historySeq + 1)
      && w'.steps.Keys == w.steps.Keys
      && (forall n :: n in w.steps ==>
            w'.steps[n] == if w.steps[n].status in {StepCompleted, StepFailed, StepSkipped, StepCancelled} then w.steps[n]
                           else w.steps[n].(status := StepCancelled))
      && |w'.timers| == |w.timers|
      && (forall t :: 0 <= t < |w.timers| ==>
            w'.timers[t] == if w.timers[t].status == TimerPending then w.timers[t].(status := TimerCancelled) else w.timers[t])
      && w'.history == w.history + [HistoryEvent(w.run.historySeq + 1, RunCancelledEvent)]
      && w'.attempts == w.attempts && w'.outbox == w.outbox && w'.signals == w.signals
      && w'.stream == w.stream && w'.owed == w.owed && w'.consumer == w.consumer
  }

  lemma CancelledMeans(d: Dag, w: World)
    ensures CancelsRun(w, Cancelled(d, w))
  {
  }

  lemma ReachableRows(d: Dag, w: World)
    requires ValidDag(d) && Reachable(d, w)
    ensures w.steps.Keys == d.Keys
    ensures forall t :: 0 <= t < |w.timers| && w.timers[t].step.Some? ==> w.timers[t].step.value in d
  {
    ReachableInv(d, w);
  }

  lemma AttemptRow(d: Dag, w: World, a: nat)
    requires ValidDag(d) && Reachable(d, w) && a < |w.attempts|
    ensures HasTried(d, w, a)
  {
    ReachableInv(d, w);
    assert AttemptOk(d, w.steps, w.attempts, w.owed, a);
  }

  lemma OwedRow(d: Dag, w: World, a: nat)
    requires ValidDag(d) && Reachable(d, w) && a in w.owed
    ensures a < |w.attempts|
  {
    ReachableInv(d, w);
  }

  /** The attempt exists and its step counts it. */
  predicate HasTried(d: Dag, w: World, a: nat) {
    && a < |w.attempts| && w.attempts[a].step in d && w.attempts[a].step in w.steps
    && w.steps[w.attempts[a].step].attemptCount >= 1
  }

  /** When a retry is due if attempt a fails now. */
  function RetryAt(d: Dag, w: World, a: nat, now: int, u: real): int
    requires HasTried(d, w, a)
  {
    var n := w.attempts[a].step;
    now + ComputeBackoff(d[n], w.steps[n].attemptCount, u)
  }

  /** The timers after an outcome of attempt a.  A failure with attempts left has added one
      that retries the step, due within 20% of the planned delay from now; any other
      outcome has added none; and those that were there are due when they were. */
  ghost predicate TimersAfterOutcome(d: Dag, w: World, a: nat, success: bool, now: int, u: real, timers: seq<Timer>) {
    && HasTried(d, w, a)
    && var n := w.attempts[a].step;
       var s, tries := d[n], w.steps[n].attemptCount;
       if success || tries >= s.maxAttempts then SameTimers(w.timers, timers)
       else
         && |timers| == |w.timers| + 1 && SameTimers(w.timers, timers[..|w.timers|])
         && var timer := timers[|w.timers|];
            && timer.kind == TimerRetryBackoff && timer.step == Some(n)
            && (0.0 <= u < 1.0 && Policy(s.initialBackoffMS as real, s.backoffMultiplier, s.maxBackoffMS as real) ==>
                  NearPlanned(s, tries, timer.fireAt - now))
  }

  lemma RetryScheduled(d: Dag, w: World, a: nat, success: bool, output: Option<Payload>, now: int, u: real, sch: Schedule)
    requires HasTried(d, w, a)
    requires Fits(d, Outcome(d, w, a, success, output, RetryAt(d, w, a, now, u)), sch)
    ensures TimersAfterOutcome(d, w, a, success, now, u,
              Reconcile(d, Outcome(d, w, a, success, output, RetryAt(d, w, a, now, u)), sch).timers)
  {
    hide Reconcile, Fits, ComputeBackoff, NearPlanned, Policy;
    var n := w.attempts[a].step;
    PassKeepsTimers(d, Outcome(d, w, a, success, output, RetryAt(d, w, a, now, u)), sch);
    if 0.0 <= u < 1.0 && Policy(d[n].initialBackoffMS as real, d[n].backoffMultiplier, d[n].maxBackoffMS as real) {
      DelayIsNearPlanned(d[n], w.steps[n].attemptCount, u);
    }
  }

  /** The outcome of the expired attempt a is applied, and the run re-evaluated. */
  ghost predicate AppliesExpiry(d: Dag, w: World, a: nat, now: int, u: real, sch: Schedule, w': World) {
    && HasTried(d, w, a)
    && var act := ApplyExpiry(a, RetryAt(d, w, a, now, u));
       Enabled(d, w, act) && Fits(d, Apply(d, w, act), sch) && w' == Reconcile(d, Apply(d, w, act), sch)
  }

  /** From w to w', that happened for each of the attempts in turn whose transaction went through. */
  ghost predicate AppliedEach(d: Dag, w: World, ids: seq<nat>, clock: nat -> int, draw: nat -> real,
                              fails: nat -> bool, schs: seq<Schedule>, w': World)
    decreases |ids|
  {
    && |schs| == |ids|
    && if ids == [] then w' == w
       else
         var k := |ids| - 1;
         exists mid :: AppliedEach(d, w, ids[..k], clock, draw, fails, schs[..k], mid)
                       && if fails(k) then w' == mid else AppliesExpiry(d, mid, ids[k], clock(k), draw(k), schs[k], w')
  }

  lemma AppliedNone(d: Dag, w: World, clock: nat -> int, draw: nat -> real, fails: nat -> bool)
    ensures AppliedEach(d, w, [], clock, draw, fails, [], w)
  {
  }

  lemma AppliedSnoc(d: Dag, w: World, ids: seq<nat>, i: nat, clock: nat -> int, draw: nat -> real,
                    fails: nat -> bool, schs: seq<Schedule>, mid: World, sch: Schedule, w': World)
    requires i < |ids| && AppliedEach(d, w, ids[..i], clock, draw, fails, schs, mid)
    requires if fails(i) then w' == mid else AppliesExpiry(d, mid, ids[i], clock(i), draw(i), sch, w')
    ensures AppliedEach(d, w, ids[..i + 1], clock, draw, fails, schs + [sch], w')
  {
    hide AppliesExpiry;
    assert ids[..i + 1][..i] == ids[..i] && (schs + [sch])[..i] == schs;
  }

  function Rest(ids: seq<nat>, i: nat): set<nat>
    requires i <= |ids|
  {
    set a | a in ids[i..]
  }

  /** The attempts among the first i whose transaction failed. */
  function Unapplied(ids: seq<nat>, i: nat, fails: nat -> bool): set<nat>
    requires i <= |ids|
  {
    set k: nat | k < i && fails(k) :: ids[k]
  }

  lemma RestNext(ids: seq<nat>, i: nat, owed: set<nat>, fails: nat -> bool)
    requires i < |ids| && (forall a :: a in ids ==> a !in owed)
    requires forall k, l :: 0 <= k < l < |ids| ==> ids[k] != ids[l]
    ensures ids[i] in Rest(ids, i)
    ensures
      var now, next := owed + Unapplied(ids, i, fails) + Rest(ids, i), owed + Unapplied(ids, i + 1, fails) + Rest(ids, i + 1);
      next == if fails(i) then now else now - {ids[i]}
  {
    UnappliedNext(ids, i, fails);
    RestTail(ids, i);
  }

  lemma UnappliedNext(ids: seq<nat>, i: nat, fails: nat -> bool)
    requires i < |ids| && forall k, l :: 0 <= k < l < |ids| ==> ids[k] != ids[l]
    ensures ids[i] !in Unapplied(ids, i, fails)
    ensures Unapplied(ids, i + 1, fails) == Unapplied(ids, i, fails) + if fails(i) then {ids[i]} else {}
  {
    forall a ensures a in Unapplied(ids, i + 1, fails) <==> a in Unapplied(ids, i, fails) || (fails(i) && a == ids[i]) {
      if a in Unapplied(ids, i + 1, fails) {
        var k: nat :| k < i + 1 && fails(k) && ids[k] == a;
      }
    }
  }

  lemma RestTail(ids: seq<nat>, i: nat)
    requires i < |ids| && forall k, l :: 0 <= k < l < |ids| ==> ids[k] != ids[l]
    ensures ids[i] !in Rest(ids, i + 1) && Rest(ids, i) == Rest(ids, i + 1) + {ids[i]}
  {
    assert ids[i..] == [ids[i]] + ids[i + 1..];
  }

  /** The attempts just marked are owed, and none of them was before. */
  lemma ReapedOwed(d: Dag, w: World, ids: seq<nat>, now: int)
    requires ValidDag(d) && Reachable(d, w) && Expirable(w, ids, now)
    ensures ExpireAll(w, ids).owed == w.owed + Rest(ids, 0)
    ensures forall a :: a in ids ==> a !in w.owed
  {
    hide Reachable, ValidDag;
    ReachableInv(d, w);
    forall a | a in ids ensures a !in w.owed {
      assert AttemptOk(d, w.steps, w.attempts, w.owed, a);
    }
    OwedAfter(w, ids);
    assert ids[0..] == ids;
  }

  lemma {:induction false} OwedAfter(w: World, ids: seq<nat>)
    requires forall k :: 0 <= k < |ids| ==> ids[k] < |w.attempts|
    ensures ExpireAll(w, ids).owed == w.owed + set a | a in ids
    decreases |ids|
  {
    if ids != [] {
      OwedAfter(w, ids[..|ids| - 1]);
      assert ids == ids[..|ids| - 1] + [ids[|ids| - 1]];
    }
  }

  lemma PassKeepsReachable(d: Dag, w1: World, sch: Schedule)
    requires Fits(d, w1, sch)
    ensures Reachable(d, w1) ==> Reachable(d, Reconcile(d, w1, sch))
  {
    hide Reconcile, Leads, Fits, Created;
    ReconcileLeads(d, w1, sch);
    StepKeepsReachable(d, w1, Reconcile(d, w1, sch));
  }
}
