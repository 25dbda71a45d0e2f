/** Skip propagation computes a least fixpoint, in every visiting order. */
module Skips {
  import opened Rows
  import opened Dags
  import opened Transitions
  import opened Reconciling

  /** A chain of undispatched steps from n down to a failed, skipped or cancelled one. */
  ghost predicate DoomPath(d: Dag, steps: map<Name, Step>, n: Name, p: seq<Name>) {
    && Path(Edges(d), p) && |p| > 1 && p[0] == n
    && (forall i :: 0 <= i < |p| - 1 ==> p[i] in steps && Undispatched(steps[p[i]].status))
    && p[|p| - 1] in steps && Broken(steps[p[|p| - 1]].status)
  }

  ghost predicate Doomed(d: Dag, steps: map<Name, Step>, n: Name) {
    exists p :: DoomPath(d, steps, n, p)
  }

  /** What skip propagation should leave. */
  ghost function Propagated(d: Dag, steps: map<Name, Step>): map<Name, Step> {
    map n | n in steps :: if Doomed(d, steps, n) then steps[n].(status := StepSkipped) else steps[n]
  }

  // ---------------------------------------------------------------- soundness

  /** Only doomed steps have been skipped, and nothing else has changed. */
  ghost predicate SkipsOnly(d: Dag, w0: World, w: World) {
    && w.steps.Keys == w0.steps.Keys
    && (forall n :: n in w0.steps ==>
          || w.steps[n] == w0.steps[n]
          || (Undispatched(w0.steps[n].status) && Doomed(d, w0.steps, n) && w.steps[n] == w0.steps[n].(status := StepSkipped)))
    && w == w0.(steps := w.steps, history := w.history, run := w0.run.(historySeq := w.run.historySeq))
  }

  lemma DoomedCons(d: Dag, steps: map<Name, Step>, n: Name, dep: Name)
    requires n in d && n in steps && Undispatched(steps[n].status) && dep in d[n].dependsOn && dep in steps
    requires Broken(steps[dep].status) || Doomed(d, steps, dep)
    ensures Doomed(d, steps, n)
  {
    if Broken(steps[dep].status) {
      assert DoomPath(d, steps, n, [n, dep]);
    } else {
      var q :| DoomPath(d, steps, dep, q);
      PathCons(Edges(d), n, q);
      var p := [n] + q;
      forall i | 0 <= i < |p| - 1 ensures p[i] in steps && Undispatched(steps[p[i]].status) {
        assert i > 0 ==> p[i] == q[i - 1];
      }
      assert DoomPath(d, steps, n, p);
    }
  }

  lemma VisitSkipsOnly(d: Dag, w0: World, w: World, n: Name)
    requires Underway(d, w) && SkipsOnly(d, w0, w) && n in d
    ensures SkipsOnly(d, w0, Visit(d, w, Skipping, n))
  {
    if VisitAction(d, w, Skipping, n).Some? {
      var dep :| dep in d[n].dependsOn && dep in w.steps && Broken(w.steps[dep].status);
      DoomedCons(d, w0.steps, n, dep);
    }
  }

  lemma {:induction false} SweepSkipsOnly(d: Dag, w0: World, w: World, order: seq<Name>)
    requires Underway(d, w) && SkipsOnly(d, w0, w) && forall n :: n in order ==> n in d
    ensures SkipsOnly(d, w0, Sweep(d, w, Skipping, order))
    decreases |order|
  {
    if order != [] {
      var k := |order| - 1;
      SweepSkipsOnly(d, w0, w, order[..k]);
      VisitSkipsOnly(d, w0, Sweep(d, w, Skipping, order[..k]), order[k]);
    }
  }

  lemma {:induction false} PassesSkipOnly(d: Dag, w0: World, w: World, passes: seq<seq<Name>>)
    requires Underway(d, w) && SkipsOnly(d, w0, w) && AllWithin(passes, d.Keys)
    ensures SkipsOnly(d, w0, SkipPasses(d, w, passes))
    decreases |passes|
  {
    if passes != [] {
      SweepSkipsOnly(d, w0, w, passes[0]);
      var w1 := Sweep(d, w, Skipping, passes[0]);
      if w1 != w {
        PassesSkipOnly(d, w0, w1, passes[1..]);
      }
    }
  }

  // ------------------------------------------------------------- completeness

  ghost predicate NothingToSkip(d: Dag, steps: map<Name, Step>) {
    forall n :: n in d && n in steps && Undispatched(steps[n].status) ==> !Blocked(d, steps, n)
  }

  lemma IdleSweepSkipsNothing(d: Dag, w: World, order: seq<Name>)
    requires Underway(d, w) && IsOrder(order, d.Keys) && Sweep(d, w, Skipping, order) == w
    ensures NothingToSkip(d, w.steps)
  {
    SweepIdle(d, w, Skipping, order);
    forall n | n in d && Undispatched(w.steps[n].status) ensures !Blocked(d, w.steps, n) {
      assert VisitAction(d, w, Skipping, n).None?;
    }
  }

  lemma BusySweepSkips(d: Dag, w: World, order: seq<Name>)
    requires Underway(d, w) && IsOrder(order, d.Keys) && Sweep(d, w, Skipping, order) != w
    ensures |Open(Sweep(d, w, Skipping, order).steps)| < |Open(w.steps)|
  {
    hide Sweep;
    SweepIdle(d, w, Skipping, order);
    var open, open' := Open(w.steps), Open(Sweep(d, w, Skipping, order).steps);
    assert open == open' + (open - open') && open - open' != {};
  }

  /** More passes than undispatched steps always reach a pass that changes nothing. */
  lemma {:induction false} PassesReachFixpoint(d: Dag, w: World, passes: seq<seq<Name>>)
    requires Underway(d, w) && |passes| > |Open(w.steps)|
    requires AllOrders(passes, d.Keys)
    ensures NothingToSkip(d, SkipPasses(d, w, passes).steps)
    decreases |passes|
  {
    var w1 := Sweep(d, w, Skipping, passes[0]);
    if w1 == w {
      IdleSweepSkipsNothing(d, w, passes[0]);
    } else {
      BusySweepSkips(d, w, passes[0]);
      PassesReachFixpoint(d, w1, passes[1..]);
    }
  }

  /** At a fixpoint every doomed step has been skipped. */
  lemma {:induction false} DoomedAreSkipped(d: Dag, w0: World, w: World, n: Name, p: seq<Name>)
    requires w0.steps.Keys == d.Keys && SkipsOnly(d, w0, w) && NothingToSkip(d, w.steps) && DoomPath(d, w0.steps, n, p)
    ensures w.steps[n].status == StepSkipped
    decreases |p|
  {
    PathTail(Edges(d), p);
    var dep := p[1];
    if |p| > 2 {
      assert DoomPath(d, w0.steps, dep, p[1..]);
      DoomedAreSkipped(d, w0, w, dep, p[1..]);
    }
    assert Broken(w.steps[dep].status);
    assert Blocked(d, w.steps, n);
    assert p[0] == n;
  }

  lemma FixpointIsPropagated(d: Dag, w0: World, w: World)
    requires w0.steps.Keys == d.Keys && SkipsOnly(d, w0, w) && NothingToSkip(d, w.steps)
    ensures w.steps == Propagated(d, w0.steps)
  {
    forall n | n in w0.steps ensures w.steps[n] == Propagated(d, w0.steps)[n] {
      if Doomed(d, w0.steps, n) {
        var p :| DoomPath(d, w0.steps, n, p);
        assert p[0] == n;
        DoomedAreSkipped(d, w0, w, n, p);
      }
    }
  }

  lemma OpenAtMostAll(d: Dag, w: World)
    requires Underway(d, w)
    ensures |Open(w.steps)| <= |d.Keys|
  {
    var rest := d.Keys - Open(w.steps);
    assert d.Keys == Open(w.steps) + rest;
  }

  /** Whatever the visiting orders, propagation skips exactly the undispatched steps
      that reach a failed, skipped or cancelled step through undispatched ones, the
      bound on its passes is never what stops it, and a further pass finds nothing. */
  lemma PropagationIsLeastFixpoint(d: Dag, w: World, sch: Schedule)
    requires Underway(d, w) && Orders(d, sch)
    ensures Skipped(d, w, sch).steps == Propagated(d, w.steps)
    ensures NothingToSkip(d, Skipped(d, w, sch).steps)
    ensures var w' := Skipped(d, w, sch);
            w' == w.(steps := w'.steps, history := w'.history, run := w.run.(historySeq := w'.run.historySeq))
  {
    var w' := Skipped(d, w, sch);
    assert SkipsOnly(d, w, w);
    PassesSkipOnly(d, w, w, sch.passes);
    OpenAtMostAll(d, w);
    PassesReachFixpoint(d, w, sch.passes);
    FixpointIsPropagated(d, w, w');
  }
}
