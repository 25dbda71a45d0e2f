/** What the end of a run says about its steps, and that it stays that way. */
module Verdicts {
  import opened Rows
  import opened Dags
  import opened Transitions
  import opened Invariants

  // ------------------------------------------------------------------- freeze

  /** Everything a terminal run promises not to change. */
  ghost predicate Frozen(w: World, w': World) {
    && w'.steps == w.steps
    && w'.run.status == w.run.status && w'.run.output == w.run.output && w'.run.failedStep == w.run.failedStep
    && |w'.attempts| == |w.attempts|
  }

  lemma ActionFreezes(d: Dag, w: World, act: Action)
    requires RunTerminal(w.run.status) && AllTerminal(w.steps) && Enabled(d, w, act)
    ensures Frozen(w, Apply(d, w, act))
  {
    match act
    case Report(a, _, success, output, due) =>
      OutcomeShape(d, SetAttempt(w, a, if success then AttemptSucceeded else AttemptFailed), a, success, output, due);
    case ApplyExpiry(a, due) => OutcomeShape(d, w.(owed := w.owed - {a}), a, false, None, due);
    case _ =>
  }

  /** Once a run is terminal no interleaving changes a step, an attempt count, the
      verdict or the outputs, and no attempt is created. */
  lemma {:induction false} TerminalRunFrozen(d: Dag, w: World, tr: seq<Action>)
    requires ValidDag(d) && Inv(d, w) && RunTerminal(w.run.status) && Valid(d, w, tr)
    ensures Frozen(w, After(d, w, tr))
    decreases |tr|
  {
    hide Apply, Enabled;
    if tr != [] {
      var k := |tr| - 1;
      TerminalRunFrozen(d, w, tr[..k]);
      ActionFreezes(d, After(d, w, tr[..k]), tr[k]);
    }
  }

  // ------------------------------------------------------------------ verdict

  /** A chain of dependencies from n down to a failed step, all skipped on the way. */
  ghost predicate FailureChain(d: Dag, steps: map<Name, Step>, n: Name, p: seq<Name>) {
    && Path(Edges(d), p) && p[0] == n
    && (forall i :: 0 <= i < |p| - 1 ==> p[i] in steps && steps[p[i]].status == StepSkipped)
    && p[|p| - 1] in steps && steps[p[|p| - 1]].status == StepFailed
  }

  lemma {:induction false} SkippedHasFailedAncestor(d: Dag, steps: map<Name, Step>, n: Name) returns (p: seq<Name>)
    requires ValidDag(d) && StepsOk(d, steps) && n in d && steps[n].status == StepSkipped
    ensures FailureChain(d, steps, n, p) && |p| > 1
    decreases Height(d, n)
  {
    assert StepOk(d, steps, n);
    var dep := SkipCauseOf(d, steps, n);
    if steps[dep].status == StepFailed {
      p := [n, dep];
    } else {
      var q := SkippedHasFailedAncestor(d, steps, dep);
      ChainCons(d, steps, n, q);
      p := [n] + q;
    }
  }

  lemma SkipCauseOf(d: Dag, steps: map<Name, Step>, n: Name) returns (dep: Name)
    requires n in d && SkipCause(d, steps, n)
    ensures dep in d[n].dependsOn && dep in steps && (steps[dep].status == StepFailed || steps[dep].status == StepSkipped)
  {
    dep :| dep in d[n].dependsOn && dep in steps && (steps[dep].status == StepFailed || steps[dep].status == StepSkipped);
  }

  lemma ChainCons(d: Dag, steps: map<Name, Step>, n: Name, q: seq<Name>)
    requires n in d && n in steps && steps[n].status == StepSkipped
    requires |q| > 0 && q[0] in d[n].dependsOn && FailureChain(d, steps, q[0], q)
    ensures FailureChain(d, steps, n, [n] + q)
  {
    PathCons(Edges(d), n, q);
    var p := [n] + q;
    forall i | 0 <= i < |p| - 1 ensures p[i] in steps && steps[p[i]].status == StepSkipped {
      assert i > 0 ==> p[i] == q[i - 1];
    }
  }

  /** A run is COMPLETED only when every step is. */
  lemma CompletedRunCompletesAll(d: Dag, w: World, n: Name)
    requires ValidDag(d) && Reachable(d, w) && w.run.status == RunCompleted && n in d
    ensures n in w.steps && w.steps[n].status == StepCompleted
    ensures w.run.output == Some(map m | m in w.steps :: w.steps[m].output)
  {
    hide Reachable;
    ReachableSteps(d, w);
    forall m | m in d ensures w.steps[m].status == StepCompleted {
      if w.steps[m].status == StepSkipped {
        var p := SkippedHasFailedAncestor(d, w.steps, m);
        assert false;
      }
    }
    assert Outputs(w.steps) == map m | m in w.steps :: w.steps[m].output;
  }

  /** A run is FAILED only when a step is, and it names one; its other steps are
      completed, failed, or skipped below a failed one. */
  lemma FailedRunHasFailedStep(d: Dag, w: World, n: Name) returns (p: seq<Name>)
    requires ValidDag(d) && Reachable(d, w) && w.run.status == RunFailed && n in d
    ensures w.run.failedStep.Some? && w.run.failedStep.value in w.steps
    ensures w.steps[w.run.failedStep.value].status == StepFailed
    ensures n in w.steps && (w.steps[n].status == StepCompleted || FailureChain(d, w.steps, n, p))
    ensures w.run.output == Some(map m | m in w.steps && w.steps[m].status == StepCompleted :: w.steps[m].output)
  {
    hide Reachable;
    ReachableSteps(d, w);
    p := [n];
    if w.steps[n].status == StepSkipped {
      p := SkippedHasFailedAncestor(d, w.steps, n);
    }
  }

  /** A run that is not terminal holds no cancelled step, and READY is never used. */
  lemma LiveRunHasNoCancelledStep(d: Dag, w: World, n: Name)
    requires ValidDag(d) && Reachable(d, w) && n in w.steps
    ensures w.steps[n].status != StepReady
    ensures w.steps[n].status == StepCancelled ==> w.run.status == RunCancelled
  {
    ReachableSteps(d, w);
    assert StepOk(d, w.steps, n);
  }

  // ------------------------------------------------------------- dependencies

  /** Whatever has been dispatched, parked or completed has every transitive
      dependency completed. */
  lemma {:induction false} TransitiveDepsCompleted(d: Dag, w: World, p: seq<Name>)
    requires ValidDag(d) && Reachable(d, w)
    requires Path(Edges(d), p) && |p| > 1 && p[0] in d && p[0] in w.steps && Begun(w.steps[p[0]])
    ensures p[|p| - 1] in w.steps && w.steps[p[|p| - 1]].status == StepCompleted
    decreases |p|
  {
    ReachableSteps(d, w);
    assert StepOk(d, w.steps, p[0]);
    PathTail(Edges(d), p);
    if |p| > 2 {
      TransitiveDepsCompleted(d, w, p[1..]);
    }
  }
}
