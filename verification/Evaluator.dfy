/** Every run that ends without being cancelled ends the way a plain recursive
    evaluation of its graph does, whatever the scheduling. */
module Evaluator {
  import opened Rows
  import opened Dags
  import opened Transitions
  import opened Invariants
  import opened Verdicts

  /** How attempt k of a step turns out, were it made. */
  type Oracle = (Name, nat) -> bool

  datatype Fate = Fate(status: StepStatus, attempts: nat)

  /** Try attempts k, k+1, ..., max until one succeeds. */
  function Tries(o: Oracle, n: Name, k: nat, max: nat): Fate
    requires 1 <= k <= max
    decreases max - k
  {
    if o(n, k) then Fate(StepCompleted, k)
    else if k < max then Tries(o, n, k + 1, max)
    else Fate(StepFailed, max)
  }

  /** The reference semantics: a step is skipped unless all its dependencies
      complete; otherwise it is tried until it succeeds or runs out of attempts. */
  ghost function Evaluate(d: Dag, o: Oracle, n: Name): Fate
    requires ValidDag(d) && n in d
    decreases Height(d, n)
  {
    if exists dep :: dep in d[n].dependsOn && Evaluate(d, o, dep).status != StepCompleted then Fate(StepSkipped, 0)
    else if SignalWait(d, n) then Fate(StepCompleted, 0)
    else Tries(o, n, 1, d[n].maxAttempts)
  }

  // ------------------------------------------------- executions under an oracle

  /** The outcome this action reports is the oracle's. */
  ghost predicate ActionObeys(o: Oracle, w: World, act: Action) {
    match act
    case Report(a, _, success, _, _) => a < |w.attempts| && success == o(w.attempts[a].step, w.attempts[a].number)
    case Expire(a, _) => a < |w.attempts| && !o(w.attempts[a].step, w.attempts[a].number)
    case _ => true
  }

  ghost predicate Obeys(d: Dag, o: Oracle, w: World, tr: seq<Action>)
    requires Valid(d, w, tr)
    decreases |tr|
  {
    tr == [] || (var k := |tr| - 1; Obeys(d, o, w, tr[..k]) && ActionObeys(o, After(d, w, tr[..k]), tr[k]))
  }

  /** The recorded outcomes are the oracle's. */
  ghost predicate Agrees(o: Oracle, attempts: seq<Attempt>) {
    forall a :: 0 <= a < |attempts| ==>
      && (attempts[a].status == AttemptSucceeded ==> o(attempts[a].step, attempts[a].number))
      && (Settled(attempts[a].status) ==> !o(attempts[a].step, attempts[a].number))
  }

  lemma ActionAgrees(d: Dag, o: Oracle, w: World, act: Action)
    requires Agrees(o, w.attempts) && Enabled(d, w, act) && ActionObeys(o, w, act)
    ensures Agrees(o, Apply(d, w, act).attempts)
  {
    match act
    case Report(a, _, success, output, due) =>
      OutcomeShape(d, SetAttempt(w, a, if success then AttemptSucceeded else AttemptFailed), a, success, output, due);
    case ApplyExpiry(a, due) => OutcomeShape(d, w.(owed := w.owed - {a}), a, false, None, due);
    case _ =>
  }

  lemma {:induction false} TraceAgrees(d: Dag, o: Oracle, w: World, tr: seq<Action>)
    requires Agrees(o, w.attempts) && Valid(d, w, tr) && Obeys(d, o, w, tr)
    ensures Agrees(o, After(d, w, tr).attempts)
    decreases |tr|
  {
    if tr != [] {
      var k := |tr| - 1;
      TraceAgrees(d, o, w, tr[..k]);
      ActionAgrees(d, o, After(d, w, tr[..k]), tr[k]);
    }
  }

  // ---------------------------------------------------------------- refinement

  /** Attempts k..c-1 fail and c, if it is not the last allowed, succeeds. */
  lemma {:induction false} TriesUntil(o: Oracle, n: Name, k: nat, c: nat, max: nat)
    requires 1 <= k <= c <= max
    requires forall j :: k <= j < c ==> !o(n, j)
    requires o(n, c) || c == max
    ensures Tries(o, n, k, max) == Fate(if o(n, c) then StepCompleted else StepFailed, c)
    decreases c - k
  {
    if k < c {
      TriesUntil(o, n, k + 1, c, max);
    }
  }

  /** The attempt table of a finished step shows how it was tried. */
  lemma FinishedStepTries(d: Dag, o: Oracle, w: World, n: Name)
    requires ValidDag(d) && Inv(d, w) && Agrees(o, w.attempts)
    requires n in d && !SignalWait(d, n) && (w.steps[n].status == StepCompleted || w.steps[n].status == StepFailed)
    ensures Tries(o, n, 1, d[n].maxAttempts) == Fate(w.steps[n].status, w.steps[n].attemptCount)
  {
    var c := w.steps[n].attemptCount;
    assert StepOk(d, w.steps, n);
    forall j: nat | 1 <= j <= c
      ensures if j == c && w.steps[n].status == StepCompleted then o(n, j) else !o(n, j)
    {
      assert HasAttempt(w.attempts, n, j);
      var a :| 0 <= a < |w.attempts| && w.attempts[a].step == n && w.attempts[a].number == j;
      assert AttemptOk(d, w.steps, w.attempts, w.owed, a);
    }
    TriesUntil(o, n, 1, c, d[n].maxAttempts);
  }

  ghost predicate TriesMatch(d: Dag, o: Oracle, steps: map<Name, Step>)
    requires ValidDag(d)
  {
    forall n :: n in d && n in steps && !SignalWait(d, n) && (steps[n].status == StepCompleted || steps[n].status == StepFailed)
      ==> Tries(o, n, 1, d[n].maxAttempts) == Fate(steps[n].status, steps[n].attemptCount)
  }

  lemma {:induction false} StepMeetsFate(d: Dag, o: Oracle, steps: map<Name, Step>, n: Name)
    requires ValidDag(d) && StepsOk(d, steps) && TriesMatch(d, o, steps)
    requires AllTerminal(steps) && !SomeIn(steps, StepCancelled) && n in d
    ensures Evaluate(d, o, n) == Fate(steps[n].status, steps[n].attemptCount)
    decreases Height(d, n)
  {
    assert StepOk(d, steps, n);
    forall dep | dep in d[n].dependsOn ensures dep in d && Evaluate(d, o, dep).status == steps[dep].status {
      StepMeetsFate(d, o, steps, dep);
    }
    if steps[n].status == StepSkipped {
      var dep := SkipCauseOf(d, steps, n);
      assert Evaluate(d, o, dep).status != StepCompleted;
    }
  }

  /** The scheduler refines the evaluator: every interleaving that obeys the oracle
      and ends COMPLETED or FAILED leaves exactly the evaluated statuses and attempt
      counts, and the verdict they call for. */
  lemma SchedulerRefinesEvaluator(d: Dag, o: Oracle, tr: seq<Action>)
    requires ValidDag(d) && Valid(d, Created(d), tr) && Obeys(d, o, Created(d), tr)
    requires var w := After(d, Created(d), tr); w.run.status == RunCompleted || w.run.status == RunFailed
    ensures var w := After(d, Created(d), tr);
      && w.steps.Keys == d.Keys
      && (forall n :: n in d ==> Fate(w.steps[n].status, w.steps[n].attemptCount) == Evaluate(d, o, n))
      && (w.run.status == RunCompleted <==> forall n :: n in d ==> Evaluate(d, o, n).status == StepCompleted)
  {
    var w := After(d, Created(d), tr);
    CreatedInv(d);
    TraceKeeps(d, Created(d), tr);
    TraceAgrees(d, o, Created(d), tr);
    forall n | n in d ensures Fate(w.steps[n].status, w.steps[n].attemptCount) == Evaluate(d, o, n) {
      forall m | m in d && !SignalWait(d, m) && (w.steps[m].status == StepCompleted || w.steps[m].status == StepFailed)
        ensures Tries(o, m, 1, d[m].maxAttempts) == Fate(w.steps[m].status, w.steps[m].attemptCount)
      {
        FinishedStepTries(d, o, w, m);
      }
      StepMeetsFate(d, o, w.steps, n);
    }
    if w.run.status == RunCompleted {
      assert Reachable(d, w);
      forall n | n in d ensures Evaluate(d, o, n).status == StepCompleted {
        CompletedRunCompletesAll(d, w, n);
      }
    } else {
      var f := w.run.failedStep.value;
      assert Evaluate(d, o, f).status == StepFailed;
    }
  }

  // ------------------------------------------------------ every run has an oracle

  predicate Over(s: AttemptStatus) {
    s == AttemptSucceeded || Settled(s)
  }

  lemma ActionKeepsOver(d: Dag, w: World, act: Action, a: nat)
    requires Enabled(d, w, act) && a < |w.attempts| && Over(w.attempts[a].status)
    ensures a < |Apply(d, w, act).attempts| && Apply(d, w, act).attempts[a] == w.attempts[a]
  {
    hide Enabled, Apply;
    if ReconcileAction(act) {
      ReconcileKeepsOver(d, w, act, a);
    } else {
      OtherKeepsOver(d, w, act, a);
    }
  }

  lemma ReconcileKeepsOver(d: Dag, w: World, act: Action, a: nat)
    requires ReconcileAction(act) && Enabled(d, w, act) && a < |w.attempts|
    ensures a < |Apply(d, w, act).attempts| && Apply(d, w, act).attempts[a] == w.attempts[a]
  {
    hide Blocked, DepsCompleted, AllTerminal, AnyActive, CancelTimers, Outputs, Verdict, VerdictEvent;
  }

  lemma OtherKeepsOver(d: Dag, w: World, act: Action, a: nat)
    requires !ReconcileAction(act) && Enabled(d, w, act) && a < |w.attempts| && Over(w.attempts[a].status)
    ensures a < |Apply(d, w, act).attempts| && Apply(d, w, act).attempts[a] == w.attempts[a]
  {
    hide DepsCompleted, CancelSteps, CancelTimers, Outcome;
    match act
    case Report(b, _, success, output, due) =>
      OutcomeShape(d, SetAttempt(w, b, if success then AttemptSucceeded else AttemptFailed), b, success, output, due);
    case ApplyExpiry(b, due) => OutcomeShape(d, w.(owed := w.owed - {b}), b, false, None, due);
    case _ =>
  }

  /** A row that is over at some point of a trace is as it was at the end. */
  lemma {:induction false} OverStays(d: Dag, w: World, tr: seq<Action>, i: nat, a: nat)
    requires Valid(d, w, tr) && i <= |tr| && Valid(d, w, tr[..i])
    requires a < |After(d, w, tr[..i]).attempts| && Over(After(d, w, tr[..i]).attempts[a].status)
    ensures a < |After(d, w, tr).attempts| && After(d, w, tr).attempts[a] == After(d, w, tr[..i]).attempts[a]
    decreases |tr|
  {
    hide Enabled, Apply;
    if i == |tr| {
      assert tr[..i] == tr;
    } else {
      var k := |tr| - 1;
      assert tr[..k][..i] == tr[..i];
      OverStays(d, w, tr[..k], i, a);
      ActionKeepsOver(d, After(d, w, tr[..k]), tr[k], a);
    }
  }

  lemma {:induction false} PrefixValid(d: Dag, w: World, tr: seq<Action>, i: nat)
    requires Valid(d, w, tr) && i <= |tr|
    ensures Valid(d, w, tr[..i]) && (i < |tr| ==> Enabled(d, After(d, w, tr[..i]), tr[i]))
    decreases |tr|
  {
    hide Enabled, Apply;
    if i == |tr| {
      assert tr[..i] == tr;
    } else if i < |tr| - 1 {
      PrefixValid(d, w, tr[..|tr| - 1], i);
      assert tr[..|tr| - 1][..i] == tr[..i];
    }
  }

  /** The outcomes that an attempt table records. */
  ghost function Recorded(attempts: seq<Attempt>): Oracle {
    (n: Name, k: nat) => exists a :: 0 <= a < |attempts| && ShowsSuccess(attempts[a], n, k)
  }

  predicate ShowsSuccess(at: Attempt, n: Name, k: nat) {
    at.step == n && at.number == k && at.status == AttemptSucceeded
  }

  lemma RecordedAt(attempts: seq<Attempt>, a: nat)
    requires NumbersUnique(attempts) && a < |attempts|
    ensures Recorded(attempts)(attempts[a].step, attempts[a].number) <==> attempts[a].status == AttemptSucceeded
  {
    if attempts[a].status == AttemptSucceeded {
      assert ShowsSuccess(attempts[a], attempts[a].step, attempts[a].number);
    }
  }

  /** What a report or an expiry writes into its row. */
  lemma OutcomeRecorded(d: Dag, w: World, act: Action)
    requires Enabled(d, w, act) && (act.Report? || act.Expire?)
    ensures act.a < |w.attempts| && act.a < |Apply(d, w, act).attempts|
    ensures var at := Apply(d, w, act).attempts[act.a];
      && at.step == w.attempts[act.a].step && at.number == w.attempts[act.a].number && Over(at.status)
      && (at.status == AttemptSucceeded <==> act.Report? && act.success)
  {
    hide Outcome;
    if act.Report? {
      OutcomeShape(d, SetAttempt(w, act.a, if act.success then AttemptSucceeded else AttemptFailed), act.a, act.success, act.output, act.due);
    }
  }

  lemma ObeysRecord(d: Dag, tr: seq<Action>, i: nat)
    requires ValidDag(d) && Valid(d, Created(d), tr) && i < |tr| && Valid(d, Created(d), tr[..i])
    ensures ActionObeys(Recorded(After(d, Created(d), tr).attempts), After(d, Created(d), tr[..i]), tr[i])
  {
    hide Enabled, Apply, Created, Recorded, StepsOk, TimersOk, OutboxOk, SignalsOk, RunOk, NoGaps, AttemptOk, NumbersUnique;
    if tr[i].Report? || tr[i].Expire? {
      var w, attempts := After(d, Created(d), tr[..i]), After(d, Created(d), tr).attempts;
      PrefixValid(d, Created(d), tr, i);
      PrefixValid(d, Created(d), tr, i + 1);
      assert tr[..i + 1][..i] == tr[..i];
      OutcomeRecorded(d, w, tr[i]);
      OverStays(d, Created(d), tr, i + 1, tr[i].a);
      CreatedInv(d);
      TraceKeeps(d, Created(d), tr);
      RecordedAt(attempts, tr[i].a);
    }
  }

  lemma {:induction false} PrefixObeys(d: Dag, tr: seq<Action>, i: nat)
    requires ValidDag(d) && Valid(d, Created(d), tr) && i <= |tr| && Valid(d, Created(d), tr[..i])
    ensures Obeys(d, Recorded(After(d, Created(d), tr).attempts), Created(d), tr[..i])
    decreases i
  {
    hide Enabled, Apply, Created, Recorded, ActionObeys;
    if i > 0 {
      assert tr[..i][..i - 1] == tr[..i - 1];
      PrefixObeys(d, tr, i - 1);
      ObeysRecord(d, tr, i - 1);
    }
  }

  /** Every run obeys the oracle that its own attempt table records. */
  lemma EveryRunObeysItsRecord(d: Dag, tr: seq<Action>)
    requires ValidDag(d) && Valid(d, Created(d), tr)
    ensures Obeys(d, Recorded(After(d, Created(d), tr).attempts), Created(d), tr)
  {
    hide Enabled, Apply, Created, Recorded, ActionObeys;
    assert tr[..|tr|] == tr;
    PrefixObeys(d, tr, |tr|);
  }

  /** So every run that ends COMPLETED or FAILED is the evaluation of its recorded outcomes. */
  lemma FinishedRunIsEvaluated(d: Dag, w: World)
    requires ValidDag(d) && Reachable(d, w) && (w.run.status == RunCompleted || w.run.status == RunFailed)
    ensures w.steps.Keys == d.Keys
    ensures forall n :: n in d ==> Fate(w.steps[n].status, w.steps[n].attemptCount) == Evaluate(d, Recorded(w.attempts), n)
    ensures w.run.status == RunCompleted <==> forall n :: n in d ==> Evaluate(d, Recorded(w.attempts), n).status == StepCompleted
  {
    hide Enabled, Apply, Created, Recorded, Obeys, Evaluate, ValidDag;
    var tr :| Valid(d, Created(d), tr) && After(d, Created(d), tr) == w;
    EveryRunObeysItsRecord(d, tr);
    SchedulerRefinesEvaluator(d, Recorded(w.attempts), tr);
  }

  /** Two schedules of the same work cannot disagree. */
  lemma SchedulesAgree(d: Dag, o: Oracle, tr1: seq<Action>, tr2: seq<Action>)
    requires ValidDag(d) && Valid(d, Created(d), tr1) && Valid(d, Created(d), tr2)
    requires Obeys(d, o, Created(d), tr1) && Obeys(d, o, Created(d), tr2)
    requires var w := After(d, Created(d), tr1); w.run.status == RunCompleted || w.run.status == RunFailed
    requires var w := After(d, Created(d), tr2); w.run.status == RunCompleted || w.run.status == RunFailed
    ensures
      var w1, w2 := After(d, Created(d), tr1), After(d, Created(d), tr2);
      && w1.run.status == w2.run.status && w1.steps.Keys == w2.steps.Keys
      && forall n :: n in d ==> n in w1.steps && w1.steps[n].status == w2.steps[n].status
                                && w1.steps[n].attemptCount == w2.steps[n].attemptCount
  {
    SchedulerRefinesEvaluator(d, o, tr1);
    SchedulerRefinesEvaluator(d, o, tr2);
    var w1, w2 := After(d, Created(d), tr1), After(d, Created(d), tr2);
    forall n | n in d
      ensures w1.steps[n].status == w2.steps[n].status && w1.steps[n].attemptCount == w2.steps[n].attemptCount
    {
      assert Fate(w1.steps[n].status, w1.steps[n].attemptCount) == Fate(w2.steps[n].status, w2.steps[n].attemptCount);
    }
  }
}
