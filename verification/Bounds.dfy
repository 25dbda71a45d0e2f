/** How much work a run can cause: status changes, claims and outcomes. */
module Bounds {
  import opened Rows
  import opened Dags
  import opened Transitions
  import opened Invariants
  import opened Effects

  // ----------------------------------------------------------- status changes

  /** How many more times a step in this row can change status. */
  function Fuel(d: Dag, n: Name, s: Step): int
    requires n in d
  {
    var left := 3 * (d[n].maxAttempts - s.attemptCount);
    match s.status
    case StepPending => 3 * d[n].maxAttempts
    case StepReady => 3 * d[n].maxAttempts
    case StepWaiting => 1
    case StepQueued => left + 2
    case StepRunning => left + 1
    case StepRetryBackoff => left
    case _ => 0
  }

  function Changes(d: Dag, w: World, tr: seq<Action>, n: Name): nat
    requires Valid(d, w, tr)
    decreases |tr|
  {
    if tr == [] then 0
    else
      var k := |tr| - 1;
      var before, after := After(d, w, tr[..k]), After(d, w, tr);
      Changes(d, w, tr[..k], n) +
      if n in before.steps && n in after.steps && before.steps[n].status != after.steps[n].status then 1 else 0
  }

  /** A change of status costs fuel; without one the row keeps what it had. */
  predicate Burns(d: Dag, n: Name, s: Step, s': Step)
    requires n in d
  {
    if s'.status == s.status then Fuel(d, n, s') == Fuel(d, n, s) else Fuel(d, n, s') < Fuel(d, n, s)
  }

  lemma MoveBurnsFuel(d: Dag, w: World, n: Name, s: Step, e: Option<Event>)
    requires ValidDag(d) && StepsOk(d, w.steps) && n in d && n in w.steps && StepMove(d, w.steps, n, s, e)
    ensures Burns(d, n, w.steps[n], s)
  {
    hide DepsCompleted;
    assert StepOk(d, w.steps, n);
  }

  lemma CancelBurnsFuel(d: Dag, w: World, n: Name)
    requires ValidDag(d) && StepsOk(d, w.steps) && n in d && n in w.steps
    ensures Burns(d, n, w.steps[n], CancelSteps(w.steps)[n])
  {
    hide Burns, RowOk, DepsCompleted, SkipCause;
    assert StepOk(d, w.steps, n);
    CancelledRowBurns(d, n, w.steps[n]);
  }

  lemma CancelledRowBurns(d: Dag, n: Name, s: Step)
    requires n in d && d[n].maxAttempts >= 1 && RowOk(d, n, s)
    ensures Burns(d, n, s, if StepTerminal(s.status) then s else s.(status := StepCancelled))
  {
  }

  lemma EffectBurnsFuel(d: Dag, w: World, w': World, eff: Effect, n: Name)
    requires ValidDag(d) && StepsOk(d, w.steps) && Happens(d, w, w', eff) && n in d && n in w'.steps
    ensures n in w.steps && Burns(d, n, w.steps[n], w'.steps[n])
  {
    hide Fuel, StepMove, RunEventOk, Logs, ValidDag;
    if eff.Move? {
      MoveBurnsFuel(d, w, eff.n, eff.s, eff.e);
    } else if eff.CancelAll? {
      CancelBurnsFuel(d, w, n);
    }
  }

  lemma FuelBounds(d: Dag, w: World, n: Name)
    requires ValidDag(d) && StepsOk(d, w.steps) && n in d
    ensures 0 <= Fuel(d, n, w.steps[n]) <= 3 * d[n].maxAttempts
  {
    assert StepOk(d, w.steps, n);
  }

  lemma TraceSteps(d: Dag, tr: seq<Action>)
    requires ValidDag(d) && Valid(d, Created(d), tr)
    ensures StepsOk(d, After(d, Created(d), tr).steps)
  {
    CreatedInv(d);
    TraceKeeps(d, Created(d), tr);
  }

  lemma FuelAtStart(d: Dag, n: Name)
    requires n in d
    ensures n in Created(d).steps && Fuel(d, n, Created(d).steps[n]) == 3 * d[n].maxAttempts
  {
  }

  lemma {:induction false} TraceBurnsFuel(d: Dag, tr: seq<Action>, n: Name)
    requires ValidDag(d) && Valid(d, Created(d), tr) && n in d
    ensures n in After(d, Created(d), tr).steps
    ensures Changes(d, Created(d), tr, n) <= 3 * d[n].maxAttempts - Fuel(d, n, After(d, Created(d), tr).steps[n])
    decreases |tr|
  {
    hide Enabled, Apply, Created, Happens, Fuel;
    TraceSteps(d, tr);
    if tr == [] {
      FuelAtStart(d, n);
    } else {
      var k := |tr| - 1;
      TraceBurnsFuel(d, tr[..k], n);
      TraceSteps(d, tr[..k]);
      var before := After(d, Created(d), tr[..k]);
      var eff := ActionEffect(d, before, tr[k]);
      EffectBurnsFuel(d, before, Apply(d, before, tr[k]), eff, n);
    }
  }

  /** Along a trace no step gains fuel, and one that ends with another status has lost some. */
  lemma {:induction false} FuelAlong(d: Dag, w: World, tr: seq<Action>, n: Name)
    requires ValidDag(d) && Reachable(d, w) && Valid(d, w, tr) && n in d
    ensures var w' := After(d, w, tr);
      && n in w.steps && n in w'.steps && Fuel(d, n, w'.steps[n]) <= Fuel(d, n, w.steps[n])
      && (w'.steps[n].status != w.steps[n].status ==> Fuel(d, n, w'.steps[n]) < Fuel(d, n, w.steps[n]))
    decreases |tr|
  {
    hide Enabled, Apply, Happens, Fuel, Reachable, ValidDag;
    ReachableSteps(d, w);
    if tr != [] {
      var k := |tr| - 1;
      FuelAlong(d, w, tr[..k], n);
      var before, after := After(d, w, tr[..k]), After(d, w, tr);
      StepsAlong(d, w, tr[..k]);
      StepsAlong(d, w, tr);
      var eff := ActionEffect(d, before, tr[k]);
      EffectBurnsFuel(d, before, after, eff, n);
    }
  }

  lemma StepsAlong(d: Dag, w: World, tr: seq<Action>)
    requires ValidDag(d) && Reachable(d, w) && Valid(d, w, tr)
    ensures StepsOk(d, After(d, w, tr).steps)
  {
    hide Enabled, Apply, ValidDag, StepsOk, AttemptsOk, TimersOk, OutboxOk, SignalsOk, RunOk;
    ReachableInv(d, w);
    TraceKeeps(d, w, tr);
  }

  /** In any run whatever, a step changes status at most 3 * MaxAttempts times. */
  lemma StatusChangesBounded(d: Dag, tr: seq<Action>, n: Name)
    requires ValidDag(d) && Valid(d, Created(d), tr) && n in d
    ensures Changes(d, Created(d), tr, n) <= 3 * d[n].maxAttempts
  {
    TraceBurnsFuel(d, tr, n);
    TraceSteps(d, tr);
    FuelBounds(d, After(d, Created(d), tr), n);
  }

  // ------------------------------------------------------- claims and outcomes

  function Claims(tr: seq<Action>, a: nat): nat {
    if tr == [] then 0
    else Claims(tr[..|tr| - 1], a) + if tr[|tr| - 1].Claim? && tr[|tr| - 1].a == a then 1 else 0
  }

  function Outcomes(tr: seq<Action>, a: nat): nat {
    if tr == [] then 0
    else
      var act := tr[|tr| - 1];
      Outcomes(tr[..|tr| - 1], a) + if (act.Report? || act.ApplyExpiry?) && act.a == a then 1 else 0
  }

  /** Not yet claimed, perhaps not yet created. */
  predicate Unclaimed(w: World, a: nat) {
    a >= |w.attempts| || w.attempts[a].status == AttemptQueued
  }

  ghost predicate Undelivered(w: World, a: nat) {
    a >= |w.attempts| || Live(w.attempts, w.owed, a)
  }

  /** The one way out of the queue is a claim, and attempts keep their step. */
  ghost predicate ClaimsExactly(w: World, act: Action, w': World, a: nat) {
    && (Unclaimed(w', a) <==> Unclaimed(w, a) && !(act.Claim? && act.a == a))
    && (act.Claim? && act.a == a ==> a < |w.attempts| && Unclaimed(w, a))
    && (a < |w.attempts| ==> a < |w'.attempts| && w'.attempts[a].step == w.attempts[a].step)
  }

  /** The one way to stop being owed an outcome is to get it. */
  ghost predicate DeliversExactly(w: World, act: Action, w': World, a: nat) {
    && (Undelivered(w', a) ==> Undelivered(w, a))
    && ((act.Report? || act.ApplyExpiry?) && act.a == a ==> Undelivered(w, a) && !Undelivered(w', a))
  }

  lemma ReconcileClaims(d: Dag, w: World, act: Action, a: nat)
    requires ReconcileAction(act) && Enabled(d, w, act)
    ensures ClaimsExactly(w, act, Apply(d, w, act), a) && DeliversExactly(w, act, Apply(d, w, act), a)
  {
    hide Blocked, DepsCompleted, AllTerminal, AnyActive, CancelTimers, Outputs, Verdict, VerdictEvent;
  }

  lemma OutcomeClaims(d: Dag, w: World, act: Action, a: nat)
    requires AttemptsOk(d, w.steps, w.attempts, w.owed)
    requires (act.Report? || act.ApplyExpiry?) && Enabled(d, w, act)
    ensures ClaimsExactly(w, act, Apply(d, w, act), a) && DeliversExactly(w, act, Apply(d, w, act), a)
  {
    hide Outcome, NoGaps, NumbersUnique;
    assert AttemptOk(d, w.steps, w.attempts, w.owed, act.a);
    match act
    case Report(b, _, success, output, due) =>
      OutcomeShape(d, SetAttempt(w, b, if success then AttemptSucceeded else AttemptFailed), b, success, output, due);
    case ApplyExpiry(b, due) => OutcomeShape(d, w.(owed := w.owed - {b}), b, false, None, due);
  }

  lemma OtherClaims(d: Dag, w: World, act: Action, a: nat)
    requires !ReconcileAction(act) && !act.Report? && !act.ApplyExpiry? && Enabled(d, w, act)
    ensures ClaimsExactly(w, act, Apply(d, w, act), a) && DeliversExactly(w, act, Apply(d, w, act), a)
  {
    hide DepsCompleted, CancelSteps, CancelTimers;
  }

  lemma ActionClaims(d: Dag, w: World, act: Action, a: nat)
    requires AttemptsOk(d, w.steps, w.attempts, w.owed) && Enabled(d, w, act)
    ensures ClaimsExactly(w, act, Apply(d, w, act), a) && DeliversExactly(w, act, Apply(d, w, act), a)
  {
    hide AttemptsOk, Enabled, Apply, ClaimsExactly, DeliversExactly;
    if ReconcileAction(act) {
      ReconcileClaims(d, w, act, a);
    } else if act.Report? || act.ApplyExpiry? {
      OutcomeClaims(d, w, act, a);
    } else {
      OtherClaims(d, w, act, a);
    }
  }

  lemma {:induction false} TraceClaims(d: Dag, w: World, tr: seq<Action>, a: nat)
    requires ValidDag(d) && Inv(d, w) && Valid(d, w, tr)
    ensures Claims(tr, a) + (if Unclaimed(After(d, w, tr), a) then 1 else 0) <= (if Unclaimed(w, a) then 1 else 0)
    ensures Outcomes(tr, a) + (if Undelivered(After(d, w, tr), a) then 1 else 0) <= (if Undelivered(w, a) then 1 else 0)
    decreases |tr|
  {
    hide Enabled, Apply, Unclaimed, Undelivered, StepsOk, AttemptsOk, TimersOk, OutboxOk, SignalsOk, RunOk;
    if tr != [] {
      var k := |tr| - 1;
      TraceClaims(d, w, tr[..k], a);
      TraceKeeps(d, w, tr[..k]);
      ActionClaims(d, After(d, w, tr[..k]), tr[k], a);
    }
  }

  /** However often a message is delivered, its attempt is claimed at most once and
      accepts at most one outcome; once that has happened it never happens again. */
  lemma ClaimedOnceDeliveredOnce(d: Dag, tr: seq<Action>, a: nat)
    requires ValidDag(d) && Valid(d, Created(d), tr)
    ensures Claims(tr, a) <= 1 && Outcomes(tr, a) <= 1
    ensures var w := After(d, Created(d), tr);
      && (Claims(tr, a) == 1 ==> a < |w.attempts| && w.attempts[a].status != AttemptQueued)
      && (Outcomes(tr, a) == 1 ==> a < |w.attempts| && !Live(w.attempts, w.owed, a))
  {
    CreatedInv(d);
    TraceClaims(d, Created(d), tr, a);
  }

  // ------------------------------------------------------------ claims per step

  /** The claims of a trace that were for attempts of step n. */
  function StepClaims(d: Dag, w: World, tr: seq<Action>, n: Name): nat
    requires Valid(d, w, tr)
    decreases |tr|
  {
    if tr == [] then 0
    else
      var k := |tr| - 1;
      StepClaims(d, w, tr[..k], n) + if ClaimOf(After(d, w, tr[..k]), tr[k], n) then 1 else 0
  }

  predicate ClaimOf(w: World, act: Action, n: Name) {
    act.Claim? && act.a < |w.attempts| && w.attempts[act.a].step == n
  }

  function Taken(w: World, n: Name): set<nat> {
    set a: nat | a < |w.attempts| && w.attempts[a].step == n && w.attempts[a].status != AttemptQueued
  }

  lemma TakenGrows(d: Dag, w: World, act: Action, n: Name)
    requires AttemptsOk(d, w.steps, w.attempts, w.owed) && Enabled(d, w, act)
    ensures ClaimOf(w, act, n) ==> act.a !in Taken(w, n) && Taken(Apply(d, w, act), n) == Taken(w, n) + {act.a}
    ensures !ClaimOf(w, act, n) ==> Taken(Apply(d, w, act), n) == Taken(w, n)
  {
    hide Enabled, Apply, AttemptsOk, DeliversExactly;
    var w' := Apply(d, w, act);
    if act.Claim? {
      ActionClaims(d, w, act, act.a);
    }
    forall a: nat ensures a in Taken(w', n) <==> a in Taken(w, n) || (ClaimOf(w, act, n) && a == act.a) {
      ActionClaims(d, w, act, a);
    }
  }

  lemma NoneTaken(d: Dag, n: Name)
    ensures Taken(Created(d), n) == {}
  {
  }

  lemma {:induction false} ClaimsAreTaken(d: Dag, tr: seq<Action>, n: Name)
    requires ValidDag(d) && Valid(d, Created(d), tr)
    ensures StepClaims(d, Created(d), tr, n) == |Taken(After(d, Created(d), tr), n)|
    decreases |tr|
  {
    hide Enabled, Apply, Created, Taken, ClaimOf, StepsOk, AttemptsOk, TimersOk, OutboxOk, SignalsOk, RunOk;
    if tr == [] {
      NoneTaken(d, n);
    } else {
      var k := |tr| - 1;
      ClaimsAreTaken(d, tr[..k], n);
      CreatedInv(d);
      TraceKeeps(d, Created(d), tr[..k]);
      TakenGrows(d, After(d, Created(d), tr[..k]), tr[k], n);
    }
  }

  /** Attempts of one step have distinct numbers from 1 on, so there are no more than the largest. */
  lemma {:induction false} NumbersBoundIds(attempts: seq<Attempt>, ids: set<nat>, n: Name, c: nat)
    requires NumbersUnique(attempts)
    requires forall a :: a in ids ==> a < |attempts| && attempts[a].step == n && 1 <= attempts[a].number <= c
    ensures |ids| <= c
    decreases c
  {
    if c == 0 {
      assert ids == {};
    } else if a :| a in ids && attempts[a].number == c {
      NumbersBoundIds(attempts, ids - {a}, n, c - 1);
    } else {
      NumbersBoundIds(attempts, ids, n, c - 1);
    }
  }

  /** In any run whatever, workers claim attempts of a step at most MaxAttempts times. */
  lemma StepClaimsBounded(d: Dag, tr: seq<Action>, n: Name)
    requires ValidDag(d) && Valid(d, Created(d), tr) && n in d
    ensures StepClaims(d, Created(d), tr, n) <= d[n].maxAttempts
  {
    hide Created, TimersOk, OutboxOk, SignalsOk, RunOk, NoGaps, StepClaims;
    var w := After(d, Created(d), tr);
    CreatedInv(d);
    TraceKeeps(d, Created(d), tr);
    ClaimsAreTaken(d, tr, n);
    assert StepOk(d, w.steps, n);
    forall a | a in Taken(w, n) ensures 1 <= w.attempts[a].number <= w.steps[n].attemptCount {
      assert AttemptOk(d, w.steps, w.attempts, w.owed, a);
    }
    NumbersBoundIds(w.attempts, Taken(w, n), n, w.steps[n].attemptCount);
  }
}
