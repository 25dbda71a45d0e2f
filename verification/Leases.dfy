/** Leases, told from what has happened: who claimed an attempt, until when, and whether it is over. */
module Leases {
  import opened Rows
  import opened Dags
  import opened Transitions
  import opened Invariants

  /** The worker of the last claim of attempt a. */
  function Claimer(tr: seq<Action>, a: nat): Option<string> {
    if tr == [] then None
    else
      var last := tr[|tr| - 1];
      if last.Claim? && last.a == a then Some(last.worker) else Claimer(tr[..|tr| - 1], a)
  }

  /** The time up to which the last claim or heartbeat of attempt a took the lease. */
  function LastUntil(tr: seq<Action>, a: nat): Option<int> {
    if tr == [] then None
    else
      var last := tr[|tr| - 1];
      if (last.Claim? || last.Heartbeat?) && last.a == a then Some(last.until) else LastUntil(tr[..|tr| - 1], a)
  }

  /** A report of attempt a was accepted, or its lease was reaped. */
  predicate Ended(tr: seq<Action>, a: nat) {
    exists i :: 0 <= i < |tr| && (tr[i].Report? || tr[i].Expire?) && tr[i].a == a
  }

  /** Some worker holds attempt a. */
  predicate Held(tr: seq<Action>, a: nat) {
    Claimer(tr, a).Some? && !Ended(tr, a)
  }

  /** The row of attempt a in w is what the trace tells of it. */
  ghost predicate Told(w: World, tr: seq<Action>, a: nat) {
    if a < |w.attempts| then
      && w.attempts[a].leaseOwner == Claimer(tr, a) && w.attempts[a].leaseExpiresAt == LastUntil(tr, a)
      && (w.attempts[a].status == AttemptQueued <==> Claimer(tr, a).None?)
      && (w.attempts[a].status == AttemptLeased <==> Held(tr, a))
      && (Claimer(tr, a).Some? <==> LastUntil(tr, a).Some?) && (Ended(tr, a) ==> Claimer(tr, a).Some?)
    else
      Claimer(tr, a).None? && LastUntil(tr, a).None? && !Ended(tr, a)
  }

  /** Not about the lease of attempt a. */
  predicate Elsewhere(act: Action, a: nat) {
    !((act.Claim? || act.Heartbeat? || act.Report? || act.Expire?) && act.a == a)
  }

  /** The lease of attempt a is as before, or the attempt is new. */
  predicate SameLease(w: World, w': World, a: nat) {
    && |w.attempts| <= |w'.attempts|
    && (a < |w.attempts| ==>
          && w'.attempts[a].leaseOwner == w.attempts[a].leaseOwner
          && w'.attempts[a].leaseExpiresAt == w.attempts[a].leaseExpiresAt
          && w'.attempts[a].status == w.attempts[a].status)
    && (|w.attempts| <= a < |w'.attempts| ==>
          w'.attempts[a].status == AttemptQueued && w'.attempts[a].leaseOwner == None && w'.attempts[a].leaseExpiresAt == None)
  }

  lemma PassKeepsLease(d: Dag, w: World, act: Action, a: nat)
    requires Enabled(d, w, act) && ReconcileAction(act)
    ensures SameLease(w, Apply(d, w, act), a)
  {
    hide FindSignal, Blocked, DepsCompleted, CancelTimers, Outputs, AllTerminal, AnyActive, NamesFailure, Verdict, VerdictEvent;
  }

  lemma OtherKeepsLease(d: Dag, w: World, act: Action, a: nat)
    requires Enabled(d, w, act) && !ReconcileAction(act) && Elsewhere(act, a)
    ensures SameLease(w, Apply(d, w, act), a)
  {
    hide CancelTimers, CancelSteps, FindSignal, Blocked, DepsCompleted, AllTerminal, AnyActive, NamesFailure, FinishRun, CompleteBySignal;
  }

  /** One action: what it does to the lease of attempt a. */
  lemma ActionTold(d: Dag, w: World, tr: seq<Action>, act: Action, a: nat)
    requires Told(w, tr, a) && Enabled(d, w, act)
    ensures Told(Apply(d, w, act), tr + [act], a)
  {
    hide Apply, Enabled;
    TraceGrows(tr, act, a);
    if Elsewhere(act, a) {
      if ReconcileAction(act) {
        PassKeepsLease(d, w, act, a);
      } else {
        OtherKeepsLease(d, w, act, a);
      }
    } else {
      OwnActionTold(d, w, tr, act, a);
    }
  }

  lemma TraceGrows(tr: seq<Action>, act: Action, a: nat)
    ensures Claimer(tr + [act], a) == if act.Claim? && act.a == a then Some(act.worker) else Claimer(tr, a)
    ensures LastUntil(tr + [act], a) == if (act.Claim? || act.Heartbeat?) && act.a == a then Some(act.until) else LastUntil(tr, a)
    ensures Ended(tr + [act], a) <==> Ended(tr, a) || ((act.Report? || act.Expire?) && act.a == a)
  {
    var more := tr + [act];
    assert more[..|tr|] == tr;
    if Ended(tr, a) {
      var i :| 0 <= i < |tr| && (tr[i].Report? || tr[i].Expire?) && tr[i].a == a;
      assert more[i] == tr[i];
    }
    assert more[|tr|] == act;
  }

  lemma OwnActionTold(d: Dag, w: World, tr: seq<Action>, act: Action, a: nat)
    requires Told(w, tr, a) && Enabled(d, w, act) && !Elsewhere(act, a)
    ensures Told(Apply(d, w, act), tr + [act], a)
  {
    hide Claimer, LastUntil, Ended;
    TraceGrows(tr, act, a);
  }

  /** In any run, an attempt's owner is the worker that claimed it and its lease runs to the
      time given by the last claim or heartbeat; it waits until it is claimed, and it is
      leased from then until it is reported or reaped. */
  lemma {:induction false} LeaseIsTold(d: Dag, tr: seq<Action>, a: nat)
    requires Valid(d, Created(d), tr)
    ensures Told(After(d, Created(d), tr), tr, a)
    decreases |tr|
  {
    hide Enabled, Apply;
    if tr != [] {
      var k := |tr| - 1;
      LeaseIsTold(d, tr[..k], a);
      hide Told;
      ActionTold(d, After(d, Created(d), tr[..k]), tr[..k], tr[k], a);
      assert tr == tr[..k] + [tr[k]];
    }
  }

  /** The row says that the lease is over. */
  predicate LeaseOver(at: Attempt, now: int) {
    at.status == AttemptLeased && at.leaseExpiresAt.Some? && at.leaseExpiresAt.value < now
  }

  lemma AttemptHasStep(d: Dag, tr: seq<Action>, a: nat)
    requires ValidDag(d) && Valid(d, Created(d), tr) && a < |After(d, Created(d), tr).attempts|
    ensures var w := After(d, Created(d), tr); w.attempts[a].step in d && w.attempts[a].step in w.steps
  {
    hide Enabled, Apply, ValidDag, After, Valid;
    CreatedInv(d);
    TraceKeeps(d, Created(d), tr);
    var w := After(d, Created(d), tr);
    assert AttemptOk(d, w.steps, w.attempts, w.owed, a);
  }

  /** Who may do what to an attempt, told from the trace alone: one claim, by anyone with the
      key of the attempt; after it heartbeats and one report, by the same worker, as long as
      the lease is not reaped; and reaping, once the time of the last claim or heartbeat is past. */
  lemma WhoMayAct(d: Dag, tr: seq<Action>, a: nat, key: nat, worker: string, t: int, success: bool, output: Option<Payload>)
    requires ValidDag(d) && Valid(d, Created(d), tr) && a < |After(d, Created(d), tr).attempts|
    ensures var w := After(d, Created(d), tr);
      && (Enabled(d, w, Claim(a, key, worker, t)) <==> Claimer(tr, a).None? && key == w.attempts[a].idempotencyKey)
      && (Enabled(d, w, Heartbeat(a, worker, t)) <==> Held(tr, a) && Claimer(tr, a) == Some(worker))
      && (Enabled(d, w, Report(a, worker, success, output, t)) <==> Held(tr, a) && Claimer(tr, a) == Some(worker))
      && (Enabled(d, w, Expire(a, t)) <==> Held(tr, a) && LastUntil(tr, a).Some? && LastUntil(tr, a).value < t)
  {
    hide Apply, RetryDue, FindSignal, Blocked, DepsCompleted, AllTerminal, AnyActive, NamesFailure, ValidDag;
    LeaseIsTold(d, tr, a);
    AttemptHasStep(d, tr, a);
    hide Valid, After, Created, Claimer, LastUntil, Held;
  }

  /** Reaping at `now`: only attempts that are held past the time of their last claim or
      heartbeat, and every one of them if there was room. */
  ghost predicate ReapedRight(d: Dag, w: World, expired: seq<nat>, now: int, room: bool) {
    forall tr :: Valid(d, Created(d), tr) && After(d, Created(d), tr) == w ==> ReapedByTrace(tr, expired, now, room)
  }

  ghost predicate ReapedByTrace(tr: seq<Action>, expired: seq<nat>, now: int, room: bool) {
    && (forall a :: a in expired ==> Overdue(tr, a, now))
    && (room ==> forall a: nat :: Overdue(tr, a, now) ==> a in expired)
  }

  predicate Overdue(tr: seq<Action>, a: nat, now: int) {
    Held(tr, a) && LastUntil(tr, a).Some? && LastUntil(tr, a).value < now
  }

  lemma OverdueRow(d: Dag, tr: seq<Action>, a: nat, now: int)
    requires Valid(d, Created(d), tr)
    ensures var w := After(d, Created(d), tr);
      Overdue(tr, a, now) <==> a < |w.attempts| && LeaseOver(w.attempts[a], now)
  {
    LeaseIsTold(d, tr, a);
    hide Valid, After, Claimer, LastUntil, Ended;
  }

  /** Picking the rows whose lease is over is reaping by what has happened. */
  lemma ReapingIsRight(d: Dag, w: World, expired: seq<nat>, now: int, room: bool)
    requires forall a :: a in expired ==> a < |w.attempts| && LeaseOver(w.attempts[a], now)
    requires room ==> forall a: nat :: a < |w.attempts| && LeaseOver(w.attempts[a], now) ==> a in expired
    ensures ReapedRight(d, w, expired, now, room)
  {
    hide LeaseOver, Overdue;
    forall tr | Valid(d, Created(d), tr) && After(d, Created(d), tr) == w ensures ReapedByTrace(tr, expired, now, room) {
      forall a: nat ensures Overdue(tr, a, now) <==> a < |w.attempts| && LeaseOver(w.attempts[a], now) {
        OverdueRow(d, tr, a, now);
      }
    }
  }
}
