/** The timer poller: it fires timers whose time has come, and no others. */
module Polling {
  import opened Rows
  import opened Dags
  import opened Transitions
  import opened Invariants
  import opened Reconciling
  import opened Backoff
  import opened Storage
  import opened Engines

  // ----------------------------------------------------------------- due times

  /** The timer is still there, for the same step and due at the same time. */
  predicate StillDue(before: seq<Timer>, after: seq<Timer>, t: nat) {
    t < |before| ==>
      t < |after| && after[t].kind == before[t].kind && after[t].step == before[t].step && after[t].fireAt == before[t].fireAt
  }

  lemma OtherKeepsDue(d: Dag, w: World, act: Action, t: nat)
    requires Enabled(d, w, act) && !ReconcileAction(act)
    ensures StillDue(w.timers, Apply(d, w, act).timers, t)
  {
    hide FindSignal, DepsCompleted, CancelSteps, Outcome;
    match act
    case Report(a, _, success, output, due) =>
      OutcomeShape(d, SetAttempt(w, a, if success then AttemptSucceeded else AttemptFailed), a, success, output, due);
    case ApplyExpiry(a, due) => OutcomeShape(d, w.(owed := w.owed - {a}), a, false, None, due);
    case _ =>
  }

  /** Nothing moves a timer: it is due when it was, whatever happens. */
  lemma {:induction false} TimersStayDue(d: Dag, w: World, tr: seq<Action>, t: nat)
    requires Valid(d, w, tr)
    ensures StillDue(w.timers, After(d, w, tr).timers, t)
    decreases |tr|
  {
    hide Enabled, Apply, ReconcileAction;
    if tr != [] {
      var k := |tr| - 1;
      var mid := After(d, w, tr[..k]);
      TimersStayDue(d, w, tr[..k], t);
      if ReconcileAction(tr[k]) {
        ActionKeepsTimers(d, mid, tr[k]);
      } else {
        OtherKeepsDue(d, mid, tr[k], t);
      }
    }
  }

  /** No retry comes early.  A timer that an outcome at `failedAt` added, found due at `now`
      in whatever state the run is by then, has waited out at least 80% of the planned delay,
      up to the millisecond that is cut off. */
  lemma RetryWaitsOut(d: Dag, w: World, a: nat, failedAt: int, u: real, w1: World, w2: World, now: int)
    requires TimersAfterOutcome(d, w, a, false, failedAt, u, w1.timers) && 0.0 <= u < 1.0 && Leads(d, w1, w2)
    requires var s := d[w.attempts[a].step];
      && Policy(s.initialBackoffMS as real, s.backoffMultiplier, s.maxBackoffMS as real)
      && w.steps[w.attempts[a].step].attemptCount < s.maxAttempts
    requires |w.timers| < |w2.timers| ==> w2.timers[|w.timers|].fireAt <= now
    ensures |w.timers| < |w2.timers| && w2.timers[|w.timers|].step == Some(w.attempts[a].step)
    ensures (now - failedAt) as real > 0.8 * PlannedDelay(d[w.attempts[a].step], w.steps[w.attempts[a].step].attemptCount) - 1.0
  {
    hide PlannedDelay, SameTimers;
    var tr :| Valid(d, w1, tr) && After(d, w1, tr) == w2;
    TimersStayDue(d, w1, tr, |w.timers|);
  }

  // -------------------------------------------------------------------- polling

  /** Among the timers that were there, some in the list have fired, some may have been
      cancelled, and none has moved. */
  predicate FiredAmong(before: seq<Timer>, after: seq<Timer>, fired: seq<nat>) {
    && |after| == |before|
    && forall t :: 0 <= t < |before| ==>
         && after[t].kind == before[t].kind && after[t].step == before[t].step && after[t].fireAt == before[t].fireAt
         && (after[t].status == before[t].status
             || (before[t].status == TimerPending && after[t].status == TimerCancelled)
             || (before[t].status == TimerPending && after[t].status == TimerFired && t in fired))
  }

  /** Each of them whose transaction went through is no longer pending. */
  predicate NoneLeft(timers: seq<Timer>, fired: seq<nat>, fails: nat -> bool) {
    forall k :: 0 <= k < |fired| && !fails(k) ==> fired[k] < |timers| && timers[fired[k]].status != TimerPending
  }

  lemma FiredNext(before: seq<Timer>, mid: seq<Timer>, after: seq<Timer>, due: seq<nat>, i: nat, fails: nat -> bool)
    requires i < |due| && FiredAmong(before, mid, due[..i]) && NoneLeft(mid, due[..i], fails) && due[i] < |mid|
    requires if mid[due[i]].status == TimerPending && !fails(i) then SameTimers(mid[due[i] := mid[due[i]].(status := TimerFired)], after)
             else after == mid
    ensures FiredAmong(before, after, due[..i + 1]) && NoneLeft(after, due[..i + 1], fails)
  {
    assert due[..i + 1] == due[..i] + [due[i]];
    forall k | 0 <= k < i + 1 && !fails(k) ensures due[k] < |after| && after[due[k]].status != TimerPending {
      if k < i {
        assert due[..i][k] == due[k];
      }
    }
  }

  class TimerPoller {
    const engine: Engine
    const batchSize: int

    constructor (e: Engine, batch: int)
      ensures engine == e && batchSize == batch
    {
      engine, batchSize := e, batch;
    }

    /** One poll at `now`: lists due timers, then hands each to the engine, in a transaction
        of its own.  If `fails(i)`, the i-th is rolled back and the error is only logged. */
    method Tick(mine: bool, now: int, fails: nat -> bool) returns (due: seq<nat>)
      requires engine.q.Valid()
      modifies engine.q
      ensures engine.q.Valid()
      ensures forall t :: t in due ==>
        t < |old(engine.q.timers)| && old(engine.q.timers)[t].status == TimerPending && old(engine.q.timers)[t].fireAt <= now
      ensures |due| <= if batchSize < 0 then 0 else batchSize
      ensures mine && |due| < batchSize ==> forall t: nat ::
        t < |old(engine.q.timers)| && old(engine.q.timers)[t].status == TimerPending && old(engine.q.timers)[t].fireAt <= now
        ==> t in due
      ensures FiredAmong(old(engine.q.timers), engine.q.timers, due) && NoneLeft(engine.q.timers, due, fails)
    {
      hide FiredAmong, NoneLeft, Reachable, Leads, ValidDag, SameTimers, Reconcile, Fits, Apply, Enabled;
      var q := engine.q;
      due := q.ListDueTimers(mine, batchSize, now);
      ghost var before := q.timers;
      NothingFired(before, fails);
      for i := 0 to |due|
        invariant q.Valid() && |q.timers| == |before|
        invariant FiredAmong(before, q.timers, due[..i]) && NoneLeft(q.timers, due[..i], fails)
      {
        ghost var mid := q.timers;
        assert due[i] in due;
        ReachableRows(q.dag, q.Contents());
        if !fails(i) {
          var applied, _ := engine.HandleFiredTimer(due[i]);
        }
        FiredNext(before, mid, q.timers, due, i, fails);
        SameLength(before, q.timers, due[..i + 1]);
      }
      assert due[..|due|] == due;
    }
  }

  lemma NothingFired(timers: seq<Timer>, fails: nat -> bool)
    ensures FiredAmong(timers, timers, []) && NoneLeft(timers, [], fails)
  {
  }

  lemma SameLength(before: seq<Timer>, after: seq<Timer>, fired: seq<nat>)
    requires FiredAmong(before, after, fired)
    ensures |after| == |before|
  {
  }
}
