/** The in-memory store of one run, with its compare-and-swap updates. */
module Storage {
  import opened Rows
  import opened Dags
  import opened Transitions
  import opened Invariants
  import opened Leases

  datatype ClaimResult = ClaimOK | ClaimNotFound | ClaimAlreadyClaimed

  /** A step row after a status update. */
  function UpdatedStep(s: Step, next: StepStatus, output: Option<Payload>, bumpAttempt: bool): Step {
    Step(next, if bumpAttempt then s.attemptCount + 1 else s.attemptCount, if output.Some? then output else s.output)
  }

  /** The positions of the unprocessed signals, oldest first. */
  function UnprocessedFrom(signals: seq<Signal>, i: nat): seq<nat>
    requires i <= |signals|
    decreases |signals| - i
  {
    if i == |signals| then []
    else (if signals[i].processed then [] else [i]) + UnprocessedFrom(signals, i + 1)
  }

  /** The first rows, in order of id, that are still to be published. */
  function PendingFrom(outbox: seq<OutboxMessage>, i: nat, limit: int): seq<nat>
    requires i <= |outbox|
    decreases |outbox| - i
  {
    if i == |outbox| || limit <= 0 then []
    else if outbox[i].published then PendingFrom(outbox, i + 1, limit)
    else [i] + PendingFrom(outbox, i + 1, limit - 1)
  }

  /** Distinct attempts whose lease has run out. */
  predicate Expirable(w: World, ids: seq<nat>, now: int) {
    && (forall k :: 0 <= k < |ids| ==> ids[k] < |w.attempts| && LeaseOver(w.attempts[ids[k]], now))
    && (forall k, l :: 0 <= k < l < |ids| ==> ids[k] != ids[l])
  }

  ghost function ExpireAll(w: World, ids: seq<nat>): (w': World)
    requires forall k :: 0 <= k < |ids| ==> ids[k] < |w.attempts|
    ensures |w'.attempts| == |w.attempts|
  {
    if ids == [] then w
    else
      var k := |ids| - 1;
      var w1 := ExpireAll(w, ids[..k]);
      SetAttempt(w1, ids[k], AttemptExpired).(owed := w1.owed + {ids[k]})
  }

  function Positions(n: nat): (s: set<nat>)
    ensures forall i: nat :: i in s <==> i < n
  {
    if n == 0 then {} else Positions(n - 1) + {n - 1}
  }

  lemma ExpireNone(w: World)
    ensures ExpireAll(w, []) == w
  {
  }

  lemma ExpireAllSnoc(w: World, ids: seq<nat>, a: nat)
    requires a < |w.attempts| && forall k :: 0 <= k < |ids| ==> ids[k] < |w.attempts|
    ensures var w1 := ExpireAll(w, ids);
      ExpireAll(w, ids + [a]) == SetAttempt(w1, a, AttemptExpired).(owed := w1.owed + {a})
  {
    assert (ids + [a])[..|ids|] == ids;
  }

  lemma {:induction false} ExpireAllAt(w: World, ids: seq<nat>, a: nat, now: int)
    requires Expirable(w, ids, now) && a < |w.attempts|
    ensures var w' := ExpireAll(w, ids);
      && w'.attempts[a] == (if a in ids then w.attempts[a].(status := AttemptExpired) else w.attempts[a])
      && (a in w'.owed <==> a in w.owed || a in ids)
    decreases |ids|
  {
    if ids != [] {
      var k := |ids| - 1;
      ExpireAllAt(w, ids[..k], a, now);
      assert a in ids <==> a in ids[..k] || a == ids[k];
    }
  }

  /** Marking leases expired is a sequence of actions. */
  lemma {:induction false} ExpireAllLeads(d: Dag, w: World, ids: seq<nat>, now: int)
    requires Expirable(w, ids, now)
    ensures Leads(d, w, ExpireAll(w, ids))
    decreases |ids|
  {
    if ids == [] {
      assert Transitions.Valid(d, w, []);
    } else {
      var k := |ids| - 1;
      var w1 := ExpireAll(w, ids[..k]);
      ExpireAllLeads(d, w, ids[..k], now);
      ExpireAllAt(w, ids[..k], ids[k], now);
      hide Leads;
      LeadsOne(d, w1, Expire(ids[k], now));
      LeadsTransitive(d, w, w1, ExpireAll(w, ids));
    }
  }

  class Store {
    const dag: Dag

    var run: Run
    var steps: map<Name, Step>
    var attempts: seq<Attempt>
    var outbox: seq<OutboxMessage>
    var timers: seq<Timer>
    var signals: seq<Signal>
    var history: seq<HistoryEvent>

    ghost var stream: seq<Message>
    ghost var owed: set<nat>
    ghost var consumer: map<nat, Name>

    ghost function Contents(): World
      reads this
    {
      World(run, steps, attempts, outbox, timers, signals, history, stream, owed, consumer)
    }

    /** The run was created from a validated graph and changed only by actions. */
    ghost predicate Valid()
      reads this
    {
      ValidDag(dag) && Reachable(dag, Contents())
    }

    /** CreateWorkflowRun, CreateSteps and the run_created event. */
    constructor (d: Dag)
      ensures dag == d && Contents() == Created(d)
    {
      dag := d;
      run := Run(RunPending, None, None, 1);
      steps := map n | n in d :: Step(StepPending, 0, None);
      attempts, outbox, timers, signals := [], [], [], [];
      history := [HistoryEvent(1, RunCreatedEvent(|d|))];
      stream, owed, consumer := [], {}, map[];
    }

    // -------------------------------------------------------------- runs, steps

    method UpdateWorkflowRunStatus(expected: set<RunStatus>, next: RunStatus,
                                   output: Option<map<Name, Option<Payload>>>, failed: Option<Name>) returns (ok: bool)
      modifies this`run
      ensures ok == (old(run).status in expected)
      ensures run == if ok then old(run).(status := next,
                                          output := if output.Some? then output else old(run).output,
                                          failedStep := if failed.Some? then failed else old(run).failedStep)
                     else old(run)
    {
      if run.status !in expected {
        return false;
      }
      run := run.(status := next);
      if output.Some? {
        run := run.(output := output);
      }
      if failed.Some? {
        run := run.(failedStep := failed);
      }
      return true;
    }

    method UpdateStepStatus(n: Name, expected: set<StepStatus>, next: StepStatus, output: Option<Payload>, bumpAttempt: bool)
      returns (ok: bool)
      modifies this`steps
      ensures ok == (n in old(steps) && old(steps)[n].status in expected)
      ensures steps == if ok then old(steps)[n := UpdatedStep(old(steps)[n], next, output, bumpAttempt)] else old(steps)
    {
      if n !in steps || steps[n].status !in expected {
        return false;
      }
      var s := steps[n].(status := next);
      if output.Some? {
        s := s.(output := output);
      }
      if bumpAttempt {
        s := s.(attemptCount := s.attemptCount + 1);
      }
      steps := steps[n := s];
      return true;
    }

    // ----------------------------------------------------------------- attempts

    /** The id and the idempotency key are new to the table. */
    method CreateTaskAttempt(n: Name, number: nat, queueName: string) returns (id: nat)
      modifies this`attempts
      ensures id == |old(attempts)|
      ensures attempts == old(attempts) + [Attempt(n, number, id, AttemptQueued, queueName, None, None)]
    {
      id := |attempts|;
      attempts := attempts + [Attempt(n, number, id, AttemptQueued, queueName, None, None)];
    }

    /** A successful claim also hands out a copy of the row. */
    method ClaimTaskAttempt(a: nat, key: nat, worker: string, until: int) returns (result: ClaimResult, row: Option<Attempt>)
      modifies this`attempts
      ensures result == ClaimNotFound <==> a >= |old(attempts)|
      ensures result == ClaimOK <==> Enabled(dag, old(Contents()), Claim(a, key, worker, until))
      ensures Contents() == if result == ClaimOK then Apply(dag, old(Contents()), Claim(a, key, worker, until)) else old(Contents())
      ensures row == if result == ClaimOK then Some(attempts[a]) else None
    {
      if a >= |attempts| {
        return ClaimNotFound, None;
      }
      if attempts[a].status != AttemptQueued || attempts[a].idempotencyKey != key {
        return ClaimAlreadyClaimed, None;
      }
      attempts := attempts[a := attempts[a].(status := AttemptLeased, leaseOwner := Some(worker), leaseExpiresAt := Some(until))];
      return ClaimOK, Some(attempts[a]);
    }

    method HeartbeatTaskAttempt(a: nat, worker: string, until: int) returns (ok: bool)
      modifies this`attempts
      ensures ok <==> Enabled(dag, old(Contents()), Heartbeat(a, worker, until))
      ensures Contents() == if ok then Apply(dag, old(Contents()), Heartbeat(a, worker, until)) else old(Contents())
    {
      if a >= |attempts| || attempts[a].status != AttemptLeased || attempts[a].leaseOwner != Some(worker) {
        return false;
      }
      attempts := attempts[a := attempts[a].(leaseExpiresAt := Some(until))];
      return true;
    }

    method CompleteTaskAttempt(a: nat, worker: string, success: bool) returns (applied: bool)
      modifies this`attempts
      ensures applied == (a < |old(attempts)| && old(attempts)[a].status == AttemptLeased && old(attempts)[a].leaseOwner == Some(worker))
      ensures attempts ==
        if applied then old(attempts)[a := old(attempts)[a].(status := if success then AttemptSucceeded else AttemptFailed)]
        else old(attempts)
    {
      if a >= |attempts| || attempts[a].status != AttemptLeased || attempts[a].leaseOwner != Some(worker) {
        return false;
      }
      attempts := attempts[a := attempts[a].(status := if success then AttemptSucceeded else AttemptFailed)];
      return true;
    }

    /** Marks up to `limit` attempts whose lease has run out, in any order. */
    method ReapExpiredAttempts(limit: int, now: int) returns (expired: seq<nat>)
      modifies this`attempts, this`owed
      ensures Expirable(old(Contents()), expired, now) && Contents() == ExpireAll(old(Contents()), expired)
      ensures |expired| <= if limit < 0 then 0 else limit
      ensures |expired| < limit ==> forall a :: 0 <= a < |old(attempts)| && LeaseOver(old(attempts)[a], now) ==> a in expired
      ensures ReapedRight(dag, old(Contents()), expired, now, |expired| < limit)
    {
      expired := [];
      hide ExpireAll, Positions, ReapedRight;
      var rest: set<nat> := Positions(|attempts|);
      ExpireNone(Contents());
      while rest != {}
        invariant Expirable(old(Contents()), expired, now) && Contents() == ExpireAll(old(Contents()), expired)
        invariant |expired| <= if limit < 0 then 0 else limit
        invariant forall a :: a in rest ==> a < |old(attempts)| && a !in expired
        invariant forall a :: 0 <= a < |old(attempts)| && a !in rest && LeaseOver(old(attempts)[a], now) ==> a in expired
        decreases |rest|
      {
        if |expired| >= limit {
          break;
        }
        var a :| a in rest;
        rest := rest - {a};
        ExpireAllAt(old(Contents()), expired, a, now);
        if attempts[a].status == AttemptLeased && attempts[a].leaseExpiresAt.Some? && attempts[a].leaseExpiresAt.value < now {
          ExpireAllSnoc(old(Contents()), expired, a);
          attempts := attempts[a := attempts[a].(status := AttemptExpired)];
          owed := owed + {a};
          expired := expired + [a];
        }
      }
      ReapingIsRight(dag, old(Contents()), expired, now, |expired| < limit);
    }

    // ------------------------------------------------------------------- outbox

    method InsertOutboxMessage(id: nat, streamName: string, payload: TaskPayload)
      modifies this`outbox
      ensures outbox == old(outbox) + [OutboxMessage(id, streamName, payload, false)]
    {
      outbox := outbox + [OutboxMessage(id, streamName, payload, false)];
    }

    /** `mine` says whether the caller's shard filter lets this run through. */
    method FetchAndLockPendingOutbox(mine: bool, limit: int) returns (rows: seq<nat>)
      ensures rows == if mine then PendingFrom(outbox, 0, limit) else []
    {
      rows := [];
      var i := 0;
      assert mine ==> rows + PendingFrom(outbox, 0, limit - |rows|) == PendingFrom(outbox, 0, limit);
      while i < |outbox| && |rows| < limit
        invariant i <= |outbox| && |rows| <= if limit < 0 then 0 else limit
        invariant mine ==> rows + PendingFrom(outbox, i, limit - |rows|) == PendingFrom(outbox, 0, limit)
        invariant !mine ==> rows == []
      {
        if !outbox[i].published && mine {
          rows := rows + [i];
        }
        i := i + 1;
      }
    }

    method MarkOutboxPublished(row: nat)
      modifies this`outbox
      ensures outbox == if row < |old(outbox)| then old(outbox)[row := old(outbox)[row].(published := true)] else old(outbox)
    {
      if row < |outbox| {
        outbox := outbox[row := outbox[row].(published := true)];
      }
    }

    // ------------------------------------------------------------------- timers

    method InsertTimer(kind: TimerKind, n: Option<Name>, fireAt: int)
      modifies this`timers
      ensures timers == old(timers) + [Timer(kind, n, TimerPending, fireAt)]
    {
      timers := timers + [Timer(kind, n, TimerPending, fireAt)];
    }

    /** Up to `limit` pending timers whose time has come, in any order; `mine` says whether
        the caller's shard filter lets this run through. */
    method ListDueTimers(mine: bool, limit: int, now: int) returns (due: seq<nat>)
      ensures forall t :: t in due ==> t < |timers| && timers[t].status == TimerPending && timers[t].fireAt <= now
      ensures forall k, l :: 0 <= k < l < |due| ==> due[k] != due[l]
      ensures |due| <= if limit < 0 then 0 else limit
      ensures mine && |due| < limit ==>
        forall t: nat :: t < |timers| && timers[t].status == TimerPending && timers[t].fireAt <= now ==> t in due
      ensures !mine ==> due == []
    {
      hide Positions;
      due := [];
      var rest: set<nat> := Positions(|timers|);
      while rest != {}
        invariant forall t :: t in rest ==> t < |timers| && t !in due
        invariant forall t :: t in due ==> t < |timers| && timers[t].status == TimerPending && timers[t].fireAt <= now
        invariant forall k, l :: 0 <= k < l < |due| ==> due[k] != due[l]
        invariant |due| <= if limit < 0 then 0 else limit
        invariant mine ==> forall t: nat ::
          t < |timers| && t !in rest && timers[t].status == TimerPending && timers[t].fireAt <= now ==> t in due
        invariant !mine ==> due == []
        decreases |rest|
      {
        if |due| >= limit {
          break;
        }
        var t :| t in rest;
        rest := rest - {t};
        if timers[t].status != TimerPending || timers[t].fireAt > now || !mine {
          continue;
        }
        due := due + [t];
      }
    }

    method FireTimerCAS(t: nat) returns (applied: bool)
      modifies this`timers
      ensures applied == (t < |old(timers)| && old(timers)[t].status == TimerPending)
      ensures timers == if applied then old(timers)[t := old(timers)[t].(status := TimerFired)] else old(timers)
    {
      if t >= |timers| || timers[t].status != TimerPending {
        return false;
      }
      timers := timers[t := timers[t].(status := TimerFired)];
      return true;
    }

    method CancelTimersForRun()
      modifies this`timers
      ensures timers == CancelTimers(old(timers))
    {
      for t := 0 to |timers|
        invariant |timers| == |old(timers)|
        invariant forall u :: 0 <= u < |timers| ==> timers[u] == if u < t then CancelTimers(old(timers))[u] else old(timers)[u]
      {
        if timers[t].status == TimerPending {
          timers := timers[t := timers[t].(status := TimerCancelled)];
        }
      }
    }

    // ------------------------------------------------------------------ signals

    method InsertSignal(name: string, payload: Payload)
      modifies this`signals
      ensures signals == old(signals) + [Signal(name, payload, false)]
    {
      signals := signals + [Signal(name, payload, false)];
    }

    method ListUnprocessedSignals() returns (ids: seq<nat>)
      ensures ids == UnprocessedFrom(signals, 0)
    {
      ids := [];
      for i := 0 to |signals|
        invariant ids + UnprocessedFrom(signals, i) == UnprocessedFrom(signals, 0)
      {
        if !signals[i].processed {
          ids := ids + [i];
        }
      }
    }

    /** `taker` is the step on whose behalf the signal is taken. */
    method MarkSignalProcessed(i: nat, ghost taker: Name) returns (applied: bool)
      modifies this`signals, this`consumer
      ensures applied == (i < |old(signals)| && !old(signals)[i].processed)
      ensures signals == if applied then old(signals)[i := old(signals)[i].(processed := true)] else old(signals)
      ensures consumer == if applied then old(consumer)[i := taker] else old(consumer)
    {
      if i >= |signals| || signals[i].processed {
        return false;
      }
      signals := signals[i := signals[i].(processed := true)];
      consumer := consumer[i := taker];
      return true;
    }

    // ------------------------------------------------------------------ history

    method AppendHistory(e: Event)
      modifies this`run, this`history
      ensures Contents() == Log(old(Contents()), e)
    {
      run := run.(historySeq := run.historySeq + 1);
      history := history + [HistoryEvent(run.historySeq, e)];
    }
  }

  lemma {:induction false} UnprocessedSound(signals: seq<Signal>, i: nat)
    requires i <= |signals|
    ensures forall k :: k in UnprocessedFrom(signals, i) ==> i <= k < |signals| && !signals[k].processed
    decreases |signals| - i
  {
    if i < |signals| {
      UnprocessedSound(signals, i + 1);
    }
  }

  lemma {:induction false} UnprocessedComplete(signals: seq<Signal>, i: nat, j: nat)
    requires i <= j < |signals| && !signals[j].processed
    ensures j in UnprocessedFrom(signals, i)
    decreases |signals| - i
  {
    if i < j {
      UnprocessedComplete(signals, i + 1, j);
    }
  }

  lemma {:induction false} UnprocessedSorted(signals: seq<Signal>, i: nat, k: nat, l: nat)
    requires i <= |signals| && k < l < |UnprocessedFrom(signals, i)|
    ensures UnprocessedFrom(signals, i)[k] < UnprocessedFrom(signals, i)[l]
    decreases |signals| - i
  {
    var rest := UnprocessedFrom(signals, i + 1);
    if signals[i].processed {
      assert UnprocessedFrom(signals, i) == rest;
      UnprocessedSorted(signals, i + 1, k, l);
    } else if k == 0 {
      UnprocessedSound(signals, i + 1);
      assert rest[l - 1] in rest;
    } else {
      UnprocessedSorted(signals, i + 1, k - 1, l - 1);
    }
  }

  /** The list of unprocessed signals holds exactly those, in order of arrival. */
  lemma UnprocessedAscending(signals: seq<Signal>, i: nat)
    requires i <= |signals|
    ensures var ids := UnprocessedFrom(signals, i);
      && (forall k :: 0 <= k < |ids| ==> i <= ids[k] < |signals| && !signals[ids[k]].processed)
      && (forall k, l :: 0 <= k < l < |ids| ==> ids[k] < ids[l])
      && (forall j: nat :: i <= j < |signals| && !signals[j].processed ==> j in ids)
  {
    hide UnprocessedFrom;
    var ids := UnprocessedFrom(signals, i);
    UnprocessedSound(signals, i);
    forall k | 0 <= k < |ids| ensures i <= ids[k] < |signals| && !signals[ids[k]].processed {
      assert ids[k] in ids;
    }
    forall k, l | 0 <= k < l < |ids| ensures ids[k] < ids[l] {
      UnprocessedSorted(signals, i, k, l);
    }
    forall j: nat | i <= j < |signals| && !signals[j].processed ensures j in ids {
      UnprocessedComplete(signals, i, j);
    }
  }

  /** The oldest unprocessed signal of a name is the first match in the list of unprocessed ones. */
  lemma FirstMatchIsOldest(signals: seq<Signal>, want: string, k: nat)
    requires k <= |UnprocessedFrom(signals, 0)|
    requires forall l :: 0 <= l < |UnprocessedFrom(signals, 0)| ==> UnprocessedFrom(signals, 0)[l] < |signals|
    requires forall l :: 0 <= l < k ==> signals[UnprocessedFrom(signals, 0)[l]].name != want
    ensures k == |UnprocessedFrom(signals, 0)| ==> FindSignal(signals, want).None?
    ensures k < |UnprocessedFrom(signals, 0)| && signals[UnprocessedFrom(signals, 0)[k]].name == want ==>
              FindSignal(signals, want) == Some(UnprocessedFrom(signals, 0)[k])
  {
    UnprocessedAscending(signals, 0);
    hide UnprocessedFrom;
    var ids := UnprocessedFrom(signals, 0);
    var r := FindSignal(signals, want);
    if r.Some? {
      assert r.value in ids;
      var l :| 0 <= l < |ids| && ids[l] == r.value;
    }
  }
}
