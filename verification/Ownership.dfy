/** Who owns a step: attempts, retry timers, outbox rows and signals. */
module Ownership {
  import opened Rows
  import opened Dags
  import opened Transitions
  import opened Invariants
  import opened Verdicts

  // ----------------------------------------------------------------- attempts

  /** A step never has two attempts that can still deliver an outcome. */
  lemma AtMostOneLiveAttempt(d: Dag, w: World, a: nat, b: nat)
    requires ValidDag(d) && Reachable(d, w) && a < |w.attempts| && b < |w.attempts|
    requires Live(w.attempts, w.owed, a) && Live(w.attempts, w.owed, b) && w.attempts[a].step == w.attempts[b].step
    ensures a == b
  {
    ReachableInv(d, w);
    LiveAttempt(d, w.steps, w.attempts, w.owed, a);
    LiveAttempt(d, w.steps, w.attempts, w.owed, b);
  }

  /** A step that is QUEUED or RUNNING has an attempt that can still deliver: the
      current one.  Every other of its attempts is settled. */
  lemma InHandStepHasLiveAttempt(d: Dag, w: World, n: Name) returns (a: nat)
    requires ValidDag(d) && Reachable(d, w) && n in w.steps && InHand(w.steps[n].status)
    ensures a < |w.attempts| && w.attempts[a].step == n && w.attempts[a].number == w.steps[n].attemptCount
    ensures Live(w.attempts, w.owed, a)
    ensures forall b :: 0 <= b < |w.attempts| && w.attempts[b].step == n && b != a ==>
              Settled(w.attempts[b].status) && b !in w.owed
  {
    ReachableInv(d, w);
    assert StepOk(d, w.steps, n);
    assert HasAttempt(w.attempts, n, w.steps[n].attemptCount);
    a :| 0 <= a < |w.attempts| && w.attempts[a].step == n && w.attempts[a].number == w.steps[n].attemptCount;
    assert AttemptOk(d, w.steps, w.attempts, w.owed, a);
    forall b | 0 <= b < |w.attempts| && w.attempts[b].step == n && b != a
      ensures Settled(w.attempts[b].status) && b !in w.owed
    {
      assert AttemptOk(d, w.steps, w.attempts, w.owed, b);
    }
  }

  /** No stale outcome: whenever an outcome is applied, it is that of the step's
      current attempt, and the step still waits for it unless the run was cancelled. */
  lemma OutcomesAreCurrent(d: Dag, w: World, act: Action)
    requires ValidDag(d) && Reachable(d, w) && Enabled(d, w, act) && (act.Report? || act.ApplyExpiry?)
    ensures act.a < |w.attempts|
    ensures var n := w.attempts[act.a].step;
      && n in w.steps && w.attempts[act.a].number == w.steps[n].attemptCount
      && (InHand(w.steps[n].status) || (w.steps[n].status == StepCancelled && w.run.status == RunCancelled))
  {
    ReachableInv(d, w);
    LiveAttempt(d, w.steps, w.attempts, w.owed, act.a);
    LiveRunHasNoCancelledStep(d, w, w.attempts[act.a].step);
  }

  /** The attempts of a step are numbered 1 to AttemptCount, each number once. */
  lemma AttemptsNumbered(d: Dag, w: World, n: Name, k: nat)
    requires ValidDag(d) && Reachable(d, w) && n in w.steps
    ensures 1 <= k <= w.steps[n].attemptCount <==> HasAttempt(w.attempts, n, k)
    ensures forall a, b :: 0 <= a < |w.attempts| && 0 <= b < |w.attempts|
                           && w.attempts[a].step == n && w.attempts[b].step == n
                           && w.attempts[a].number == w.attempts[b].number
                           ==> a == b
    ensures n in d && w.steps[n].attemptCount <= d[n].maxAttempts
  {
    ReachableInv(d, w);
    assert StepOk(d, w.steps, n);
    if HasAttempt(w.attempts, n, k) {
      var a :| 0 <= a < |w.attempts| && w.attempts[a].step == n && w.attempts[a].number == k;
      assert AttemptOk(d, w.steps, w.attempts, w.owed, a);
    }
  }

  // ------------------------------------------------------------------- timers

  lemma ReachableTimers(d: Dag, w: World)
    requires ValidDag(d) && Reachable(d, w)
    ensures StepsOk(d, w.steps) && TimersOk(d, w.run.status, w.steps, w.timers)
  {
    hide StepsOk, AttemptsOk, OutboxOk, SignalsOk, RunOk, TimersOk, Reachable;
    ReachableInv(d, w);
  }

  /** In a live run a step waits in RETRY_BACKOFF exactly when one pending timer is set
      for it, and that timer will retry it. */
  lemma RetryTimerConservation(d: Dag, w: World, n: Name)
    requires ValidDag(d) && Reachable(d, w) && !RunTerminal(w.run.status) && n in w.steps
    ensures w.steps[n].status == StepRetryBackoff <==> exists t :: PendingFor(w.timers, t, n)
    ensures forall t, u :: PendingFor(w.timers, t, n) && PendingFor(w.timers, u, n) ==> t == u
    ensures forall t :: PendingFor(w.timers, t, n) ==> Enabled(d, w, Retry(t)) && !Enabled(d, w, FireStale(t))
  {
    hide Reachable, StepOk;
    ReachableTimers(d, w);
  }

  /** A pending timer that finds nothing to retry exists only in a cancelled run. */
  lemma StaleTimersOnlyAfterCancel(d: Dag, w: World, t: nat)
    requires ValidDag(d) && Reachable(d, w) && t < |w.timers| && w.timers[t].status == TimerPending
    ensures RunTerminal(w.run.status) <==> w.run.status == RunCancelled
    ensures Enabled(d, w, FireStale(t)) <==> w.run.status == RunCancelled
  {
    hide StepsOk, AttemptsOk, OutboxOk, SignalsOk, RunOk;
    ReachableInv(d, w);
    if Enabled(d, w, FireStale(t)) {
      FireStaleKept(d, w, t);
    }
  }

  // ------------------------------------------------------------------- outbox

  /** One outbox row per attempt, carrying its stream, id, number and key. */
  lemma OutboxMatchesAttempts(d: Dag, w: World, a: nat)
    requires ValidDag(d) && Reachable(d, w)
    ensures |w.outbox| == |w.attempts|
    ensures a < |w.attempts| ==>
      && w.outbox[a].aggregate == a && w.outbox[a].payload.attempt == a
      && w.outbox[a].streamName == w.attempts[a].queueName
      && w.outbox[a].payload.step == w.attempts[a].step && w.outbox[a].payload.number == w.attempts[a].number
      && w.outbox[a].payload.idempotencyKey == w.attempts[a].idempotencyKey
      && forall b :: 0 <= b < |w.outbox| && w.outbox[b].aggregate == a ==> b == a
    ensures a < |w.attempts| ==>
      && w.attempts[a].step in d && d[w.attempts[a].step].taskType != "signal_wait"
      && var s, message := d[w.attempts[a].step], w.outbox[a];
         && message.streamName == "wf:tasks:" + s.taskType && message.payload.taskType == s.taskType
         && message.payload.input == s.input && message.payload.timeoutSeconds == s.timeoutSeconds
  {
    hide StepsOk, TimersOk, SignalsOk, RunOk, NoGaps, NumbersUnique, Reachable, ValidDag;
    ReachableInv(d, w);
    if a < |w.attempts| {
      assert AttemptOk(d, w.steps, w.attempts, w.owed, a);
    }
  }

  /** Two attempts are put on the same stream exactly when their steps have the same task type. */
  lemma StreamPerTaskType(d: Dag, w: World, a: nat, b: nat)
    requires ValidDag(d) && Reachable(d, w) && a < |w.attempts| && b < |w.attempts|
    ensures w.attempts[a].step in d && w.attempts[b].step in d && |w.outbox| == |w.attempts|
    ensures w.outbox[a].streamName == w.outbox[b].streamName
            <==> d[w.attempts[a].step].taskType == d[w.attempts[b].step].taskType
  {
    OutboxMatchesAttempts(d, w, a);
    OutboxMatchesAttempts(d, w, b);
    SamePrefix("wf:tasks:", d[w.attempts[a].step].taskType, d[w.attempts[b].step].taskType);
  }

  lemma SamePrefix(prefix: string, s: string, t: string)
    ensures prefix + s == prefix + t <==> s == t
  {
    assert (prefix + s)[|prefix|..] == s && (prefix + t)[|prefix|..] == t;
  }

  /** Nothing is invented: a message on the stream is that of a committed attempt.
      Nothing is lost: a row that is no longer pending is on the stream. */
  lemma RelayNeitherInventsNorLoses(d: Dag, w: World, m: Message, row: nat)
    requires ValidDag(d) && Reachable(d, w)
    ensures m in w.stream ==>
      && m.payload.attempt < |w.attempts|
      && m.payload.idempotencyKey == w.attempts[m.payload.attempt].idempotencyKey
      && m.payload.step == w.attempts[m.payload.attempt].step && m.streamName == w.attempts[m.payload.attempt].queueName
      && |w.outbox| == |w.attempts| && m.payload == w.outbox[m.payload.attempt].payload
    ensures row < |w.outbox| ==> Enabled(d, w, Publish(row)) || MessageOf(w.outbox[row]) in w.stream
  {
    hide StepsOk, AttemptsOk, TimersOk, SignalsOk, RunOk, Reachable;
    ReachableInv(d, w);
  }

  // ------------------------------------------------------------------ signals

  lemma {:induction false} InjectiveSizes(m: map<nat, Name>)
    requires OneSignalEach(m)
    ensures |m.Keys| == |m.Values|
    decreases |m|
  {
    if m == map[] {
      assert m.Values == {};
    } else {
      var k :| k in m;
      var rest := m - {k};
      assert rest.Keys == m.Keys - {k};
      InjectiveSizes(rest);
      forall v | v in m.Values - {m[k]} ensures v in rest.Values {
        var j :| j in m && m[j] == v;
        assert rest[j] == v;
      }
      assert rest.Values == m.Values - {m[k]};
      assert m[k] in m.Values;
    }
  }

  /** As many signals are processed as signal_wait steps are completed. */
  lemma SignalConservation(d: Dag, w: World)
    requires ValidDag(d) && Reachable(d, w)
    ensures |set i | 0 <= i < |w.signals| && w.signals[i].processed| ==
            |set n | n in w.steps && n in d && SignalWait(d, n) && w.steps[n].status == StepCompleted|
  {
    hide StepsOk, AttemptsOk, TimersOk, OutboxOk, RunOk, SignalsOk, Reachable;
    ReachableInv(d, w);
    ConsumersAndSignals(d, w);
    ConsumersAndSteps(d, w);
    InjectiveSizes(w.consumer);
  }

  lemma ConsumersAndSignals(d: Dag, w: World)
    requires SignalsOk(d, w.steps, w.signals, w.consumer)
    ensures (set i | 0 <= i < |w.signals| && w.signals[i].processed) == w.consumer.Keys && OneSignalEach(w.consumer)
  {
    hide Fifo, EachHasSignal, OneSignalEach;
    forall i | i in w.consumer ensures ConsumedOk(d, w.steps, w.signals, i, w.consumer[i]) {
    }
  }

  lemma ConsumersAndSteps(d: Dag, w: World)
    requires SignalsOk(d, w.steps, w.signals, w.consumer)
    ensures (set n | n in w.steps && n in d && SignalWait(d, n) && w.steps[n].status == StepCompleted) == w.consumer.Values
  {
    hide Fifo, OneSignalEach;
    forall n | n in w.consumer.Values ensures n in w.steps && n in d && SignalWait(d, n) && w.steps[n].status == StepCompleted {
      var i :| i in w.consumer && w.consumer[i] == n;
      assert ConsumedOk(d, w.steps, w.signals, i, w.consumer[i]);
    }
  }

  /** A completed signal_wait step carries the payload of one processed signal of the
      name it wants, no other step carries that signal, and every earlier signal of
      that name has been processed too. */
  lemma CompletedWaitConsumedOne(d: Dag, w: World, n: Name) returns (i: nat)
    requires ValidDag(d) && Reachable(d, w) && n in w.steps && n in d && SignalWait(d, n)
    requires w.steps[n].status == StepCompleted
    ensures i < |w.signals| && w.signals[i].processed && w.signals[i].name == WantedSignal(d, n)
    ensures w.steps[n].output == Some(w.signals[i].payload)
    ensures forall j :: j in w.consumer && w.consumer[j] == n <==> j == i
    ensures forall j :: 0 <= j < i && w.signals[j].name == w.signals[i].name ==> w.signals[j].processed
  {
    ReachableInv(d, w);
    assert n in w.consumer.Values;
    i :| i in w.consumer && w.consumer[i] == n;
    assert ConsumedOk(d, w.steps, w.signals, i, w.consumer[i]);
  }
}
