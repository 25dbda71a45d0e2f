/** The joint invariant of steps, attempts, timers, outbox and signals, and its
    preservation by every action. */
module Invariants {
  import opened Rows
  import opened Dags
  import opened Transitions

  // ------------------------------------------------------- steps on their own

  /** What a row says about its own step. */
  predicate RowOk(d: Dag, n: Name, s: Step)
    requires n in d
  {
    && s.status != StepReady
    && s.attemptCount <= d[n].maxAttempts
    && (s.status == StepPending || s.status == StepSkipped ==> s.attemptCount == 0)
    && (SignalWait(d, n) ==>
          && s.attemptCount == 0
          && !InHand(s.status) && s.status != StepRetryBackoff && s.status != StepFailed)
    && (!SignalWait(d, n) ==>
          && s.status != StepWaiting
          && (InHand(s.status) || s.status == StepRetryBackoff || s.status == StepCompleted || s.status == StepFailed
              ==> 1 <= s.attemptCount))
    && (s.status == StepRetryBackoff ==> s.attemptCount < d[n].maxAttempts)
    && (s.status == StepFailed ==> s.attemptCount == d[n].maxAttempts)
    && (s.status != StepCompleted ==> s.output == None)
  }

  /** Rows that only a step with completed dependencies can have. */
  predicate Begun(s: Step) {
    s.attemptCount > 0 || s.status == StepWaiting || s.status == StepCompleted
  }

  ghost predicate StepOk(d: Dag, steps: map<Name, Step>, n: Name)
    requires n in d && n in steps
  {
    && RowOk(d, n, steps[n])
    && (Begun(steps[n]) ==> DepsCompleted(d, steps, n))
    && (steps[n].status == StepSkipped ==> SkipCause(d, steps, n))
  }

  /** A skipped step has a failed or skipped dependency, never merely a cancelled one. */
  ghost predicate SkipCause(d: Dag, steps: map<Name, Step>, n: Name)
    requires n in d
  {
    exists dep :: dep in d[n].dependsOn && dep in steps && (steps[dep].status == StepFailed || steps[dep].status == StepSkipped)
  }

  ghost predicate StepsOk(d: Dag, steps: map<Name, Step>) {
    && steps.Keys == d.Keys
    && forall n :: n in d ==> StepOk(d, steps, n)
  }

  // ----------------------------------------------------------------- attempts

  predicate Settled(s: AttemptStatus) {
    s == AttemptFailed || s == AttemptExpired
  }

  /** Still able to deliver an outcome. */
  ghost predicate Live(attempts: seq<Attempt>, owed: set<nat>, a: nat)
    requires a < |attempts|
  {
    attempts[a].status == AttemptQueued || attempts[a].status == AttemptLeased || a in owed
  }

  ghost predicate AttemptOk(d: Dag, steps: map<Name, Step>, attempts: seq<Attempt>, owed: set<nat>, a: nat)
    requires a < |attempts|
  {
    var at := attempts[a];
    && at.step in d && at.step in steps && !SignalWait(d, at.step)
    && at.status != AttemptAbandoned
    && at.idempotencyKey == a
    && at.queueName == QueueName(d[at.step].taskType)
    && (a in owed ==> at.status == AttemptExpired)
    && (at.status == AttemptLeased ==> at.leaseOwner.Some? && at.leaseExpiresAt.Some?)
    && var s := steps[at.step];
       && 1 <= at.number <= s.attemptCount
       && (at.number < s.attemptCount ==> Settled(at.status) && a !in owed)
       && (at.number == s.attemptCount ==>
             && (InHand(s.status) ==> Live(attempts, owed, a))
             && (s.status == StepRetryBackoff || s.status == StepFailed ==> Settled(at.status) && a !in owed)
             && (s.status == StepCompleted ==> at.status == AttemptSucceeded))
  }

  ghost predicate HasAttempt(attempts: seq<Attempt>, n: Name, k: nat) {
    exists a :: 0 <= a < |attempts| && attempts[a].step == n && attempts[a].number == k
  }

  ghost predicate NoGaps(steps: map<Name, Step>, attempts: seq<Attempt>) {
    forall n, k: nat :: n in steps && 1 <= k <= steps[n].attemptCount ==> HasAttempt(attempts, n, k)
  }

  ghost predicate NumbersUnique(attempts: seq<Attempt>) {
    forall a, b :: 0 <= a < |attempts| && 0 <= b < |attempts|
                   && attempts[a].step == attempts[b].step && attempts[a].number == attempts[b].number
                   ==> a == b
  }

  ghost predicate AttemptsOk(d: Dag, steps: map<Name, Step>, attempts: seq<Attempt>, owed: set<nat>) {
    && (forall a :: a in owed ==> a < |attempts|)
    && (forall a :: 0 <= a < |attempts| ==> AttemptOk(d, steps, attempts, owed, a))
    && NumbersUnique(attempts)
    && NoGaps(steps, attempts)
  }

  // ------------------------------------------------------------------- timers

  ghost predicate PendingFor(timers: seq<Timer>, t: nat, n: Name) {
    t < |timers| && timers[t].status == TimerPending && timers[t].step == Some(n)
  }

  ghost predicate TimersOk(d: Dag, run: RunStatus, steps: map<Name, Step>, timers: seq<Timer>) {
    && (forall t :: 0 <= t < |timers| ==>
          timers[t].kind == TimerRetryBackoff && timers[t].step.Some? && timers[t].step.value in d)
    && (run == RunCompleted || run == RunFailed ==>
          forall t :: 0 <= t < |timers| ==> timers[t].status != TimerPending)
    && (!RunTerminal(run) ==>
          && (forall t, n :: PendingFor(timers, t, n) ==> n in steps && steps[n].status == StepRetryBackoff)
          && (forall t, u, n :: PendingFor(timers, t, n) && PendingFor(timers, u, n) ==> t == u)
          && (forall n :: n in steps && steps[n].status == StepRetryBackoff ==> exists t :: PendingFor(timers, t, n)))
  }

  // ------------------------------------------------------------------- outbox

  ghost predicate OutboxOk(d: Dag, attempts: seq<Attempt>, outbox: seq<OutboxMessage>, stream: seq<Message>) {
    && |outbox| == |attempts|
    && (forall i :: 0 <= i < |outbox| ==>
          && attempts[i].step in d
          && outbox[i].aggregate == i
          && outbox[i].streamName == attempts[i].queueName
          && outbox[i].payload == TaskPayload(i, attempts[i].step, d[attempts[i].step].taskType, d[attempts[i].step].input, attempts[i].number,
                                              attempts[i].idempotencyKey, d[attempts[i].step].timeoutSeconds))
    && (forall m :: m in stream ==> m.payload.attempt < |outbox| && m == MessageOf(outbox[m.payload.attempt]))
    && (forall i :: 0 <= i < |outbox| && outbox[i].published ==> MessageOf(outbox[i]) in stream)
  }

  // ------------------------------------------------------------------ signals

  /** What a consumed signal says about the step that consumed it. */
  ghost predicate ConsumedOk(d: Dag, steps: map<Name, Step>, signals: seq<Signal>, i: nat, n: Name) {
    && i < |signals| && signals[i].processed
    && n in d && n in steps && SignalWait(d, n) && signals[i].name == WantedSignal(d, n)
    && steps[n].status == StepCompleted && steps[n].output == Some(signals[i].payload)
  }

  /** Signals of one name are consumed in the order they arrived. */
  ghost predicate Fifo(signals: seq<Signal>) {
    forall i, j :: 0 <= j < i < |signals| && signals[i].processed && signals[j].name == signals[i].name ==> signals[j].processed
  }

  ghost predicate OneSignalEach(consumer: map<nat, Name>) {
    forall i, j :: i in consumer && j in consumer && consumer[i] == consumer[j] ==> i == j
  }

  ghost predicate EachHasSignal(d: Dag, steps: map<Name, Step>, consumer: map<nat, Name>) {
    forall n :: n in d && n in steps && SignalWait(d, n) && steps[n].status == StepCompleted ==> n in consumer.Values
  }

  ghost predicate NoneReserved(signals: seq<Signal>) {
    forall i :: 0 <= i < |signals| ==> signals[i].name != CANCEL_SIGNAL
  }

  ghost predicate SignalsOk(d: Dag, steps: map<Name, Step>, signals: seq<Signal>, consumer: map<nat, Name>) {
    && (forall i :: i in consumer ==> ConsumedOk(d, steps, signals, i, consumer[i]))
    && (forall i :: 0 <= i < |signals| && signals[i].processed ==> i in consumer)
    && OneSignalEach(consumer) && Fifo(signals) && EachHasSignal(d, steps, consumer) && NoneReserved(signals)
  }

  // ---------------------------------------------------------------------- run

  ghost predicate RunOk(run: Run, steps: map<Name, Step>) {
    && (!RunTerminal(run.status) ==> !SomeIn(steps, StepCancelled) && run.output == None && run.failedStep == None)
    && (RunTerminal(run.status) ==> AllTerminal(steps))
    && (run.status == RunCompleted ==>
          !SomeIn(steps, StepFailed) && !SomeIn(steps, StepCancelled) && run.output == Some(Outputs(steps)))
    && (run.status == RunFailed ==>
          !SomeIn(steps, StepCancelled) && run.output == Some(Outputs(steps))
          && run.failedStep.Some? && run.failedStep.value in steps && steps[run.failedStep.value].status == StepFailed)
  }

  ghost predicate Inv(d: Dag, w: World) {
    && StepsOk(d, w.steps)
    && AttemptsOk(d, w.steps, w.attempts, w.owed)
    && TimersOk(d, w.run.status, w.steps, w.timers)
    && OutboxOk(d, w.attempts, w.outbox, w.stream)
    && SignalsOk(d, w.steps, w.signals, w.consumer)
    && RunOk(w.run, w.steps)
  }

  // ------------------------------------------------------------- preservation


  /** One open step gets a new row. */
  lemma StepsAfterMove(d: Dag, steps: map<Name, Step>, n: Name, s: Step)
    requires StepsOk(d, steps) && n in d && !StepTerminal(steps[n].status)
    requires RowOk(d, n, s)
    requires Begun(s) ==> DepsCompleted(d, steps, n)
    requires s.status == StepSkipped ==> SkipCause(d, steps, n)
    ensures StepsOk(d, steps[n := s])
  {
    var steps' := steps[n := s];
    forall m | m in d ensures StepOk(d, steps', m) {
      assert StepOk(d, steps, m);
      if steps'[m].status == StepSkipped {
        assert SkipCause(d, steps, m);
        var dep :| dep in d[m].dependsOn && dep in steps && (steps[dep].status == StepFailed || steps[dep].status == StepSkipped);
        assert dep in steps' && steps'[dep] == steps[dep];
      }
    }
  }

  lemma StepsAfterCancel(d: Dag, steps: map<Name, Step>)
    requires StepsOk(d, steps)
    ensures StepsOk(d, CancelSteps(steps))
  {
    var steps' := CancelSteps(steps);
    forall m | m in d ensures StepOk(d, steps', m) {
      assert StepOk(d, steps, m);
      if steps'[m].status == StepSkipped {
        assert SkipCause(d, steps, m);
        var dep :| dep in d[m].dependsOn && dep in steps && (steps[dep].status == StepFailed || steps[dep].status == StepSkipped);
        assert dep in steps' && steps'[dep] == steps[dep];
      }
    }
  }

  /** The new statuses leave every attempt's obligations as they were. */
  predicate Relabels(s: Step, s': Step) {
    && s'.attemptCount == s.attemptCount
    && (s'.status == s.status || (InHand(s.status) && InHand(s'.status)) || s'.status == StepCancelled || s.attemptCount == 0)
  }

  lemma AttemptsRelabelled(d: Dag, steps: map<Name, Step>, steps': map<Name, Step>, attempts: seq<Attempt>, owed: set<nat>)
    requires AttemptsOk(d, steps, attempts, owed)
    requires steps'.Keys == steps.Keys
    requires forall n :: n in steps ==> Relabels(steps[n], steps'[n])
    ensures AttemptsOk(d, steps', attempts, owed)
  {
    forall a | 0 <= a < |attempts| ensures AttemptOk(d, steps', attempts, owed, a) {
      assert AttemptOk(d, steps, attempts, owed, a);
      assert Relabels(steps[attempts[a].step], steps'[attempts[a].step]);
    }
  }

  lemma AttemptsAfterDispatch(d: Dag, steps: map<Name, Step>, attempts: seq<Attempt>, owed: set<nat>, n: Name)
    requires StepsOk(d, steps) && AttemptsOk(d, steps, attempts, owed)
    requires n in d && !SignalWait(d, n)
    requires steps[n].status == StepRetryBackoff || Undispatched(steps[n].status)
    ensures
      var k := steps[n].attemptCount + 1;
      AttemptsOk(d, steps[n := steps[n].(status := StepQueued, attemptCount := k)],
                 attempts + [Attempt(n, k, |attempts|, AttemptQueued, QueueName(d[n].taskType), None, None)], owed)
  {
    assert StepOk(d, steps, n);
    var k := steps[n].attemptCount + 1;
    var steps' := steps[n := steps[n].(status := StepQueued, attemptCount := k)];
    var attempts' := attempts + [Attempt(n, k, |attempts|, AttemptQueued, QueueName(d[n].taskType), None, None)];
    forall a | 0 <= a < |attempts'| ensures AttemptOk(d, steps', attempts', owed, a) {
      if a < |attempts| {
        assert AttemptOk(d, steps, attempts, owed, a);
      }
    }
    forall m, j: nat | m in steps' && 1 <= j <= steps'[m].attemptCount ensures HasAttempt(attempts', m, j) {
      if m == n && j == k {
        assert attempts'[|attempts|].number == k;
      } else {
        assert HasAttempt(attempts, m, j);
        var a :| 0 <= a < |attempts| && attempts[a].step == m && attempts[a].number == j;
        assert attempts'[a] == attempts[a];
      }
    }
    assert forall a :: 0 <= a < |attempts| ==> attempts[a].step == n ==> attempts[a].number < k by {
      forall a | 0 <= a < |attempts| && attempts[a].step == n ensures attempts[a].number < k {
        assert AttemptOk(d, steps, attempts, owed, a);
      }
    }
  }

  /** The rows agree in everything but their status and lease. */
  predicate SameAttempt(x: Attempt, y: Attempt) {
    x.step == y.step && x.number == y.number && x.idempotencyKey == y.idempotencyKey && x.queueName == y.queueName
  }

  lemma GapsAfterUpdate(steps: map<Name, Step>, steps': map<Name, Step>, attempts: seq<Attempt>, a: nat, at: Attempt)
    requires NoGaps(steps, attempts) && NumbersUnique(attempts)
    requires a < |attempts| && SameAttempt(attempts[a], at)
    requires steps'.Keys == steps.Keys && forall n :: n in steps ==> steps'[n].attemptCount == steps[n].attemptCount
    ensures NoGaps(steps', attempts[a := at]) && NumbersUnique(attempts[a := at])
  {
    var attempts' := attempts[a := at];
    forall m, j: nat | m in steps' && 1 <= j <= steps'[m].attemptCount ensures HasAttempt(attempts', m, j) {
      assert HasAttempt(attempts, m, j);
      var b :| 0 <= b < |attempts| && attempts[b].step == m && attempts[b].number == j;
      assert attempts'[b].step == m && attempts'[b].number == j;
    }
  }

  /** A live attempt carries its step's current number, and its step is in hand or cancelled. */
  lemma LiveAttempt(d: Dag, steps: map<Name, Step>, attempts: seq<Attempt>, owed: set<nat>, a: nat)
    requires StepsOk(d, steps) && AttemptsOk(d, steps, attempts, owed)
    requires a < |attempts| && Live(attempts, owed, a)
    ensures attempts[a].step in d && attempts[a].step in steps
    ensures attempts[a].number == steps[attempts[a].step].attemptCount
    ensures InHand(steps[attempts[a].step].status) || steps[attempts[a].step].status == StepCancelled
  {
    assert AttemptOk(d, steps, attempts, owed, a);
    assert StepOk(d, steps, attempts[a].step);
  }

  /** An attempt is leased, or its lease is marked expired. */
  lemma AttemptsAfterLease(d: Dag, steps: map<Name, Step>, attempts: seq<Attempt>, owed: set<nat>,
                           a: nat, at: Attempt, owed': set<nat>)
    requires StepsOk(d, steps) && AttemptsOk(d, steps, attempts, owed)
    requires a < |attempts| && Live(attempts, owed, a) && SameAttempt(attempts[a], at)
    requires (at.status == AttemptLeased && at.leaseOwner.Some? && at.leaseExpiresAt.Some? && a !in owed && owed' == owed)
             || (at.status == AttemptExpired && owed' == owed + {a})
    ensures AttemptsOk(d, steps, attempts[a := at], owed')
  {
    var attempts' := attempts[a := at];
    LiveAttempt(d, steps, attempts, owed, a);
    forall b | 0 <= b < |attempts'| ensures AttemptOk(d, steps, attempts', owed', b) {
      assert AttemptOk(d, steps, attempts, owed, b);
      assert StepOk(d, steps, attempts[b].step);
    }
    GapsAfterUpdate(steps, steps, attempts, a, at);
  }

  /** A live attempt delivers its outcome: it leaves `owed`, and its step, unless cancelled, takes the row s. */
  lemma AttemptsAfterOutcome(d: Dag, steps: map<Name, Step>, attempts: seq<Attempt>, owed: set<nat>,
                             a: nat, at: Attempt, s: Step)
    requires StepsOk(d, steps) && AttemptsOk(d, steps, attempts, owed)
    requires a < |attempts| && Live(attempts, owed, a) && SameAttempt(attempts[a], at)
    requires attempts[a].step in steps && s.attemptCount == steps[attempts[a].step].attemptCount
    requires at.status == AttemptSucceeded || Settled(at.status)
    requires s.status == StepCancelled
             || (s.status == StepCompleted && at.status == AttemptSucceeded)
             || ((s.status == StepRetryBackoff || s.status == StepFailed) && Settled(at.status))
    ensures AttemptsOk(d, steps[attempts[a].step := s], attempts[a := at], owed - {a})
  {
    var n := attempts[a].step;
    var steps', attempts', owed' := steps[n := s], attempts[a := at], owed - {a};
    LiveAttempt(d, steps, attempts, owed, a);
    forall b | 0 <= b < |attempts'| ensures AttemptOk(d, steps', attempts', owed', b) {
      assert AttemptOk(d, steps, attempts, owed, b);
      if b != a && attempts[b].step == n {
        assert attempts[b].number != attempts[a].number;
      }
    }
    GapsAfterUpdate(steps, steps', attempts, a, at);
  }

  lemma TimersRelabelled(d: Dag, run: RunStatus, steps: map<Name, Step>, steps': map<Name, Step>, timers: seq<Timer>)
    requires TimersOk(d, run, steps, timers) && steps'.Keys == steps.Keys
    requires forall n :: n in steps ==> (steps[n].status == StepRetryBackoff <==> steps'[n].status == StepRetryBackoff)
    ensures TimersOk(d, run, steps', timers)
  {
  }

  lemma TimersAfterSchedule(d: Dag, run: RunStatus, steps: map<Name, Step>, timers: seq<Timer>, n: Name, s: Step, due: int)
    requires TimersOk(d, run, steps, timers) && n in d && n in steps && steps[n].status != StepRetryBackoff
    requires if RunTerminal(run) then run == RunCancelled else s.status == StepRetryBackoff
    ensures TimersOk(d, run, steps[n := s], timers + [Timer(TimerRetryBackoff, Some(n), TimerPending, due)])
  {
    var timers' := timers + [Timer(TimerRetryBackoff, Some(n), TimerPending, due)];
    var steps' := steps[n := s];
    if !RunTerminal(run) {
      assert forall t: nat, m :: PendingFor(timers', t, m) && t < |timers| ==> PendingFor(timers, t, m);
      forall m | m in steps' && steps'[m].status == StepRetryBackoff ensures exists t :: PendingFor(timers', t, m) {
        if m == n {
          assert PendingFor(timers', |timers|, n);
        } else {
          var t :| PendingFor(timers, t, m);
          assert PendingFor(timers', t, m);
        }
      }
    }
  }

  lemma TimersAfterRetry(d: Dag, run: RunStatus, steps: map<Name, Step>, timers: seq<Timer>, t: nat, s: Step)
    requires TimersOk(d, run, steps, timers) && t < |timers| && timers[t].step.Some? && timers[t].status == TimerPending
    requires timers[t].step.value in steps && s.status != StepRetryBackoff && !RunTerminal(run)
    ensures TimersOk(d, run, steps[timers[t].step.value := s], timers[t := timers[t].(status := TimerFired)])
  {
    var n := timers[t].step.value;
    var steps', timers' := steps[n := s], timers[t := timers[t].(status := TimerFired)];
    assert PendingFor(timers, t, n);
    assert forall u, m :: PendingFor(timers', u, m) ==> u != t && PendingFor(timers, u, m);
    forall m | m in steps' && steps'[m].status == StepRetryBackoff ensures exists u :: PendingFor(timers', u, m) {
      var u :| PendingFor(timers, u, m);
      assert PendingFor(timers', u, m);
    }
  }

  lemma TimersAfterCancel(d: Dag, run: RunStatus, run': RunStatus, steps: map<Name, Step>, steps': map<Name, Step>, timers: seq<Timer>)
    requires TimersOk(d, run, steps, timers) && RunTerminal(run')
    ensures TimersOk(d, run', steps', CancelTimers(timers))
  {
  }

  lemma OutboxAfterUpdate(d: Dag, attempts: seq<Attempt>, outbox: seq<OutboxMessage>, stream: seq<Message>, a: nat, at: Attempt)
    requires OutboxOk(d, attempts, outbox, stream) && a < |attempts| && SameAttempt(attempts[a], at)
    ensures OutboxOk(d, attempts[a := at], outbox, stream)
  {
  }

  lemma OutboxAfterDispatch(d: Dag, attempts: seq<Attempt>, outbox: seq<OutboxMessage>, stream: seq<Message>, n: Name, k: nat)
    requires OutboxOk(d, attempts, outbox, stream) && n in d
    ensures
      var id := |attempts|;
      var queue := QueueName(d[n].taskType);
      OutboxOk(d, attempts + [Attempt(n, k, id, AttemptQueued, queue, None, None)],
               outbox + [OutboxMessage(id, queue, TaskPayload(id, n, d[n].taskType, d[n].input, k, id, d[n].timeoutSeconds), false)], stream)
  {
  }

  lemma OutboxAfterPublish(d: Dag, attempts: seq<Attempt>, outbox: seq<OutboxMessage>, stream: seq<Message>, row: nat)
    requires OutboxOk(d, attempts, outbox, stream) && row < |outbox|
    ensures OutboxOk(d, attempts, outbox, stream + [MessageOf(outbox[row])])
  {
  }

  lemma OutboxAfterMark(d: Dag, attempts: seq<Attempt>, outbox: seq<OutboxMessage>, stream: seq<Message>, row: nat)
    requires OutboxOk(d, attempts, outbox, stream) && row < |outbox| && MessageOf(outbox[row]) in stream
    ensures OutboxOk(d, attempts, outbox[row := outbox[row].(published := true)], stream)
  {
  }

  lemma RunAfterMove(run: Run, steps: map<Name, Step>, n: Name, s: Step)
    requires RunOk(run, steps) && !RunTerminal(run.status) && s.status != StepCancelled
    ensures RunOk(run, steps[n := s])
  {
  }

  lemma RunAfterCancel(run: Run, steps: map<Name, Step>)
    ensures RunOk(run.(status := RunCancelled), CancelSteps(steps))
  {
  }

  lemma SignalsRelabelled(d: Dag, steps: map<Name, Step>, steps': map<Name, Step>, signals: seq<Signal>, consumer: map<nat, Name>)
    requires SignalsOk(d, steps, signals, consumer) && steps'.Keys == steps.Keys
    requires forall n :: n in steps && steps[n].status == StepCompleted ==> steps'[n] == steps[n]
    requires forall n :: n in steps && n in d && SignalWait(d, n) && steps'[n].status == StepCompleted ==> steps[n].status == StepCompleted
    ensures SignalsOk(d, steps', signals, consumer)
  {
    forall i | i in consumer ensures ConsumedOk(d, steps', signals, i, consumer[i]) {
      assert ConsumedOk(d, steps, signals, i, consumer[i]);
    }
  }

  /** What consuming signal i for step n presupposes. */
  ghost predicate Consumable(d: Dag, steps: map<Name, Step>, signals: seq<Signal>, consumer: map<nat, Name>, n: Name, i: nat, s: Step) {
    && SignalsOk(d, steps, signals, consumer) && n in d && n in steps && SignalWait(d, n)
    && steps[n].status != StepCompleted && FindSignal(signals, WantedSignal(d, n)) == Some(i)
    && s.status == StepCompleted && s.output == Some(signals[i].payload)
  }

  lemma ConsumedAfterConsume(d: Dag, steps: map<Name, Step>, signals: seq<Signal>, consumer: map<nat, Name>, n: Name, i: nat, s: Step)
    requires Consumable(d, steps, signals, consumer, n, i, s)
    ensures i < |signals| && i !in consumer
    ensures var steps', signals', consumer' := steps[n := s], signals[i := signals[i].(processed := true)], consumer[i := n];
      forall j :: j in consumer' ==> ConsumedOk(d, steps', signals', j, consumer'[j])
  {
    hide FindSignal, Fifo, EachHasSignal, OneSignalEach, NoneReserved;
    var steps', signals', consumer' := steps[n := s], signals[i := signals[i].(processed := true)], consumer[i := n];
    assert i in consumer ==> ConsumedOk(d, steps, signals, i, consumer[i]);
    forall j | j in consumer' ensures ConsumedOk(d, steps', signals', j, consumer'[j]) {
      assert j != i ==> ConsumedOk(d, steps, signals, j, consumer[j]);
    }
  }

  lemma OneEachAfterConsume(d: Dag, steps: map<Name, Step>, signals: seq<Signal>, consumer: map<nat, Name>, n: Name, i: nat, s: Step)
    requires Consumable(d, steps, signals, consumer, n, i, s) && i !in consumer
    ensures OneSignalEach(consumer[i := n])
  {
    hide FindSignal, Fifo, EachHasSignal, NoneReserved;
    var consumer' := consumer[i := n];
    forall j, k | j in consumer' && k in consumer' && consumer'[j] == consumer'[k] ensures j == k {
      assert j != i ==> ConsumedOk(d, steps, signals, j, consumer[j]);
      assert k != i ==> ConsumedOk(d, steps, signals, k, consumer[k]);
    }
  }

  lemma EachAfterConsume(d: Dag, steps: map<Name, Step>, consumer: map<nat, Name>, n: Name, i: nat, s: Step)
    requires EachHasSignal(d, steps, consumer) && n in steps && i !in consumer
    ensures EachHasSignal(d, steps[n := s], consumer[i := n])
  {
    var steps', consumer' := steps[n := s], consumer[i := n];
    forall m | m in d && m in steps' && SignalWait(d, m) && steps'[m].status == StepCompleted ensures m in consumer'.Values {
      if m == n {
        assert consumer'[i] == n;
      } else {
        assert m in consumer.Values;
        var j :| j in consumer && consumer[j] == m;
        assert consumer'[j] == m;
      }
    }
  }

  lemma OrderAfterConsume(signals: seq<Signal>, want: string, i: nat)
    requires Fifo(signals) && NoneReserved(signals) && FindSignal(signals, want) == Some(i)
    ensures var signals' := signals[i := signals[i].(processed := true)]; Fifo(signals') && NoneReserved(signals')
  {
    hide FindSignal;
  }

  lemma SignalsAfterConsume(d: Dag, steps: map<Name, Step>, signals: seq<Signal>, consumer: map<nat, Name>, n: Name, i: nat, s: Step)
    requires SignalsOk(d, steps, signals, consumer) && n in d && n in steps && SignalWait(d, n)
    requires steps[n].status != StepCompleted && FindSignal(signals, WantedSignal(d, n)) == Some(i)
    requires s.status == StepCompleted && s.output == Some(signals[i].payload)
    ensures SignalsOk(d, steps[n := s], signals[i := signals[i].(processed := true)], consumer[i := n])
  {
    hide FindSignal, Fifo, EachHasSignal, OneSignalEach, NoneReserved, ConsumedOk, WantedSignal;
    ConsumedAfterConsume(d, steps, signals, consumer, n, i, s);
    OneEachAfterConsume(d, steps, signals, consumer, n, i, s);
    EachAfterConsume(d, steps, consumer, n, i, s);
    OrderAfterConsume(signals, WantedSignal(d, n), i);
  }

  lemma SkipCauseOfBlocked(d: Dag, steps: map<Name, Step>, n: Name)
    requires n in d && Blocked(d, steps, n) && !SomeIn(steps, StepCancelled)
    ensures SkipCause(d, steps, n)
  {
  }

  /** Actions that only give the undispatched or waiting step n a new row without attempts. */
  lemma MoveKept(d: Dag, w: World, n: Name, s: Step)
    requires Inv(d, w) && n in d && !StepTerminal(w.steps[n].status) && !RunTerminal(w.run.status)
    requires RowOk(d, n, s) && (Begun(s) ==> DepsCompleted(d, w.steps, n))
    requires s.status == StepSkipped ==> SkipCause(d, w.steps, n)
    requires Relabels(w.steps[n], s) && s.status != StepCancelled
    requires w.steps[n].status != StepRetryBackoff && s.status != StepRetryBackoff
    ensures StepsOk(d, w.steps[n := s])
    ensures AttemptsOk(d, w.steps[n := s], w.attempts, w.owed)
    ensures TimersOk(d, w.run.status, w.steps[n := s], w.timers)
    ensures RunOk(w.run, w.steps[n := s])
    ensures s.status != StepCompleted ==> SignalsOk(d, w.steps[n := s], w.signals, w.consumer)
  {
    hide AttemptsOk, TimersOk, OutboxOk, SignalsOk, RunOk, SkipCause, DepsCompleted, StepOk, RowOk;
    var steps' := w.steps[n := s];
    StepsAfterMove(d, w.steps, n, s);
    RunAfterMove(w.run, w.steps, n, s);
    AttemptsRelabelled(d, w.steps, steps', w.attempts, w.owed);
    TimersRelabelled(d, w.run.status, w.steps, steps', w.timers);
    if s.status != StepCompleted {
      SignalsRelabelled(d, w.steps, steps', w.signals, w.consumer);
    }
  }

  lemma SkipKept(d: Dag, w: World, n: Name)
    requires Inv(d, w) && Enabled(d, w, Skip(n))
    ensures Inv(d, Apply(d, w, Skip(n)))
  {
    hide AttemptsOk, TimersOk, OutboxOk, SignalsOk, Blocked, SkipCause, DepsCompleted;
    assert StepOk(d, w.steps, n);
    SkipCauseOfBlocked(d, w.steps, n);
    MoveKept(d, w, n, w.steps[n].(status := StepSkipped));
  }

  lemma ParkKept(d: Dag, w: World, n: Name)
    requires Inv(d, w) && Enabled(d, w, Park(n))
    ensures Inv(d, Apply(d, w, Park(n)))
  {
    hide AttemptsOk, TimersOk, OutboxOk, SignalsOk;
    assert StepOk(d, w.steps, n);
    MoveKept(d, w, n, w.steps[n].(status := StepWaiting));
  }

  lemma DisplayKept(d: Dag, w: World, n: Name)
    requires Inv(d, w) && Enabled(d, w, Display(n))
    ensures Inv(d, Apply(d, w, Display(n)))
  {
    hide AttemptsOk, TimersOk, OutboxOk, SignalsOk;
    assert StepOk(d, w.steps, n);
    assert RunTerminal(w.run.status) ==> StepTerminal(w.steps[n].status);
    MoveKept(d, w, n, w.steps[n].(status := StepRunning));
  }

  lemma ConsumeKept(d: Dag, w: World, n: Name, i: nat)
    requires Inv(d, w) && Enabled(d, w, Consume(n, i))
    ensures Inv(d, Apply(d, w, Consume(n, i)))
  {
    hide AttemptsOk, TimersOk, OutboxOk, SignalsOk;
    assert StepOk(d, w.steps, n);
    var s := w.steps[n].(status := StepCompleted, output := Some(w.signals[i].payload));
    MoveKept(d, w, n, s);
    SignalsAfterConsume(d, w.steps, w.signals, w.consumer, n, i, s);
  }

  lemma DispatchedSteps(d: Dag, w: World, n: Name)
    requires StepsOk(d, w.steps) && RunOk(w.run, w.steps) && !RunTerminal(w.run.status)
    requires SignalsOk(d, w.steps, w.signals, w.consumer)
    requires n in d && !SignalWait(d, n) && d[n].maxAttempts >= 1 && DepsCompleted(d, w.steps, n)
    requires w.steps[n].status == StepRetryBackoff || Undispatched(w.steps[n].status)
    ensures var steps' := w.steps[n := w.steps[n].(status := StepQueued, attemptCount := w.steps[n].attemptCount + 1)];
      StepsOk(d, steps') && RunOk(w.run, steps') && SignalsOk(d, steps', w.signals, w.consumer)
  {
    assert StepOk(d, w.steps, n);
    var s := w.steps[n].(status := StepQueued, attemptCount := w.steps[n].attemptCount + 1);
    StepsAfterMove(d, w.steps, n, s);
    SignalsRelabelled(d, w.steps, w.steps[n := s], w.signals, w.consumer);
    RunAfterMove(w.run, w.steps, n, s);
  }

  /** The log counter plays no part in the invariant. */
  lemma RunOkLogged(run: Run, steps: map<Name, Step>, k: nat)
    requires RunOk(run, steps)
    ensures RunOk(run.(historySeq := k), steps)
  {
  }

  /** All of the invariant but the timers, after a dispatch. */
  lemma DispatchedKept(d: Dag, w: World, n: Name)
    requires StepsOk(d, w.steps) && AttemptsOk(d, w.steps, w.attempts, w.owed)
    requires OutboxOk(d, w.attempts, w.outbox, w.stream) && SignalsOk(d, w.steps, w.signals, w.consumer)
    requires RunOk(w.run, w.steps) && !RunTerminal(w.run.status)
    requires n in d && n in w.steps && !SignalWait(d, n) && d[n].maxAttempts >= 1 && DepsCompleted(d, w.steps, n)
    requires w.steps[n].status == StepRetryBackoff || Undispatched(w.steps[n].status)
    ensures var w' := DispatchStep(d, w, n);
      && StepsOk(d, w'.steps) && AttemptsOk(d, w'.steps, w'.attempts, w'.owed)
      && OutboxOk(d, w'.attempts, w'.outbox, w'.stream) && SignalsOk(d, w'.steps, w'.signals, w'.consumer)
      && RunOk(w'.run, w'.steps)
  {
    hide StepsOk, AttemptsOk, OutboxOk, SignalsOk, RunOk, DepsCompleted;
    DispatchedSteps(d, w, n);
    AttemptsAfterDispatch(d, w.steps, w.attempts, w.owed, n);
    OutboxAfterDispatch(d, w.attempts, w.outbox, w.stream, n, w.steps[n].attemptCount + 1);
    RunOkLogged(w.run, DispatchStep(d, w, n).steps, w.run.historySeq + 1);
  }

  lemma DispatchKept(d: Dag, w: World, n: Name)
    requires ValidDag(d) && Inv(d, w) && Enabled(d, w, Dispatch(n))
    ensures Inv(d, Apply(d, w, Dispatch(n)))
  {
    hide StepsOk, AttemptsOk, TimersOk, OutboxOk, SignalsOk, RunOk, DepsCompleted;
    DispatchedKept(d, w, n);
    TimersRelabelled(d, w.run.status, w.steps, DispatchStep(d, w, n).steps, w.timers);
  }

  lemma RetryIsDispatchable(d: Dag, steps: map<Name, Step>, n: Name)
    requires ValidDag(d) && StepsOk(d, steps) && n in d && n in steps && steps[n].status == StepRetryBackoff
    ensures !SignalWait(d, n) && d[n].maxAttempts >= 1 && DepsCompleted(d, steps, n)
  {
    assert StepOk(d, steps, n);
  }

  lemma RetryKept(d: Dag, w: World, t: nat)
    requires ValidDag(d) && Inv(d, w) && Enabled(d, w, Retry(t))
    ensures Inv(d, Apply(d, w, Retry(t)))
  {
    hide StepsOk, AttemptsOk, TimersOk, OutboxOk, SignalsOk, RunOk, DepsCompleted;
    var n := w.timers[t].step.value;
    RetryIsDispatchable(d, w.steps, n);
    DispatchedKept(d, Fire(w, t), n);
    TimersAfterRetry(d, w.run.status, w.steps, w.timers, t,
                     w.steps[n].(status := StepQueued, attemptCount := w.steps[n].attemptCount + 1));
  }

  /** The row an outcome gives its step. */
  function OutcomeRow(d: Dag, n: Name, s: Step, success: bool, output: Option<Payload>): Step
    requires n in d
  {
    if !InHand(s.status) then s
    else if success then s.(status := StepCompleted, output := if output.Some? then output else s.output)
    else if s.attemptCount < d[n].maxAttempts then s.(status := StepRetryBackoff)
    else s.(status := StepFailed)
  }

  lemma OutcomeSteps(d: Dag, w: World, n: Name, success: bool, output: Option<Payload>)
    requires StepsOk(d, w.steps) && RunOk(w.run, w.steps) && SignalsOk(d, w.steps, w.signals, w.consumer)
    requires n in d && (InHand(w.steps[n].status) || w.steps[n].status == StepCancelled)
    ensures var steps' := w.steps[n := OutcomeRow(d, n, w.steps[n], success, output)];
      StepsOk(d, steps') && RunOk(w.run, steps') && SignalsOk(d, steps', w.signals, w.consumer)
  {
    assert StepOk(d, w.steps, n);
    var s := OutcomeRow(d, n, w.steps[n], success, output);
    if InHand(w.steps[n].status) {
      StepsAfterMove(d, w.steps, n, s);
      SignalsRelabelled(d, w.steps, w.steps[n := s], w.signals, w.consumer);
    } else {
      assert w.steps[n := s] == w.steps;
    }
  }

  lemma OutcomeTimers(d: Dag, w: World, n: Name, success: bool, output: Option<Payload>, due: int)
    requires TimersOk(d, w.run.status, w.steps, w.timers) && RunOk(w.run, w.steps)
    requires n in d && n in w.steps && (InHand(w.steps[n].status) || w.steps[n].status == StepCancelled)
    ensures TimersOk(d, w.run.status, w.steps[n := OutcomeRow(d, n, w.steps[n], success, output)],
                     w.timers + if !success && w.steps[n].attemptCount < d[n].maxAttempts
                                then [Timer(TimerRetryBackoff, Some(n), TimerPending, due)] else [])
  {
    var s := OutcomeRow(d, n, w.steps[n], success, output);
    if !success && w.steps[n].attemptCount < d[n].maxAttempts {
      TimersAfterSchedule(d, w.run.status, w.steps, w.timers, n, s, due);
    } else {
      TimersRelabelled(d, w.run.status, w.steps, w.steps[n := s], w.timers);
      assert w.timers + [] == w.timers;
    }
  }

  lemma OutcomeShape(d: Dag, w: World, a: nat, success: bool, output: Option<Payload>, due: int)
    requires a < |w.attempts| && w.attempts[a].step in d && w.attempts[a].step in w.steps
    ensures var w' := Outcome(d, w, a, success, output, due);
      var n := w.attempts[a].step;
      && w'.steps == w.steps[n := OutcomeRow(d, n, w.steps[n], success, output)]
      && w'.timers == w.timers + (if !success && w.steps[n].attemptCount < d[n].maxAttempts
                                  then [Timer(TimerRetryBackoff, Some(n), TimerPending, due)] else [])
      && w'.run.(historySeq := w.run.historySeq) == w.run
      && w'.attempts == w.attempts && w'.outbox == w.outbox && w'.signals == w.signals && w'.stream == w.stream
      && w'.owed == w.owed && w'.consumer == w.consumer
  {
    assert w.steps[w.attempts[a].step := w.steps[w.attempts[a].step]] == w.steps;
    assert w.timers + [] == w.timers;
  }

  lemma OutcomeKept(d: Dag, w: World, a: nat, at: Attempt, success: bool, output: Option<Payload>, due: int)
    requires Inv(d, w) && a < |w.attempts| && Live(w.attempts, w.owed, a) && SameAttempt(w.attempts[a], at)
    requires w.attempts[a].step in d
    requires if success then at.status == AttemptSucceeded else Settled(at.status)
    ensures Inv(d, Outcome(d, w.(attempts := w.attempts[a := at], owed := w.owed - {a}), a, success, output, due))
  {
    hide AttemptsOk, OutboxOk, SignalsOk, TimersOk, Outcome;
    LiveAttempt(d, w.steps, w.attempts, w.owed, a);
    var n := w.attempts[a].step;
    OutcomeShape(d, w.(attempts := w.attempts[a := at], owed := w.owed - {a}), a, success, output, due);
    OutcomeSteps(d, w, n, success, output);
    OutcomeTimers(d, w, n, success, output, due);
    AttemptsAfterOutcome(d, w.steps, w.attempts, w.owed, a, at, OutcomeRow(d, n, w.steps[n], success, output));
    OutboxAfterUpdate(d, w.attempts, w.outbox, w.stream, a, at);
  }

  lemma ReportKept(d: Dag, w: World, a: nat, worker: string, success: bool, output: Option<Payload>, due: int)
    requires Inv(d, w) && Enabled(d, w, Report(a, worker, success, output, due))
    ensures Inv(d, Apply(d, w, Report(a, worker, success, output, due)))
  {
    hide TimersOk, OutboxOk, SignalsOk, RunOk, Outcome, StepsOk;
    assert AttemptOk(d, w.steps, w.attempts, w.owed, a);
    assert w.owed - {a} == w.owed;
    OutcomeKept(d, w, a, w.attempts[a].(status := if success then AttemptSucceeded else AttemptFailed), success, output, due);
  }

  lemma ApplyExpiryKept(d: Dag, w: World, a: nat, due: int)
    requires Inv(d, w) && Enabled(d, w, ApplyExpiry(a, due))
    ensures Inv(d, Apply(d, w, ApplyExpiry(a, due)))
  {
    hide TimersOk, OutboxOk, SignalsOk, RunOk, Outcome, StepsOk;
    assert AttemptOk(d, w.steps, w.attempts, w.owed, a);
    assert w.attempts[a := w.attempts[a]] == w.attempts;
    OutcomeKept(d, w, a, w.attempts[a], false, None, due);
  }

  lemma ClaimKept(d: Dag, w: World, a: nat, key: nat, worker: string, until: int)
    requires Inv(d, w) && Enabled(d, w, Claim(a, key, worker, until))
    ensures Inv(d, Apply(d, w, Claim(a, key, worker, until)))
  {
    hide StepsOk, TimersOk, OutboxOk, SignalsOk, RunOk;
    assert AttemptOk(d, w.steps, w.attempts, w.owed, a);
    var at := w.attempts[a].(status := AttemptLeased, leaseOwner := Some(worker), leaseExpiresAt := Some(until));
    AttemptsAfterLease(d, w.steps, w.attempts, w.owed, a, at, w.owed);
    OutboxAfterUpdate(d, w.attempts, w.outbox, w.stream, a, at);
  }

  lemma HeartbeatKept(d: Dag, w: World, a: nat, worker: string, until: int)
    requires Inv(d, w) && Enabled(d, w, Heartbeat(a, worker, until))
    ensures Inv(d, Apply(d, w, Heartbeat(a, worker, until)))
  {
    hide StepsOk, TimersOk, OutboxOk, SignalsOk, RunOk;
    assert AttemptOk(d, w.steps, w.attempts, w.owed, a);
    var at := w.attempts[a].(leaseExpiresAt := Some(until));
    AttemptsAfterLease(d, w.steps, w.attempts, w.owed, a, at, w.owed);
    OutboxAfterUpdate(d, w.attempts, w.outbox, w.stream, a, at);
  }

  lemma ExpireKept(d: Dag, w: World, a: nat, now: int)
    requires Inv(d, w) && Enabled(d, w, Expire(a, now))
    ensures Inv(d, Apply(d, w, Expire(a, now)))
  {
    hide StepsOk, TimersOk, OutboxOk, SignalsOk, RunOk;
    var at := w.attempts[a].(status := AttemptExpired);
    AttemptsAfterLease(d, w.steps, w.attempts, w.owed, a, at, w.owed + {a});
    OutboxAfterUpdate(d, w.attempts, w.outbox, w.stream, a, at);
  }

  lemma CancelKept(d: Dag, w: World)
    requires Inv(d, w) && Enabled(d, w, Cancel)
    ensures Inv(d, Apply(d, w, Cancel))
  {
    hide StepsOk, AttemptsOk, TimersOk, OutboxOk, SignalsOk;
    StepsAfterCancel(d, w.steps);
    AttemptsRelabelled(d, w.steps, CancelSteps(w.steps), w.attempts, w.owed);
    SignalsRelabelled(d, w.steps, CancelSteps(w.steps), w.signals, w.consumer);
    TimersAfterCancel(d, w.run.status, RunCancelled, w.steps, CancelSteps(w.steps), w.timers);
    RunAfterCancel(w.run, w.steps);
  }

  lemma FinishKept(d: Dag, w: World, failed: Option<Name>)
    requires Inv(d, w) && Enabled(d, w, Finish(failed))
    ensures Inv(d, Apply(d, w, Finish(failed)))
  {
    hide StepsOk, AttemptsOk, TimersOk, OutboxOk, SignalsOk;
    TimersAfterCancel(d, w.run.status, Verdict(w.steps, failed), w.steps, w.steps, w.timers);
  }

  lemma DeliverKept(d: Dag, w: World, signal: string, payload: Payload)
    requires Inv(d, w) && Enabled(d, w, Deliver(signal, payload))
    ensures Inv(d, Apply(d, w, Deliver(signal, payload)))
  {
    hide StepsOk, AttemptsOk, TimersOk, OutboxOk;
    var signals' := w.signals + [Signal(signal, payload, false)];
    forall i | i in w.consumer ensures ConsumedOk(d, w.steps, signals', i, w.consumer[i]) {
      assert ConsumedOk(d, w.steps, w.signals, i, w.consumer[i]);
    }
  }

  lemma PublishKept(d: Dag, w: World, row: nat)
    requires Inv(d, w) && Enabled(d, w, Publish(row))
    ensures Inv(d, Apply(d, w, Publish(row)))
  {
    hide StepsOk, AttemptsOk, TimersOk, SignalsOk, RunOk;
    OutboxAfterPublish(d, w.attempts, w.outbox, w.stream, row);
  }

  lemma MarkPublishedKept(d: Dag, w: World, row: nat)
    requires Inv(d, w) && Enabled(d, w, MarkPublished(row))
    ensures Inv(d, Apply(d, w, MarkPublished(row)))
  {
    hide StepsOk, AttemptsOk, TimersOk, SignalsOk, RunOk;
    OutboxAfterMark(d, w.attempts, w.outbox, w.stream, row);
  }

  /** In a live run every pending timer is due to its step. */
  lemma FireStaleKept(d: Dag, w: World, t: nat)
    requires Inv(d, w) && Enabled(d, w, FireStale(t))
    ensures w.run.status == RunCancelled
    ensures Inv(d, Apply(d, w, FireStale(t)))
  {
    hide AttemptsOk, OutboxOk, SignalsOk, RunOk;
    assert PendingFor(w.timers, t, w.timers[t].step.value);
  }

  lemma StartKept(d: Dag, w: World)
    requires Inv(d, w) && Enabled(d, w, Start)
    ensures Inv(d, Apply(d, w, Start))
  {
    hide AttemptsOk, OutboxOk, SignalsOk;
  }

  lemma ReconcileActionKeeps(d: Dag, w: World, act: Action)
    requires ValidDag(d) && Inv(d, w) && ReconcileAction(act) && Enabled(d, w, act)
    ensures Inv(d, Apply(d, w, act))
  {
    hide Inv, Apply, Enabled;
    match act
    case Skip(n) => SkipKept(d, w, n);
    case Dispatch(n) => DispatchKept(d, w, n);
    case Park(n) => ParkKept(d, w, n);
    case Consume(n, i) => ConsumeKept(d, w, n, i);
    case Start => StartKept(d, w);
    case Finish(failed) => FinishKept(d, w, failed);
  }

  /** Every action keeps the invariant. */
  lemma ActionKeeps(d: Dag, w: World, act: Action)
    requires ValidDag(d) && Inv(d, w) && Enabled(d, w, act)
    ensures Inv(d, Apply(d, w, act))
  {
    hide Inv, Apply, Enabled;
    if ReconcileAction(act) {
      ReconcileActionKeeps(d, w, act);
    } else {
      match act
      case Deliver(signal, payload) => DeliverKept(d, w, signal, payload);
      case Cancel => CancelKept(d, w);
      case Claim(a, key, worker, until) => ClaimKept(d, w, a, key, worker, until);
      case Heartbeat(a, worker, until) => HeartbeatKept(d, w, a, worker, until);
      case Display(n) => DisplayKept(d, w, n);
      case Report(a, worker, success, output, due) => ReportKept(d, w, a, worker, success, output, due);
      case Expire(a, now) => ExpireKept(d, w, a, now);
      case ApplyExpiry(a, due) => ApplyExpiryKept(d, w, a, due);
      case Retry(t) => RetryKept(d, w, t);
      case FireStale(t) => FireStaleKept(d, w, t);
      case Publish(row) => PublishKept(d, w, row);
      case MarkPublished(row) => MarkPublishedKept(d, w, row);
    }
  }

  lemma CreatedSteps(d: Dag)
    requires ValidDag(d)
    ensures StepsOk(d, Created(d).steps)
  {
  }

  lemma CreatedInv(d: Dag)
    requires ValidDag(d)
    ensures Inv(d, Created(d))
  {
    hide ValidDag, StepsOk;
    CreatedSteps(d);
  }

  /** Every trace keeps the invariant. */
  lemma {:induction false} TraceKeeps(d: Dag, w: World, tr: seq<Action>)
    requires ValidDag(d) && Inv(d, w) && Valid(d, w, tr)
    ensures Inv(d, After(d, w, tr))
    decreases |tr|
  {
    hide Inv, Apply, Enabled;
    if tr != [] {
      var k := |tr| - 1;
      TraceKeeps(d, w, tr[..k]);
      ActionKeeps(d, After(d, w, tr[..k]), tr[k]);
    }
  }

  /** The invariant holds in every state any interleaving can reach. */
  lemma ReachableInv(d: Dag, w: World)
    requires ValidDag(d) && Reachable(d, w)
    ensures Inv(d, w)
  {
    hide Inv, Apply, Enabled, Created;
    CreatedInv(d);
    var tr :| Valid(d, Created(d), tr) && After(d, Created(d), tr) == w;
    TraceKeeps(d, Created(d), tr);
  }

  lemma ReachableSteps(d: Dag, w: World)
    requires ValidDag(d) && Reachable(d, w)
    ensures StepsOk(d, w.steps) && RunOk(w.run, w.steps)
  {
    ReachableInv(d, w);
  }
}
