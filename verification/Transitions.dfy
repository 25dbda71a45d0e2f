/** The engine as a transition system: one action for every indivisible effect
    the engine, the workers, the reaper and the relay can have on a run. */
module Transitions {
  import opened Rows

  // ---------------------------------------------------------------- guards

  predicate Undispatched(s: StepStatus) {
    s == StepPending || s == StepReady
  }

  predicate Broken(s: StepStatus) {
    s == StepFailed || s == StepSkipped || s == StepCancelled
  }

  predicate InHand(s: StepStatus) {
    s == StepQueued || s == StepRunning
  }

  predicate Active(s: StepStatus) {
    s == StepQueued || s == StepRunning || s == StepRetryBackoff || s == StepWaiting || s == StepCompleted
  }

  predicate Blocked(d: Dag, steps: map<Name, Step>, n: Name)
    requires n in d
  {
    exists dep :: dep in d[n].dependsOn && dep in steps && Broken(steps[dep].status)
  }

  predicate DepsCompleted(d: Dag, steps: map<Name, Step>, n: Name)
    requires n in d
  {
    forall dep :: dep in d[n].dependsOn ==> dep in steps && steps[dep].status == StepCompleted
  }

  predicate SignalWait(d: Dag, n: Name)
    requires n in d
  {
    d[n].taskType == SIGNAL_WAIT
  }

  function WantedSignal(d: Dag, n: Name): string
    requires n in d
  {
    if d[n].signalName != "" then d[n].signalName else n
  }

  /** The oldest unprocessed signal of the given name. */
  function FindSignal(signals: seq<Signal>, want: string): (r: Option<nat>)
    ensures r.Some? ==>
      && r.value < |signals| && !signals[r.value].processed && signals[r.value].name == want
      && forall j :: 0 <= j < r.value && !signals[j].processed ==> signals[j].name != want
    ensures r.None? ==> forall j :: 0 <= j < |signals| && !signals[j].processed ==> signals[j].name != want
  {
    if signals == [] then None
    else
      var front := signals[..|signals| - 1];
      match FindSignal(front, want)
      case Some(i) => Some(i)
      case None =>
        var last := signals[|signals| - 1];
        if !last.processed && last.name == want then Some(|signals| - 1) else None
  }

  predicate AllTerminal(steps: map<Name, Step>) {
    forall n :: n in steps ==> StepTerminal(steps[n].status)
  }

  predicate SomeIn(steps: map<Name, Step>, status: StepStatus) {
    exists n :: n in steps && steps[n].status == status
  }

  predicate AnyActive(steps: map<Name, Step>) {
    exists n :: n in steps && Active(steps[n].status)
  }

  // ---------------------------------------------------------------- effects

  function Log(w: World, e: Event): World {
    w.(run := w.run.(historySeq := w.run.historySeq + 1),
       history := w.history + [HistoryEvent(w.run.historySeq + 1, e)])
  }

  function SetStatus(w: World, n: Name, s: StepStatus): World
    requires n in w.steps
  {
    w.(steps := w.steps[n := w.steps[n].(status := s)])
  }

  function QueueName(taskType: string): string {
    "wf:tasks:" + taskType
  }

  /** The attempt, its outbox row, the step's move to QUEUED and the event, in one. */
  function DispatchStep(d: Dag, w: World, n: Name): World
    requires n in d && n in w.steps
  {
    var s := w.steps[n];
    var id := |w.attempts|;
    var number := s.attemptCount + 1;
    var queue := QueueName(d[n].taskType);
    Log(w.(
      attempts := w.attempts + [Attempt(n, number, id, AttemptQueued, queue, None, None)],
      outbox := w.outbox + [OutboxMessage(id, queue, TaskPayload(id, n, d[n].taskType, d[n].input, number, id, d[n].timeoutSeconds), false)],
      steps := w.steps[n := s.(status := StepQueued, attemptCount := number)]),
      StepDispatchedEvent(n, number))
  }

  function CompleteBySignal(w: World, n: Name, i: nat): World
    requires n in w.steps && i < |w.signals|
  {
    var sig := w.signals[i];
    Log(w.(
      signals := w.signals[i := sig.(processed := true)],
      consumer := w.consumer[i := n],
      steps := w.steps[n := w.steps[n].(status := StepCompleted, output := Some(sig.payload))]),
      StepCompletedBySignalEvent(n, sig.name))
  }

  /** What an outcome of attempt a does to its step; a retry is due at the given time. */
  function Outcome(d: Dag, w: World, a: nat, success: bool, output: Option<Payload>, due: int): World
    requires a < |w.attempts| && w.attempts[a].step in d && w.attempts[a].step in w.steps
  {
    var n := w.attempts[a].step;
    var k := w.attempts[a].number;
    var s := w.steps[n];
    if success then
      if InHand(s.status) then
        Log(w.(steps := w.steps[n := s.(status := StepCompleted, output := if output.Some? then output else s.output)]),
            StepCompletedEvent(n, k))
      else w
    else if s.attemptCount < d[n].maxAttempts then
      var w1 := w.(timers := w.timers + [Timer(TimerRetryBackoff, Some(n), TimerPending, due)]);
      if InHand(s.status) then Log(SetStatus(w1, n, StepRetryBackoff), StepRetryScheduledEvent(n, k)) else w1
    else
      if InHand(s.status) then Log(SetStatus(w, n, StepFailed), StepFailedEvent(n, k)) else w
  }

  function CancelTimers(timers: seq<Timer>): (r: seq<Timer>)
    ensures |r| == |timers|
    ensures forall t :: 0 <= t < |r| ==>
      r[t] == if timers[t].status == TimerPending then timers[t].(status := TimerCancelled) else timers[t]
  {
    if timers == [] then []
    else
      var last := timers[|timers| - 1];
      CancelTimers(timers[..|timers| - 1]) + [if last.status == TimerPending then last.(status := TimerCancelled) else last]
  }

  function CancelSteps(steps: map<Name, Step>): map<Name, Step> {
    map n | n in steps :: if StepTerminal(steps[n].status) then steps[n] else steps[n].(status := StepCancelled)
  }

  function Outputs(steps: map<Name, Step>): map<Name, Option<Payload>> {
    map n | n in steps && steps[n].status == StepCompleted :: steps[n].output
  }

  /** A failed step may be named only if there is one, and must be if there is. */
  predicate NamesFailure(steps: map<Name, Step>, failed: Option<Name>) {
    match failed
    case None => !SomeIn(steps, StepFailed)
    case Some(f) => f in steps && steps[f].status == StepFailed
  }

  function Verdict(steps: map<Name, Step>, failed: Option<Name>): RunStatus {
    if failed.Some? then RunFailed
    else if SomeIn(steps, StepCancelled) then RunCancelled
    else RunCompleted
  }

  function VerdictEvent(steps: map<Name, Step>, failed: Option<Name>): Event {
    if failed.Some? then RunFailedEvent(failed.value)
    else if SomeIn(steps, StepCancelled) then RunCancelledEvent
    else RunCompletedEvent
  }

  function FinishRun(w: World, failed: Option<Name>): World {
    var w1 := w.(run := w.run.(status := Verdict(w.steps, failed), output := Some(Outputs(w.steps)),
                               failedStep := if failed.Some? then failed else w.run.failedStep));
    var w2 := Log(w1, VerdictEvent(w.steps, failed));
    w2.(timers := CancelTimers(w2.timers))
  }

  function MessageOf(row: OutboxMessage): Message {
    Message(row.streamName, row.payload)
  }

  // ---------------------------------------------------------------- actions

  datatype Action =
    // reconcile
    | Skip(n: Name)
    | Dispatch(n: Name)
    | Park(n: Name)
    | Consume(n: Name, i: nat)
    | Start
    | Finish(failed: Option<Name>)
    // callers
    | Deliver(signal: string, payload: Payload)
    | Cancel
    // workers
    | Claim(a: nat, key: nat, worker: string, until: int)
    | Heartbeat(a: nat, worker: string, until: int)
    | Display(n: Name)
    | Report(a: nat, worker: string, success: bool, output: Option<Payload>, due: int)
    // reaper
    | Expire(a: nat, now: int)
    | ApplyExpiry(a: nat, due: int)
    // timers
    | Retry(t: nat)
    | FireStale(t: nat)
    // relay
    | Publish(row: nat)
    | MarkPublished(row: nat)

  predicate ReconcileAction(act: Action) {
    act.Skip? || act.Dispatch? || act.Park? || act.Consume? || act.Start? || act.Finish?
  }

  /** A pending timer whose step still waits for it in a live run. */
  predicate RetryDue(d: Dag, w: World, t: nat)
    requires t < |w.timers|
  {
    var tm := w.timers[t];
    && tm.kind == TimerRetryBackoff && tm.step.Some? && tm.step.value in d && tm.step.value in w.steps
    && w.steps[tm.step.value].status == StepRetryBackoff
    && !RunTerminal(w.run.status)
  }

  predicate Enabled(d: Dag, w: World, act: Action) {
    match act
    case Skip(n) =>
      !RunTerminal(w.run.status) && n in d && n in w.steps && Undispatched(w.steps[n].status) && Blocked(d, w.steps, n)
    case Dispatch(n) =>
      !RunTerminal(w.run.status) && n in d && n in w.steps && Undispatched(w.steps[n].status)
      && DepsCompleted(d, w.steps, n) && !SignalWait(d, n)
    case Park(n) =>
      !RunTerminal(w.run.status) && n in d && n in w.steps && Undispatched(w.steps[n].status)
      && DepsCompleted(d, w.steps, n) && SignalWait(d, n) && FindSignal(w.signals, WantedSignal(d, n)).None?
    case Consume(n, i) =>
      !RunTerminal(w.run.status) && n in d && n in w.steps
      && (w.steps[n].status == StepWaiting
          || (Undispatched(w.steps[n].status) && DepsCompleted(d, w.steps, n) && SignalWait(d, n)))
      && FindSignal(w.signals, WantedSignal(d, n)) == Some(i)
    case Start => w.run.status == RunPending && AnyActive(w.steps)
    case Finish(failed) => !RunTerminal(w.run.status) && AllTerminal(w.steps) && NamesFailure(w.steps, failed)
    case Deliver(signal, _) => signal != CANCEL_SIGNAL
    case Cancel => !RunTerminal(w.run.status)
    case Claim(a, key, _, _) =>
      a < |w.attempts| && w.attempts[a].status == AttemptQueued && w.attempts[a].idempotencyKey == key
    case Heartbeat(a, worker, _) =>
      a < |w.attempts| && w.attempts[a].status == AttemptLeased && w.attempts[a].leaseOwner == Some(worker)
    case Display(n) =>
      n in w.steps && w.steps[n].status == StepQueued
      && exists a :: 0 <= a < |w.attempts| && w.attempts[a].step == n && w.attempts[a].status != AttemptQueued
    case Report(a, worker, _, _, _) =>
      a < |w.attempts| && w.attempts[a].step in d && w.attempts[a].step in w.steps
      && w.attempts[a].status == AttemptLeased && w.attempts[a].leaseOwner == Some(worker)
    case Expire(a, now) =>
      a < |w.attempts| && w.attempts[a].status == AttemptLeased
      && w.attempts[a].leaseExpiresAt.Some? && w.attempts[a].leaseExpiresAt.value < now
    case ApplyExpiry(a, _) =>
      a in w.owed && a < |w.attempts| && w.attempts[a].step in d && w.attempts[a].step in w.steps
    case Retry(t) => t < |w.timers| && w.timers[t].status == TimerPending && RetryDue(d, w, t)
    case FireStale(t) => t < |w.timers| && w.timers[t].status == TimerPending && !RetryDue(d, w, t)
    case Publish(row) => row < |w.outbox| && !w.outbox[row].published
    case MarkPublished(row) => row < |w.outbox| && MessageOf(w.outbox[row]) in w.stream
  }

  function SetAttempt(w: World, a: nat, s: AttemptStatus): World
    requires a < |w.attempts|
  {
    w.(attempts := w.attempts[a := w.attempts[a].(status := s)])
  }

  function Fire(w: World, t: nat): World
    requires t < |w.timers|
  {
    w.(timers := w.timers[t := w.timers[t].(status := TimerFired)])
  }

  function Apply(d: Dag, w: World, act: Action): World
    requires Enabled(d, w, act)
  {
    match act
    case Skip(n) => Log(SetStatus(w, n, StepSkipped), StepSkippedEvent(n))
    case Dispatch(n) => DispatchStep(d, w, n)
    case Park(n) => SetStatus(w, n, StepWaiting)
    case Consume(n, i) => CompleteBySignal(w, n, i)
    case Start => Log(w.(run := w.run.(status := RunRunning)), RunStartedEvent)
    case Finish(failed) => FinishRun(w, failed)
    case Deliver(signal, payload) =>
      Log(w.(signals := w.signals + [Signal(signal, payload, false)]), SignalReceivedEvent(signal))
    case Cancel =>
      Log(w.(steps := CancelSteps(w.steps), timers := CancelTimers(w.timers), run := w.run.(status := RunCancelled)),
          RunCancelledEvent)
    case Claim(a, _, worker, until) =>
      w.(attempts := w.attempts[a := w.attempts[a].(status := AttemptLeased, leaseOwner := Some(worker), leaseExpiresAt := Some(until))])
    case Heartbeat(a, _, until) => w.(attempts := w.attempts[a := w.attempts[a].(leaseExpiresAt := Some(until))])
    case Display(n) => SetStatus(w, n, StepRunning)
    case Report(a, _, success, output, due) =>
      Outcome(d, SetAttempt(w, a, if success then AttemptSucceeded else AttemptFailed), a, success, output, due)
    case Expire(a, _) => SetAttempt(w, a, AttemptExpired).(owed := w.owed + {a})
    case ApplyExpiry(a, due) => Outcome(d, w.(owed := w.owed - {a}), a, false, None, due)
    case Retry(t) => DispatchStep(d, Fire(w, t), w.timers[t].step.value)
    case FireStale(t) => Fire(w, t)
    case Publish(row) => w.(stream := w.stream + [MessageOf(w.outbox[row])])
    case MarkPublished(row) => w.(outbox := w.outbox[row := w.outbox[row].(published := true)])
  }

  // ---------------------------------------------------------------- traces

  /** Every action of the trace is enabled when its turn comes. */
  predicate Valid(d: Dag, w: World, tr: seq<Action>)
    decreases |tr|, 0
  {
    tr == [] || (var k := |tr| - 1; Valid(d, w, tr[..k]) && Enabled(d, After(d, w, tr[..k]), tr[k]))
  }

  function After(d: Dag, w: World, tr: seq<Action>): World
    requires Valid(d, w, tr)
    decreases |tr|, 1
  {
    if tr == [] then w else var k := |tr| - 1; Apply(d, After(d, w, tr[..k]), tr[k])
  }

  lemma Snoc(d: Dag, w: World, tr: seq<Action>, act: Action)
    requires Valid(d, w, tr) && Enabled(d, After(d, w, tr), act)
    ensures Valid(d, w, tr + [act]) && After(d, w, tr + [act]) == Apply(d, After(d, w, tr), act)
  {
    hide Enabled, Apply;
    assert (tr + [act])[..|tr|] == tr;
  }

  lemma ActionTrace(d: Dag, w: World, act: Action)
    requires Enabled(d, w, act)
    ensures Valid(d, w, [act]) && After(d, w, [act]) == Apply(d, w, act)
  {
    hide Enabled, Apply;
    assert Valid(d, w, []);
    Snoc(d, w, [], act);
    assert [] + [act] == [act];
  }

  /** Traces compose. */
  lemma {:induction false} Concat(d: Dag, w: World, tr: seq<Action>, more: seq<Action>)
    requires Valid(d, w, tr) && Valid(d, After(d, w, tr), more)
    ensures Valid(d, w, tr + more) && After(d, w, tr + more) == After(d, After(d, w, tr), more)
    decreases |more|
  {
    hide Enabled, Apply;
    if more == [] {
      assert tr + more == tr;
    } else {
      var k := |more| - 1;
      Concat(d, w, tr, more[..k]);
      Snoc(d, w, tr + more[..k], more[k]);
      assert tr + more == tr + more[..k] + [more[k]];
    }
  }

  /** w' can be reached from w. */
  ghost predicate Leads(d: Dag, w: World, w': World) {
    exists tr :: Valid(d, w, tr) && After(d, w, tr) == w'
  }

  lemma LeadsTransitive(d: Dag, w: World, w1: World, w2: World)
    requires Leads(d, w, w1) && Leads(d, w1, w2)
    ensures Leads(d, w, w2)
  {
    var tr :| Valid(d, w, tr) && After(d, w, tr) == w1;
    var more :| Valid(d, w1, more) && After(d, w1, more) == w2;
    Concat(d, w, tr, more);
  }

  lemma LeadsOne(d: Dag, w: World, act: Action)
    requires Enabled(d, w, act)
    ensures Leads(d, w, Apply(d, w, act))
  {
    ActionTrace(d, w, act);
  }

  // ---------------------------------------------------------------- creation

  /** A run and its steps as CreateRun inserts them, before its first reconcile. */
  function Created(d: Dag): World {
    Log(World(Run(RunPending, None, None, 0), map n | n in d :: Step(StepPending, 0, None),
              [], [], [], [], [], [], {}, map[]),
        RunCreatedEvent(|d|))
  }

  ghost predicate Reachable(d: Dag, w: World) {
    Leads(d, Created(d), w)
  }

  lemma CreatedReachable(d: Dag)
    ensures Reachable(d, Created(d))
  {
    assert Valid(d, Created(d), []);
  }

  lemma StepKeepsReachable(d: Dag, w: World, w': World)
    requires Leads(d, w, w')
    ensures Reachable(d, w) ==> Reachable(d, w')
  {
    if Reachable(d, w) {
      LeadsTransitive(d, Created(d), w, w');
    }
  }

  lemma ActionKeepsReachable(d: Dag, w: World, act: Action)
    requires Enabled(d, w, act)
    ensures Reachable(d, w) ==> Reachable(d, Apply(d, w, act))
  {
    hide Leads, Enabled, Apply, Created;
    LeadsOne(d, w, act);
    StepKeepsReachable(d, w, Apply(d, w, act));
  }
}
