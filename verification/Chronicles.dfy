/** Which histories there are: each event is one that the events before it allow. */
module Chronicles {
  import opened Rows
  import opened Dags
  import opened Transitions
  import opened Invariants
  import opened Histories
  import opened Reconciling
  import opened Results

  predicate SeenAs(r: Replayed, n: Name, status: StepStatus) {
    n in r.steps && r.steps[n].status == status
  }

  /** The step is at work on the attempt of that number. */
  predicate WorkingOn(r: Replayed, n: Name, k: nat) {
    n in r.steps && r.steps[n] == Seen(StepQueued, k)
  }

  predicate DepsSeenCompleted(d: Dag, r: Replayed, n: Name)
    requires n in d
  {
    forall dep :: dep in d[n].dependsOn ==> SeenAs(r, dep, StepCompleted)
  }

  predicate DepSeenBroken(d: Dag, r: Replayed, n: Name)
    requires n in d
  {
    exists dep :: dep in d[n].dependsOn && (SeenAs(r, dep, StepFailed) || SeenAs(r, dep, StepSkipped))
  }

  predicate AllSeenOver(r: Replayed) {
    forall n :: n in r.steps ==> r.steps[n].status in {StepCompleted, StepFailed, StepSkipped}
  }

  /** What the event needs of the state that the events before it give. */
  predicate Allowed(d: Dag, r: Replayed, e: Event) {
    match e
    case RunCreatedEvent(_) => false
    case RunStartedEvent => r.run == RunPending
    case RunCompletedEvent =>
      (r.run == RunPending || r.run == RunRunning) && AllSeenOver(r) && forall n :: n in r.steps ==> !SeenAs(r, n, StepFailed)
    case RunFailedEvent(f) => (r.run == RunPending || r.run == RunRunning) && AllSeenOver(r) && SeenAs(r, f, StepFailed)
    case RunCancelledEvent => r.run == RunPending || r.run == RunRunning
    case SignalReceivedEvent(name) => name != "__cancel__"
    case StepSkippedEvent(n) => n in d && SeenAs(r, n, StepPending) && DepSeenBroken(d, r, n)
    case StepDispatchedEvent(n, k) =>
      && n in d && d[n].taskType != "signal_wait" && DepsSeenCompleted(d, r, n)
      && (SeenAs(r, n, StepPending) || SeenAs(r, n, StepRetryBackoff)) && k == r.steps[n].attempts + 1 <= d[n].maxAttempts
    case StepCompletedEvent(n, k) => n in d && WorkingOn(r, n, k)
    case StepRetryScheduledEvent(n, k) => n in d && WorkingOn(r, n, k) && k < d[n].maxAttempts
    case StepFailedEvent(n, k) => n in d && WorkingOn(r, n, k) && k == d[n].maxAttempts
    case StepCompletedBySignalEvent(n, name) =>
      && n in d && d[n].taskType == "signal_wait" && name == (if d[n].signalName == "" then n else d[n].signalName)
      && SeenAs(r, n, StepPending) && DepsSeenCompleted(d, r, n)
  }

  /** The log is as before, or has one more event, which the state before allows. */
  ghost predicate Follows(d: Dag, w: World, w': World) {
    || w'.history == w.history
    || exists e :: w'.history == w.history + [HistoryEvent(w.run.historySeq + 1, e)] && Allowed(d, View(w), e)
  }

  lemma Logged(d: Dag, w: World, w': World, e: Event)
    requires w'.history == w.history + [HistoryEvent(w.run.historySeq + 1, e)] && Allowed(d, View(w), e)
    ensures Follows(d, w, w')
  {
  }

  lemma ViewSteps(w: World, n: Name)
    requires n in w.steps
    ensures n in View(w).steps && View(w).steps[n] == Seen(Coarse(w.steps[n].status), w.steps[n].attemptCount)
  {
  }

  lemma SkipAllowed(d: Dag, w: World, n: Name)
    requires n in d && n in w.steps && w.steps[n].status == StepPending && Blocked(d, w.steps, n) && !SomeIn(w.steps, StepCancelled)
    ensures Allowed(d, View(w), StepSkippedEvent(n))
  {
    var dep :| dep in d[n].dependsOn && dep in w.steps && Broken(w.steps[dep].status);
    assert SeenAs(View(w), dep, w.steps[dep].status);
  }

  lemma DispatchAllowed(d: Dag, w: World, n: Name)
    requires StepsOk(d, w.steps) && n in d && !SignalWait(d, n) && DepsCompleted(d, w.steps, n) && ValidDag(d)
    requires w.steps[n].status == StepPending || w.steps[n].status == StepRetryBackoff
    ensures Allowed(d, View(w), StepDispatchedEvent(n, w.steps[n].attemptCount + 1))
  {
    assert StepOk(d, w.steps, n);
  }

  lemma ConsumeAllowed(d: Dag, w: World, n: Name)
    requires n in d && n in w.steps && SignalWait(d, n) && DepsCompleted(d, w.steps, n)
    requires w.steps[n].status == StepPending || w.steps[n].status == StepWaiting
    ensures Allowed(d, View(w), StepCompletedBySignalEvent(n, WantedSignal(d, n)))
  {
  }

  lemma WaitingRow(d: Dag, w: World, n: Name)
    requires StepsOk(d, w.steps) && n in d && w.steps[n].status == StepWaiting
    ensures SignalWait(d, n) && DepsCompleted(d, w.steps, n)
  {
    assert StepOk(d, w.steps, n);
  }

  lemma FinishAllowed(d: Dag, w: World, failed: Option<Name>)
    requires Inv(d, w) && Enabled(d, w, Finish(failed))
    ensures Allowed(d, View(w), VerdictEvent(w.steps, failed))
  {
    hide StepsOk, AttemptsOk, TimersOk, OutboxOk, SignalsOk;
    if failed.Some? {
      ViewSteps(w, failed.value);
    }
  }

  lemma PassFollows(d: Dag, w: World, act: Action)
    requires ValidDag(d) && Inv(d, w) && ReconcileAction(act) && Enabled(d, w, act)
    ensures Follows(d, w, Apply(d, w, act))
  {
    hide StepsOk, AttemptsOk, TimersOk, OutboxOk, SignalsOk, RunOk, Allowed, View, ValidDag, FindSignal, Blocked, CancelTimers, Outputs;
    var w' := Apply(d, w, act);
    match act
    case Skip(n) =>
      NeverReady(d, w, n);
      LiveHasNoCancelled(w);
      SkipAllowed(d, w, n);
      Logged(d, w, w', StepSkippedEvent(n));
    case Dispatch(n) =>
      NeverReady(d, w, n);
      DispatchAllowed(d, w, n);
      Logged(d, w, w', StepDispatchedEvent(n, w.steps[n].attemptCount + 1));
    case Park(n) =>
    case Consume(n, i) =>
      if w.steps[n].status == StepWaiting {
        WaitingRow(d, w, n);
      } else {
        NeverReady(d, w, n);
      }
      ConsumeAllowed(d, w, n);
      Logged(d, w, w', StepCompletedBySignalEvent(n, w.signals[i].name));
    case Start =>
      StartAllowed(d, w);
      Logged(d, w, w', RunStartedEvent);
    case Finish(failed) =>
      FinishAllowed(d, w, failed);
      Logged(d, w, w', VerdictEvent(w.steps, failed));
  }

  lemma LiveHasNoCancelled(w: World)
    requires RunOk(w.run, w.steps) && !RunTerminal(w.run.status)
    ensures !SomeIn(w.steps, StepCancelled)
  {
  }

  lemma NeverReady(d: Dag, w: World, n: Name)
    requires StepsOk(d, w.steps) && n in d && Undispatched(w.steps[n].status)
    ensures w.steps[n].status == StepPending
  {
    assert StepOk(d, w.steps, n);
  }

  lemma StartAllowed(d: Dag, w: World)
    requires w.run.status == RunPending
    ensures Allowed(d, View(w), RunStartedEvent)
  {
  }

  /** The event of an outcome carries the number of the current attempt. */
  lemma OutcomeFollows(d: Dag, w: World, w1: World, a: nat, success: bool, output: Option<Payload>, due: int)
    requires Inv(d, w) && a < |w.attempts| && Live(w.attempts, w.owed, a)
    requires w1.steps == w.steps && w1.run == w.run && w1.history == w.history && |w1.attempts| == |w.attempts|
    requires w1.attempts[a].step == w.attempts[a].step && w1.attempts[a].number == w.attempts[a].number
    requires w.attempts[a].step in d && w.attempts[a].step in w.steps
    ensures Follows(d, w, Outcome(d, w1, a, success, output, due))
  {
    hide TimersOk, OutboxOk, SignalsOk, RunOk, View, NoGaps, NumbersUnique;
    LiveAttempt(d, w.steps, w.attempts, w.owed, a);
    hide AttemptsOk;
    var n, k := w.attempts[a].step, w.attempts[a].number;
    assert StepOk(d, w.steps, n);
    ViewSteps(w, n);
    var w' := Outcome(d, w1, a, success, output, due);
    if InHand(w.steps[n].status) {
      var e := if success then StepCompletedEvent(n, k)
               else if w.steps[n].attemptCount < d[n].maxAttempts then StepRetryScheduledEvent(n, k)
               else StepFailedEvent(n, k);
      assert Allowed(d, View(w), e);
      Logged(d, w, w', e);
    }
  }

  lemma RetryFollows(d: Dag, w: World, t: nat)
    requires ValidDag(d) && Inv(d, w) && Enabled(d, w, Retry(t))
    ensures Follows(d, w, Apply(d, w, Retry(t)))
  {
    hide AttemptsOk, TimersOk, OutboxOk, SignalsOk, RunOk, Allowed, View, ValidDag, SkipCause, CancelTimers, FindSignal, Blocked;
    var n := w.timers[t].step.value;
    assert StepOk(d, w.steps, n);
    DispatchAllowed(d, w, n);
    Logged(d, w, Apply(d, w, Retry(t)), StepDispatchedEvent(n, w.steps[n].attemptCount + 1));
  }

  lemma CallFollows(d: Dag, w: World, act: Action)
    requires Enabled(d, w, act) && !ReconcileAction(act) && !act.Report? && !act.ApplyExpiry? && !act.Retry?
    ensures Follows(d, w, Apply(d, w, act))
  {
    hide CancelTimers, CancelSteps, FindSignal, DepsCompleted;
    match act
    case Deliver(name, _) => Logged(d, w, Apply(d, w, act), SignalReceivedEvent(name));
    case Cancel => Logged(d, w, Apply(d, w, act), RunCancelledEvent);
    case _ =>
  }

  lemma ActionFollows(d: Dag, w: World, act: Action)
    requires ValidDag(d) && Inv(d, w) && Enabled(d, w, act)
    ensures Follows(d, w, Apply(d, w, act))
  {
    hide Follows, ValidDag, StepsOk, TimersOk, OutboxOk, SignalsOk, RunOk, Outcome, NoGaps, NumbersUnique;
    match act
    case Report(a, _, success, output, due) =>
      OutcomeFollows(d, w, SetAttempt(w, a, if success then AttemptSucceeded else AttemptFailed), a, success, output, due);
    case ApplyExpiry(a, due) => OutcomeFollows(d, w, w.(owed := w.owed - {a}), a, false, None, due);
    case Retry(t) => RetryFollows(d, w, t);
    case _ =>
      if ReconcileAction(act) {
        PassFollows(d, w, act);
      } else {
        CallFollows(d, w, act);
      }
  }

  /** The history begins with the creation of the run, and goes on as it may. */
  ghost predicate Legal(d: Dag, h: seq<HistoryEvent>) {
    && h != [] && h[0].event == RunCreatedEvent(|d|)
    && forall i :: 0 < i < |h| ==> Allowed(d, Replay(d, h[..i]), h[i].event)
  }

  lemma LegalFollows(d: Dag, w: World, w': World)
    requires Legal(d, w.history) && Replay(d, w.history) == View(w) && Follows(d, w, w')
    ensures Legal(d, w'.history)
  {
    hide Allowed, Replay, View;
    var h, h' := w.history, w'.history;
    if h' != h {
      var e :| h' == h + [HistoryEvent(w.run.historySeq + 1, e)] && Allowed(d, View(w), e);
      forall i | 0 < i < |h'| ensures Allowed(d, Replay(d, h'[..i]), h'[i].event) {
        if i < |h| {
          assert h'[..i] == h[..i];
        } else {
          assert h'[..i] == h;
        }
      }
    }
  }

  lemma {:induction false} TraceLegal(d: Dag, tr: seq<Action>)
    requires ValidDag(d) && Valid(d, Created(d), tr)
    ensures Legal(d, After(d, Created(d), tr).history)
    decreases |tr|
  {
    hide Enabled, Apply, ValidDag, Inv, Follows;
    if tr == [] {
    } else {
      var k := |tr| - 1;
      var w := After(d, Created(d), tr[..k]);
      TraceLegal(d, tr[..k]);
      CreatedInv(d);
      CreatedHistory(d);
      TraceKeeps(d, Created(d), tr[..k]);
      TraceHistory(d, Created(d), tr[..k]);
      ActionFollows(d, w, tr[k]);
      hide Legal, Replay;
      LegalFollows(d, w, After(d, Created(d), tr));
    }
  }

  /** The history of any reachable run is legal: it starts with the creation of all the
      steps, and every later event is one that the state replayed from the events before
      it allows, with the attempt number or signal name that state calls for. */
  lemma HistoryIsLegal(d: Dag, w: World)
    requires ValidDag(d) && Reachable(d, w)
    ensures w.history != [] && w.history[0].event == RunCreatedEvent(|d|)
    ensures forall i :: 0 < i < |w.history| ==> Allowed(d, Replay(d, w.history[..i]), w.history[i].event)
  {
    hide Enabled, Apply, ValidDag, Allowed, Replay;
    var tr :| Valid(d, Created(d), tr) && After(d, Created(d), tr) == w;
    TraceLegal(d, tr);
  }

  // ------------------------------------------------------------ signals received

  /** The names in the signal_received events, in order. */
  function ReceivedNames(h: seq<HistoryEvent>): seq<string> {
    if h == [] then []
    else
      var last := h[|h| - 1].event;
      ReceivedNames(h[..|h| - 1]) + if last.SignalReceivedEvent? then [last.signal] else []
  }

  /** One event for every stored signal, with its name and in its place. */
  predicate NamesLogged(names: seq<string>, signals: seq<Signal>) {
    |names| == |signals| && forall i :: 0 <= i < |signals| ==> names[i] == signals[i].name
  }

  ghost predicate LogsNoSignal(w: World, w': World) {
    || w'.history == w.history
    || exists e: Event :: !e.SignalReceivedEvent? && w'.history == Log(w, e).history
  }

  lemma LoggedEvent(w: World, w': World, e: Event)
    requires !e.SignalReceivedEvent? && w'.history == Log(w, e).history
    ensures LogsNoSignal(w, w')
  {
  }

  lemma PassLogsNoSignal(d: Dag, w: World, act: Action)
    requires Enabled(d, w, act) && ReconcileAction(act)
    ensures LogsNoSignal(w, Apply(d, w, act))
  {
    hide FindSignal, Blocked, DepsCompleted, CancelTimers, Outputs, AllTerminal, AnyActive, NamesFailure, Verdict;
    var w' := Apply(d, w, act);
    match act
    case Skip(n) => LoggedEvent(w, w', StepSkippedEvent(n));
    case Dispatch(n) => LoggedEvent(w, w', StepDispatchedEvent(n, w.steps[n].attemptCount + 1));
    case Park(n) =>
    case Consume(n, i) => LoggedEvent(w, w', StepCompletedBySignalEvent(n, w.signals[i].name));
    case Start => LoggedEvent(w, w', RunStartedEvent);
    case Finish(failed) => LoggedEvent(w, w', VerdictEvent(w.steps, failed));
  }

  lemma OutcomeLogsNoSignal(d: Dag, w: World, a: nat, success: bool, output: Option<Payload>, due: int)
    requires a < |w.attempts| && w.attempts[a].step in d && w.attempts[a].step in w.steps
    ensures LogsNoSignal(w, Outcome(d, w, a, success, output, due))
  {
    var n, k := w.attempts[a].step, w.attempts[a].number;
    var w' := Outcome(d, w, a, success, output, due);
    if InHand(w.steps[n].status) {
      LoggedEvent(w, w', if success then StepCompletedEvent(n, k)
                         else if w.steps[n].attemptCount < d[n].maxAttempts then StepRetryScheduledEvent(n, k)
                         else StepFailedEvent(n, k));
    }
  }

  lemma OtherLogsNoSignal(d: Dag, w: World, act: Action)
    requires Enabled(d, w, act) && !ReconcileAction(act) && !act.Deliver?
    ensures LogsNoSignal(w, Apply(d, w, act))
  {
    hide CancelTimers, CancelSteps, FindSignal, DepsCompleted, Outcome;
    match act
    case Report(a, _, success, output, due) =>
      OutcomeLogsNoSignal(d, SetAttempt(w, a, if success then AttemptSucceeded else AttemptFailed), a, success, output, due);
    case ApplyExpiry(a, due) => OutcomeLogsNoSignal(d, w.(owed := w.owed - {a}), a, false, None, due);
    case Retry(t) =>
      var n := w.timers[t].step.value;
      LoggedEvent(w, Apply(d, w, act), StepDispatchedEvent(n, w.steps[n].attemptCount + 1));
    case Cancel => LoggedEvent(w, Apply(d, w, act), RunCancelledEvent);
    case _ =>
  }

  lemma NoNewName(w: World, w': World)
    requires LogsNoSignal(w, w')
    ensures ReceivedNames(w'.history) == ReceivedNames(w.history)
  {
    if w'.history != w.history {
      assert w'.history[..|w.history|] == w.history;
    }
  }

  lemma NewName(w: World, name: string)
    ensures ReceivedNames(Log(w, SignalReceivedEvent(name)).history) == ReceivedNames(w.history) + [name]
  {
    assert Log(w, SignalReceivedEvent(name)).history[..|w.history|] == w.history;
  }

  lemma ActionLogsNames(d: Dag, w: World, act: Action)
    requires NamesLogged(ReceivedNames(w.history), w.signals) && Enabled(d, w, act)
    ensures NamesLogged(ReceivedNames(Apply(d, w, act).history), Apply(d, w, act).signals)
  {
    hide Enabled, Apply, ReceivedNames, LogsNoSignal;
    if act.Deliver? {
      DeliveryLogs(d, w, act);
    } else if ReconcileAction(act) {
      PassLogsNoSignal(d, w, act);
      NoNewName(w, Apply(d, w, act));
      ActionKeepsSignals(d, w, act);
    } else {
      OtherLogsNoSignal(d, w, act);
      NoNewName(w, Apply(d, w, act));
      OthersStoreSame(d, w, act);
    }
  }

  lemma DeliveryLogs(d: Dag, w: World, act: Action)
    requires NamesLogged(ReceivedNames(w.history), w.signals) && Enabled(d, w, act) && act.Deliver?
    ensures NamesLogged(ReceivedNames(Apply(d, w, act).history), Apply(d, w, act).signals)
  {
    hide ReceivedNames;
    NewName(w, act.signal);
  }

  lemma {:induction false} TraceLogsNames(d: Dag, tr: seq<Action>)
    requires Valid(d, Created(d), tr)
    ensures NamesLogged(ReceivedNames(After(d, Created(d), tr).history), After(d, Created(d), tr).signals)
    decreases |tr|
  {
    hide Enabled, Apply;
    if tr == [] {
      assert Created(d).history[..0] == [];
    } else {
      hide ReceivedNames, NamesLogged;
      TraceLogsNames(d, tr[..|tr| - 1]);
      ActionLogsNames(d, After(d, Created(d), tr[..|tr| - 1]), tr[|tr| - 1]);
    }
  }

  /** In any run, the signal_received events name the delivered signals, in order of delivery. */
  lemma EveryDeliveryIsLogged(d: Dag, tr: seq<Action>, k: nat)
    requires Valid(d, Created(d), tr)
    ensures |ReceivedNames(After(d, Created(d), tr).history)| == |Delivered(tr)|
    ensures k < |Delivered(tr)| ==> ReceivedNames(After(d, Created(d), tr).history)[k] == Delivered(tr)[k].0
  {
    hide Enabled, Apply, ReceivedNames, Delivered, After, Valid, Created;
    TraceLogsNames(d, tr);
    SignalsAreDeliveries(d, tr);
  }
}
