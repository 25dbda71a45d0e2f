/** The step state machine: what an action may do to one step, to the run and to the log. */
module Effects {
  import opened Rows
  import opened Dags
  import opened Transitions
  import opened Invariants

  datatype Effect =
    | Silent
    | Move(n: Name, s: Step, e: Option<Event>)
    | RunMove(status: RunStatus, ev: Event)
    | CancelAll

  /** The transitions of a step, each with the event that records it. */
  predicate StepMove(d: Dag, steps: map<Name, Step>, n: Name, s: Step, e: Option<Event>)
    requires n in d && n in steps
  {
    var o := steps[n];
    match s.status
    case StepSkipped =>
      Undispatched(o.status) && s.attemptCount == o.attemptCount && e == Some(StepSkippedEvent(n))
    case StepQueued =>
      && (Undispatched(o.status) || o.status == StepRetryBackoff) && DepsCompleted(d, steps, n)
      && s.attemptCount == o.attemptCount + 1 && e == Some(StepDispatchedEvent(n, s.attemptCount))
    case StepWaiting =>
      Undispatched(o.status) && s.attemptCount == o.attemptCount && e == None
    case StepRunning =>
      o.status == StepQueued && s.attemptCount == o.attemptCount && e == None
    case StepCompleted =>
      && s.attemptCount == o.attemptCount && e.Some?
      && ((InHand(o.status) && e.value.StepCompletedEvent? && e.value.step == n)
          || ((Undispatched(o.status) || o.status == StepWaiting) && DepsCompleted(d, steps, n)
              && e.value.StepCompletedBySignalEvent? && e.value.step == n))
    case StepRetryBackoff =>
      && InHand(o.status) && s.attemptCount == o.attemptCount < d[n].maxAttempts
      && e.Some? && e.value.StepRetryScheduledEvent? && e.value.step == n
    case StepFailed =>
      && InHand(o.status) && s.attemptCount == o.attemptCount >= d[n].maxAttempts
      && e.Some? && e.value.StepFailedEvent? && e.value.step == n
    case _ => false
  }

  predicate RunEventOk(steps: map<Name, Step>, before: RunStatus, status: RunStatus, e: Event) {
    match e
    case RunStartedEvent => status == RunRunning
    case SignalReceivedEvent(_) => status == before
    case RunCompletedEvent => status == RunCompleted
    case RunFailedEvent(_) => status == RunFailed
    case RunCancelledEvent => status == RunCancelled && AllTerminal(steps)
    case _ => false
  }

  predicate Logs(w: World, w': World, e: Option<Event>) {
    match e
    case None => w'.history == w.history && w'.run.historySeq == w.run.historySeq
    case Some(ev) => w'.history == Log(w, ev).history && w'.run.historySeq == w.run.historySeq + 1
  }

  /** w' differs from w, in its steps, run status and log, just as the effect says. */
  predicate Happens(d: Dag, w: World, w': World, eff: Effect) {
    match eff
    case Silent => w'.steps == w.steps && w'.run.status == w.run.status && Logs(w, w', None)
    case Move(n, s, e) =>
      && n in d && n in w.steps && StepMove(d, w.steps, n, s, e)
      && w'.steps == w.steps[n := s] && w'.run.status == w.run.status && Logs(w, w', e)
    case RunMove(status, e) =>
      RunEventOk(w.steps, w.run.status, status, e) && w'.steps == w.steps && w'.run.status == status && Logs(w, w', Some(e))
    case CancelAll =>
      w'.steps == CancelSteps(w.steps) && w'.run.status == RunCancelled && Logs(w, w', Some(RunCancelledEvent))
  }

  lemma OutcomeEffect(d: Dag, w: World, a: nat, success: bool, output: Option<Payload>, due: int) returns (eff: Effect)
    requires a < |w.attempts| && w.attempts[a].step in d && w.attempts[a].step in w.steps
    ensures Happens(d, w, Outcome(d, w, a, success, output, due), eff)
  {
    var n, k := w.attempts[a].step, w.attempts[a].number;
    if InHand(w.steps[n].status) {
      var e := if success then StepCompletedEvent(n, k)
               else if w.steps[n].attemptCount < d[n].maxAttempts then StepRetryScheduledEvent(n, k)
               else StepFailedEvent(n, k);
      eff := Move(n, Outcome(d, w, a, success, output, due).steps[n], Some(e));
    } else {
      eff := Silent;
    }
  }

  lemma SkipEffect(d: Dag, w: World, n: Name)
    requires Enabled(d, w, Skip(n))
    ensures Happens(d, w, Apply(d, w, Skip(n)), Move(n, w.steps[n].(status := StepSkipped), Some(StepSkippedEvent(n))))
  {
  }

  lemma ConsumeEffect(d: Dag, w: World, n: Name, i: nat)
    requires StepsOk(d, w.steps) && Enabled(d, w, Consume(n, i))
    ensures Happens(d, w, Apply(d, w, Consume(n, i)),
                    Move(n, w.steps[n].(status := StepCompleted, output := Some(w.signals[i].payload)),
                         Some(StepCompletedBySignalEvent(n, w.signals[i].name))))
  {
    hide FindSignal;
    assert StepOk(d, w.steps, n);
  }

  lemma FinishEffect(d: Dag, w: World, failed: Option<Name>)
    requires Enabled(d, w, Finish(failed))
    ensures Happens(d, w, Apply(d, w, Finish(failed)), RunMove(Verdict(w.steps, failed), VerdictEvent(w.steps, failed)))
  {
  }

  lemma DispatchEffect(d: Dag, w: World, n: Name)
    requires Enabled(d, w, Dispatch(n))
    ensures var k := w.steps[n].attemptCount + 1;
      Happens(d, w, Apply(d, w, Dispatch(n)),
              Move(n, w.steps[n].(status := StepQueued, attemptCount := k), Some(StepDispatchedEvent(n, k))))
  {
  }

  lemma ParkEffect(d: Dag, w: World, n: Name)
    requires Enabled(d, w, Park(n))
    ensures Happens(d, w, Apply(d, w, Park(n)), Move(n, w.steps[n].(status := StepWaiting), None))
  {
    hide FindSignal, DepsCompleted;
  }

  lemma StartEffect(d: Dag, w: World)
    requires Enabled(d, w, Start)
    ensures Happens(d, w, Apply(d, w, Start), RunMove(RunRunning, RunStartedEvent))
  {
  }

  lemma ReconcileEffect(d: Dag, w: World, act: Action) returns (eff: Effect)
    requires StepsOk(d, w.steps) && ReconcileAction(act) && Enabled(d, w, act)
    ensures Happens(d, w, Apply(d, w, act), eff)
  {
    hide Happens, Apply, StepsOk, Blocked, DepsCompleted, AllTerminal, AnyActive, NamesFailure, Verdict, VerdictEvent;
    match act
    case Skip(n) =>
      SkipEffect(d, w, n);
      eff := Move(n, w.steps[n].(status := StepSkipped), Some(StepSkippedEvent(n)));
    case Dispatch(n) =>
      DispatchEffect(d, w, n);
      var k := w.steps[n].attemptCount + 1;
      eff := Move(n, w.steps[n].(status := StepQueued, attemptCount := k), Some(StepDispatchedEvent(n, k)));
    case Park(n) =>
      ParkEffect(d, w, n);
      eff := Move(n, w.steps[n].(status := StepWaiting), None);
    case Consume(n, i) =>
      ConsumeEffect(d, w, n, i);
      eff := Move(n, w.steps[n].(status := StepCompleted, output := Some(w.signals[i].payload)),
                  Some(StepCompletedBySignalEvent(n, w.signals[i].name)));
    case Start =>
      StartEffect(d, w);
      eff := RunMove(RunRunning, RunStartedEvent);
    case Finish(failed) =>
      FinishEffect(d, w, failed);
      eff := RunMove(Verdict(w.steps, failed), VerdictEvent(w.steps, failed));
  }

  lemma BackoffHasBegun(d: Dag, steps: map<Name, Step>, n: Name)
    requires StepsOk(d, steps) && n in d && n in steps && steps[n].status == StepRetryBackoff
    ensures DepsCompleted(d, steps, n)
  {
    assert StepOk(d, steps, n);
  }

  lemma RetryEffect(d: Dag, w: World, t: nat) returns (eff: Effect)
    requires StepsOk(d, w.steps) && Enabled(d, w, Retry(t))
    ensures Happens(d, w, Apply(d, w, Retry(t)), eff)
  {
    hide StepsOk, DepsCompleted;
    var n := w.timers[t].step.value;
    BackoffHasBegun(d, w.steps, n);
    var k := w.steps[n].attemptCount + 1;
    eff := Move(n, w.steps[n].(status := StepQueued, attemptCount := k), Some(StepDispatchedEvent(n, k)));
  }

  lemma DisplayEffect(d: Dag, w: World, n: Name) returns (eff: Effect)
    requires StepsOk(d, w.steps) && Enabled(d, w, Display(n))
    ensures Happens(d, w, Apply(d, w, Display(n)), eff)
  {
    eff := Move(n, w.steps[n].(status := StepRunning), None);
  }

  lemma CallerEffect(d: Dag, w: World, act: Action) returns (eff: Effect)
    requires (act.Deliver? || act.Cancel?) && Enabled(d, w, act)
    ensures Happens(d, w, Apply(d, w, act), eff)
  {
    eff := if act.Cancel? then CancelAll else RunMove(w.run.status, SignalReceivedEvent(act.signal));
  }

  lemma ReportEffect(d: Dag, w: World, act: Action) returns (eff: Effect)
    requires (act.Report? || act.ApplyExpiry?) && Enabled(d, w, act)
    ensures Happens(d, w, Apply(d, w, act), eff)
  {
    hide Outcome, DepsCompleted;
    match act
    case Report(a, _, success, output, due) =>
      eff := OutcomeEffect(d, SetAttempt(w, a, if success then AttemptSucceeded else AttemptFailed), a, success, output, due);
    case ApplyExpiry(a, due) => eff := OutcomeEffect(d, w.(owed := w.owed - {a}), a, false, None, due);
  }

  predicate QuietAction(act: Action) {
    act.Claim? || act.Heartbeat? || act.Expire? || act.FireStale? || act.Publish? || act.MarkPublished?
  }

  lemma QuietEffect(d: Dag, w: World, act: Action)
    requires QuietAction(act) && Enabled(d, w, act)
    ensures Happens(d, w, Apply(d, w, act), Silent)
  {
  }

  lemma OtherEffect(d: Dag, w: World, act: Action) returns (eff: Effect)
    requires StepsOk(d, w.steps) && !ReconcileAction(act) && Enabled(d, w, act)
    ensures Happens(d, w, Apply(d, w, act), eff)
  {
    hide StepsOk, Happens, Enabled, Apply;
    match act
    case Display(n) => eff := DisplayEffect(d, w, n);
    case Retry(t) => eff := RetryEffect(d, w, t);
    case Deliver(_, _) => eff := CallerEffect(d, w, act);
    case Cancel => eff := CallerEffect(d, w, act);
    case Report(_, _, _, _, _) => eff := ReportEffect(d, w, act);
    case ApplyExpiry(_, _) => eff := ReportEffect(d, w, act);
    case _ =>
      QuietEffect(d, w, act);
      eff := Silent;
  }

  /** Every action moves at most one step, by a transition of the state machine, or
      the run, or cancels everything. */
  lemma ActionEffect(d: Dag, w: World, act: Action) returns (eff: Effect)
    requires StepsOk(d, w.steps) && Enabled(d, w, act)
    ensures Happens(d, w, Apply(d, w, act), eff)
  {
    hide Happens, Enabled, Apply;
    if ReconcileAction(act) {
      eff := ReconcileEffect(d, w, act);
    } else {
      eff := OtherEffect(d, w, act);
    }
  }
}
