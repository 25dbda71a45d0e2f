/** Where the output of a step comes from: for a task the accepted report of its last
    attempt, for a signal_wait step the delivery of a signal it waits for. */
module Results {
  import opened Rows
  import opened Dags
  import opened Transitions
  import opened Invariants
  import opened Effects
  import opened Evaluator
  import opened Ownership

  /** The row of n, not completed, is a task's. */
  predicate OpenTask(d: Dag, w: World, n: Name) {
    n in d && n in w.steps && !SignalWait(d, n) && w.steps[n].status != StepCompleted && w.steps[n].status != StepWaiting
  }

  lemma PassCompletesNoTask(d: Dag, w: World, act: Action, n: Name)
    requires OpenTask(d, w, n) && ReconcileAction(act) && Enabled(d, w, act)
    ensures n in Apply(d, w, act).steps && Apply(d, w, act).steps[n].status != StepCompleted
  {
    hide FindSignal, Blocked, DepsCompleted, CancelTimers, Outputs, AllTerminal, AnyActive, NamesFailure, Verdict, VerdictEvent;
  }

  lemma FailureCompletesNoTask(d: Dag, w: World, act: Action, n: Name)
    requires OpenTask(d, w, n) && Enabled(d, w, act) && ((act.Report? && !act.success) || act.ApplyExpiry?)
    ensures n in Apply(d, w, act).steps && Apply(d, w, act).steps[n].status != StepCompleted
  {
    hide Outcome;
    match act
    case Report(a, _, success, output, due) => OutcomeShape(d, SetAttempt(w, a, AttemptFailed), a, false, output, due);
    case ApplyExpiry(a, due) => OutcomeShape(d, w.(owed := w.owed - {a}), a, false, None, due);
  }

  lemma RestCompletesNoTask(d: Dag, w: World, act: Action, n: Name)
    requires OpenTask(d, w, n) && Enabled(d, w, act) && !ReconcileAction(act) && !act.Report? && !act.ApplyExpiry?
    ensures n in Apply(d, w, act).steps && Apply(d, w, act).steps[n].status != StepCompleted
  {
    hide FindSignal, DepsCompleted, CancelTimers;
  }

  lemma OthersCompleteNoTask(d: Dag, w: World, act: Action, n: Name)
    requires OpenTask(d, w, n) && Enabled(d, w, act) && !(act.Report? && act.success)
    ensures n in Apply(d, w, act).steps && Apply(d, w, act).steps[n].status != StepCompleted
  {
    hide Enabled, Apply, OpenTask;
    if ReconcileAction(act) {
      PassCompletesNoTask(d, w, act, n);
    } else if act.Report? || act.ApplyExpiry? {
      FailureCompletesNoTask(d, w, act, n);
    } else {
      RestCompletesNoTask(d, w, act, n);
    }
  }

  lemma ReportCompletesOwn(d: Dag, w: World, act: Action, n: Name)
    requires Inv(d, w) && Enabled(d, w, act) && act.Report? && act.success && n in d
    requires w.steps[n].status != StepCompleted && n in Apply(d, w, act).steps && Apply(d, w, act).steps[n].status == StepCompleted
    ensures Reported(Apply(d, w, act), act, n)
  {
    hide TimersOk, OutboxOk, SignalsOk, RunOk, Outcome, NoGaps, NumbersUnique;
    LiveAttempt(d, w.steps, w.attempts, w.owed, act.a);
    assert StepOk(d, w.steps, n);
    OutcomeShape(d, SetAttempt(w, act.a, AttemptSucceeded), act.a, true, act.output, act.due);
  }

  /** Completing a task step takes an accepted report of its current attempt, and leaves
      the reported output. */
  lemma OnlyReportsComplete(d: Dag, w: World, act: Action, n: Name)
    requires Inv(d, w) && Enabled(d, w, act) && n in d && !SignalWait(d, n)
    requires w.steps[n].status != StepCompleted && n in Apply(d, w, act).steps && Apply(d, w, act).steps[n].status == StepCompleted
    ensures Reported(Apply(d, w, act), act, n)
  {
    hide Enabled, Apply, Reported, AttemptsOk, TimersOk, OutboxOk, SignalsOk, RunOk;
    if act.Report? && act.success {
      ReportCompletesOwn(d, w, act, n);
    } else {
      assert StepOk(d, w.steps, n);
      OthersCompleteNoTask(d, w, act, n);
    }
  }

  /** A terminal row is never written again. */
  lemma TerminalRowStays(d: Dag, w: World, act: Action, n: Name)
    requires StepsOk(d, w.steps) && Enabled(d, w, act) && n in d && StepTerminal(w.steps[n].status)
    ensures n in Apply(d, w, act).steps && Apply(d, w, act).steps[n] == w.steps[n]
  {
    hide Enabled, Apply, StepOk;
    var eff := ActionEffect(d, w, act);
    hide DepsCompleted, Logs, RunEventOk;
  }

  /** The accepted report behind the output of step n in w. */
  ghost predicate Reported(w: World, act: Action, n: Name) {
    && act.Report? && act.success && act.a < |w.attempts| && n in w.steps
    && w.attempts[act.a].step == n && w.attempts[act.a].number == w.steps[n].attemptCount
    && w.attempts[act.a].status == AttemptSucceeded && w.steps[n].output == act.output
  }

  /** In any run, the output of a completed task step is the one in an accepted report of
      its attempt number AttemptCount. */
  lemma {:induction false} CompletedTaskWasReported(d: Dag, tr: seq<Action>, n: Name) returns (i: nat)
    requires ValidDag(d) && Valid(d, Created(d), tr) && n in d && !SignalWait(d, n)
    requires n in After(d, Created(d), tr).steps && After(d, Created(d), tr).steps[n].status == StepCompleted
    ensures i < |tr| && Reported(After(d, Created(d), tr), tr[i], n)
    decreases |tr|
  {
    hide Enabled, Apply, ValidDag, TimersOk, OutboxOk, SignalsOk, RunOk, NoGaps, NumbersUnique, AttemptOk, StepOk;
    CreatedInv(d);
    if tr == [] {
      NothingCompletedYet(d, n);
    } else {
      var k := |tr| - 1;
      var w, act := After(d, Created(d), tr[..k]), tr[k];
      TraceKeeps(d, Created(d), tr[..k]);
      if w.steps[n].status == StepCompleted {
        i := CompletedTaskWasReported(d, tr[..k], n);
        TerminalRowStays(d, w, act, n);
        ActionKeepsOver(d, w, act, tr[i].a);
      } else {
        i := k;
        OnlyReportsComplete(d, w, act, n);
      }
    }
  }

  lemma NothingCompletedYet(d: Dag, n: Name)
    requires n in Created(d).steps
    ensures Created(d).steps[n].status == StepPending
  {
  }

  /** And no other report of that step was accepted as a success. */
  lemma OneReportedSuccess(d: Dag, w: World, n: Name, a: nat)
    requires ValidDag(d) && Reachable(d, w) && a < |w.attempts| && w.attempts[a].step == n && w.attempts[a].status == AttemptSucceeded
    ensures n in w.steps && w.attempts[a].number == w.steps[n].attemptCount
    ensures forall b :: 0 <= b < |w.attempts| && w.attempts[b].step == n && w.attempts[b].status == AttemptSucceeded ==> b == a
  {
    hide Reachable, ValidDag, TimersOk, OutboxOk, SignalsOk, RunOk, NoGaps, StepsOk;
    ReachableInv(d, w);
    assert AttemptOk(d, w.steps, w.attempts, w.owed, a);
    forall b | 0 <= b < |w.attempts| && w.attempts[b].step == n && w.attempts[b].status == AttemptSucceeded ensures b == a {
      assert AttemptOk(d, w.steps, w.attempts, w.owed, b);
    }
  }

  // -------------------------------------------------------------- signal waits

  /** The names and payloads delivered along a trace, in order. */
  function Delivered(tr: seq<Action>): seq<(string, Payload)> {
    if tr == [] then []
    else
      var last := tr[|tr| - 1];
      Delivered(tr[..|tr| - 1]) + if last.Deliver? then [(last.signal, last.payload)] else []
  }

  /** The stored signals are those, in that order. */
  predicate Stores(signals: seq<Signal>, sent: seq<(string, Payload)>) {
    && |signals| == |sent|
    && forall i :: 0 <= i < |signals| ==> signals[i].name == sent[i].0 && signals[i].payload == sent[i].1
  }

  lemma PassStoresSame(d: Dag, w: World, act: Action, sent: seq<(string, Payload)>)
    requires Stores(w.signals, sent) && Enabled(d, w, act) && ReconcileAction(act)
    ensures Stores(Apply(d, w, act).signals, sent)
  {
    hide Blocked, DepsCompleted, CancelTimers, Outputs, AllTerminal, AnyActive, NamesFailure, Verdict, VerdictEvent;
  }

  lemma OthersStoreSame(d: Dag, w: World, act: Action)
    requires Enabled(d, w, act) && !ReconcileAction(act) && !act.Deliver?
    ensures Apply(d, w, act).signals == w.signals
  {
    hide FindSignal, Blocked, DepsCompleted, CancelTimers, CancelSteps;
  }

  lemma DeliveryStores(d: Dag, w: World, act: Action, sent: seq<(string, Payload)>)
    requires Stores(w.signals, sent) && Enabled(d, w, act) && act.Deliver?
    ensures Stores(Apply(d, w, act).signals, sent + [(act.signal, act.payload)])
  {
  }

  /** In any run, the stored signals are those delivered, in order of delivery, whether
      or not a step has taken them since. */
  lemma {:induction false} SignalsAreDeliveries(d: Dag, tr: seq<Action>)
    requires Valid(d, Created(d), tr)
    ensures Stores(After(d, Created(d), tr).signals, Delivered(tr))
    decreases |tr|
  {
    hide Enabled, Apply;
    if tr != [] {
      var k := |tr| - 1;
      var w, act := After(d, Created(d), tr[..k]), tr[k];
      SignalsAreDeliveries(d, tr[..k]);
      hide Stores;
      if ReconcileAction(act) {
        PassStoresSame(d, w, act, Delivered(tr[..k]));
        assert Delivered(tr) == Delivered(tr[..k]);
      } else if act.Deliver? {
        DeliveryStores(d, w, act, Delivered(tr[..k]));
      } else {
        OthersStoreSame(d, w, act);
        assert Delivered(tr) == Delivered(tr[..k]);
      }
    }
  }

  lemma {:induction false} DeliveryOf(tr: seq<Action>, k: nat) returns (i: nat)
    requires k < |Delivered(tr)|
    ensures i < |tr| && tr[i].Deliver? && (tr[i].signal, tr[i].payload) == Delivered(tr)[k]
    decreases |tr|
  {
    var front := tr[..|tr| - 1];
    if k < |Delivered(front)| {
      i := DeliveryOf(front, k);
    } else {
      i := |tr| - 1;
    }
  }

  /** In any run, the output of a completed signal_wait step is the payload of a delivery
      under the name the step waits for: the one of its input, or else its own. */
  lemma CompletedWaitWasDelivered(d: Dag, tr: seq<Action>, n: Name) returns (i: nat)
    requires ValidDag(d) && Valid(d, Created(d), tr) && n in d && SignalWait(d, n)
    requires n in After(d, Created(d), tr).steps && After(d, Created(d), tr).steps[n].status == StepCompleted
    ensures i < |tr| && tr[i].Deliver? && tr[i].signal == (if d[n].signalName == "" then n else d[n].signalName)
    ensures After(d, Created(d), tr).steps[n].output == Some(tr[i].payload)
  {
    hide Enabled, Apply, ValidDag, Valid, After, Created;
    var w := After(d, Created(d), tr);
    assert Reachable(d, w);
    hide Reachable;
    var k := CompletedWaitConsumedOne(d, w, n);
    SignalsAreDeliveries(d, tr);
    i := DeliveryOf(tr, k);
  }
}
