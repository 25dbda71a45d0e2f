/** The history of a run: numbering, order, and that replaying it gives the state back. */
module Histories {
  import opened Rows
  import opened Dags
  import opened Transitions
  import opened Invariants
  import opened Effects

  // ------------------------------------------------------------------- replay

  datatype Seen = Seen(status: StepStatus, attempts: nat)

  datatype Replayed = Replayed(run: RunStatus, steps: map<Name, Seen>)

  /** The history does not record when a worker picks a step up or a step starts to wait. */
  function Coarse(s: StepStatus): StepStatus {
    match s
    case StepRunning => StepQueued
    case StepWaiting => StepPending
    case _ => s
  }

  function SetSeen(r: Replayed, n: Name, s: StepStatus): Replayed {
    if n in r.steps then r.(steps := r.steps[n := r.steps[n].(status := s)]) else r
  }

  function ReplayEvent(r: Replayed, e: Event): Replayed {
    match e
    case RunCreatedEvent(_) => r
    case RunStartedEvent => r.(run := RunRunning)
    case RunCompletedEvent => r.(run := RunCompleted)
    case RunFailedEvent(_) => r.(run := RunFailed)
    case RunCancelledEvent =>
      Replayed(RunCancelled,
               map n | n in r.steps :: if StepTerminal(r.steps[n].status) then r.steps[n] else r.steps[n].(status := StepCancelled))
    case SignalReceivedEvent(_) => r
    case StepSkippedEvent(n) => SetSeen(r, n, StepSkipped)
    case StepDispatchedEvent(n, k) => r.(steps := r.steps[n := Seen(StepQueued, k)])
    case StepCompletedEvent(n, _) => SetSeen(r, n, StepCompleted)
    case StepCompletedBySignalEvent(n, _) => SetSeen(r, n, StepCompleted)
    case StepRetryScheduledEvent(n, _) => SetSeen(r, n, StepRetryBackoff)
    case StepFailedEvent(n, _) => SetSeen(r, n, StepFailed)
  }

  /** Fold the events over the definition. */
  function Replay(d: Dag, h: seq<HistoryEvent>): Replayed {
    if h == [] then Replayed(RunPending, map n | n in d :: Seen(StepPending, 0))
    else ReplayEvent(Replay(d, h[..|h| - 1]), h[|h| - 1].event)
  }

  function SeenSteps(steps: map<Name, Step>): map<Name, Seen> {
    map n | n in steps :: Seen(Coarse(steps[n].status), steps[n].attemptCount)
  }

  function View(w: World): Replayed {
    Replayed(w.run.status, SeenSteps(w.steps))
  }

  lemma SeenUpdate(steps: map<Name, Step>, n: Name, s: Step)
    requires n in steps
    ensures SeenSteps(steps[n := s]) == SeenSteps(steps)[n := Seen(Coarse(s.status), s.attemptCount)]
  {
  }

  lemma SeenCancel(steps: map<Name, Step>)
    ensures var r := SeenSteps(steps);
      SeenSteps(CancelSteps(steps)) ==
      map n | n in r :: if StepTerminal(r[n].status) then r[n] else r[n].(status := StepCancelled)
  {
    var r := SeenSteps(steps);
    var r' := map n | n in r :: if StepTerminal(r[n].status) then r[n] else r[n].(status := StepCancelled);
    forall n | n in steps ensures SeenSteps(CancelSteps(steps))[n] == r'[n] {
      assert StepTerminal(steps[n].status) <==> StepTerminal(Coarse(steps[n].status));
    }
    assert r'.Keys == steps.Keys;
  }

  lemma ReplayLog(d: Dag, w: World, e: Event)
    ensures Replay(d, Log(w, e).history) == ReplayEvent(Replay(d, w.history), e)
  {
    var h := Log(w, e).history;
    assert h[..|h| - 1] == w.history;
  }

  ghost predicate ReplaysOk(d: Dag, w: World) {
    Replay(d, w.history) == View(w)
  }

  lemma MoveSeen(d: Dag, steps: map<Name, Step>, n: Name, s: Step, e: Option<Event>, run: RunStatus)
    requires n in d && n in steps && StepMove(d, steps, n, s, e) && steps[n].status != StepReady
    ensures
      var r, seen := Replayed(run, SeenSteps(steps)), Seen(Coarse(s.status), s.attemptCount);
      if e.Some? then ReplayEvent(r, e.value) == r.(steps := r.steps[n := seen]) else r.steps[n] == seen
  {
  }

  lemma MoveReplays(d: Dag, w: World, w': World, n: Name, s: Step, e: Option<Event>)
    requires ReplaysOk(d, w) && n in w.steps && w.steps[n].status != StepReady && Happens(d, w, w', Move(n, s, e))
    ensures ReplaysOk(d, w')
  {
    SeenUpdate(w.steps, n, s);
    MoveSeen(d, w.steps, n, s, e, w.run.status);
    if e.Some? {
      ReplayLog(d, w, e.value);
    } else {
      assert View(w').steps == View(w).steps;
    }
  }

  lemma RunMoveReplays(d: Dag, w: World, w': World, status: RunStatus, e: Event)
    requires ReplaysOk(d, w) && Happens(d, w, w', RunMove(status, e))
    ensures ReplaysOk(d, w')
  {
    ReplayLog(d, w, e);
    if e.RunCancelledEvent? {
      assert ReplayEvent(View(w), e).steps == View(w).steps;
    }
  }

  lemma EffectReplays(d: Dag, w: World, w': World, eff: Effect)
    requires ReplaysOk(d, w) && StepsOk(d, w.steps) && Happens(d, w, w', eff)
    ensures ReplaysOk(d, w')
  {
    match eff
    case Silent =>
    case Move(n, s, e) =>
      assert StepOk(d, w.steps, n);
      MoveReplays(d, w, w', n, s, e);
    case RunMove(status, e) => RunMoveReplays(d, w, w', status, e);
    case CancelAll =>
      ReplayLog(d, w, RunCancelledEvent);
      SeenCancel(w.steps);
  }

  // ---------------------------------------------------------- numbers and order

  ghost predicate Numbered(w: World) {
    && |w.history| == w.run.historySeq
    && forall i :: 0 <= i < |w.history| ==> w.history[i].seqNo == i + 1
  }

  predicate Completes(e: Event, n: Name) {
    (e.StepCompletedEvent? && e.step == n) || (e.StepCompletedBySignalEvent? && e.step == n)
  }

  /** The event sets n to work: a dispatch, or a completion by signal. */
  predicate Begins(e: Event, n: Name) {
    (e.StepDispatchedEvent? && e.step == n) || (e.StepCompletedBySignalEvent? && e.step == n)
  }

  ghost predicate CompletedBefore(h: seq<HistoryEvent>, i: int, n: Name) {
    exists j :: 0 <= j < i && j < |h| && Completes(h[j].event, n)
  }

  ghost predicate OrderOk(d: Dag, h: seq<HistoryEvent>) {
    forall i, n, dep :: 0 <= i < |h| && n in d && Begins(h[i].event, n) && dep in d[n].dependsOn ==> CompletedBefore(h, i, dep)
  }

  ghost predicate CompletionsLogged(w: World) {
    forall n :: n in w.steps && w.steps[n].status == StepCompleted ==> CompletedBefore(w.history, |w.history|, n)
  }

  ghost predicate LogOk(d: Dag, w: World) {
    Numbered(w) && OrderOk(d, w.history) && CompletionsLogged(w)
  }

  /** Any change that appends at most one event keeps the log in order, provided the
      event begins only steps whose dependencies are completed and every newly
      completed step is the one the event completes. */
  lemma LogExtends(d: Dag, w: World, w': World, e: Event)
    requires LogOk(d, w)
    requires w'.history == Log(w, e).history && w'.run.historySeq == w.run.historySeq + 1
    requires forall n :: n in d && Begins(e, n) ==> DepsCompleted(d, w.steps, n)
    requires forall n :: n in w'.steps && w'.steps[n].status == StepCompleted ==>
               (n in w.steps && w.steps[n].status == StepCompleted) || Completes(e, n)
    ensures LogOk(d, w')
  {
    var h, h' := w.history, w'.history;
    forall i, n | CompletedBefore(h, i, n) ensures CompletedBefore(h', i, n) {
      var j :| 0 <= j < i && j < |h| && Completes(h[j].event, n);
      assert h'[j] == h[j];
    }
    forall i, n, dep | 0 <= i < |h'| && n in d && Begins(h'[i].event, n) && dep in d[n].dependsOn
      ensures CompletedBefore(h', i, dep)
    {
      if i < |h| {
        assert CompletedBefore(h, i, dep);
      } else {
        assert CompletedBefore(h, |h|, dep);
      }
    }
    forall n | n in w'.steps && w'.steps[n].status == StepCompleted ensures CompletedBefore(h', |h'|, n) {
      if Completes(e, n) {
        assert Completes(h'[|h|].event, n);
      } else {
        assert CompletedBefore(h, |h|, n);
        var j :| 0 <= j < |h| && Completes(h[j].event, n);
        assert Completes(h'[j].event, n);
      }
    }
  }

  lemma EffectLogs(d: Dag, w: World, w': World, eff: Effect)
    requires LogOk(d, w) && Happens(d, w, w', eff)
    ensures LogOk(d, w')
  {
    match eff
    case Silent =>
    case Move(_, _, e) =>
      if e.Some? {
        LogExtends(d, w, w', e.value);
      }
    case RunMove(_, e) => LogExtends(d, w, w', e);
    case CancelAll => LogExtends(d, w, w', RunCancelledEvent);
  }

  // --------------------------------------------------------------- whole runs

  lemma CreatedHistory(d: Dag)
    ensures ReplaysOk(d, Created(d)) && LogOk(d, Created(d))
  {
    var h := Created(d).history;
    assert h[..0] == [];
    assert Replay(d, h) == ReplayEvent(Replay(d, []), RunCreatedEvent(|d|));
  }

  lemma {:induction false} TraceHistory(d: Dag, w: World, tr: seq<Action>)
    requires ValidDag(d) && Inv(d, w) && ReplaysOk(d, w) && LogOk(d, w) && Valid(d, w, tr)
    ensures ReplaysOk(d, After(d, w, tr)) && LogOk(d, After(d, w, tr))
    decreases |tr|
  {
    if tr != [] {
      var k := |tr| - 1;
      TraceHistory(d, w, tr[..k]);
      TraceKeeps(d, w, tr[..k]);
      var before := After(d, w, tr[..k]);
      var eff := ActionEffect(d, before, tr[k]);
      EffectReplays(d, before, After(d, w, tr), eff);
      EffectLogs(d, before, After(d, w, tr), eff);
    }
  }

  /** Replaying the history of any reachable run gives back its status, every attempt
      count, and every step status up to what the history does not record; the events
      are numbered 1 to HistorySeq. */
  lemma HistoryReconstructsRun(d: Dag, w: World)
    requires ValidDag(d) && Reachable(d, w)
    ensures Replay(d, w.history) ==
            Replayed(w.run.status, map n | n in w.steps :: Seen(Coarse(w.steps[n].status), w.steps[n].attemptCount))
    ensures |w.history| == w.run.historySeq && forall i :: 0 <= i < |w.history| ==> w.history[i].seqNo == i + 1
  {
    CreatedInv(d);
    CreatedHistory(d);
    var tr :| Valid(d, Created(d), tr) && After(d, Created(d), tr) == w;
    TraceHistory(d, Created(d), tr);
  }

  /** A dispatch, or a completion by signal, is recorded after the completion of every dependency. */
  lemma DispatchesFollowCompletions(d: Dag, w: World, i: nat, n: Name, dep: Name) returns (j: nat)
    requires ValidDag(d) && Reachable(d, w) && i < |w.history| && n in d && dep in d[n].dependsOn
    requires w.history[i].event.StepDispatchedEvent? || w.history[i].event.StepCompletedBySignalEvent?
    requires w.history[i].event.step == n
    ensures j < i
    ensures w.history[j].event.StepCompletedEvent? || w.history[j].event.StepCompletedBySignalEvent?
    ensures w.history[j].event.step == dep
  {
    CreatedInv(d);
    CreatedHistory(d);
    var tr :| Valid(d, Created(d), tr) && After(d, Created(d), tr) == w;
    TraceHistory(d, Created(d), tr);
    assert Begins(w.history[i].event, n);
    assert CompletedBefore(w.history, i, dep);
    j :| 0 <= j < i && j < |w.history| && Completes(w.history[j].event, dep);
  }
}
