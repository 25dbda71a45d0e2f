/** The worker-facing side: a claim is a compare-and-swap, then a look at the run, then
    a cosmetic update, each in a transaction of its own. */
module Server {
  import opened Rows
  import opened Dags
  import opened Transitions
  import opened Invariants
  import opened Verdicts
  import opened Ownership
  import opened Storage
  import opened Engines

  /** What a worker that got the attempt is told. */
  datatype Assignment = Assignment(
    step: Name, taskType: string, input: Payload, number: nat, timeoutSeconds: int, leaseExpiresAt: Option<int>)

  datatype ClaimStatus = Claimed(task: Assignment) | AlreadyClaimed | NotFound | RunWasCancelled | InvalidArgument

  /** Never two claims, and none after the end. */
  class WorkerService {
    const q: Store
    const leaseDuration: int

    constructor (store: Store, lease: int)
      ensures q == store && leaseDuration == lease
    {
      q, leaseDuration := store, lease;
    }

    /** The whole call, when nothing comes between its transactions. */
    method ClaimTask(a: nat, key: nat, worker: string, now: int) returns (status: ClaimStatus)
      requires q.Valid()
      modifies q
      ensures q.Valid()
      ensures worker == "" <==> status.InvalidArgument?
      ensures worker != "" ==>
        var act := Claim(a, key, worker, now + leaseDuration);
        var w := old(q.Contents());
        && (status.NotFound? <==> a >= |w.attempts|)
        && (a < |w.attempts| ==> w.attempts[a].step in q.dag)
        && (status.Claimed? || status.RunWasCancelled? <==> Enabled(q.dag, w, act))
        && (status.RunWasCancelled? ==> w.run.status == RunCancelled)
        && (status.Claimed? ==>
              !RunTerminal(w.run.status) && status.task == AssignmentOf(q.dag, Apply(q.dag, w, act).attempts[a]))
        && (if !Enabled(q.dag, w, act) then q.Contents() == w
            else if status.RunWasCancelled? then q.Contents() == Apply(q.dag, w, act)
            else q.Contents() == Shown(Apply(q.dag, w, act), w.attempts[a].step))
      ensures status.Claimed? ==>
        && a < |old(q.attempts)| && a < |old(q.outbox)| && TellsMessage(status.task, old(q.outbox)[a].payload)
        && status.task.leaseExpiresAt == Some(now + leaseDuration)
        && ShowsRunning(old(q.steps), q.steps, old(q.attempts)[a].step)
    {
      hide Reachable, Leads, ValidDag, TellsMessage, ShowsRunning;
      if worker == "" {
        return InvalidArgument;
      }
      ghost var w := q.Contents();
      ghost var act := Claim(a, key, worker, now + leaseDuration);
      if a < |q.attempts| {
        AttemptRow(q.dag, w, a);
        AssignmentMatchesMessage(q.dag, w, a, Some(now + leaseDuration));
      }
      var result, row := q.ClaimTaskAttempt(a, key, worker, now + leaseDuration);
      match result
      case ClaimNotFound => return NotFound;
      case ClaimAlreadyClaimed => return AlreadyClaimed;
      case ClaimOK =>
        LeadsOne(q.dag, w, act);
        StepKeepsReachable(q.dag, w, Apply(q.dag, w, act));
        ClaimableRun(q.dag, w, a);
        status := Answer(a, row.value);
    }

    /** The answer to a successful claim of attempt a, however late it is worked out:
        `attempt` is the copy of its row that the claim handed out. */
    method Answer(ghost a: nat, attempt: Attempt) returns (status: ClaimStatus)
      requires q.Valid() && a < |q.attempts| && q.attempts[a].status != AttemptQueued && SameAttempt(q.attempts[a], attempt)
      modifies q`steps
      ensures q.Valid() && attempt.step in q.dag
      ensures status == if old(q.run).status == RunCancelled then RunWasCancelled else Claimed(AssignmentOf(q.dag, attempt))
      ensures q.Contents() == if status.RunWasCancelled? then old(q.Contents()) else Shown(old(q.Contents()), attempt.step)
      ensures status.Claimed? ==> ShowsRunning(old(q.steps), q.steps, attempt.step)
    {
      hide Reachable, Leads, ValidDag;
      ghost var w := q.Contents();
      AttemptRow(q.dag, w, a);
      if q.run.status == RunCancelled {
        return RunWasCancelled;
      }
      var shown := q.UpdateStepStatus(attempt.step, {StepQueued}, StepRunning, None, false);
      if shown {
        LeadsOne(q.dag, w, Display(attempt.step));
        StepKeepsReachable(q.dag, w, Apply(q.dag, w, Display(attempt.step)));
      }
      var s := q.dag[attempt.step];
      return Claimed(Assignment(attempt.step, s.taskType, s.input, attempt.number, s.timeoutSeconds, attempt.leaseExpiresAt));
    }
  }

  function AssignmentOf(d: Dag, at: Attempt): Assignment
    requires at.step in d
  {
    var s := d[at.step];
    Assignment(at.step, s.taskType, s.input, at.number, s.timeoutSeconds, at.leaseExpiresAt)
  }

  /** The worker is told what the message of the attempt says. */
  predicate TellsMessage(task: Assignment, payload: TaskPayload) {
    && task.step == payload.step && task.taskType == payload.taskType && task.input == payload.input
    && task.number == payload.number && task.timeoutSeconds == payload.timeoutSeconds
  }

  /** Whatever lease it is given, an attempt is assigned as its message announced it. */
  lemma AssignmentMatchesMessage(d: Dag, w: World, a: nat, until: Option<int>)
    requires ValidDag(d) && Reachable(d, w) && a < |w.attempts|
    ensures w.attempts[a].step in d && a < |w.outbox| && w.outbox[a].payload.attempt == a
    ensures forall at :: SameAttempt(w.attempts[a], at) && at.leaseExpiresAt == until ==>
      TellsMessage(AssignmentOf(d, at), w.outbox[a].payload) && AssignmentOf(d, at).leaseExpiresAt == until
  {
    OutboxMatchesAttempts(d, w, a);
  }

  /** Step n is RUNNING if it was QUEUED; nothing else is different. */
  ghost predicate ShowsRunning(before: map<Name, Step>, after: map<Name, Step>, n: Name) {
    && after.Keys == before.Keys
    && forall m :: m in before ==>
         after[m] == if m == n && before[m].status == StepQueued then before[m].(status := StepRunning) else before[m]
  }

  /** The step is shown as running if it was still queued. */
  function Shown(w: World, n: Name): World {
    if n in w.steps && w.steps[n].status == StepQueued then SetStatus(w, n, StepRunning) else w
  }

  /** An attempt can be claimed only while the run is live or after it was cancelled. */
  lemma ClaimableRun(d: Dag, w: World, a: nat)
    requires ValidDag(d) && Reachable(d, w) && a < |w.attempts| && w.attempts[a].status == AttemptQueued
    ensures RunTerminal(w.run.status) ==> w.run.status == RunCancelled
  {
    hide Reachable, ValidDag, TimersOk, OutboxOk, SignalsOk;
    ReachableInv(d, w);
    LiveAttempt(d, w.steps, w.attempts, w.owed, a);
    LiveRunHasNoCancelledStep(d, w, w.attempts[a].step);
  }

  lemma TerminalStays(d: Dag, w: World, w': World)
    requires ValidDag(d) && Reachable(d, w) && RunTerminal(w.run.status) && Leads(d, w, w')
    ensures w'.run.status == w.run.status
  {
    ReachableInv(d, w);
    hide Inv, Reachable;
    var tr :| Valid(d, w, tr) && After(d, w, tr) == w';
    TerminalRunFrozen(d, w, tr);
  }

  /** No claim after the end: whatever happens between the end of the run, the claim and
      the look at the run, a claim that succeeds finds the run cancelled and is answered
      so; in a run that completed or failed no claim succeeds at all. */
  lemma NoClaimAfterEnd(d: Dag, w: World, w1: World, act: Action, w2: World)
    requires ValidDag(d) && Reachable(d, w) && RunTerminal(w.run.status)
    requires Leads(d, w, w1) && act.Claim? && Enabled(d, w1, act) && Leads(d, Apply(d, w1, act), w2)
    ensures w.run.status == RunCancelled && w2.run.status == RunCancelled
  {
    hide Reachable, Leads, ValidDag;
    StepKeepsReachable(d, w, w1);
    TerminalStays(d, w, w1);
    ClaimableRun(d, w1, act.a);
    LeadsOne(d, w1, act);
    LeadsTransitive(d, w1, Apply(d, w1, act), w2);
    LeadsTransitive(d, w, w1, w2);
    TerminalStays(d, w, w2);
  }
}
