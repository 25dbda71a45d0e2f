/** The rows of the store for one workflow run, and the status enumerations. */
module Rows {

  type Name = string
  type Payload = string

  datatype Option<+T> = None | Some(value: T)

  datatype RunStatus = RunPending | RunRunning | RunCompleted | RunFailed | RunCancelled

  datatype StepStatus =
    | StepPending | StepReady | StepQueued | StepRunning | StepRetryBackoff
    | StepCompleted | StepFailed | StepSkipped | StepCancelled | StepWaiting

  datatype AttemptStatus =
    | AttemptQueued | AttemptLeased | AttemptSucceeded | AttemptFailed | AttemptExpired | AttemptAbandoned

  datatype TimerKind = TimerRetryBackoff | TimerStepTimeout | TimerUser

  datatype TimerStatus = TimerPending | TimerFired | TimerCancelled

  predicate StepTerminal(s: StepStatus) {
    s == StepCompleted || s == StepFailed || s == StepSkipped || s == StepCancelled
  }

  predicate RunTerminal(s: RunStatus) {
    s == RunCompleted || s == RunFailed || s == RunCancelled
  }

  const SIGNAL_WAIT := "signal_wait"

  /** The signal name that cancels a run and is never stored. */
  const CANCEL_SIGNAL := "__cancel__"

  /** The columns of a step that no update touches. `signalName` is the
      `signal_name` member of the decoded input, empty when it has none. */
  datatype NewStep = NewStep(
    taskType: string,
    dependsOn: seq<Name>,
    input: Payload,
    signalName: string,
    maxAttempts: int,
    initialBackoffMS: int,
    backoffMultiplier: real,
    maxBackoffMS: int,
    timeoutSeconds: int)

  /** The static columns of all steps of a run, by step name. */
  type Dag = map<Name, NewStep>

  /** The columns of a step that updates change. */
  datatype Step = Step(status: StepStatus, attemptCount: nat, output: Option<Payload>)

  datatype Run = Run(
    status: RunStatus,
    output: Option<map<Name, Option<Payload>>>,
    failedStep: Option<Name>,
    historySeq: nat)

  /** A dispatch of a step; its id is its position in the table.  Times are in milliseconds. */
  datatype Attempt = Attempt(
    step: Name,
    number: nat,
    idempotencyKey: nat,
    status: AttemptStatus,
    queueName: string,
    leaseOwner: Option<string>,
    leaseExpiresAt: Option<int>)

  datatype TaskPayload = TaskPayload(
    attempt: nat,
    step: Name,
    taskType: string,
    input: Payload,
    number: nat,
    idempotencyKey: nat,
    timeoutSeconds: int)

  datatype OutboxMessage = OutboxMessage(
    aggregate: nat,
    streamName: string,
    payload: TaskPayload,
    published: bool)

  /** What a relay hands to the queue. */
  datatype Message = Message(streamName: string, payload: TaskPayload)

  datatype Timer = Timer(kind: TimerKind, step: Option<Name>, status: TimerStatus, fireAt: int)

  /** Signals are kept in the order they were received. */
  datatype Signal = Signal(name: string, payload: Payload, processed: bool)

  datatype Event =
    | RunCreatedEvent(steps: nat)
    | RunStartedEvent
    | RunCompletedEvent
    | RunFailedEvent(failed: Name)
    | RunCancelledEvent
    | SignalReceivedEvent(signal: string)
    | StepSkippedEvent(step: Name)
    | StepDispatchedEvent(step: Name, attempt: nat)
    | StepCompletedEvent(step: Name, attempt: nat)
    | StepCompletedBySignalEvent(step: Name, signal: string)
    | StepRetryScheduledEvent(step: Name, attempt: nat)
    | StepFailedEvent(step: Name, attempt: nat)

  datatype HistoryEvent = HistoryEvent(seqNo: nat, event: Event)

  /** Everything a run is made of.  The first seven fields are the database.
      `stream` is what the queue has accepted so far.  `owed` holds the attempts
      that were marked expired and whose outcome has not been applied, whether the
      reaper still holds them in memory or died with them.  `consumer` records
      which step consumed which signal. */
  datatype World = World(
    run: Run,
    steps: map<Name, Step>,
    attempts: seq<Attempt>,
    outbox: seq<OutboxMessage>,
    timers: seq<Timer>,
    signals: seq<Signal>,
    history: seq<HistoryEvent>,
    stream: seq<Message>,
    owed: set<nat>,
    consumer: map<nat, Name>)
}
