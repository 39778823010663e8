/** Allowlisted execution states, and the rows of the execution ledger. */
module ExecutionTypes {
  import opened Common
  import opened RegistryTypes

  /** Microseconds since the epoch, read from the database clock. */
  type Time = int

  const SECOND: int := 1_000_000
  const DAY: int := 86_400 * SECOND

  datatype RunStatus =
    | Queued | Preparing | SessionFenced | DispatchFenced
    | Succeeded | Failed | Cancelled | TimedOut | Indeterminate
  {
    predicate Terminal() { Succeeded? || Failed? || Cancelled? || TimedOut? || Indeterminate? }

    /** The statuses an attempt has while its worker may still act. */
    predicate Live() { Preparing? || SessionFenced? || DispatchFenced? }
  }

  datatype JobStatus = JobQueued | JobLeased | JobDone(outcome: RunStatus)

  datatype EventType =
    | Admitted | AttemptStarted | SessionFence | DispatchFence | LeaseLost
    | CancelRequested | Ended | ContentExpired | RestoreReconciled

  datatype FailureCode =
    | WorkerLostBeforeDispatch | WorkerLostAfterDispatch | DeadlineExceeded
    | CancelledBeforeDispatch | RestoreReconciliation | ContentRetentionDeadline
    | PreparationFailed | SessionInitializationFailed | ToolCallFailed
    | InvalidToolResult | UnsupportedToolResult | SensitiveToolResult
    | UpstreamOutcomeUnknown

  datatype ErrorCode =
    | CapabilityUnavailable | InvalidArguments | InvalidConfirmation | ConfirmationExpired
    | ConfirmationReplayed | IdempotencyConflict | IdempotencyHistoryIncomplete
    | ConfirmationHistoryIncomplete | DispatchQuarantined | ActiveRunLimit
    | LeaseLostError | InvalidTransition

  datatype Attempt = Attempt(
    sequence: nat,
    leaseEpoch: nat,
    status: RunStatus,
    code: Option<FailureCode>,
    startedAt: Time,
    terminalAt: Option<Time>)

  datatype Event = Event(
    sequence: nat,
    kind: EventType,
    status: RunStatus,
    code: Option<FailureCode>,
    occurredAt: Time)

  datatype Job = Job(
    executionEpoch: nat,
    status: JobStatus,
    owner: Option<Id>,
    leaseEpoch: nat,
    expiresAt: Option<Time>,
    availableAt: Time,
    deadline: Time,
    createdAt: Time,
    completedAt: Option<Time>)

  /** The lineage and epochs an admitted run is bound to for its whole life. */
  datatype Pins = Pins(
    capability: Id,
    capabilityVersion: Id,
    connection: Id,
    connectionVersion: Id,
    controlEpoch: nat,
    statusEpoch: nat,
    protocol: string)

  /** A run with its one job, its attempts and its event log. */
  datatype Run = Run(
    workspace: Id,
    actor: Id,
    pins: Pins,
    status: RunStatus,
    code: Option<FailureCode>,
    argumentsKept: bool,
    argumentsExpireAt: Time,
    deadline: Time,
    cancellationRequested: bool,
    createdAt: Time,
    updatedAt: Time,
    terminalAt: Option<Time>,
    job: Job,
    attempts: seq<Attempt>,
    events: seq<Event>)

  /** What a worker holds after a claim: its fencing token. */
  datatype Lease = Lease(run: Id, worker: Id, leaseEpoch: nat, executionEpoch: nat)

  datatype Limits = Limits(
    confirmationTtlSeconds: int,
    maxRunSeconds: int,
    argumentRetentionDays: int,
    runRetentionDays: int,
    maxHistoricalKeys: nat,
    reconciliationBatch: nat,
    maxActiveRuns: nat)
  {
    /** The bounds checked when the limits are built. */
    predicate Valid() {
      && 1 <= confirmationTtlSeconds <= 300
      && maxRunSeconds > 0
      && 1 <= argumentRetentionDays <= 14
      && runRetentionDays >= argumentRetentionDays
      && 1 <= maxHistoricalKeys <= 16
      && 1 <= reconciliationBatch <= 1000
      && 1 <= maxActiveRuns <= 100
    }
  }
}
