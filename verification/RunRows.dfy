/**
  What one transaction may do to one run together with its job, attempts and event
  log, and the lockstep invariant every such change keeps.
*/
module RunRows {
  import opened Common
  import opened RegistryTypes
  import opened ExecutionTypes

  // ---------- the event log ----------

  predicate Numbered(events: seq<Event>) {
    forall i | 0 <= i < |events| :: events[i].sequence == i + 1
  }

  /** `max(sequence)` over an event table, 0 when it is empty. */
  function MaxSequence(events: seq<Event>): nat {
    if events == [] then 0
    else
      var last := events[|events| - 1].sequence;
      var rest := MaxSequence(events[..|events| - 1]);
      if last > rest then last else rest
  }

  lemma {:induction false} NumberedMax(events: seq<Event>)
    requires Numbered(events)
    ensures MaxSequence(events) == |events|
  {
    if events != [] {
      NumberedMax(events[..|events| - 1]);
    }
  }

  predicate Fenced(events: seq<Event>) {
    exists i | 0 <= i < |events| :: events[i].kind.DispatchFence?
  }

  predicate FencedOnce(events: seq<Event>) {
    forall i, j | 0 <= i < j < |events| ::
      !(events[i].kind.DispatchFence? && events[j].kind.DispatchFence?)
  }

  function Append(run: Run, kind: EventType, status: RunStatus, code: Option<FailureCode>, now: Time): Run {
    run.(events := run.events + [Event(|run.events| + 1, kind, status, code, now)])
  }

  lemma AppendFenced(run: Run, kind: EventType, status: RunStatus, code: Option<FailureCode>, now: Time)
    ensures var events := Append(run, kind, status, code, now).events;
            && (Fenced(events) <==> Fenced(run.events) || kind.DispatchFence?)
            && (FencedOnce(run.events) && !(Fenced(run.events) && kind.DispatchFence?) ==> FencedOnce(events))
            && (Numbered(run.events) ==> Numbered(events))
            && run.events <= events
  {
    var events := Append(run, kind, status, code, now).events;
    assert events[|run.events|].kind == kind;
    if Fenced(run.events) {
      var i :| 0 <= i < |run.events| && run.events[i].kind.DispatchFence?;
      assert events[i].kind.DispatchFence?;
    }
  }

  // ---------- attempts ----------

  /** The position of the live attempt with the highest sequence, -1 without one. */
  function LatestLive(attempts: seq<Attempt>): (i: int)
    ensures -1 <= i < |attempts|
    ensures i >= 0 ==> attempts[i].status.Live()
    ensures forall j | i < j < |attempts| :: !attempts[j].status.Live()
  {
    if attempts == [] then -1
    else if attempts[|attempts| - 1].status.Live() then |attempts| - 1
    else LatestLive(attempts[..|attempts| - 1])
  }

  function CloseAttempt(attempts: seq<Attempt>, status: RunStatus, code: Option<FailureCode>, now: Time): seq<Attempt> {
    var i := LatestLive(attempts);
    if i < 0 then attempts
    else attempts[i := attempts[i].(status := status, code := code, terminalAt := Some(now))]
  }

  // ---------- the lockstep invariant ----------

  /** The failure codes a worker may report only after the dispatch fence. */
  predicate AfterDispatch(code: Option<FailureCode>) {
    code in {Some(ToolCallFailed), Some(InvalidToolResult), Some(UnsupportedToolResult), Some(SensitiveToolResult)}
  }

  /** Outcomes that admit the tool may have been called. */
  predicate AdmitsDispatch(status: RunStatus, code: Option<FailureCode>) {
    || status in {DispatchFenced, Succeeded, Indeterminate}
    || (status == Failed && AfterDispatch(code))
  }

  predicate AttemptsInStep(run: Run) {
    && |run.attempts| == run.job.leaseEpoch
    && (forall i | 0 <= i < |run.attempts| ::
          run.attempts[i].sequence == i + 1 && run.attempts[i].leaseEpoch == i + 1)
    && (forall i | 0 <= i < |run.attempts| - 1 ::
          run.attempts[i].status == Failed && run.attempts[i].code == Some(WorkerLostBeforeDispatch))
    && (run.attempts != [] ==> run.attempts[|run.attempts| - 1].status == run.status)
  }

  predicate JobInStep(run: Run) {
    && (run.status == Queued <==> run.job.status == JobQueued)
    && (run.status.Live() <==> run.job.status == JobLeased)
    && (run.status.Terminal() ==> run.job.status == JobDone(run.status))
    && (run.status == Queued ==> run.attempts == [])
    && (run.status.Live() ==> run.attempts != [])
    && (run.job.status == JobLeased <==> run.job.owner.Some?)
    && (run.job.status == JobLeased <==> run.job.expiresAt.Some?)
    && (run.status.Terminal() <==> run.terminalAt.Some?)
    && run.job.completedAt == run.terminalAt
    && run.job.deadline == run.deadline
    && (run.terminalAt.Some? ==> run.createdAt <= run.terminalAt.value)
  }

  predicate LogInStep(run: Run) {
    && Numbered(run.events)
    && run.events != []
    && run.events[0].kind == Admitted
    && run.events[|run.events| - 1].status == run.status
    && FencedOnce(run.events)
    && (Fenced(run.events) <==> AdmitsDispatch(run.status, run.code))
  }

  predicate Sound(run: Run) {
    && AttemptsInStep(run) && JobInStep(run) && LogInStep(run)
    && (run.status == Succeeded ==> run.code == None)
  }

  lemma SoundLatestLive(run: Run)
    requires Sound(run)
    ensures LatestLive(run.attempts) == if run.status.Live() then |run.attempts| - 1 else -1
  {
    if run.status.Live() {
    } else {
      assert forall i | 0 <= i < |run.attempts| :: !run.attempts[i].status.Live();
    }
  }

  /** How a retained run may differ after any number of transactions. */
  predicate Evolves(before: Run, after: Run) {
    && after.workspace == before.workspace
    && after.actor == before.actor
    && after.pins == before.pins
    && after.createdAt == before.createdAt
    && after.deadline == before.deadline
    && after.job.executionEpoch == before.job.executionEpoch
    && before.job.leaseEpoch <= after.job.leaseEpoch
    && before.events <= after.events
    && (before.status.Terminal() ==>
          && after.status == before.status && after.code == before.code
          && after.terminalAt == before.terminalAt
          && after.job == before.job && after.attempts == before.attempts)
  }

  /** A change that keeps the invariant and does not pass the dispatch fence. */
  predicate Quiet(before: Run, after: Run) {
    && Sound(after)
    && Evolves(before, after)
    && (Fenced(after.events) <==> Fenced(before.events))
  }

  // ---------- ending a run ----------

  function Finish(run: Run, status: RunStatus, code: Option<FailureCode>, now: Time, kind: EventType): Run {
    Append(
      run.(status := status, code := code, updatedAt := now, terminalAt := Some(now),
           job := run.job.(status := JobDone(status), owner := None, expiresAt := None, completedAt := Some(now)),
           attempts := CloseAttempt(run.attempts, status, code, now)),
      kind, status, code, now)
  }

  lemma FinishQuiet(run: Run, status: RunStatus, code: Option<FailureCode>, now: Time, kind: EventType)
    requires Sound(run) && !run.status.Terminal() && run.createdAt <= now
    requires status.Terminal() && kind != DispatchFence
    requires AdmitsDispatch(status, code) <==> run.status == DispatchFenced
    requires status == Succeeded ==> code == None
    ensures Quiet(run, Finish(run, status, code, now, kind))
  {
    SoundLatestLive(run);
    AppendFenced(run, kind, status, code, now);
  }

  /** Outcome of a run that can no longer proceed: unknown once it was fenced for dispatch. */
  function Lost(run: Run, otherwise: RunStatus): RunStatus {
    if run.status == DispatchFenced then Indeterminate else otherwise
  }

  datatype Sweep = PastDeadline | AbandonedDispatch | Restored | ContentDue

  /** The runs a sweep may select. */
  predicate Selectable(sweep: Sweep, run: Run) {
    match sweep
    case PastDeadline => !run.status.Terminal()
    case AbandonedDispatch => run.status == DispatchFenced
    case Restored => !run.status.Terminal()
    case ContentDue => run.argumentsKept
  }

  function SweepRow(sweep: Sweep, run: Run, now: Time): Run {
    match sweep
    case PastDeadline =>
      Finish(run, Lost(run, TimedOut), Some(DeadlineExceeded), now, Ended)
    case AbandonedDispatch =>
      Finish(run, Indeterminate, Some(WorkerLostAfterDispatch), now, Ended)
    case Restored =>
      Finish(run, Lost(run, Cancelled), Some(RestoreReconciliation), now, RestoreReconciled)
    case ContentDue =>
      var ended :=
        if run.status.Terminal() then Append(run, ContentExpired, run.status, run.code, now)
        else Finish(run, Lost(run, TimedOut), Some(ContentRetentionDeadline), now, ContentExpired);
      ended.(argumentsKept := false, updatedAt := now)
  }

  lemma SweepRowQuiet(sweep: Sweep, run: Run, now: Time)
    requires Sound(run) && Selectable(sweep, run) && run.createdAt <= now
    ensures Quiet(run, SweepRow(sweep, run, now))
    ensures SweepRow(sweep, run, now).status.Terminal()
  {
    hide CloseAttempt, AttemptsInStep, Numbered, FencedOnce, Fenced;
    match sweep
    case PastDeadline => FinishQuiet(run, Lost(run, TimedOut), Some(DeadlineExceeded), now, Ended);
    case AbandonedDispatch => FinishQuiet(run, Indeterminate, Some(WorkerLostAfterDispatch), now, Ended);
    case Restored => FinishQuiet(run, Lost(run, Cancelled), Some(RestoreReconciliation), now, RestoreReconciled);
    case ContentDue => ContentDueQuiet(run, now);
  }

  lemma ContentDueQuiet(run: Run, now: Time)
    requires Sound(run) && run.createdAt <= now
    ensures Quiet(run, SweepRow(ContentDue, run, now)) && SweepRow(ContentDue, run, now).status.Terminal()
  {
    if run.status.Terminal() {
      AppendFenced(run, ContentExpired, run.status, run.code, now);
    } else {
      hide CloseAttempt, Numbered, Fenced, FencedOnce;
      FinishQuiet(run, Lost(run, TimedOut), Some(ContentRetentionDeadline), now, ContentExpired);
    }
  }

  // ---------- leasing ----------

  function Min(a: int, b: int): int { if a < b then a else b }

  function LoseLease(run: Run, now: Time): Run {
    Append(
      run.(attempts := CloseAttempt(run.attempts, Failed, Some(WorkerLostBeforeDispatch), now)),
      LeaseLost, run.status, Some(WorkerLostBeforeDispatch), now)
  }

  function StartAttempt(run: Run, worker: Id, duration: int, now: Time): Run {
    var epoch := run.job.leaseEpoch + 1;
    Append(
      run.(status := Preparing, updatedAt := now,
           job := run.job.(status := JobLeased, owner := Some(worker), leaseEpoch := epoch,
                           expiresAt := Some(Min(now + duration, run.job.deadline))),
           attempts := run.attempts + [Attempt(|run.attempts| + 1, epoch, Preparing, None, now, None)]),
      AttemptStarted, Preparing, None, now)
  }

  function ClaimRow(run: Run, worker: Id, duration: int, now: Time): Run {
    var released :=
      if run.job.status == JobLeased && LatestLive(run.attempts) >= 0 then LoseLease(run, now) else run;
    StartAttempt(released, worker, duration, now)
  }

  /** A run whose earlier attempts are all recorded as lost, ready for a new one. */
  predicate Released(run: Run) {
    && run.status in {Queued, Preparing, SessionFenced}
    && |run.attempts| == run.job.leaseEpoch
    && (forall i | 0 <= i < |run.attempts| ::
          && run.attempts[i].sequence == i + 1 && run.attempts[i].leaseEpoch == i + 1
          && run.attempts[i].status == Failed && run.attempts[i].code == Some(WorkerLostBeforeDispatch))
    && run.terminalAt.None? && run.job.completedAt.None? && run.job.deadline == run.deadline
    && LogInStep(run)
  }

  lemma LoseLeaseReleases(run: Run, now: Time)
    requires Sound(run) && run.status in {Preparing, SessionFenced}
    ensures Released(LoseLease(run, now)) && Evolves(run, LoseLease(run, now))
  {
    SoundLatestLive(run);
    AppendFenced(run, LeaseLost, run.status, Some(WorkerLostBeforeDispatch), now);
  }

  lemma StartAttemptSound(run: Run, worker: Id, duration: int, now: Time)
    requires Released(run)
    ensures var started := StartAttempt(run, worker, duration, now);
            Quiet(run, started) && started.job.leaseEpoch == run.job.leaseEpoch + 1
  {
    AppendFenced(run, AttemptStarted, Preparing, None, now);
  }

  lemma ClaimRowQuiet(run: Run, worker: Id, duration: int, now: Time)
    requires Sound(run) && run.status in {Queued, Preparing, SessionFenced}
    ensures Quiet(run, ClaimRow(run, worker, duration, now))
    ensures ClaimRow(run, worker, duration, now).job.leaseEpoch == run.job.leaseEpoch + 1
  {
    SoundLatestLive(run);
    if run.status == Queued {
      StartAttemptSound(run, worker, duration, now);
    } else {
      LoseLeaseReleases(run, now);
      StartAttemptSound(LoseLease(run, now), worker, duration, now);
    }
  }

  /** The row half of the lease check: a live lease, held by this worker, of this epoch. */
  predicate LeaseMatches(run: Run, lease: Lease) {
    && run.job.status == JobLeased
    && run.job.owner == Some(lease.worker)
    && run.job.leaseEpoch == lease.leaseEpoch
    && run.job.expiresAt.Some?
  }

  predicate HeartbeatAllowed(run: Run, lease: Lease, now: Time) {
    && LeaseMatches(run, lease)
    && run.job.expiresAt.value > now
    && run.job.deadline > now
    && !run.status.Terminal()
  }

  function HeartbeatRow(run: Run, duration: int, now: Time): Run {
    run.(job := run.job.(expiresAt := Some(Min(now + duration, run.job.deadline))))
  }

  // ---------- authority and fences ----------

  /** The registry still grants exactly the authority the run was admitted with. */
  predicate TargetIsCurrent(authority: Authority, run: Run) {
    var pins := run.pins;
    && pins.protocol == QUALIFIED_PROTOCOL_REVISION
    && (run.workspace, run.actor) in authority.operators
    && pins.capability in authority.capabilities
    && (var capability := authority.capabilities[pins.capability];
        && capability.status == Enabled
        && capability.enabled == Some(pins.capabilityVersion)
        && capability.pending == None
        && capability.statusEpoch == pins.statusEpoch)
    && pins.connection in authority.connections
    && (var connection := authority.connections[pins.connection];
        && connection.lifecycle == Active
        && connection.pending == None
        && connection.verified == Some(pins.connectionVersion)
        && connection.controlEpoch == pins.controlEpoch)
    && authority.Observed(pins.connection, pins.connectionVersion, pins.capabilityVersion)
    && pins.capabilityVersion in authority.versions
    && (var version := authority.versions[pins.capabilityVersion];
        && version.capability == pins.capability
        && version.connection == pins.connection
        && version.connectionVersion == pins.connectionVersion
        && version.protocol == pins.protocol)
  }

  datatype FenceKind = ForSession | ForDispatch
  {
    function From(): RunStatus { if ForSession? then Preparing else SessionFenced }

    function To(): RunStatus { if ForSession? then SessionFenced else DispatchFenced }

    function Event(): EventType { if ForSession? then SessionFence else DispatchFence }
  }

  predicate FenceAllowed(run: Run, authority: Authority, lease: Lease, fence: FenceKind, now: Time) {
    && run.job.executionEpoch == lease.executionEpoch
    && LeaseMatches(run, lease)
    && run.job.expiresAt.value > now
    && run.job.deadline > now
    && !run.cancellationRequested
    && run.status == fence.From()
    && TargetIsCurrent(authority, run)
    && var i := LatestLive(run.attempts);
       i >= 0 && run.attempts[i].leaseEpoch == lease.leaseEpoch && run.attempts[i].status == fence.From()
  }

  function FenceRow(run: Run, fence: FenceKind, now: Time): Run
    requires LatestLive(run.attempts) >= 0
  {
    var i := LatestLive(run.attempts);
    Append(
      run.(status := fence.To(), updatedAt := now,
           attempts := run.attempts[i := run.attempts[i].(status := fence.To())]),
      fence.Event(), fence.To(), None, now)
  }

  lemma FenceRowSound(run: Run, fence: FenceKind, now: Time)
    requires Sound(run) && run.status == fence.From()
    ensures LatestLive(run.attempts) >= 0
    ensures var fenced := FenceRow(run, fence, now);
            Sound(fenced) && Evolves(run, fenced)
            && !Fenced(run.events) && (Fenced(fenced.events) <==> fence == ForDispatch)
  {
    SoundLatestLive(run);
    AppendFenced(run, fence.Event(), fence.To(), None, now);
  }

  // ---------- worker completion and cancellation ----------

  predicate ValidWorkerCompletion(run: Run, attempt: Attempt, status: RunStatus, code: Option<FailureCode>) {
    && attempt.status == run.status
    && match status
       case Succeeded => run.status == DispatchFenced && code == None
       case Failed =>
         (match run.status
          case Preparing => code == Some(PreparationFailed)
          case SessionFenced => code == Some(SessionInitializationFailed)
          case DispatchFenced => AfterDispatch(code)
          case _ => false)
       case Cancelled =>
         run.cancellationRequested && run.status in {Preparing, SessionFenced}
         && code == Some(CancelledBeforeDispatch)
       case Indeterminate =>
         run.status == DispatchFenced && code == Some(UpstreamOutcomeUnknown)
       case _ => false
  }

  lemma CompletionQuiet(run: Run, attempt: Attempt, status: RunStatus, code: Option<FailureCode>, now: Time)
    requires Sound(run) && run.createdAt <= now
    requires ValidWorkerCompletion(run, attempt, status, code) && attempt.status.Live()
    ensures Quiet(run, Finish(run, status, code, now, Ended))
  {
    FinishQuiet(run, status, code, now, Ended);
  }

  function CancelRow(run: Run, now: Time): Run {
    if run.status.Terminal() then run
    else
      var requested := run.(cancellationRequested := true);
      if run.deadline <= now then
        Finish(requested, Lost(run, TimedOut), Some(DeadlineExceeded), now, Ended)
      else if run.status == DispatchFenced then
        Append(requested.(updatedAt := now), CancelRequested, run.status, None, now)
      else
        Finish(requested, Cancelled, Some(CancelledBeforeDispatch), now, CancelRequested)
  }

  lemma CancelRowQuiet(run: Run, now: Time)
    requires Sound(run) && run.createdAt <= now
    ensures Quiet(run, CancelRow(run, now))
  {
    if !run.status.Terminal() {
      var requested := run.(cancellationRequested := true);
      if run.deadline <= now {
        FinishQuiet(requested, Lost(run, TimedOut), Some(DeadlineExceeded), now, Ended);
      } else if run.status == DispatchFenced {
        AppendFenced(run, CancelRequested, run.status, None, now);
      } else {
        FinishQuiet(requested, Cancelled, Some(CancelledBeforeDispatch), now, CancelRequested);
      }
    }
  }
}
