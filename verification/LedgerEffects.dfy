/**
  What each execution transaction does, told in the fields of the rows: when it succeeds, which
  rows it changes, and what they hold afterwards.
*/
module LedgerEffects {
  import opened Common
  import opened Queries
  import opened RegistryTypes
  import opened ExecutionTypes
  import opened RunRows
  import opened Ledger

  // ---------- rows ----------

  /** What a run is for its whole life. */
  predicate SameRun(before: Run, after: Run) {
    && after.workspace == before.workspace && after.actor == before.actor && after.pins == before.pins
    && after.argumentsExpireAt == before.argumentsExpireAt && after.deadline == before.deadline
    && after.createdAt == before.createdAt
    && after.job.executionEpoch == before.job.executionEpoch && after.job.availableAt == before.job.availableAt
    && after.job.deadline == before.job.deadline && after.job.createdAt == before.job.createdAt
  }

  predicate Logged(before: Run, after: Run, kind: EventType, status: RunStatus, code: Option<FailureCode>, now: Time) {
    after.events == before.events + [Event(|before.events| + 1, kind, status, code, now)]
  }

  /** Run, job and last attempt end together, with one event that says how. */
  predicate EndsAs(before: Run, after: Run, status: RunStatus, code: Option<FailureCode>, kind: EventType, now: Time) {
    && SameRun(before, after)
    && after.status == status && after.code == code && after.terminalAt == Some(now) && after.updatedAt == now
    && after.job.status == JobDone(status) && after.job.owner == None && after.job.expiresAt == None
    && after.job.leaseEpoch == before.job.leaseEpoch && after.job.completedAt == Some(now)
    && |after.attempts| == |before.attempts|
    && (forall i | 0 <= i < |before.attempts| - 1 :: after.attempts[i] == before.attempts[i])
    && (before.attempts != [] ==>
          var last := |before.attempts| - 1;
          && after.attempts[last].status == status && after.attempts[last].code == code
          && after.attempts[last].terminalAt == Some(now)
          && after.attempts[last].sequence == before.attempts[last].sequence
          && after.attempts[last].leaseEpoch == before.attempts[last].leaseEpoch
          && after.attempts[last].startedAt == before.attempts[last].startedAt)
    && Logged(before, after, kind, status, code, now)
  }

  /** How a run ends that runs out of time: nobody knows once it was fenced for dispatch. */
  predicate EndsByTime(before: Run, after: Run, code: FailureCode, kind: EventType, now: Time) {
    if before.status == DispatchFenced then EndsAs(before, after, Indeterminate, Some(code), kind, now)
    else EndsAs(before, after, TimedOut, Some(code), kind, now)
  }

  lemma FinishEnds(run: Run, status: RunStatus, code: Option<FailureCode>, now: Time, kind: EventType)
    requires Sound(run) && !run.status.Terminal()
    ensures EndsAs(run, Finish(run, status, code, now, kind), status, code, kind, now)
    ensures Finish(run, status, code, now, kind).argumentsKept == run.argumentsKept
    ensures Finish(run, status, code, now, kind).cancellationRequested == run.cancellationRequested
  {
    hide LogInStep;
    SoundLatestLive(run);
  }

  /** Nothing but this one run row differs. */
  predicate OnlyRow(t: Tables, after: Tables, id: Id) {
    && after.epoch == t.epoch && after.quarantined == t.quarantined
    && after.records == t.records && after.nonces == t.nonces
    && id in t.runs && after.runs.Keys == t.runs.Keys
    && forall other | other in t.runs && other != id :: after.runs[other] == t.runs[other]
  }

  // ---------- cancellation ----------

  /**
    Cancelling cancels what was not dispatched, only notes the wish after dispatch, ends by time
    what is past its deadline, and leaves ended runs alone.
  */
  predicate CancelsAs(before: Run, row: Run, now: Time) {
    && row.argumentsKept == before.argumentsKept
    && (before.status.Terminal() ==> row == before)
    && (!before.status.Terminal() ==> row.cancellationRequested)
    && (!before.status.Terminal() && before.deadline <= now ==>
          EndsByTime(before, row, DeadlineExceeded, Ended, now))
    && (before.status in {Queued, Preparing, SessionFenced} && before.deadline > now ==>
          EndsAs(before, row, Cancelled, Some(CancelledBeforeDispatch), CancelRequested, now))
    && (before.status == DispatchFenced && before.deadline > now ==>
          && SameRun(before, row)
          && row.status == before.status && row.code == before.code && row.terminalAt == before.terminalAt
          && row.job == before.job && row.attempts == before.attempts && row.updatedAt == now
          && Logged(before, row, CancelRequested, DispatchFenced, None, now))
  }

  lemma CancelRowEffect(run: Run, now: Time)
    requires Sound(run)
    ensures CancelsAs(run, CancelRow(run, now), now)
  {
    hide Sound, Finish, EndsAs;
    if !run.status.Terminal() {
      var requested := run.(cancellationRequested := true);
      RequestedSound(run);
      if run.deadline <= now {
        FinishEnds(requested, Lost(run, TimedOut), Some(DeadlineExceeded), now, Ended);
        RequestedEnds(run, requested, CancelRow(run, now), Lost(run, TimedOut), Some(DeadlineExceeded), Ended, now);
      } else if run.status != DispatchFenced {
        FinishEnds(requested, Cancelled, Some(CancelledBeforeDispatch), now, CancelRequested);
        RequestedEnds(run, requested, CancelRow(run, now), Cancelled, Some(CancelledBeforeDispatch), CancelRequested, now);
      }
    }
  }

  lemma RequestedEnds(
    run: Run, requested: Run, after: Run, status: RunStatus, code: Option<FailureCode>, kind: EventType, now: Time
  )
    requires requested == run.(cancellationRequested := true) && EndsAs(requested, after, status, code, kind, now)
    ensures EndsAs(run, after, status, code, kind, now)
  {
  }

  lemma CancelEffect(t: Tables, workspace: Id, id: Id, now: Time)
    requires AllSound(t.runs)
    ensures Cancel(t, workspace, id, now) == Err(InvalidTransition) <==> !(id in t.runs && t.runs[id].workspace == workspace)
    ensures Cancel(t, workspace, id, now).Ok? <==> id in t.runs && t.runs[id].workspace == workspace
    ensures Cancel(t, workspace, id, now).Ok? ==>
      var after := Cancel(t, workspace, id, now).value;
      OnlyRow(t, after, id) && CancelsAs(t.runs[id], after.runs[id], now)
  {
    hide Sound, CancelRow, CancelsAs;
    if id in t.runs { CancelRowEffect(t.runs[id], now); }
  }

  lemma RequestedSound(run: Run)
    requires Sound(run)
    ensures Sound(run.(cancellationRequested := true))
  {
  }

  // ---------- heartbeats and fences ----------

  /** The lease is the current one of this run and has not run out. */
  predicate LiveLease(t: Tables, lease: Lease, now: Time) {
    && t.epoch == lease.executionEpoch
    && lease.run in t.runs
    && var job := t.runs[lease.run].job;
       && job.status == JobLeased
       && job.owner == Some(lease.worker)
       && job.leaseEpoch == lease.leaseEpoch
       && job.expiresAt.Some? && job.expiresAt.value > now
       && job.deadline > now
  }

  /** A heartbeat succeeds exactly for a live lease outside quarantine, and sets the expiry to min(now + duration, deadline). */
  lemma HeartbeatEffect(t: Tables, lease: Lease, duration: int, now: Time)
    requires AllSound(t.runs)
    ensures Heartbeat(t, lease, duration, now).Ok? <==> duration > 0 && !t.quarantined && LiveLease(t, lease, now)
    ensures Heartbeat(t, lease, duration, now).Err? ==>
      Heartbeat(t, lease, duration, now).error == if duration <= 0 then InvalidTransition else LeaseLostError
    ensures Heartbeat(t, lease, duration, now).Ok? ==>
      var after := Heartbeat(t, lease, duration, now).value;
      var before, row := t.runs[lease.run], after.runs[lease.run];
      && OnlyRow(t, after, lease.run)
      && row == before.(job := before.job.(expiresAt := row.job.expiresAt))
      && row.job.expiresAt == Some(if now + duration < before.job.deadline then now + duration else before.job.deadline)
  {
    hide Sound;
    if lease.run in t.runs && t.runs[lease.run].job.status == JobLeased { LeasedRow(t.runs[lease.run]); }
  }

  /** The registry still grants what the run was admitted with, to somebody who may still operate. */
  predicate Entitled(authority: Authority, run: Run) {
    && (run.workspace, run.actor) in authority.operators
    && run.pins.protocol == "2025-06-18"
    && run.pins.capability in authority.capabilities
    && run.pins.connection in authority.connections
    && run.pins.capabilityVersion in authority.versions
    && var capability, connection := authority.capabilities[run.pins.capability], authority.connections[run.pins.connection];
       var version := authority.versions[run.pins.capabilityVersion];
       && capability.status == Enabled && capability.pending.None?
       && capability.enabled == Some(run.pins.capabilityVersion)
       && capability.statusEpoch == run.pins.statusEpoch
       && connection.lifecycle == Active && connection.pending.None?
       && connection.verified == Some(run.pins.connectionVersion)
       && connection.controlEpoch == run.pins.controlEpoch
       && version.capability == run.pins.capability
       && version.connection == run.pins.connection
       && version.connectionVersion == run.pins.connectionVersion
       && version.protocol == run.pins.protocol
       && Listed(authority, run.pins)
  }

  /** The connection's current snapshot lists the pinned version under the pinned connection version. */
  predicate Listed(authority: Authority, pins: Pins)
    requires pins.connection in authority.connections
  {
    exists snapshot ::
      && authority.connections[pins.connection].snapshot == Some(snapshot)
      && snapshot in authority.snapshots
      && authority.snapshots[snapshot].connection == pins.connection
      && authority.snapshots[snapshot].connectionVersion == pins.connectionVersion
      && pins.capabilityVersion in authority.snapshots[snapshot].members
  }

  lemma EntitledIsCurrent(authority: Authority, run: Run)
    ensures TargetIsCurrent(authority, run) <==> Entitled(authority, run)
  {
  }

  /**
    A fence passes exactly for a live lease of a run that stands right before it, was not asked to
    stop, and still has its authority; it moves the run and its attempt one stage on and logs that.
  */
  lemma FenceEffect(t: Tables, authority: Authority, lease: Lease, fence: FenceKind, now: Time)
    requires AllSound(t.runs)
    ensures Fence(t, authority, lease, fence, now).Ok? <==>
      && !t.quarantined && LiveLease(t, lease, now)
      && var run := t.runs[lease.run];
         && run.job.executionEpoch == lease.executionEpoch
         && !run.cancellationRequested
         && run.status == (if fence == ForSession then Preparing else SessionFenced)
         && Entitled(authority, run)
    ensures Fence(t, authority, lease, fence, now).Err? ==> Fence(t, authority, lease, fence, now).error == LeaseLostError
    ensures Fence(t, authority, lease, fence, now).Ok? ==>
      var after := Fence(t, authority, lease, fence, now).value;
      var before, row := t.runs[lease.run], after.runs[lease.run];
      var stage := if fence == ForSession then SessionFenced else DispatchFenced;
      && OnlyRow(t, after, lease.run)
      && before.attempts != [] && |row.attempts| == |before.attempts|
      && row == before.(status := stage, updatedAt := now, attempts := row.attempts, events := row.events)
      && row.attempts == before.attempts[..|before.attempts| - 1]
           + [before.attempts[|before.attempts| - 1].(status := stage)]
      && Logged(before, row, if fence == ForSession then SessionFence else DispatchFence, stage, None, now)
  {
    hide Sound, TargetIsCurrent, Entitled, LatestLive;
    if lease.run in t.runs {
      var run := t.runs[lease.run];
      EntitledIsCurrent(authority, run);
      if run.job.status == JobLeased { LeasedRow(run); }
    }
  }

  // ---------- completion ----------

  /** What a worker may report of a run at its stage. */
  predicate Reportable(run: Run, status: RunStatus, code: Option<FailureCode>) {
    || (run.status == Preparing && status == Failed && code == Some(PreparationFailed))
    || (run.status == SessionFenced && status == Failed && code == Some(SessionInitializationFailed))
    || (run.status == DispatchFenced && status == Failed
        && code in {Some(ToolCallFailed), Some(InvalidToolResult), Some(UnsupportedToolResult), Some(SensitiveToolResult)})
    || (run.status == DispatchFenced && status == Succeeded && code == None)
    || (run.status == DispatchFenced && status == Indeterminate && code == Some(UpstreamOutcomeUnknown))
    || ((run.status == Preparing || run.status == SessionFenced) && run.cancellationRequested
        && status == Cancelled && code == Some(CancelledBeforeDispatch))
  }

  /** Whose run it is while the job is leased. */
  predicate HoldsLease(t: Tables, lease: Lease) {
    && t.epoch == lease.executionEpoch && lease.run in t.runs
    && var job := t.runs[lease.run].job;
       && job.status == JobLeased && job.owner == Some(lease.worker)
       && job.leaseEpoch == lease.leaseEpoch && job.expiresAt.Some?
  }

  /** A completed row: by time when the deadline has passed, else as reported. */
  predicate CompletesAs(before: Run, row: Run, status: RunStatus, code: Option<FailureCode>, now: Time) {
    && row.argumentsKept == before.argumentsKept && row.cancellationRequested == before.cancellationRequested
    && (before.job.deadline <= now ==> EndsByTime(before, row, DeadlineExceeded, Ended, now))
    && (before.job.deadline > now ==> EndsAs(before, row, status, code, Ended, now))
  }

  /**
    A report under the current lease ends the run by time when its deadline has passed; before
    that it needs an unexpired lease and ends the run exactly as reported, if that may be reported.
  */
  lemma CompleteEffect(t: Tables, lease: Lease, status: RunStatus, code: Option<FailureCode>, now: Time)
    requires AllSound(t.runs)
    ensures Complete(t, lease, status, code, now).Ok? <==>
      && status.Terminal() && (status == Succeeded ==> code == None)
      && HoldsLease(t, lease)
      && var run := t.runs[lease.run];
         run.job.deadline > now ==> run.job.expiresAt.value > now && Reportable(run, status, code)
    ensures Complete(t, lease, status, code, now).Err? ==>
      Complete(t, lease, status, code, now).error ==
        if !status.Terminal() || (status == Succeeded && code.Some?) then InvalidTransition
        else if !HoldsLease(t, lease) || t.runs[lease.run].job.expiresAt.value <= now then LeaseLostError
        else InvalidTransition
    ensures Complete(t, lease, status, code, now).Ok? ==>
      var after := Complete(t, lease, status, code, now).value;
      OnlyRow(t, after, lease.run) && CompletesAs(t.runs[lease.run], after.runs[lease.run], status, code, now)
  {
    hide Sound, LatestLive, Finish, EndsAs, ValidWorkerCompletion, Reportable, SameRun;
    if HoldsLease(t, lease) {
      var run := t.runs[lease.run];
      LeasedRow(run);
      CompletionIsReportable(run, status, code);
      FinishEnds(run, Lost(run, TimedOut), Some(DeadlineExceeded), now, Ended);
      FinishEnds(run, status, code, now, Ended);
    }
  }

  /** A leased job belongs to a live run whose last attempt is the one under this lease epoch. */
  lemma LeasedRow(run: Run)
    requires Sound(run) && run.job.status == JobLeased
    ensures run.status.Live() && run.attempts != []
    ensures LatestLive(run.attempts) == |run.attempts| - 1
    ensures run.attempts[|run.attempts| - 1].leaseEpoch == run.job.leaseEpoch
    ensures run.attempts[|run.attempts| - 1].status == run.status
  {
    hide LogInStep;
    SoundLatestLive(run);
  }

  lemma CompletionIsReportable(run: Run, status: RunStatus, code: Option<FailureCode>)
    requires Sound(run) && run.status.Live()
    ensures run.attempts != []
    ensures ValidWorkerCompletion(run, run.attempts[|run.attempts| - 1], status, code) <==> Reportable(run, status, code)
  {
    hide LogInStep;
  }

  // ---------- sweeps ----------

  /** What a sweep looks for. */
  predicate Ripe(sweep: Sweep, run: Run, now: Time) {
    match sweep
    case PastDeadline => !run.status.Terminal() && run.job.deadline <= now
    case AbandonedDispatch => run.status == DispatchFenced && run.job.expiresAt.Some? && run.job.expiresAt.value <= now
    case Restored => !run.status.Terminal()
    case ContentDue => run.argumentsKept && run.argumentsExpireAt <= now
  }

  /** What it leaves of a run. */
  predicate SweptAs(sweep: Sweep, before: Run, after: Run, now: Time) {
    && after.cancellationRequested == before.cancellationRequested
    && after.argumentsKept == (before.argumentsKept && sweep != ContentDue)
    && match sweep
       case PastDeadline => EndsByTime(before, after, DeadlineExceeded, Ended, now)
       case AbandonedDispatch => EndsAs(before, after, Indeterminate, Some(WorkerLostAfterDispatch), Ended, now)
       case Restored =>
         EndsAs(before, after, if before.status == DispatchFenced then Indeterminate else Cancelled,
                Some(RestoreReconciliation), RestoreReconciled, now)
       case ContentDue =>
         if !before.status.Terminal() then EndsByTime(before, after, ContentRetentionDeadline, ContentExpired, now)
         else
           && SameRun(before, after)
           && after.status == before.status && after.code == before.code && after.terminalAt == before.terminalAt
           && after.job == before.job && after.attempts == before.attempts && after.updatedAt == now
           && Logged(before, after, ContentExpired, before.status, before.code, now)
  }

  /** In the order of deadlines, lease expiries, creation or content expiry. */
  predicate Sooner(sweep: Sweep, a: Run, b: Run) {
    match sweep
    case PastDeadline => a.job.deadline <= b.job.deadline
    case AbandonedDispatch => a.job.expiresAt.Some? && b.job.expiresAt.Some? ==> a.job.expiresAt.value <= b.job.expiresAt.value
    case Restored => a.createdAt <= b.createdAt
    case ContentDue => a.argumentsExpireAt <= b.argumentsExpireAt
  }

  lemma RipeIsDue(sweep: Sweep, run: Run, now: Time)
    requires Sound(run)
    ensures Ripe(sweep, run, now) <==> Due(sweep, run, now)
  {
    hide LogInStep, AttemptsInStep;
  }

  lemma SweepRowEffect(sweep: Sweep, run: Run, now: Time)
    requires Sound(run) && Ripe(sweep, run, now)
    ensures SweptAs(sweep, run, SweepRow(sweep, run, now), now)
  {
    hide Sound, Finish, LatestLive;
    if !run.status.Terminal() {
      FinishEnds(run, Lost(run, TimedOut), Some(DeadlineExceeded), now, Ended);
      FinishEnds(run, Indeterminate, Some(WorkerLostAfterDispatch), now, Ended);
      FinishEnds(run, Lost(run, Cancelled), Some(RestoreReconciliation), now, RestoreReconciled);
      FinishEnds(run, Lost(run, TimedOut), Some(ContentRetentionDeadline), now, ContentExpired);
    }
  }

  /** A sweep of at most `batch` ripe, unlocked runs, the soonest first; the rest stays as it was. */
  predicate Sweeps(
    sweep: Sweep, runs: map<Id, Run>, after: map<Id, Run>, skipped: set<Id>, batch: nat, now: Time, swept: set<Id>
  ) {
    && after.Keys == runs.Keys && swept <= runs.Keys && |swept| <= batch
    && (forall id | id in swept :: id !in skipped && Ripe(sweep, runs[id], now) && SweptAs(sweep, runs[id], after[id], now))
    && (forall id | id in runs && id !in swept :: after[id] == runs[id])
    && (forall id | id in runs && id !in swept && id !in skipped && Ripe(sweep, runs[id], now) ::
          |swept| == batch && forall other | other in swept :: Sooner(sweep, runs[other], runs[id]))
  }

  lemma PickedFacts(sweep: Sweep, runs: map<Id, Run>, skipped: set<Id>, batch: nat, now: Time)
    ensures var picked := Elements(Picked(sweep, runs, skipped, batch, now));
      && picked <= runs.Keys && |picked| <= batch
      && (forall id | id in picked :: id !in skipped && Due(sweep, runs[id], now))
      && (forall id | id in runs && id !in picked && id !in skipped && Due(sweep, runs[id], now) ::
            |picked| == batch && forall other | other in picked :: Sooner(sweep, runs[other], runs[id]))
  {
    hide Due, Sooner, SweepKey;
    var picked := Elements(Picked(sweep, runs, skipped, batch, now));
    ElementsCount(Picked(sweep, runs, skipped, batch, now));
    TakenFirst(DueIds(sweep, runs, skipped, now), BySweep(sweep, runs), batch);
    forall id | id in runs && id !in picked && id !in skipped && Due(sweep, runs[id], now)
      ensures |picked| == batch && forall other | other in picked :: Sooner(sweep, runs[other], runs[id])
    {
      assert id in DueIds(sweep, runs, skipped, now);
      forall other | other in picked ensures Sooner(sweep, runs[other], runs[id]) {
        BeforeIsSooner(sweep, runs, other, id);
      }
    }
  }

  lemma SweepEffect(sweep: Sweep, runs: map<Id, Run>, skipped: set<Id>, batch: nat, now: Time) returns (swept: set<Id>)
    requires AllSound(runs)
    ensures Sweeps(sweep, runs, SweepBatch(sweep, runs, skipped, batch, now), skipped, batch, now, swept)
  {
    hide Sound, SweptAs, SweepRow, Ripe, Due, Picked, Sooner, Elements;
    swept := Elements(Picked(sweep, runs, skipped, batch, now));
    PickedFacts(sweep, runs, skipped, batch, now);
    forall id | id in runs ensures Ripe(sweep, runs[id], now) <==> Due(sweep, runs[id], now) {
      RipeIsDue(sweep, runs[id], now);
    }
    forall id | id in swept ensures SweptAs(sweep, runs[id], SweepRow(sweep, runs[id], now), now) {
      SweepRowEffect(sweep, runs[id], now);
    }
  }

  lemma BeforeIsSooner(sweep: Sweep, runs: map<Id, Run>, a: Id, b: Id)
    requires a in runs && b in runs && Before(BySweep(sweep, runs), a, b)
    ensures Sooner(sweep, runs[a], runs[b])
  {
  }

  /** Reconciliation needs a quarantine and ends one bounded batch of active runs. */
  lemma ReconcileEffect(t: Tables, skipped: set<Id>, batch: int, now: Time) returns (swept: set<Id>)
    requires AllSound(t.runs)
    ensures Reconcile(t, skipped, batch, now).Ok? <==> 0 < batch <= 1000 && t.quarantined
    ensures Reconcile(t, skipped, batch, now).Err? ==> Reconcile(t, skipped, batch, now).error == InvalidTransition
    ensures Reconcile(t, skipped, batch, now).Ok? ==>
      var (after, count) := Reconcile(t, skipped, batch, now).value;
      && after == t.(runs := after.runs) && count == |swept|
      && Sweeps(Restored, t.runs, after.runs, skipped, batch, now, swept)
  {
    hide Sweeps, SweepBatch, Picked;
    swept := {};
    if 0 < batch <= 1000 && t.quarantined {
      swept := SweepEffect(Restored, t.runs, skipped, batch, now);
      SweptCount(Restored, t.runs, skipped, batch, now, swept);
    }
  }

  lemma SweptCount(sweep: Sweep, runs: map<Id, Run>, skipped: set<Id>, batch: nat, now: Time, swept: set<Id>)
    requires AllSound(runs) && Sweeps(sweep, runs, SweepBatch(sweep, runs, skipped, batch, now), skipped, batch, now, swept)
    ensures |swept| == |Picked(sweep, runs, skipped, batch, now)|
  {
    hide Sound, SweepRow, SweptAs, Ripe, Due;
    var picked := Picked(sweep, runs, skipped, batch, now);
    ElementsCount(picked);
    forall id | id in runs ensures id in swept <==> SweepBatch(sweep, runs, skipped, batch, now)[id] != runs[id] {
      if id in swept { SweptIsLonger(sweep, runs[id], SweepBatch(sweep, runs, skipped, batch, now)[id], now); }
    }
    forall id | id in Elements(picked) ensures SweepBatch(sweep, runs, skipped, batch, now)[id] != runs[id] {
      RipeIsDue(sweep, runs[id], now);
      SweepRowEffect(sweep, runs[id], now);
      SweptIsLonger(sweep, runs[id], SweepRow(sweep, runs[id], now), now);
    }
    assert swept == Elements(picked);
  }

  lemma SweptIsLonger(sweep: Sweep, before: Run, after: Run, now: Time)
    requires SweptAs(sweep, before, after, now)
    ensures after != before
  {
    assert |after.events| == |before.events| + 1;
  }

  /** Content retention drops the arguments of one bounded batch and ends what was still active. */
  lemma ExpireEffect(t: Tables, skipped: set<Id>, batch: int, now: Time) returns (swept: set<Id>)
    requires AllSound(t.runs)
    ensures ExpireContent(t, skipped, batch, now).Ok? <==> 0 < batch <= 1000
    ensures ExpireContent(t, skipped, batch, now).Err? ==> ExpireContent(t, skipped, batch, now).error == InvalidTransition
    ensures ExpireContent(t, skipped, batch, now).Ok? ==>
      var after := ExpireContent(t, skipped, batch, now).value;
      after == t.(runs := after.runs) && Sweeps(ContentDue, t.runs, after.runs, skipped, batch, now, swept)
  {
    hide Sweeps, SweepBatch;
    swept := {};
    if 0 < batch <= 1000 { swept := SweepEffect(ContentDue, t.runs, skipped, batch, now); }
  }

  // ---------- deletion ----------

  /** The run ended at least the configured number of days ago. */
  predicate Outlived(run: Run, limits: Limits, now: Time) {
    run.terminalAt.Some? && run.terminalAt.value + limits.runRetentionDays * 86_400_000_000 <= now
  }

  /** Only these runs go, with their records and nonces; everything else stays. */
  predicate Removes(t: Tables, after: Tables, gone: set<Id>) {
    && after.epoch == t.epoch && after.quarantined == t.quarantined
    && (forall id | id in t.runs :: id in after.runs <==> id !in gone)
    && (forall id | id in after.runs :: id in t.runs && after.runs[id] == t.runs[id])
    && (forall id | id in t.records :: id in after.records <==> id !in gone)
    && (forall id | id in after.records :: id in t.records && after.records[id] == t.records[id])
    && (forall nonce | nonce in t.nonces :: nonce in after.nonces <==> t.nonces[nonce].run !in gone)
    && (forall nonce | nonce in after.nonces :: nonce in t.nonces && after.nonces[nonce] == t.nonces[nonce])
  }

  lemma DeletableFacts(runs: map<Id, Run>, skipped: set<Id>, batch: nat, cutoff: Time)
    ensures var gone := Elements(Deletable(runs, skipped, batch, cutoff));
      && gone <= runs.Keys && |gone| <= batch
      && (forall id | id in gone :: id !in skipped && runs[id].terminalAt.Some? && runs[id].terminalAt.value <= cutoff)
      && (forall id | id in runs && id !in gone && id !in skipped
                      && runs[id].terminalAt.Some? && runs[id].terminalAt.value <= cutoff ::
            |gone| == batch && forall other | other in gone :: runs[other].terminalAt.value <= runs[id].terminalAt.value)
  {
    var gone := Elements(Deletable(runs, skipped, batch, cutoff));
    TakenFirst(EndedBy(runs, skipped, cutoff), ByEnd(runs), batch);
    DistinctCount(runs, skipped, batch, cutoff);
    forall id | id in runs && id !in gone && id !in skipped && runs[id].terminalAt.Some? && runs[id].terminalAt.value <= cutoff
      ensures |gone| == batch && forall other | other in gone :: runs[other].terminalAt.value <= runs[id].terminalAt.value
    {
      assert id in EndedBy(runs, skipped, cutoff);
    }
  }

  lemma DistinctCount(runs: map<Id, Run>, skipped: set<Id>, batch: nat, cutoff: Time)
    ensures |Elements(Deletable(runs, skipped, batch, cutoff))| <= batch
    ensures |Elements(Deletable(runs, skipped, batch, cutoff))| < batch ==> |EndedBy(runs, skipped, cutoff)| < batch
  {
    ElementsCount(TakeFirst(EndedBy(runs, skipped, cutoff), ByEnd(runs), batch));
  }

  lemma DeletionRemoves(t: Tables, ids: set<Id>)
    ensures Removes(t, DeleteRuns(t, ids), ids)
  {
  }

  /**
    Deletion removes none but runs that outlived the configured retention, at most `batch` of
    them, the longest ended first, and all of them when the batch suffices.
  */
  lemma DeleteEffect(t: Tables, limits: Limits, skipped: set<Id>, batch: int, now: Time) returns (gone: set<Id>)
    ensures DeleteExpired(t, limits, skipped, batch, now).Ok? <==> 0 < batch <= 1000
    ensures DeleteExpired(t, limits, skipped, batch, now).Err? ==>
      DeleteExpired(t, limits, skipped, batch, now).error == InvalidTransition
    ensures DeleteExpired(t, limits, skipped, batch, now).Ok? ==>
      && Removes(t, DeleteExpired(t, limits, skipped, batch, now).value, gone)
      && gone <= t.runs.Keys && |gone| <= batch
      && (forall id | id in gone :: id !in skipped && Outlived(t.runs[id], limits, now))
      && (forall id | id in t.runs && id !in gone && id !in skipped && Outlived(t.runs[id], limits, now) ::
            |gone| == batch && forall other | other in gone :: EndedNoLater(t.runs[other], t.runs[id]))
  {
    hide Cutoff, Outlived, Removes, DeleteRuns, Deletable, Elements;
    gone := {};
    if 0 < batch <= 1000 {
      var cutoff := Cutoff(limits, now);
      gone := Elements(Deletable(t.runs, skipped, batch, cutoff));
      DeletableFacts(t.runs, skipped, batch, cutoff);
      DeletionRemoves(t, gone);
      forall id | id in t.runs
        ensures Outlived(t.runs[id], limits, now) <==> t.runs[id].terminalAt.Some? && t.runs[id].terminalAt.value <= cutoff
      {
        OutlivedByCutoff(t.runs[id], limits, now);
      }
    }
  }

  predicate EndedNoLater(a: Run, b: Run) {
    a.terminalAt.Some? && b.terminalAt.Some? && a.terminalAt.value <= b.terminalAt.value
  }

  lemma OutlivedByCutoff(run: Run, limits: Limits, now: Time)
    ensures Outlived(run, limits, now) <==> run.terminalAt.Some? && run.terminalAt.value <= Cutoff(limits, now)
  {
  }

  // ---------- claiming ----------

  /** A run of this epoch that is due, in time, not yet dispatched, and in nobody's live lease. */
  predicate Waiting(run: Run, epoch: nat, now: Time) {
    && run.status in {Queued, Preparing, SessionFenced}
    && run.job.executionEpoch == epoch
    && run.job.availableAt <= now < run.job.deadline
    && (run.job.status == JobQueued || (run.job.status == JobLeased && run.job.expiresAt.Some? && run.job.expiresAt.value <= now))
  }

  /** Of the waiting runs that no other transaction has locked, the first created. */
  predicate Oldest(t: Tables, skipped: set<Id>, now: Time, id: Id) {
    && id in t.runs && id !in skipped && Waiting(t.runs[id], t.epoch, now)
    && forall other | other in t.runs && other !in skipped && other != id && Waiting(t.runs[other], t.epoch, now) ::
         && t.runs[id].job.createdAt <= t.runs[other].job.createdAt
         && (t.runs[id].job.createdAt == t.runs[other].job.createdAt ==> id < other)
  }

  /** The attempts of a run whose worker lost its lease, that worker's one closed. */
  function Lapsed(run: Run, now: Time): seq<Attempt> {
    if run.job.status != JobLeased || run.attempts == [] then run.attempts
    else
      var last := |run.attempts| - 1;
      run.attempts[last := run.attempts[last].(status := Failed, code := Some(WorkerLostBeforeDispatch), terminalAt := Some(now))]
  }

  /** The next attempt under the next lease epoch, until min(now + duration, deadline). */
  predicate LeasedAs(before: Run, after: Run, worker: Id, duration: int, now: Time) {
    var n := |before.events|;
    && SameRun(before, after)
    && after.status == Preparing && after.code == before.code && after.terminalAt == before.terminalAt && after.updatedAt == now
    && after.argumentsKept == before.argumentsKept && after.cancellationRequested == before.cancellationRequested
    && after.job == before.job.(status := JobLeased, owner := Some(worker), leaseEpoch := before.job.leaseEpoch + 1,
         expiresAt := Some(if now + duration < before.job.deadline then now + duration else before.job.deadline))
    && after.attempts == Lapsed(before, now)
         + [Attempt(|before.attempts| + 1, before.job.leaseEpoch + 1, Preparing, None, now, None)]
    && after.events == before.events
         + (if before.job.status == JobQueued then []
            else [Event(n + 1, LeaseLost, before.status, Some(WorkerLostBeforeDispatch), now)])
         + [Event(if before.job.status == JobQueued then n + 1 else n + 2, AttemptStarted, Preparing, None, now)]
  }

  lemma ClaimRowEffect(run: Run, worker: Id, duration: int, now: Time, epoch: nat, waited: Time)
    requires Sound(run) && Waiting(run, epoch, waited)
    ensures LeasedAs(run, ClaimRow(run, worker, duration, now), worker, duration, now)
    ensures ClaimRow(run, worker, duration, now).argumentsKept == run.argumentsKept
    ensures ClaimRow(run, worker, duration, now).cancellationRequested == run.cancellationRequested
  {
    hide LogInStep, LatestLive;
    if run.job.status == JobLeased { LeasedRow(run); }
  }

  /** The two sweeps of a claim leave every waiting run alone, and turn no other run into one. */
  lemma SweepsKeepWaiting(runs: map<Id, Run>, after: map<Id, Run>, sweep: Sweep, skipped: set<Id>, batch: nat, now: Time, epoch: nat)
    requires AllSound(runs) && sweep in {PastDeadline, AbandonedDispatch}
    requires after == SweepBatch(sweep, runs, skipped, batch, now)
    ensures after.Keys == runs.Keys
    ensures forall id | id in runs :: Waiting(runs[id], epoch, now) ==> after[id] == runs[id]
    ensures forall id | id in runs :: Waiting(after[id], epoch, now) ==> after[id] == runs[id]
    ensures forall id | id in runs && after[id] != runs[id] :: Ripe(sweep, runs[id], now) && SweptAs(sweep, runs[id], after[id], now)
  {
    hide Sound, SweptAs, SweepBatch, Sooner;
    var swept := SweepEffect(sweep, runs, skipped, batch, now);
    forall id | id in swept ensures after[id].status.Terminal() && (Waiting(runs[id], epoch, now) ==> after[id] == runs[id]) {
      SweptEnds(sweep, runs[id], after[id], now);
    }
  }

  lemma SweptEnds(sweep: Sweep, before: Run, after: Run, now: Time)
    requires SweptAs(sweep, before, after, now) && sweep in {PastDeadline, AbandonedDispatch}
    ensures after.status.Terminal()
  {
  }

  /** What the sweeps of a claim may have done to a run. */
  predicate ReapedAs(before: Run, after: Run, now: Time) {
    || after == before
    || (Ripe(PastDeadline, before, now) && SweptAs(PastDeadline, before, after, now))
    || (Ripe(AbandonedDispatch, before, now) && SweptAs(AbandonedDispatch, before, after, now))
  }

  function Reaped(t: Tables, batch: nat, skips: Skips, now: Time): map<Id, Run> {
    SweepBatch(AbandonedDispatch, SweepBatch(PastDeadline, t.runs, skips.expired, batch, now), skips.abandoned, batch, now)
  }

  lemma ReapedEffect(t: Tables, batch: nat, skips: Skips, now: Time)
    requires AllSound(t.runs) && Timely(t.runs, now)
    ensures var kept := Reaped(t, batch, skips, now);
      && kept.Keys == t.runs.Keys && AllSound(kept)
      && (forall id | id in t.runs :: ReapedAs(t.runs[id], kept[id], now))
      && (forall id | id in t.runs :: Waiting(t.runs[id], t.epoch, now) || Waiting(kept[id], t.epoch, now) ==> kept[id] == t.runs[id])
  {
    hide Sound, SweptAs, SweepBatch, Waiting;
    var swept := SweepBatch(PastDeadline, t.runs, skips.expired, batch, now);
    var kept := Reaped(t, batch, skips, now);
    SweepBatchQuiet(PastDeadline, t.runs, skips.expired, batch, now);
    QuietKeeps(t.runs, swept, now);
    SweepBatchQuiet(AbandonedDispatch, swept, skips.abandoned, batch, now);
    QuietKeeps(swept, kept, now);
    SweepsKeepWaiting(t.runs, swept, PastDeadline, skips.expired, batch, now, t.epoch);
    SweepsKeepWaiting(swept, kept, AbandonedDispatch, skips.abandoned, batch, now, t.epoch);
    forall id | id in t.runs && swept[id] != t.runs[id] ensures kept[id] == swept[id] {
      SweptEnds(PastDeadline, t.runs[id], swept[id], now);
    }
  }

  lemma CandidateIsOldest(t: Tables, kept: map<Id, Run>, skipped: set<Id>, now: Time)
    requires kept.Keys == t.runs.Keys
    requires forall id | id in t.runs ::
               Waiting(t.runs[id], t.epoch, now) || Waiting(kept[id], t.epoch, now) ==> kept[id] == t.runs[id]
    ensures forall id: Id :: Candidate(kept, t.epoch, skipped, now) == Some(id) <==> Oldest(t, skipped, now, id)
  {
    forall id: Id ensures Candidate(kept, t.epoch, skipped, now) == Some(id) <==> Oldest(t, skipped, now, id) {
      if Candidate(kept, t.epoch, skipped, now) == Some(id) { CandidateComesFirst(t, kept, skipped, now); }
      if Oldest(t, skipped, now, id) { OldestIsCandidate(t, kept, skipped, now, id); }
    }
  }

  lemma WaitingIsClaimable(run: Run, epoch: nat, now: Time)
    ensures Claimable(run, epoch, now) <==> Waiting(run, epoch, now)
  {
  }

  lemma CandidateComesFirst(t: Tables, kept: map<Id, Run>, skipped: set<Id>, now: Time)
    requires kept.Keys == t.runs.Keys && Candidate(kept, t.epoch, skipped, now).Some?
    requires forall id | id in t.runs ::
               Waiting(t.runs[id], t.epoch, now) || Waiting(kept[id], t.epoch, now) ==> kept[id] == t.runs[id]
    ensures Oldest(t, skipped, now, Candidate(kept, t.epoch, skipped, now).value)
  {
    hide Waiting, Claimable;
    var ids := ClaimableIds(kept, t.epoch, skipped, now);
    var first := Candidate(kept, t.epoch, skipped, now).value;
    WaitingIsClaimable(kept[first], t.epoch, now);
    forall other | other in t.runs && other !in skipped && other != first && Waiting(t.runs[other], t.epoch, now)
      ensures Before(ByCreation(kept), first, other) && kept[other] == t.runs[other]
    {
      WaitingIsClaimable(kept[other], t.epoch, now);
      assert other in ids;
      FirstIsBefore(ids, ByCreation(kept), other);
    }
  }

  lemma OldestIsCandidate(t: Tables, kept: map<Id, Run>, skipped: set<Id>, now: Time, id: Id)
    requires kept.Keys == t.runs.Keys && Oldest(t, skipped, now, id)
    requires forall id | id in t.runs ::
               Waiting(t.runs[id], t.epoch, now) || Waiting(kept[id], t.epoch, now) ==> kept[id] == t.runs[id]
    ensures Candidate(kept, t.epoch, skipped, now) == Some(id)
  {
    hide Candidate, Waiting, Claimable;
    WaitingIsClaimable(kept[id], t.epoch, now);
    assert Candidate(kept, t.epoch, skipped, now).Some?;
    CandidateComesFirst(t, kept, skipped, now);
    var first := Candidate(kept, t.epoch, skipped, now).value;
    assert first in t.runs && Waiting(t.runs[first], t.epoch, now);
  }

  /** What a claim makes of the oldest waiting run: it is leased while its deadline and authority last, and ended otherwise. */
  predicate ClaimedAs(
    t: Tables, after: Tables, id: Id, lease: Option<Lease>, authority: Authority, worker: Id, duration: int, times: ClaimTimes
  )
    requires id in t.runs && id in after.runs
  {
    var before, row := t.runs[id], after.runs[id];
    && row.argumentsKept == before.argumentsKept && row.cancellationRequested == before.cancellationRequested
    && if before.job.deadline <= times.selected then
      lease.None? && EndsAs(before, row, TimedOut, Some(DeadlineExceeded), Ended, times.selected)
    else if before.job.deadline <= times.checked then
      lease.None? && EndsAs(before, row, TimedOut, Some(DeadlineExceeded), Ended, times.checked)
    else if !Entitled(authority, before) then
      lease.None? && EndsAs(before, row, Failed, Some(PreparationFailed), Ended, times.checked)
    else
      && lease == Some(Lease(id, worker, before.job.leaseEpoch + 1, t.epoch))
      && LeasedAs(before, row, worker, duration, times.checked)
  }

  /**
    A claim outside quarantine succeeds; it deals with the oldest waiting run and no other, leases
    nothing when none waits, and otherwise only ends runs that are overdue or abandoned.
  */
  lemma ClaimEffect(
    t: Tables, authority: Authority, worker: Id, duration: int, batch: nat, skips: Skips, times: ClaimTimes
  )
    requires AllSound(t.runs) && Timely(t.runs, times.started)
    ensures Claim(t, authority, worker, duration, batch, skips, times).Ok? <==> duration > 0 && !t.quarantined
    ensures Claim(t, authority, worker, duration, batch, skips, times).Err? ==>
      Claim(t, authority, worker, duration, batch, skips, times).error
        == if duration <= 0 then InvalidTransition else DispatchQuarantined
    ensures Claim(t, authority, worker, duration, batch, skips, times).Ok? ==>
      var (after, lease) := Claim(t, authority, worker, duration, batch, skips, times).value;
      && after == t.(runs := after.runs) && after.runs.Keys == t.runs.Keys
      && (lease.Some? ==> Oldest(t, skips.queued, times.started, lease.value.run))
      && (forall id | Oldest(t, skips.queued, times.started, id) ::
            ClaimedAs(t, after, id, lease, authority, worker, duration, times))
      && (forall id | id in t.runs && !Oldest(t, skips.queued, times.started, id) ::
            ReapedAs(t.runs[id], after.runs[id], times.started))
  {
    hide Sound, SweepBatch, Oldest, ReapedAs, Waiting, Candidate, ClaimedAs, TargetIsCurrent;
    if duration > 0 && !t.quarantined {
      var kept := Reaped(t, batch, skips, times.started);
      ReapedEffect(t, batch, skips, times.started);
      CandidateIsOldest(t, kept, skips.queued, times.started);
      var candidate := Candidate(kept, t.epoch, skips.queued, times.started);
      if candidate.Some? {
        ClaimedRow(t, kept, candidate.value, authority, worker, duration, times, skips);
      }
    }
  }

  lemma ClaimedRow(
    t: Tables, kept: map<Id, Run>, id: Id, authority: Authority, worker: Id, duration: int, times: ClaimTimes, skips: Skips
  )
    requires AllSound(kept) && kept.Keys == t.runs.Keys && Oldest(t, skips.queued, times.started, id)
    requires Waiting(t.runs[id], t.epoch, times.started) ==> kept[id] == t.runs[id]
    ensures var (runs, lease) := ClaimRuns(kept, id, t.epoch, authority, worker, duration, times);
      && runs.Keys == t.runs.Keys
      && (forall other | other in kept && other != id :: runs[other] == kept[other])
      && (lease.Some? ==> lease.value.run == id)
      && ClaimedAs(t, t.(runs := runs), id, lease, authority, worker, duration, times)
  {
    hide Sound, EndsAs, LeasedAs, ClaimRow, Finish, TargetIsCurrent, Entitled;
    var run := t.runs[id];
    EntitledIsCurrent(authority, run);
    ClaimRowEffect(run, worker, duration, times.checked, t.epoch, times.started);
    FinishEnds(run, TimedOut, Some(DeadlineExceeded), times.selected, Ended);
    FinishEnds(run, TimedOut, Some(DeadlineExceeded), times.checked, Ended);
    FinishEnds(run, Failed, Some(PreparationFailed), times.checked, Ended);
  }

  /** Every claim first sweeps a batch of overdue runs, then a batch of abandoned dispatches. */
  lemma ClaimSweeps(
    t: Tables, authority: Authority, worker: Id, duration: int, batch: nat, skips: Skips, times: ClaimTimes
  ) returns (between: map<Id, Run>, overdue: set<Id>, abandoned: set<Id>)
    requires AllSound(t.runs) && Timely(t.runs, times.started)
    requires Claim(t, authority, worker, duration, batch, skips, times).Ok?
    ensures var after := Claim(t, authority, worker, duration, batch, skips, times).value.0.runs;
      && after.Keys == t.runs.Keys
      && Sweeps(PastDeadline, t.runs, between, skips.expired, batch, times.started, overdue)
      && Sweeps(AbandonedDispatch, between,
                map id | id in t.runs :: if Oldest(t, skips.queued, times.started, id) then t.runs[id] else after[id],
                skips.abandoned, batch, times.started, abandoned)
  {
    hide Sound, SweepBatch, Sweeps, Oldest, Claim, Reaped;
    between := SweepBatch(PastDeadline, t.runs, skips.expired, batch, times.started);
    SweepBatchQuiet(PastDeadline, t.runs, skips.expired, batch, times.started);
    QuietKeeps(t.runs, between, times.started);
    overdue := SweepEffect(PastDeadline, t.runs, skips.expired, batch, times.started);
    abandoned := SweepEffect(AbandonedDispatch, between, skips.abandoned, batch, times.started);
    BesidesOldest(t, authority, worker, duration, batch, skips, times);
    assert Reaped(t, batch, skips, times.started) == SweepBatch(AbandonedDispatch, between, skips.abandoned, batch, times.started) by {
      ReapedInTwo(t, batch, skips, times.started);
    }
  }

  lemma ReapedInTwo(t: Tables, batch: nat, skips: Skips, now: Time)
    ensures Reaped(t, batch, skips, now)
         == SweepBatch(AbandonedDispatch, SweepBatch(PastDeadline, t.runs, skips.expired, batch, now), skips.abandoned, batch, now)
  {
  }

  /** Apart from the oldest waiting run a claim leaves what its sweeps leave. */
  lemma BesidesOldest(
    t: Tables, authority: Authority, worker: Id, duration: int, batch: nat, skips: Skips, times: ClaimTimes
  )
    requires AllSound(t.runs) && Timely(t.runs, times.started)
    requires Claim(t, authority, worker, duration, batch, skips, times).Ok?
    ensures var after := Claim(t, authority, worker, duration, batch, skips, times).value.0.runs;
      && after.Keys == t.runs.Keys
      && Reaped(t, batch, skips, times.started)
         == map id | id in t.runs :: if Oldest(t, skips.queued, times.started, id) then t.runs[id] else after[id]
  {
    hide Sound, SweepBatch, Oldest, ReapedAs, Waiting, Candidate, TargetIsCurrent, ClaimRow, Finish;
    var kept := Reaped(t, batch, skips, times.started);
    ReapedEffect(t, batch, skips, times.started);
    CandidateIsOldest(t, kept, skips.queued, times.started);
    var candidate := Candidate(kept, t.epoch, skips.queued, times.started);
    if candidate.Some? { OldestWaits(t, skips.queued, times.started, candidate.value); }
  }

  lemma OldestWaits(t: Tables, skipped: set<Id>, now: Time, id: Id)
    requires Oldest(t, skipped, now, id)
    ensures Waiting(t.runs[id], t.epoch, now)
  {
  }

  /** A run in a live lease, before its deadline, comes out of every claim exactly as it was. */
  lemma ClaimLeavesLiveLeases(
    t: Tables, authority: Authority, worker: Id, duration: int, batch: nat, skips: Skips, times: ClaimTimes, id: Id
  )
    requires AllSound(t.runs) && Timely(t.runs, times.started)
    requires Claim(t, authority, worker, duration, batch, skips, times).Ok?
    requires id in t.runs && t.runs[id].job.status == JobLeased && t.runs[id].job.expiresAt.Some?
    requires t.runs[id].job.expiresAt.value > times.started && t.runs[id].job.deadline > times.started
    ensures var after := Claim(t, authority, worker, duration, batch, skips, times).value.0.runs;
      id in after && after[id] == t.runs[id]
  {
    hide AllSound, Timely, Claim, ReapedAs, ClaimedAs, Oldest;
    ClaimEffect(t, authority, worker, duration, batch, skips, times);
    LiveLeaseIsLeftAlone(t, skips.queued, times.started, id,
                         Claim(t, authority, worker, duration, batch, skips, times).value.0.runs[id]);
  }

  lemma LiveLeaseIsLeftAlone(t: Tables, skipped: set<Id>, now: Time, id: Id, after: Run)
    requires id in t.runs && t.runs[id].job.status == JobLeased && t.runs[id].job.expiresAt.Some?
    requires t.runs[id].job.expiresAt.value > now && t.runs[id].job.deadline > now
    ensures !Oldest(t, skipped, now, id)
    ensures ReapedAs(t.runs[id], after, now) ==> after == t.runs[id]
  {
    hide SweptAs;
  }

  /** A claim returns no lease exactly when none waits or the oldest waiting run was out of time or authority. */
  lemma ClaimReturnsNothing(
    t: Tables, authority: Authority, worker: Id, duration: int, batch: nat, skips: Skips, times: ClaimTimes
  )
    requires AllSound(t.runs) && Timely(t.runs, times.started) && times.selected <= times.checked
    requires Claim(t, authority, worker, duration, batch, skips, times).Ok?
    ensures Claim(t, authority, worker, duration, batch, skips, times).value.1.None? <==>
      forall id | Oldest(t, skips.queued, times.started, id) ::
        t.runs[id].job.deadline <= times.checked || !Entitled(authority, t.runs[id])
  {
    hide Sound, Claim, EndsAs, LeasedAs, Oldest, ReapedAs, Entitled;
    ClaimEffect(t, authority, worker, duration, batch, skips, times);
    var (after, lease) := Claim(t, authority, worker, duration, batch, skips, times).value;
    forall id | Oldest(t, skips.queued, times.started, id) ensures id in t.runs { OldestIsThere(t, skips.queued, times.started, id); }
  }

  lemma OldestIsThere(t: Tables, skipped: set<Id>, now: Time, id: Id)
    requires Oldest(t, skipped, now, id)
    ensures id in t.runs
  {
  }

  /** Some run waits unlocked exactly when there is an oldest one. */
  lemma OldestExists(t: Tables, skipped: set<Id>, now: Time)
    ensures (exists id :: Oldest(t, skipped, now, id)) <==>
      exists id :: id in t.runs && id !in skipped && Waiting(t.runs[id], t.epoch, now)
  {
    hide Waiting;
    CandidateIsOldest(t, t.runs, skipped, now);
    if id :| id in t.runs && id !in skipped && Waiting(t.runs[id], t.epoch, now) {
      WaitingIsClaimable(t.runs[id], t.epoch, now);
      assert Candidate(t.runs, t.epoch, skipped, now).Some?;
      assert Oldest(t, skipped, now, Candidate(t.runs, t.epoch, skipped, now).value);
    }
  }
}
