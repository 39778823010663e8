/**
  The execution service's transactions as they run: rows are updated in place in a
  session without autoflush, so queries see only what an earlier flush has written.
  Every transaction is proved to have exactly the effect specified for it.
*/
module ExecutionService {
  import opened Common
  import opened Queries
  import opened RegistryTypes
  import opened ExecutionTypes
  import opened RunRows
  import opened Ledger
  import opened KeyHistory
  import opened Admission

  class ExecutionService {
    const limits: Limits
    var epoch: nat
    var quarantined: bool
    /** Rows as the session's objects hold them, with changes not yet flushed. */
    var runs: map<Id, Run>
    /** Rows as queries see them. */
    var flushed: map<Id, Run>
    var records: map<Id, Record>
    var nonces: map<Id, NonceRow>

    constructor (limits: Limits)
      requires limits.Valid()
      ensures this.limits == limits && Settled()
      ensures View() == Tables(1, false, map[], map[], map[])
    {
      this.limits := limits;
      epoch, quarantined := 1, false;
      runs, flushed, records, nonces := map[], map[], map[], map[];
    }

    ghost function View(): Tables
      reads this
    {
      Tables(epoch, quarantined, runs, records, nonces)
    }

    /** Between transactions: everything flushed, every run in step. */
    ghost predicate Settled()
      reads this
    {
      flushed == runs && AllSound(runs) && limits.Valid()
    }

    /** Nothing has been added to this run since the last flush. */
    ghost predicate Clean(id: Id)
      reads this
    {
      && id in runs && id in flushed
      && flushed[id].events == runs[id].events
      && flushed[id].attempts == runs[id].attempts
      && Numbered(runs[id].events)
    }

    method Flush()
      modifies this`flushed
      ensures flushed == runs
    {
      flushed := runs;
    }

    method AppendNextEvent(id: Id, kind: EventType, status: RunStatus, code: Option<FailureCode>, now: Time)
      requires id in runs && id in flushed
      requires flushed[id].events == runs[id].events && Numbered(runs[id].events)
      modifies this`runs
      ensures runs == old(runs)[id := Append(old(runs)[id], kind, status, code, now)]
    {
      var sequence := MaxSequence(flushed[id].events);
      NumberedMax(flushed[id].events);
      var run := runs[id];
      runs := runs[id := run.(events := run.events + [Event(sequence + 1, kind, status, code, now)])];
    }

    method TerminalizeRun(id: Id, status: RunStatus, now: Time, code: FailureCode, kind: EventType)
      requires Clean(id)
      modifies this`runs
      ensures runs == old(runs)[id := Finish(old(runs)[id], status, Some(code), now, kind)]
    {
      runs := runs[id := runs[id].(status := status, code := Some(code), updatedAt := now, terminalAt := Some(now))];
      var job := runs[id].job;
      job := job.(status := JobDone(status), owner := None, expiresAt := None, completedAt := Some(now));
      runs := runs[id := runs[id].(job := job)];
      var active := LatestLive(flushed[id].attempts);
      if active >= 0 {
        var attempts := runs[id].attempts;
        var attempt := attempts[active].(status := status, code := Some(code), terminalAt := Some(now));
        runs := runs[id := runs[id].(attempts := attempts[active := attempt])];
      }
      AppendNextEvent(id, kind, status, Some(code), now);
    }

    // ---------- claiming ----------

    method TerminalizeExpiredJobs(skipped: set<Id>, now: Time)
      requires Settled()
      modifies this`runs
      ensures runs == SweepBatch(PastDeadline, old(runs), skipped, limits.reconciliationBatch, now)
    {
      hide Sound, Quiet, Finish, SweepRuns, Numbered;
      var ids := Picked(PastDeadline, flushed, skipped, limits.reconciliationBatch, now);
      SweepNone(PastDeadline, flushed, now);
      for i := 0 to |ids|
        invariant runs == SweepRuns(PastDeadline, flushed, Elements(ids[..i]), now)
      {
        var id := ids[i];
        SweepNext(PastDeadline, flushed, ids, i, now);
        SoundIsNumbered(flushed[id]);
        var status := if runs[id].status == DispatchFenced then Indeterminate else TimedOut;
        TerminalizeRun(id, status, now, DeadlineExceeded, Ended);
      }
      assert ids[..|ids|] == ids;
    }

    method TerminalizeAbandonedDispatches(skipped: set<Id>, now: Time)
      requires Settled()
      modifies this`runs, this`flushed
      ensures runs == SweepBatch(AbandonedDispatch, old(runs), skipped, limits.reconciliationBatch, now)
      ensures flushed == runs
    {
      hide Sound, Quiet, Finish, SweepRuns, Numbered;
      var ids := Picked(AbandonedDispatch, flushed, skipped, limits.reconciliationBatch, now);
      SweepNone(AbandonedDispatch, flushed, now);
      for i := 0 to |ids|
        invariant flushed == old(flushed)
        invariant runs == SweepRuns(AbandonedDispatch, flushed, Elements(ids[..i]), now)
      {
        var id := ids[i];
        SweepNext(AbandonedDispatch, flushed, ids, i, now);
        SoundIsNumbered(flushed[id]);
        TerminalizeRun(id, Indeterminate, now, WorkerLostAfterDispatch, Ended);
      }
      assert ids[..|ids|] == ids;
      Flush();
    }

    /** Record the attempt of an expired lease as lost. */
    method ReleaseLostAttempt(id: Id, now: Time)
      requires Settled() && id in runs
      modifies this`runs, this`flushed
      ensures var run := old(runs)[id];
              var released := if run.job.status == JobLeased && LatestLive(run.attempts) >= 0 then LoseLease(run, now) else run;
              runs == old(runs)[id := released] && Numbered(released.events)
      ensures flushed == runs && runs[id].job == old(runs)[id].job
    {
      hide AllSound, Numbered, Fenced, FencedOnce;
      RowIsNumbered(runs, id);
      AppendFenced(runs[id], LeaseLost, runs[id].status, Some(WorkerLostBeforeDispatch), now);
      if runs[id].job.status == JobLeased {
        var previous := LatestLive(flushed[id].attempts);
        if previous >= 0 {
          var attempts := runs[id].attempts;
          var lost := attempts[previous].(status := Failed, code := Some(WorkerLostBeforeDispatch), terminalAt := Some(now));
          runs := runs[id := runs[id].(attempts := attempts[previous := lost])];
          AppendNextEvent(id, LeaseLost, runs[id].status, Some(WorkerLostBeforeDispatch), now);
          Flush();
        }
      }
    }

    /** Start the next attempt under the next lease epoch. */
    method LeaseJob(id: Id, worker: Id, duration: int, now: Time)
      requires id in runs && flushed == runs && Numbered(runs[id].events)
      modifies this`runs, this`flushed
      ensures runs == old(runs)[id := StartAttempt(old(runs)[id], worker, duration, now)]
      ensures flushed == runs
      ensures runs[id].job.leaseEpoch == old(runs)[id].job.leaseEpoch + 1
      ensures runs[id].job.executionEpoch == old(runs)[id].job.executionEpoch
    {
      hide Sound, Numbered;
      var job := runs[id].job;
      job := job.(status := JobLeased, owner := Some(worker), leaseEpoch := job.leaseEpoch + 1,
                  expiresAt := Some(Min(now + duration, job.deadline)));
      var latest := |flushed[id].attempts|;
      var attempt := Attempt(latest + 1, job.leaseEpoch, Preparing, None, now, None);
      runs := runs[id := runs[id].(job := job, attempts := runs[id].attempts + [attempt])];
      runs := runs[id := runs[id].(status := Preparing, updatedAt := now)];
      AppendNextEvent(id, AttemptStarted, Preparing, None, now);
      Flush();
    }

    method ClaimJob(authority: Authority, worker: Id, duration: int, skips: Skips, times: ClaimTimes)
      returns (reply: Outcome<Option<Lease>, ErrorCode>)
      requires Settled() && Timely(runs, times.started)
      requires times.started <= times.selected <= times.checked
      modifies this
      ensures Settled()
      ensures match Claim(old(View()), authority, worker, duration, limits.reconciliationBatch, skips, times)
              case Err(error) => reply == Err(error) && View() == old(View())
              case Ok((tables, lease)) => reply == Ok(lease) && View() == tables
    {
      hide Sound, Quiet, SweepBatch, ClaimRuns, Candidate;
      if duration <= 0 {
        return Err(InvalidTransition);
      }
      if quarantined {
        return Err(DispatchQuarantined);
      }
      SweepBatchQuiet(PastDeadline, runs, skips.expired, limits.reconciliationBatch, times.started);
      TerminalizeExpiredJobs(skips.expired, times.started);
      QuietKeeps(old(runs), runs, times.started);
      Flush();
      label swept:
      SweepBatchQuiet(AbandonedDispatch, runs, skips.abandoned, limits.reconciliationBatch, times.started);
      TerminalizeAbandonedDispatches(skips.abandoned, times.started);
      QuietKeeps(old@swept(runs), runs, times.started);
      var candidate := Candidate(flushed, epoch, skips.queued, times.started);
      if candidate.None? {
        return Ok(None);
      }
      var lease := ClaimCandidate(candidate.value, authority, worker, duration, times);
      return Ok(lease);
    }

    method ClaimCandidate(id: Id, authority: Authority, worker: Id, duration: int, times: ClaimTimes)
      returns (lease: Option<Lease>)
      requires Settled() && Timely(runs, times.started)
      requires times.started <= times.selected <= times.checked
      requires id in runs && Claimable(runs[id], epoch, times.started)
      modifies this`runs, this`flushed
      ensures Settled()
      ensures (runs, lease) == ClaimRuns(old(runs), id, epoch, authority, worker, duration, times)
    {
      hide AllSound, Timely, Finish, Numbered, TargetIsCurrent, Claimable, StartAttempt, LoseLease;
      ClaimKeepsSound(runs, id, epoch, authority, worker, duration, times);
      RowIsNumbered(runs, id);
      var run := runs[id];
      if run.job.deadline <= times.selected {
        TerminalizeRun(id, TimedOut, times.selected, DeadlineExceeded, Ended);
        Flush();
        return None;
      }
      var current := TargetIsCurrent(authority, run);
      if run.job.deadline <= times.checked {
        TerminalizeRun(id, TimedOut, times.checked, DeadlineExceeded, Ended);
        Flush();
        return None;
      }
      if !current {
        TerminalizeRun(id, Failed, times.checked, PreparationFailed, Ended);
        Flush();
        return None;
      }
      ReleaseLostAttempt(id, times.checked);
      LeaseJob(id, worker, duration, times.checked);
      assert runs == old(runs)[id := ClaimRow(run, worker, duration, times.checked)];
      return Some(Lease(id, worker, runs[id].job.leaseEpoch, runs[id].job.executionEpoch));
    }

    // ---------- operations under a lease ----------

    method HeartbeatLease(lease: Lease, duration: int, now: Time) returns (reply: Outcome<(), ErrorCode>)
      requires Settled()
      modifies this
      ensures Settled()
      ensures match Heartbeat(old(View()), lease, duration, now)
              case Err(error) => reply == Err(error) && View() == old(View())
              case Ok(tables) => reply == Ok(()) && View() == tables
    {
      hide AllSound, Min;
      HeartbeatKeepsSound(View(), lease, duration, now);
      if duration <= 0 {
        return Err(InvalidTransition);
      }
      if lease.run !in runs {
        return Err(LeaseLostError);
      }
      var run := runs[lease.run];
      if quarantined
         || epoch != lease.executionEpoch
         || run.job.status != JobLeased
         || run.job.owner != Some(lease.worker)
         || run.job.leaseEpoch != lease.leaseEpoch
         || run.job.expiresAt.None?
         || run.job.expiresAt.value <= now
         || run.job.deadline <= now
         || run.status.Terminal()
      {
        return Err(LeaseLostError);
      }
      var extended := Min(now + duration, run.job.deadline);
      runs := runs[lease.run := run.(job := run.job.(expiresAt := Some(extended)))];
      Flush();
      return Ok(());
    }

    method FenceAttempt(authority: Authority, lease: Lease, fence: FenceKind, now: Time)
      returns (reply: Outcome<(), ErrorCode>)
      requires Settled()
      modifies this
      ensures Settled()
      ensures match Fence(old(View()), authority, lease, fence, now)
              case Err(error) => reply == Err(error) && View() == old(View())
              case Ok(tables) => reply == Ok(()) && View() == tables
    {
      hide AllSound, Numbered, TargetIsCurrent, FenceRow;
      FenceKeepsSound(View(), authority, lease, fence, now);
      if lease.run !in runs {
        return Err(LeaseLostError);
      }
      RowIsNumbered(runs, lease.run);
      var run := runs[lease.run];
      var active := LatestLive(flushed[lease.run].attempts);
      if quarantined
         || epoch != lease.executionEpoch
         || run.job.executionEpoch != lease.executionEpoch
         || run.job.status != JobLeased
         || run.job.owner != Some(lease.worker)
         || run.job.leaseEpoch != lease.leaseEpoch
         || run.job.expiresAt.None?
         || run.job.expiresAt.value <= now
         || run.job.deadline <= now
         || run.cancellationRequested
         || run.status != fence.From()
         || !TargetIsCurrent(authority, run)
         || active < 0
         || run.attempts[active].leaseEpoch != lease.leaseEpoch
         || run.attempts[active].status != fence.From()
      {
        return Err(LeaseLostError);
      }
      PassFence(lease.run, active, fence, now);
      return Ok(());
    }

    method PassFence(id: Id, active: nat, fence: FenceKind, now: Time)
      requires id in runs && flushed == runs && Numbered(runs[id].events)
      requires active == LatestLive(runs[id].attempts)
      modifies this`runs, this`flushed
      ensures runs == old(runs)[id := FenceRow(old(runs)[id], fence, now)] && flushed == runs
    {
      hide Numbered;
      var run := runs[id];
      var attempt := run.attempts[active].(status := fence.To());
      run := run.(status := fence.To(), updatedAt := now);
      runs := runs[id := run.(attempts := run.attempts[active := attempt])];
      AppendNextEvent(id, fence.Event(), fence.To(), None, now);
      Flush();
    }

    method CompleteLease(lease: Lease, status: RunStatus, code: Option<FailureCode>, now: Time)
      returns (reply: Outcome<(), ErrorCode>)
      requires Settled() && Timely(runs, now)
      modifies this
      ensures Settled()
      ensures match Complete(old(View()), lease, status, code, now)
              case Err(error) => reply == Err(error) && View() == old(View())
              case Ok(tables) => reply == Ok(()) && View() == tables
    {
      hide AllSound, Timely, ValidWorkerCompletion, Finish, Numbered;
      CompleteKeepsSound(View(), lease, status, code, now);
      if !status.Terminal() || (status == Succeeded && code.Some?) {
        return Err(InvalidTransition);
      }
      if lease.run !in runs {
        return Err(LeaseLostError);
      }
      RowIsNumbered(runs, lease.run);
      var run := runs[lease.run];
      if epoch != lease.executionEpoch
         || run.job.status != JobLeased
         || run.job.owner != Some(lease.worker)
         || run.job.leaseEpoch != lease.leaseEpoch
         || run.job.expiresAt.None?
      {
        return Err(LeaseLostError);
      }
      if run.status.Terminal() {
        return Err(InvalidTransition);
      }
      if run.job.deadline <= now {
        var ended := if run.status == DispatchFenced then Indeterminate else TimedOut;
        TerminalizeRun(lease.run, ended, now, DeadlineExceeded, Ended);
        Flush();
        return Ok(());
      }
      if run.job.expiresAt.value <= now {
        return Err(LeaseLostError);
      }
      var active := LatestLive(flushed[lease.run].attempts);
      if active < 0 || run.attempts[active].leaseEpoch != lease.leaseEpoch {
        return Err(LeaseLostError);
      }
      if !ValidWorkerCompletion(run, run.attempts[active], status, code) {
        return Err(InvalidTransition);
      }
      PersistCompletion(lease.run, active, status, code, now);
      return Ok(());
    }

    method PersistCompletion(id: Id, active: nat, status: RunStatus, code: Option<FailureCode>, now: Time)
      requires id in runs && flushed == runs && Numbered(runs[id].events)
      requires active == LatestLive(runs[id].attempts)
      modifies this`runs, this`flushed
      ensures runs == old(runs)[id := Finish(old(runs)[id], status, code, now, Ended)] && flushed == runs
    {
      hide Numbered;
      var run := runs[id];
      run := run.(status := status, code := code, updatedAt := now, terminalAt := Some(now));
      var attempt := run.attempts[active].(status := status, code := code, terminalAt := Some(now));
      var job := run.job.(status := JobDone(status), owner := None, expiresAt := None, completedAt := Some(now));
      runs := runs[id := run.(attempts := run.attempts[active := attempt], job := job)];
      AppendNextEvent(id, Ended, status, code, now);
      Flush();
    }

    // ---------- cancellation, restore and retention ----------

    method CancelRun(workspace: Id, id: Id, now: Time) returns (reply: Outcome<(), ErrorCode>)
      requires Settled() && Timely(runs, now)
      modifies this
      ensures Settled()
      ensures match Cancel(old(View()), workspace, id, now)
              case Err(error) => reply == Err(error) && View() == old(View())
              case Ok(tables) => reply == Ok(()) && View() == tables
    {
      hide AllSound, Timely, Finish, Numbered;
      CancelKeepsSound(View(), workspace, id, now);
      if id !in runs || runs[id].workspace != workspace {
        return Err(InvalidTransition);
      }
      var status := runs[id].status;
      if status.Terminal() {
        return Ok(());
      }
      RowIsNumbered(runs, id);
      runs := runs[id := runs[id].(cancellationRequested := true)];
      if runs[id].deadline <= now {
        TerminalizeRun(id, if status == DispatchFenced then Indeterminate else TimedOut, now, DeadlineExceeded, Ended);
      } else if status in {Queued, Preparing, SessionFenced} {
        TerminalizeRun(id, Cancelled, now, CancelledBeforeDispatch, CancelRequested);
      } else {
        runs := runs[id := runs[id].(updatedAt := now)];
        AppendNextEvent(id, CancelRequested, status, None, now);
      }
      assert runs == old(runs)[id := CancelRow(old(runs)[id], now)];
      Flush();
      return Ok(());
    }

    method EnterRestoreQuarantine() returns (newEpoch: nat)
      requires Settled()
      modifies this
      ensures Settled() && View() == EnterQuarantine(old(View())) && newEpoch == epoch
    {
      epoch := epoch + 1;
      quarantined := true;
      return epoch;
    }

    method ReconcileRestoreQuarantine(skipped: set<Id>, batch: int, now: Time) returns (reply: Outcome<nat, ErrorCode>)
      requires Settled() && Timely(runs, now)
      modifies this
      ensures Settled()
      ensures match Reconcile(old(View()), skipped, batch, now)
              case Err(error) => reply == Err(error) && View() == old(View())
              case Ok((tables, count)) => reply == Ok(count) && View() == tables
    {
      hide Sound, Quiet, Finish, SweepRuns, Numbered;
      if batch <= 0 || batch > 1000 || !quarantined {
        return Err(InvalidTransition);
      }
      SweepBatchQuiet(Restored, runs, skipped, batch, now);
      var ids := Picked(Restored, flushed, skipped, batch, now);
      SweepNone(Restored, flushed, now);
      for i := 0 to |ids|
        invariant epoch == old(epoch) && quarantined && records == old(records) && nonces == old(nonces)
        invariant flushed == old(flushed)
        invariant runs == SweepRuns(Restored, flushed, Elements(ids[..i]), now)
      {
        var id := ids[i];
        SweepNext(Restored, flushed, ids, i, now);
        SoundIsNumbered(flushed[id]);
        var terminal := if runs[id].status == DispatchFenced then Indeterminate else Cancelled;
        TerminalizeRun(id, terminal, now, RestoreReconciliation, RestoreReconciled);
      }
      assert ids[..|ids|] == ids;
      QuietKeeps(old(runs), runs, now);
      Flush();
      return Ok(|ids|);
    }

    method ClearRestoreQuarantine() returns (reply: Outcome<nat, ErrorCode>)
      requires Settled()
      modifies this
      ensures Settled()
      ensures match ClearQuarantine(old(View()))
              case Err(error) => reply == Err(error) && View() == old(View())
              case Ok(tables) => reply == Ok(epoch) && View() == tables
    {
      var unreconciled := ActiveIds(flushed);
      if !quarantined || unreconciled != {} {
        return Err(InvalidTransition);
      }
      quarantined := false;
      return Ok(epoch);
    }

    method ExpireRetainedContent(skipped: set<Id>, batch: int, now: Time) returns (reply: Outcome<nat, ErrorCode>)
      requires Settled() && Timely(runs, now)
      modifies this
      ensures Settled()
      ensures match ExpireContent(old(View()), skipped, batch, now)
              case Err(error) => reply == Err(error) && View() == old(View())
              case Ok(tables) => reply.Ok? && View() == tables
    {
      hide Sound, Quiet, Finish, SweepRuns, Numbered;
      if batch <= 0 || batch > 1000 {
        return Err(InvalidTransition);
      }
      SweepBatchQuiet(ContentDue, runs, skipped, batch, now);
      var ids := Picked(ContentDue, flushed, skipped, batch, now);
      SweepNone(ContentDue, flushed, now);
      for i := 0 to |ids|
        invariant epoch == old(epoch) && quarantined == old(quarantined)
        invariant records == old(records) && nonces == old(nonces)
        invariant flushed == old(flushed)
        invariant runs == SweepRuns(ContentDue, flushed, Elements(ids[..i]), now)
      {
        var id := ids[i];
        SweepNext(ContentDue, flushed, ids, i, now);
        SoundIsNumbered(flushed[id]);
        var status := runs[id].status;
        if !status.Terminal() {
          var terminal := if status == DispatchFenced then Indeterminate else TimedOut;
          TerminalizeRun(id, terminal, now, ContentRetentionDeadline, ContentExpired);
        } else {
          AppendNextEvent(id, ContentExpired, status, runs[id].code, now);
        }
        runs := runs[id := runs[id].(argumentsKept := false, updatedAt := now)];
      }
      assert ids[..|ids|] == ids;
      QuietKeeps(old(runs), runs, now);
      Flush();
      return Ok(|ids|);
    }

    method DeleteExpiredRunMetadata(skipped: set<Id>, batch: int, now: Time) returns (reply: Outcome<nat, ErrorCode>)
      requires Settled()
      modifies this
      ensures Settled()
      ensures match DeleteExpired(old(View()), limits, skipped, batch, now)
              case Err(error) => reply == Err(error) && View() == old(View())
              case Ok(tables) => reply.Ok? && View() == tables
    {
      if batch <= 0 || batch > 1000 {
        return Err(InvalidTransition);
      }
      hide AllSound, Deletable, DeleteRuns, Cutoff, Elements;
      var cutoff := Cutoff(limits, now);
      var ids := Deletable(flushed, skipped, batch, cutoff);
      DeleteRows(Elements(ids));
      return Ok(|ids|);
    }

    method DeleteRows(ids: set<Id>)
      requires Settled()
      modifies this
      ensures Settled() && View() == DeleteRuns(old(View()), ids)
    {
      hide AllSound, NoncesWithout;
      FewerStaySound(runs, ids);
      runs := runs - ids;
      records := records - ids;
      nonces := NoncesWithout(nonces, ids);
      Flush();
    }

    // ---------- creation ----------

    /** Three probe loops decide whether both key histories are complete. */
    method RequireKeyHistory(keyrings: Keyrings) returns (missing: Option<ErrorCode>)
      requires Settled() && keyrings.Valid(limits)
      ensures missing == HistoryError(View(), keyrings)
    {
      var confirmationVersions := set id | id in records :: records[id].confirmationVersion;
      var nonceVersions := set nonce | nonce in nonces :: nonces[nonce].keyVersion;
      var versions := set id | id in records :: records[id].version;
      var confirmation, idempotency := Versions(keyrings.confirmation), Versions(keyrings.idempotency);
      RingSize(keyrings.confirmation);
      RingSize(keyrings.idempotency);
      BoundedKeyringDecides(confirmationVersions, confirmation, limits.maxHistoricalKeys);
      BoundedKeyringDecides(nonceVersions, confirmation, limits.maxHistoricalKeys);
      BoundedKeyringDecides(versions, idempotency, limits.maxHistoricalKeys);
      HistoryIsInclusion(View(), keyrings);
      var unconfigured := FindUnconfiguredKeyVersion(confirmationVersions, confirmation, limits.maxHistoricalKeys);
      if unconfigured.Some? {
        return Some(ConfirmationHistoryIncomplete);
      }
      unconfigured := FindUnconfiguredKeyVersion(nonceVersions, confirmation, limits.maxHistoricalKeys);
      if unconfigured.Some? {
        return Some(ConfirmationHistoryIncomplete);
      }
      unconfigured := FindUnconfiguredKeyVersion(versions, idempotency, limits.maxHistoricalKeys);
      if unconfigured.Some? {
        return Some(IdempotencyHistoryIncomplete);
      }
      return None;
    }

    method ReplayExistingRun(request: CreateRequest, found: Id) returns (reply: Outcome<Id, ErrorCode>)
      requires Settled() && found in records
      modifies this
      ensures Settled()
      ensures match Replay(old(View()), request, found)
              case Err(error) => reply == Err(error) && View() == old(View())
              case Ok(tables) => reply == Ok(found) && View() == tables
    {
      var record, claims := records[found], request.claims;
      if record.requestMac != RequestMac(record.version, CanonicalOf(request)) {
        return Err(IdempotencyConflict);
      }
      if found !in runs || runs[found].workspace != request.workspace {
        return Err(IdempotencyConflict);
      }
      var pins := runs[found].pins;
      if pins.capability != claims.capability
         || pins.capabilityVersion != claims.capabilityVersion
         || pins.connection != claims.connection
         || pins.connectionVersion != claims.connectionVersion
      {
        return Err(IdempotencyConflict);
      }
      if claims.nonce in nonces && nonces[claims.nonce].run != found {
        return Err(ConfirmationReplayed);
      }
      if claims.nonce !in nonces {
        nonces := nonces[claims.nonce := NonceRow(found, claims.keyVersion, claims.expiresAt)];
        Flush();
      }
      return Ok(found);
    }

    /** Creation up to the workspace lock: None asks the caller to take it. */
    method ProbeRun(
      request: CreateRequest, keyrings: Keyrings, now: Time
    ) returns (reply: Outcome<Option<Id>, ErrorCode>)
      requires Settled() && keyrings.Valid(limits)
      modifies this
      ensures Settled()
      ensures match Probe(old(View()), request, keyrings, now)
              case Err(error) => reply == Err(error) && View() == old(View())
              case Ok(MustLock) => reply == Ok(None) && View() == old(View())
              case Ok(Replayed(tables, run)) => reply == Ok(Some(run)) && View() == tables
    {
      var missing := RequireKeyHistory(keyrings);
      if missing.Some? {
        return Err(missing.value);
      }
      if request.claims.keyVersion !in keyrings.confirmation {
        return Err(InvalidConfirmation);
      }
      if !BindingsHold(request, now) {
        return Err(InvalidConfirmation);
      }
      var tables := Tables(epoch, quarantined, runs, records, nonces);
      var existing := FindRecord(tables, request.workspace, request.actor, request.rawKey, keyrings.idempotency);
      if existing.None? {
        return Ok(None);
      }
      var run := ReplayExistingRun(request, existing.value);
      match run
      case Err(error) => return Err(error);
      case Ok(id) => return Ok(Some(id));
    }

    /** Creation behind the workspace lock. */
    method AdmitRun(
      request: CreateRequest, keyrings: Keyrings, authority: Authority, state: StateRead,
      argumentsValid: bool, id: Id, lockedAt: Time, now: Time
    ) returns (reply: Outcome<Id, ErrorCode>)
      requires Settled() && keyrings.Valid(limits) && id !in runs
      modifies this
      ensures Settled()
      ensures match Admit(old(View()), request, keyrings, authority, state, limits, argumentsValid, id, lockedAt, now)
              case Err(error) => reply == Err(error) && View() == old(View())
              case Ok(Existing(tables, run)) => reply == Ok(run) && View() == tables
              case Ok(Created(tables, run)) => reply == Ok(run) && View() == tables
    {
      var claims := request.claims;
      var missing := RequireKeyHistory(keyrings);
      if missing.Some? {
        return Err(missing.value);
      }
      var tables := Tables(epoch, quarantined, runs, records, nonces);
      var existing := FindRecord(tables, request.workspace, request.actor, request.rawKey, keyrings.idempotency);
      if existing.Some? {
        reply := ReplayExistingRun(request, existing.value);
        return;
      }
      if claims.expiresAt <= lockedAt {
        return Err(ConfirmationExpired);
      }
      if claims.nonce in nonces {
        return Err(ConfirmationReplayed);
      }
      var deadline := AdmissionDeadline(request.deadline, limits, lockedAt);
      if deadline.None? {
        return Err(InvalidArguments);
      }
      var target := AdmissionTarget(authority, request.capabilityVersion);
      if target.None? {
        return Err(CapabilityUnavailable);
      }
      var pins := target.value;
      if claims.capability != pins.capability
         || claims.connection != pins.connection
         || claims.connectionVersion != pins.connectionVersion
      {
        return Err(InvalidConfirmation);
      }
      if !argumentsValid {
        return Err(InvalidArguments);
      }
      if claims.expiresAt <= now {
        return Err(ConfirmationExpired);
      }
      deadline := AdmissionDeadline(request.deadline, limits, now);
      if deadline.None? {
        return Err(InvalidArguments);
      }
      if state.quarantined {
        return Err(DispatchQuarantined);
      }
      if |ActiveIn(flushed, request.workspace)| >= limits.maxActiveRuns {
        return Err(ActiveRunLimit);
      }
      NewRunSound(request, pins, state.epoch, limits, deadline.value, now);
      runs := runs[id := NewRun(request, pins, state.epoch, limits, deadline.value, now)];
      nonces := nonces[claims.nonce := NonceRow(id, claims.keyVersion, claims.expiresAt)];
      records := records[id := NewRecord(request, keyrings.idempotency)];
      Flush();
      return Ok(id);
    }
  }

  /** A sweep's rows after one more selected run. */
  lemma SweepNext(sweep: Sweep, rows: map<Id, Run>, ids: seq<Id>, i: nat, now: Time)
    requires i < |ids| && ids[i] in rows
    requires forall a, b | 0 <= a < b < |ids| :: ids[a] != ids[b]
    ensures var before := SweepRuns(sweep, rows, Elements(ids[..i]), now);
            && ids[i] in before && before[ids[i]] == rows[ids[i]]
            && SweepRuns(sweep, rows, Elements(ids[..i + 1]), now) == before[ids[i] := SweepRow(sweep, rows[ids[i]], now)]
  {
    hide SweepRow;
    assert Elements(ids[..i + 1]) == Elements(ids[..i]) + {ids[i]};
    assert ids[i] !in Elements(ids[..i]);
  }

  lemma SweepNone(sweep: Sweep, rows: map<Id, Run>, now: Time)
    ensures SweepRuns(sweep, rows, Elements([]), now) == rows
  {
    hide SweepRow;
  }

  lemma FewerStaySound(rows: map<Id, Run>, ids: set<Id>)
    requires AllSound(rows)
    ensures AllSound(rows - ids)
  {
    hide Sound;
  }

  lemma RowIsNumbered(rows: map<Id, Run>, id: Id)
    requires AllSound(rows) && id in rows
    ensures Numbered(rows[id].events)
  {
    SoundIsNumbered(rows[id]);
  }

  lemma ClaimKeepsSound(
    rows: map<Id, Run>, id: Id, epoch: nat, authority: Authority, worker: Id, duration: int, times: ClaimTimes
  )
    requires AllSound(rows) && Timely(rows, times.started)
    requires times.started <= times.selected <= times.checked
    requires id in rows && Claimable(rows[id], epoch, times.started)
    ensures AllSound(ClaimRuns(rows, id, epoch, authority, worker, duration, times).0)
  {
    ClaimRunsQuiet(rows, id, epoch, authority, worker, duration, times);
    QuietKeeps(rows, ClaimRuns(rows, id, epoch, authority, worker, duration, times).0, times.started);
  }

  lemma SoundIsNumbered(run: Run)
    requires Sound(run)
    ensures Numbered(run.events)
  {
  }

  /** The probe loops' inclusion tests are the specified history checks. */
  lemma HistoryIsInclusion(t: Tables, keyrings: Keyrings)
    ensures ConfirmationHistoryComplete(t, keyrings.confirmation) <==>
              && (set id | id in t.records :: t.records[id].confirmationVersion) <= Versions(keyrings.confirmation)
              && (set nonce | nonce in t.nonces :: t.nonces[nonce].keyVersion) <= Versions(keyrings.confirmation)
    ensures IdempotencyHistoryComplete(t, keyrings.idempotency) <==>
              (set id | id in t.records :: t.records[id].version) <= Versions(keyrings.idempotency)
  {
    var confirmations := set id | id in t.records :: t.records[id].confirmationVersion;
    var spent := set nonce | nonce in t.nonces :: t.nonces[nonce].keyVersion;
    var versions := set id | id in t.records :: t.records[id].version;
    assert forall id | id in t.records :: t.records[id].confirmationVersion in confirmations && t.records[id].version in versions;
    assert forall nonce | nonce in t.nonces :: t.nonces[nonce].keyVersion in spent;
  }
}
