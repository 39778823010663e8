/**
  The execution tables, and each worker, sweep and restore transaction as a function
  from the tables before it to the tables after it.
*/
module Ledger {
  import opened Common
  import opened Queries
  import opened RegistryTypes
  import opened ExecutionTypes
  import opened RunRows

  /** The request fields covered by replay protection. */
  datatype Canonical = Canonical(
    capability: Id,
    capabilityVersion: Id,
    connection: Id,
    connectionVersion: Id,
    argumentDigest: Id,
    deadline: Option<Time>)

  /** Keyed digests under a key version; the two message kinds have distinct prefixes. */
  datatype Mac =
    | KeyMac(version: int, workspace: Id, actor: Id, rawKey: string)
    | RequestMac(version: int, request: Canonical)

  /** The idempotency record written with a run and deleted with it. */
  datatype Record = Record(
    workspace: Id,
    actor: Id,
    confirmationVersion: int,
    version: int,
    keyMac: Mac,
    requestMac: Mac)

  datatype NonceRow = NonceRow(run: Id, keyVersion: int, expiresAt: Time)

  datatype Tables = Tables(
    epoch: nat,
    quarantined: bool,
    runs: map<Id, Run>,
    records: map<Id, Record>,
    nonces: map<Id, NonceRow>)

  ghost predicate AllSound(runs: map<Id, Run>) {
    forall id | id in runs :: Sound(runs[id])
  }

  /** No row is newer than the clock. */
  ghost predicate Timely(runs: map<Id, Run>, now: Time) {
    forall id | id in runs :: runs[id].createdAt <= now
  }

  /** Only run rows changed, each of them soundly and without a dispatch fence. */
  ghost predicate QuietTables(before: Tables, after: Tables) {
    && after.epoch == before.epoch && after.quarantined == before.quarantined
    && after.records == before.records && after.nonces == before.nonces
    && QuietRuns(before.runs, after.runs)
  }

  ghost predicate QuietRuns(before: map<Id, Run>, after: map<Id, Run>) {
    && after.Keys == before.Keys
    && forall id | id in before :: Quiet(before[id], after[id])
  }

  lemma QuietRunsCompose(a: map<Id, Run>, b: map<Id, Run>, c: map<Id, Run>)
    requires QuietRuns(a, b) && QuietRuns(b, c)
    ensures QuietRuns(a, c)
  {
    forall id | id in a ensures Quiet(a[id], c[id]) {
      assert Quiet(a[id], b[id]) && Quiet(b[id], c[id]);
    }
  }

  // ---------- sweeps ----------

  predicate Due(sweep: Sweep, run: Run, now: Time) {
    match sweep
    case PastDeadline =>
      run.job.status in {JobQueued, JobLeased} && run.job.deadline <= now
    case AbandonedDispatch =>
      && run.job.status == JobLeased
      && run.job.expiresAt.Some? && run.job.expiresAt.value <= now
      && run.status == DispatchFenced
    case Restored => !run.status.Terminal()
    case ContentDue => run.argumentsKept && run.argumentsExpireAt <= now
  }

  function SweepKey(sweep: Sweep, run: Run): int {
    match sweep
    case PastDeadline => run.job.deadline
    case AbandonedDispatch => if run.job.expiresAt.Some? then run.job.expiresAt.value else 0
    case Restored => run.createdAt
    case ContentDue => run.argumentsExpireAt
  }

  function DueIds(sweep: Sweep, runs: map<Id, Run>, skipped: set<Id>, now: Time): set<Id> {
    set id | id in runs && id !in skipped && Due(sweep, runs[id], now)
  }

  /** The ordered, bounded selection of a sweep; rows locked elsewhere are skipped. */
  function Picked(sweep: Sweep, runs: map<Id, Run>, skipped: set<Id>, batch: nat, now: Time): (ids: seq<Id>)
    ensures forall i | 0 <= i < |ids| :: ids[i] in runs && Due(sweep, runs[ids[i]], now)
    ensures forall i, j | 0 <= i < j < |ids| :: ids[i] != ids[j]
    ensures |ids| == Min(batch, |DueIds(sweep, runs, skipped, now)|)
  {
    TakeFirst(DueIds(sweep, runs, skipped, now), BySweep(sweep, runs), batch)
  }

  function BySweep(sweep: Sweep, runs: map<Id, Run>): (key: map<Id, int>)
    ensures key.Keys == runs.Keys
  {
    map id | id in runs :: SweepKey(sweep, runs[id])
  }

  function SweepRuns(sweep: Sweep, runs: map<Id, Run>, ids: set<Id>, now: Time): map<Id, Run> {
    map id | id in runs :: if id in ids then SweepRow(sweep, runs[id], now) else runs[id]
  }

  function SweepBatch(sweep: Sweep, runs: map<Id, Run>, skipped: set<Id>, batch: nat, now: Time): map<Id, Run> {
    SweepRuns(sweep, runs, Elements(Picked(sweep, runs, skipped, batch, now)), now)
  }

  lemma QuietRefl(run: Run)
    requires Sound(run)
    ensures Quiet(run, run)
  {
  }

  lemma SweepBatchQuiet(sweep: Sweep, runs: map<Id, Run>, skipped: set<Id>, batch: nat, now: Time)
    requires AllSound(runs) && Timely(runs, now)
    ensures QuietRuns(runs, SweepBatch(sweep, runs, skipped, batch, now))
  {
    var ids := Picked(sweep, runs, skipped, batch, now);
    forall id | id in runs ensures Quiet(runs[id], SweepBatch(sweep, runs, skipped, batch, now)[id]) {
      if id in Elements(ids) {
        SweepRowQuiet(sweep, runs[id], now);
      } else {
        QuietRefl(runs[id]);
      }
    }
  }

  lemma OneRowQuiet(runs: map<Id, Run>, id: Id, row: Run)
    requires AllSound(runs) && id in runs && Quiet(runs[id], row)
    ensures QuietRuns(runs, runs[id := row])
  {
    forall other | other in runs ensures Quiet(runs[other], runs[id := row][other]) {
      if other != id { QuietRefl(runs[other]); }
    }
  }

  // ---------- claiming ----------

  /** Rows other transactions hold locked while the three claim queries run. */
  datatype Skips = Skips(expired: set<Id>, abandoned: set<Id>, queued: set<Id>)

  /** The clock readings of one claim, in order. */
  datatype ClaimTimes = ClaimTimes(started: Time, selected: Time, checked: Time)

  predicate Claimable(run: Run, epoch: nat, now: Time) {
    && run.job.executionEpoch == epoch
    && run.job.availableAt <= now
    && run.job.deadline > now
    && run.status in {Queued, Preparing, SessionFenced}
    && (run.job.status == JobQueued
        || (run.job.status == JobLeased && run.job.expiresAt.Some? && run.job.expiresAt.value <= now))
  }

  function ClaimableIds(runs: map<Id, Run>, epoch: nat, skipped: set<Id>, now: Time): set<Id> {
    set id | id in runs && id !in skipped && Claimable(runs[id], epoch, now)
  }

  function ByCreation(runs: map<Id, Run>): (key: map<Id, int>)
    ensures key.Keys == runs.Keys
  {
    map id | id in runs :: runs[id].job.createdAt
  }

  /** The oldest claimable run, if any. */
  function Candidate(runs: map<Id, Run>, epoch: nat, skipped: set<Id>, now: Time): (id: Option<Id>)
    ensures id.Some? ==> id.value in runs && Claimable(runs[id.value], epoch, now)
    ensures id.None? ==> forall other | other in runs && other !in skipped :: !Claimable(runs[other], epoch, now)
  {
    var ids := ClaimableIds(runs, epoch, skipped, now);
    assert forall other | other in runs && other !in skipped && Claimable(runs[other], epoch, now) :: other in ids;
    if ids == {} then None else Some(First(ids, ByCreation(runs)))
  }

  function ClaimRuns(
    runs: map<Id, Run>, id: Id, epoch: nat, authority: Authority, worker: Id, duration: int, times: ClaimTimes
  ): (map<Id, Run>, Option<Lease>)
    requires id in runs
  {
    var run := runs[id];
    if run.job.deadline <= times.selected then
      (runs[id := Finish(run, TimedOut, Some(DeadlineExceeded), times.selected, Ended)], None)
    else if run.job.deadline <= times.checked then
      (runs[id := Finish(run, TimedOut, Some(DeadlineExceeded), times.checked, Ended)], None)
    else if !TargetIsCurrent(authority, run) then
      (runs[id := Finish(run, Failed, Some(PreparationFailed), times.checked, Ended)], None)
    else
      (runs[id := ClaimRow(run, worker, duration, times.checked)],
       Some(Lease(id, worker, run.job.leaseEpoch + 1, run.job.executionEpoch)))
  }

  function Claim(
    t: Tables, authority: Authority, worker: Id, duration: int, batch: nat, skips: Skips, times: ClaimTimes
  ): Outcome<(Tables, Option<Lease>), ErrorCode>
  {
    if duration <= 0 then Err(InvalidTransition)
    else if t.quarantined then Err(DispatchQuarantined)
    else
      var swept := SweepBatch(PastDeadline, t.runs, skips.expired, batch, times.started);
      var kept := SweepBatch(AbandonedDispatch, swept, skips.abandoned, batch, times.started);
      match Candidate(kept, t.epoch, skips.queued, times.started)
      case None => Ok((t.(runs := kept), None))
      case Some(id) =>
        var (runs, lease) := ClaimRuns(kept, id, t.epoch, authority, worker, duration, times);
        Ok((t.(runs := runs), lease))
  }

  lemma ClaimRunsQuiet(
    runs: map<Id, Run>, id: Id, epoch: nat, authority: Authority, worker: Id, duration: int, times: ClaimTimes
  )
    requires AllSound(runs) && Timely(runs, times.started)
    requires times.started <= times.selected <= times.checked
    requires id in runs && Claimable(runs[id], epoch, times.started)
    ensures var (after, lease) := ClaimRuns(runs, id, epoch, authority, worker, duration, times);
            && QuietRuns(runs, after)
            && (lease.Some? ==>
                  && lease.value == Lease(id, worker, after[id].job.leaseEpoch, epoch)
                  && after[id].job.leaseEpoch == runs[id].job.leaseEpoch + 1
                  && after[id].job.executionEpoch == epoch)
  {
    var run := runs[id];
    var row := ClaimRuns(runs, id, epoch, authority, worker, duration, times).0[id];
    if run.job.deadline <= times.selected {
      FinishQuiet(run, TimedOut, Some(DeadlineExceeded), times.selected, Ended);
    } else if run.job.deadline <= times.checked {
      FinishQuiet(run, TimedOut, Some(DeadlineExceeded), times.checked, Ended);
    } else if !TargetIsCurrent(authority, run) {
      FinishQuiet(run, Failed, Some(PreparationFailed), times.checked, Ended);
    } else {
      ClaimRowQuiet(run, worker, duration, times.checked);
    }
    OneRowQuiet(runs, id, row);
  }

  lemma QuietKeeps(before: map<Id, Run>, after: map<Id, Run>, now: Time)
    requires QuietRuns(before, after)
    ensures AllSound(after) && (Timely(before, now) ==> Timely(after, now))
  {
    forall id | id in after ensures Sound(after[id]) && after[id].createdAt == before[id].createdAt {
      assert Quiet(before[id], after[id]);
    }
  }

  lemma ClaimQuiet(
    t: Tables, authority: Authority, worker: Id, duration: int, batch: nat, skips: Skips, times: ClaimTimes
  )
    requires AllSound(t.runs) && Timely(t.runs, times.started)
    requires times.started <= times.selected <= times.checked
    ensures var reply := Claim(t, authority, worker, duration, batch, skips, times);
            reply.Ok? ==>
              && QuietTables(t, reply.value.0)
              && !t.quarantined
              && (reply.value.1.Some? ==>
                    var lease := reply.value.1.value;
                    && lease.run in t.runs && lease.worker == worker
                    && t.runs[lease.run].job.leaseEpoch < lease.leaseEpoch
                    && lease.leaseEpoch == reply.value.0.runs[lease.run].job.leaseEpoch
                    && lease.executionEpoch == reply.value.0.runs[lease.run].job.executionEpoch == t.epoch)
  {
    if duration > 0 && !t.quarantined {
      var swept := SweepBatch(PastDeadline, t.runs, skips.expired, batch, times.started);
      SweepBatchQuiet(PastDeadline, t.runs, skips.expired, batch, times.started);
      QuietKeeps(t.runs, swept, times.started);
      var kept := SweepBatch(AbandonedDispatch, swept, skips.abandoned, batch, times.started);
      SweepBatchQuiet(AbandonedDispatch, swept, skips.abandoned, batch, times.started);
      QuietKeeps(swept, kept, times.started);
      QuietRunsCompose(t.runs, swept, kept);
      var candidate := Candidate(kept, t.epoch, skips.queued, times.started);
      if candidate.Some? {
        ClaimRunsQuiet(kept, candidate.value, t.epoch, authority, worker, duration, times);
        var after := ClaimRuns(kept, candidate.value, t.epoch, authority, worker, duration, times).0;
        QuietRunsCompose(t.runs, kept, after);
        assert Quiet(t.runs[candidate.value], kept[candidate.value]);
      }
    }
  }

  // ---------- operations under a lease ----------

  /** The clauses shared by every operation under a lease. */
  predicate LeaseKnown(t: Tables, lease: Lease) {
    lease.run in t.runs && t.epoch == lease.executionEpoch
  }

  function Heartbeat(t: Tables, lease: Lease, duration: int, now: Time): Outcome<Tables, ErrorCode> {
    if duration <= 0 then Err(InvalidTransition)
    else if LeaseKnown(t, lease) && !t.quarantined && HeartbeatAllowed(t.runs[lease.run], lease, now) then
      Ok(t.(runs := t.runs[lease.run := HeartbeatRow(t.runs[lease.run], duration, now)]))
    else Err(LeaseLostError)
  }

  function Fence(
    t: Tables, authority: Authority, lease: Lease, fence: FenceKind, now: Time
  ): Outcome<Tables, ErrorCode>
  {
    if LeaseKnown(t, lease) && !t.quarantined && FenceAllowed(t.runs[lease.run], authority, lease, fence, now) then
      Ok(t.(runs := t.runs[lease.run := FenceRow(t.runs[lease.run], fence, now)]))
    else Err(LeaseLostError)
  }

  function Complete(
    t: Tables, lease: Lease, status: RunStatus, code: Option<FailureCode>, now: Time
  ): Outcome<Tables, ErrorCode>
  {
    if !status.Terminal() || (status == Succeeded && code.Some?) then Err(InvalidTransition)
    else if !LeaseKnown(t, lease) || !LeaseMatches(t.runs[lease.run], lease) then Err(LeaseLostError)
    else
      var run := t.runs[lease.run];
      var attempt := LatestLive(run.attempts);
      if run.status.Terminal() then Err(InvalidTransition)
      else if run.job.deadline <= now then
        Ok(t.(runs := t.runs[lease.run := Finish(run, Lost(run, TimedOut), Some(DeadlineExceeded), now, Ended)]))
      else if run.job.expiresAt.value <= now then Err(LeaseLostError)
      else if attempt < 0 || run.attempts[attempt].leaseEpoch != lease.leaseEpoch then Err(LeaseLostError)
      else if !ValidWorkerCompletion(run, run.attempts[attempt], status, code) then Err(InvalidTransition)
      else Ok(t.(runs := t.runs[lease.run := Finish(run, status, code, now, Ended)]))
  }

  lemma HeartbeatQuiet(t: Tables, lease: Lease, duration: int, now: Time)
    requires AllSound(t.runs)
    ensures var reply := Heartbeat(t, lease, duration, now);
            reply.Ok? ==> QuietTables(t, reply.value)
  {
    if Heartbeat(t, lease, duration, now).Ok? {
      OneRowQuiet(t.runs, lease.run, HeartbeatRow(t.runs[lease.run], duration, now));
    }
  }

  lemma CompleteQuiet(t: Tables, lease: Lease, status: RunStatus, code: Option<FailureCode>, now: Time)
    requires AllSound(t.runs) && Timely(t.runs, now)
    ensures var reply := Complete(t, lease, status, code, now);
            reply.Ok? ==> QuietTables(t, reply.value)
  {
    if Complete(t, lease, status, code, now).Ok? {
      var run := t.runs[lease.run];
      SoundLatestLive(run);
      if run.job.deadline <= now {
        FinishQuiet(run, Lost(run, TimedOut), Some(DeadlineExceeded), now, Ended);
        OneRowQuiet(t.runs, lease.run, Finish(run, Lost(run, TimedOut), Some(DeadlineExceeded), now, Ended));
      } else {
        CompletionQuiet(run, run.attempts[LatestLive(run.attempts)], status, code, now);
        OneRowQuiet(t.runs, lease.run, Finish(run, status, code, now, Ended));
      }
    }
  }

  lemma HeartbeatKeepsSound(t: Tables, lease: Lease, duration: int, now: Time)
    requires AllSound(t.runs)
    ensures var reply := Heartbeat(t, lease, duration, now);
            reply.Ok? ==> AllSound(reply.value.runs)
  {
    HeartbeatQuiet(t, lease, duration, now);
    if Heartbeat(t, lease, duration, now).Ok? {
      QuietKeeps(t.runs, Heartbeat(t, lease, duration, now).value.runs, now);
    }
  }

  lemma CompleteKeepsSound(t: Tables, lease: Lease, status: RunStatus, code: Option<FailureCode>, now: Time)
    requires AllSound(t.runs) && Timely(t.runs, now)
    ensures var reply := Complete(t, lease, status, code, now);
            reply.Ok? ==> AllSound(reply.value.runs)
  {
    CompleteQuiet(t, lease, status, code, now);
    if Complete(t, lease, status, code, now).Ok? {
      QuietKeeps(t.runs, Complete(t, lease, status, code, now).value.runs, now);
    }
  }

  lemma FenceKeepsSound(t: Tables, authority: Authority, lease: Lease, fence: FenceKind, now: Time)
    requires AllSound(t.runs)
    ensures var reply := Fence(t, authority, lease, fence, now);
            reply.Ok? ==> AllSound(reply.value.runs)
  {
    if Fence(t, authority, lease, fence, now).Ok? {
      FenceRowSound(t.runs[lease.run], fence, now);
    }
  }

  /** A lease of an earlier claim: none of its operations can change the tables. */
  lemma StaleLeaseIsInert(
    t: Tables, lease: Lease, authority: Authority, fence: FenceKind,
    status: RunStatus, code: Option<FailureCode>, duration: int, now: Time
  )
    requires lease.run in t.runs ==> lease.leaseEpoch < t.runs[lease.run].job.leaseEpoch
    ensures Heartbeat(t, lease, duration, now).Err?
    ensures Fence(t, authority, lease, fence, now).Err?
    ensures Complete(t, lease, status, code, now).Err?
  {
  }

  // ---------- cancellation ----------

  function Cancel(t: Tables, workspace: Id, id: Id, now: Time): Outcome<Tables, ErrorCode> {
    if id !in t.runs || t.runs[id].workspace != workspace then Err(InvalidTransition)
    else Ok(t.(runs := t.runs[id := CancelRow(t.runs[id], now)]))
  }

  lemma CancelQuiet(t: Tables, workspace: Id, id: Id, now: Time)
    requires AllSound(t.runs) && Timely(t.runs, now)
    ensures var reply := Cancel(t, workspace, id, now);
            reply.Ok? ==> QuietTables(t, reply.value)
  {
    if Cancel(t, workspace, id, now).Ok? {
      CancelRowQuiet(t.runs[id], now);
      OneRowQuiet(t.runs, id, CancelRow(t.runs[id], now));
    }
  }

  lemma CancelKeepsSound(t: Tables, workspace: Id, id: Id, now: Time)
    requires AllSound(t.runs) && Timely(t.runs, now)
    ensures var reply := Cancel(t, workspace, id, now);
            reply.Ok? ==> AllSound(reply.value.runs)
  {
    CancelQuiet(t, workspace, id, now);
    if Cancel(t, workspace, id, now).Ok? {
      QuietKeeps(t.runs, Cancel(t, workspace, id, now).value.runs, now);
    }
  }

  // ---------- restore quarantine ----------

  function ActiveIds(runs: map<Id, Run>): set<Id> {
    set id | id in runs && !runs[id].status.Terminal()
  }

  function EnterQuarantine(t: Tables): Tables {
    t.(epoch := t.epoch + 1, quarantined := true)
  }

  function Reconcile(t: Tables, skipped: set<Id>, batch: int, now: Time): Outcome<(Tables, nat), ErrorCode> {
    if batch <= 0 || batch > 1000 || !t.quarantined then Err(InvalidTransition)
    else
      Ok((t.(runs := SweepBatch(Restored, t.runs, skipped, batch, now)),
          |Picked(Restored, t.runs, skipped, batch, now)|))
  }

  function ClearQuarantine(t: Tables): Outcome<Tables, ErrorCode> {
    if !t.quarantined || ActiveIds(t.runs) != {} then Err(InvalidTransition)
    else Ok(t.(quarantined := false))
  }

  lemma SweptActive(runs: map<Id, Run>, ids: set<Id>, now: Time)
    requires AllSound(runs) && Timely(runs, now) && ids <= ActiveIds(runs)
    ensures ActiveIds(SweepRuns(Restored, runs, ids, now)) == ActiveIds(runs) - ids
  {
    var after := SweepRuns(Restored, runs, ids, now);
    forall id | id in ids ensures after[id].status.Terminal() {
      SweepRowQuiet(Restored, runs[id], now);
    }
  }

  /** A batch with no row locked elsewhere ends exactly min(batch, active) active runs. */
  lemma ReconcileProgress(t: Tables, batch: int, now: Time)
    requires 0 < batch <= 1000 && t.quarantined
    requires AllSound(t.runs) && Timely(t.runs, now)
    ensures var reply := Reconcile(t, {}, batch, now);
            && reply.Ok?
            && reply.value.0.quarantined
            && reply.value.1 == Min(batch, |ActiveIds(t.runs)|)
            && |ActiveIds(reply.value.0.runs)| == |ActiveIds(t.runs)| - reply.value.1
  {
    hide SweepRuns, SweepRow, AllSound, Timely;
    var ids := Picked(Restored, t.runs, {}, batch, now);
    assert DueIds(Restored, t.runs, {}, now) == ActiveIds(t.runs);
    ElementsCount(ids);
    assert Elements(ids) <= ActiveIds(t.runs);
    SweptActive(t.runs, Elements(ids), now);
  }

  /** The tables after reconciling batch after batch at the given clock readings. */
  function ReconcileAll(t: Tables, batch: int, times: seq<Time>): Tables
    decreases |times|
  {
    if times == [] then t
    else
      match Reconcile(t, {}, batch, times[0])
      case Err(_) => t
      case Ok(reply) => ReconcileAll(reply.0, batch, times[1..])
  }

  lemma {:induction false} ReconcileAllQuiet(t: Tables, batch: int, times: seq<Time>)
    requires AllSound(t.runs) && forall i | 0 <= i < |times| :: Timely(t.runs, times[i])
    ensures QuietTables(t, ReconcileAll(t, batch, times))
    decreases |times|
  {
    if times == [] || Reconcile(t, {}, batch, times[0]).Err? {
      forall id | id in t.runs ensures Quiet(t.runs[id], t.runs[id]) { QuietRefl(t.runs[id]); }
    } else {
      var next := Reconcile(t, {}, batch, times[0]).value.0;
      SweepBatchQuiet(Restored, t.runs, {}, batch, times[0]);
      ReconcileStaysTimely(t, next, times);
      ReconcileAllQuiet(next, batch, times[1..]);
      QuietRunsCompose(t.runs, next.runs, ReconcileAll(next, batch, times[1..]).runs);
    }
  }

  lemma ReconcileStaysTimely(t: Tables, next: Tables, times: seq<Time>)
    requires times != [] && QuietRuns(t.runs, next.runs)
    requires forall i | 0 <= i < |times| :: Timely(t.runs, times[i])
    ensures AllSound(next.runs) && forall i | 0 <= i < |times[1..]| :: Timely(next.runs, times[1..][i])
  {
    QuietKeeps(t.runs, next.runs, times[0]);
    forall i | 0 <= i < |times[1..]| ensures Timely(next.runs, times[1..][i]) {
      QuietKeeps(t.runs, next.runs, times[i + 1]);
    }
  }

  /** What `batches` bounded batches leave of `active` runs. */
  function Remaining(active: nat, batch: int, batches: nat): nat {
    if batches * batch >= active then 0 else active - batches * batch
  }

  lemma RemainingStep(active: nat, batch: int, batches: nat)
    requires batch > 0 && batches > 0
    ensures Remaining(active - Min(batch, active), batch, batches - 1) == Remaining(active, batch, batches)
  {
    assert batches * batch == batch + (batches - 1) * batch;
    assert (batches - 1) * batch >= 0;
  }

  lemma RemainingNone(active: nat, batch: int)
    ensures Remaining(active, batch, 0) == active
  {
  }

  lemma ReconcileOnce(t: Tables, batch: int, times: seq<Time>) returns (next: Tables)
    requires 0 < batch <= 1000 && t.quarantined && times != []
    requires AllSound(t.runs) && forall i | 0 <= i < |times| :: Timely(t.runs, times[i])
    ensures ReconcileAll(t, batch, times) == ReconcileAll(next, batch, times[1..])
    ensures next.quarantined && AllSound(next.runs) && forall i | 0 <= i < |times[1..]| :: Timely(next.runs, times[1..][i])
    ensures |ActiveIds(next.runs)| == |ActiveIds(t.runs)| - Min(batch, |ActiveIds(t.runs)|)
  {
    hide AllSound, Timely, ActiveIds, QuietRuns, SweepBatch, Picked;
    ReconcileProgress(t, batch, times[0]);
    next := Reconcile(t, {}, batch, times[0]).value.0;
    SweepBatchQuiet(Restored, t.runs, {}, batch, times[0]);
    ReconcileStaysTimely(t, next, times);
  }

  lemma {:induction false} ReconcileAllCount(t: Tables, batch: int, times: seq<Time>)
    requires 0 < batch <= 1000 && t.quarantined
    requires AllSound(t.runs) && forall i | 0 <= i < |times| :: Timely(t.runs, times[i])
    ensures ReconcileAll(t, batch, times).quarantined
    ensures |ActiveIds(ReconcileAll(t, batch, times).runs)| == Remaining(|ActiveIds(t.runs)|, batch, |times|)
    decreases |times|
  {
    hide Remaining, AllSound, Timely, ActiveIds, Reconcile, Min;
    if times == [] {
      RemainingNone(|ActiveIds(t.runs)|, batch);
    } else {
      var next := ReconcileOnce(t, batch, times);
      ReconcileAllCount(next, batch, times[1..]);
      RemainingStep(|ActiveIds(t.runs)|, batch, |times|);
    }
  }

  /**
    Each batch is worth `batch` runs, so ceil(active / batch) of them let the quarantine
    clear, and fewer do not.
  */
  lemma ReconcileTerminates(t: Tables, batch: int, times: seq<Time>)
    requires 0 < batch <= 1000 && t.quarantined
    requires AllSound(t.runs) && forall i | 0 <= i < |times| :: Timely(t.runs, times[i])
    ensures ClearQuarantine(ReconcileAll(t, batch, times)).Ok? <==> |times| * batch >= |ActiveIds(t.runs)|
  {
    ReconcileAllCount(t, batch, times);
  }

  // ---------- retention ----------

  function ExpireContent(t: Tables, skipped: set<Id>, batch: int, now: Time): Outcome<Tables, ErrorCode> {
    if batch <= 0 || batch > 1000 then Err(InvalidTransition)
    else Ok(t.(runs := SweepBatch(ContentDue, t.runs, skipped, batch, now)))
  }

  /** Terminal runs whose metadata retention has passed, oldest first. */
  function Deletable(runs: map<Id, Run>, skipped: set<Id>, batch: nat, cutoff: Time): (ids: seq<Id>)
    ensures forall i | 0 <= i < |ids| ::
              ids[i] in runs && runs[ids[i]].terminalAt.Some? && runs[ids[i]].terminalAt.value <= cutoff
  {
    TakeFirst(EndedBy(runs, skipped, cutoff), ByEnd(runs), batch)
  }

  function EndedBy(runs: map<Id, Run>, skipped: set<Id>, cutoff: Time): set<Id> {
    set id | id in runs && id !in skipped && runs[id].terminalAt.Some? && runs[id].terminalAt.value <= cutoff
  }

  function ByEnd(runs: map<Id, Run>): (key: map<Id, int>)
    ensures key.Keys == runs.Keys
  {
    map id | id in runs :: if runs[id].terminalAt.Some? then runs[id].terminalAt.value else 0
  }

  function NoncesWithout(nonces: map<Id, NonceRow>, ids: set<Id>): map<Id, NonceRow> {
    map nonce | nonce in nonces && nonces[nonce].run !in ids :: nonces[nonce]
  }

  /** Deleting a run deletes its idempotency record and nonces with it. */
  function DeleteRuns(t: Tables, ids: set<Id>): Tables {
    t.(runs := t.runs - ids,
       records := t.records - ids,
       nonces := NoncesWithout(t.nonces, ids))
  }

  /** Metadata of runs that ended by this time may go. */
  function Cutoff(limits: Limits, now: Time): Time { now - limits.runRetentionDays * DAY }

  function DeleteExpired(
    t: Tables, limits: Limits, skipped: set<Id>, batch: int, now: Time
  ): Outcome<Tables, ErrorCode>
  {
    if batch <= 0 || batch > 1000 then Err(InvalidTransition)
    else Ok(DeleteRuns(t, Elements(Deletable(t.runs, skipped, batch, Cutoff(limits, now)))))
  }
}
