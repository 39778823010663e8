/** When a worker gets through its fences, in every reachable state and in the runner's pass. */
module FenceEffects {
  import opened Common
  import opened RegistryTypes
  import opened ExecutionTypes
  import opened RunRows
  import opened Ledger
  import opened LedgerEffects
  import opened Protocol
  import opened Runner
  import opened ProtocolInvariant
  import opened ProtocolTheorems
  import InvocationRunner

  /** The lease expiry once the renewal, if there is one, has been made. */
  function Expiry(job: Job, renewal: Option<int>, renewedAt: Time): Option<Time> {
    if renewal.None? then job.expiresAt
    else Some(if renewedAt + renewal.value < job.deadline then renewedAt + renewal.value else job.deadline)
  }

  /** The job is the lease's, and after any renewal its expiry and its deadline still lie ahead. */
  predicate StillLeased(t: Tables, lease: Lease, renewal: Option<int>, renewedAt: Time, now: Time) {
    && !t.quarantined && HoldsLease(t, lease)
    && var job := t.runs[lease.run].job;
       && (renewal.Some? ==> renewal.value > 0 && job.expiresAt.value > renewedAt && job.deadline > renewedAt)
       && Expiry(job, renewal, renewedAt).value > now
       && job.deadline > now
  }

  /** The run stands at this stage, nobody asked it to stop, and its authority is intact. */
  predicate MayProceed(t: Tables, lease: Lease, authority: Authority, stage: RunStatus) {
    && lease.run in t.runs
    && var run := t.runs[lease.run];
       && run.job.executionEpoch == lease.executionEpoch
       && run.status == stage && !run.cancellationRequested && Entitled(authority, run)
  }

  lemma EntitledIsAboutPins(authority: Authority, a: Run, b: Run)
    requires a.pins == b.pins && a.workspace == b.workspace && a.actor == b.actor
    ensures Entitled(authority, a) <==> Entitled(authority, b)
  {
  }

  /** The session transaction commits exactly under a lease that is live after its renewal. */
  lemma SessionEffect(t: Tables, lease: Lease, authority: Authority, renewal: Option<int>, renewedAt: Time, now: Time)
    requires AllSound(t.runs)
    ensures SessionTransaction(t, lease, authority, renewal, renewedAt, now).Ok? <==>
      StillLeased(t, lease, renewal, renewedAt, now) && MayProceed(t, lease, authority, Preparing)
    ensures SessionTransaction(t, lease, authority, renewal, renewedAt, now).Ok? ==>
      var after := SessionTransaction(t, lease, authority, renewal, renewedAt, now).value;
      && OnlyRow(t, after, lease.run)
      && AllSound(after.runs)
      && after.runs[lease.run].status == SessionFenced
      && after.runs[lease.run].job == t.runs[lease.run].job.(expiresAt := Expiry(t.runs[lease.run].job, renewal, renewedAt))
      && after.runs[lease.run].pins == t.runs[lease.run].pins
      && after.runs[lease.run].workspace == t.runs[lease.run].workspace
      && after.runs[lease.run].actor == t.runs[lease.run].actor
      && after.runs[lease.run].cancellationRequested == t.runs[lease.run].cancellationRequested
  {
    hide Sound, Entitled, Heartbeat, Fence, Logged;
    if renewal.None? {
      FenceEffect(t, authority, lease, ForSession, now);
      FenceKeepsSound(t, authority, lease, ForSession, now);
    } else {
      HeartbeatEffect(t, lease, renewal.value, renewedAt);
      HeartbeatKeepsSound(t, lease, renewal.value, renewedAt);
      var renewed := Heartbeat(t, lease, renewal.value, renewedAt);
      if renewed.Ok? {
        FenceEffect(renewed.value, authority, lease, ForSession, now);
        FenceKeepsSound(renewed.value, authority, lease, ForSession, now);
        EntitledIsAboutPins(authority, t.runs[lease.run], renewed.value.runs[lease.run]);
      }
    }
  }

  // ---------- in the protocol ----------

  /** The step takes its worker through the session fence or the dispatch fence. */
  predicate Advances(s: System, step: Step)
    requires step.BeforeSession? || step.BeforeDispatch?
  {
    && step.task in s.workers
    && step.task in Apply(s, step).workers
    && s.workers[step.task].pc == (if step.BeforeSession? then Started else SessionOpen)
    && Apply(s, step).workers[step.task].pc == (if step.BeforeSession? then SessionOpen else Licensed)
  }

  /**
    In every reachable state a worker gets through a fence exactly when it is at that point, its
    lease and the job's deadline outlast the fence's clock reading, the run is at the stage before
    the fence and not asked to stop, and the authority it was admitted with still stands.
  */
  lemma FencesNeedLiveLeases(limits: Limits, start: Time, steps: seq<Step>, step: Step)
    requires limits.Valid() && (step.BeforeSession? || step.BeforeDispatch?)
    ensures var s := Reached(limits, start, steps);
      Advances(s, step) <==>
        && step.task in s.workers
        && var lease := s.workers[step.task].lease;
           if step.BeforeSession? then
             && s.workers[step.task].pc == Started
             && StillLeased(s.tables, lease, step.renewal, s.now, s.now + step.check)
             && MayProceed(s.tables, lease, step.authority, Preparing)
           else
             && s.workers[step.task].pc == SessionOpen
             && StillLeased(s.tables, lease, None, s.now, s.now)
             && MayProceed(s.tables, lease, step.authority, SessionFenced)
  {
    hide Sound, Entitled, SessionTransaction, Fence, HistoryFits, LeasesFit, TokensFit, StillLeased, MayProceed;
    ReachedFits(limits, start, steps);
    var s := Reached(limits, start, steps);
    if step.task in s.workers {
      var lease := s.workers[step.task].lease;
      if step.BeforeSession? {
        SessionEffect(s.tables, lease, step.authority, step.renewal, s.now, s.now + step.check);
      } else {
        DispatchEffect(s.tables, lease, step.authority, s.now);
      }
    }
  }

  lemma DispatchEffect(t: Tables, lease: Lease, authority: Authority, now: Time)
    requires AllSound(t.runs)
    ensures Fence(t, authority, lease, ForDispatch, now).Ok? <==>
      StillLeased(t, lease, None, now, now) && MayProceed(t, lease, authority, SessionFenced)
  {
    hide Sound, Entitled, Fence, Logged;
    FenceEffect(t, authority, lease, ForDispatch, now);
  }

  /** After a fence the row still shows the live lease it was passed under. */
  lemma FencedRowsShowTheLease(limits: Limits, start: Time, steps: seq<Step>, step: Step)
    requires limits.Valid() && (step.BeforeSession? || step.BeforeDispatch?)
    requires Advances(Reached(limits, start, steps), step)
    ensures var s := Reached(limits, start, steps);
      var after := Apply(s, step);
      var lease := s.workers[step.task].lease;
      && LiveLease(after.tables, lease, after.now)
      && after.tables.runs[lease.run].status == (if step.BeforeSession? then SessionFenced else DispatchFenced)
  {
    hide Sound, SessionTransaction, Fence, HistoryFits, LeasesFit, TokensFit, LiveLease;
    ReachedFits(limits, start, steps);
    var s := Reached(limits, start, steps);
    var lease := s.workers[step.task].lease;
    if step.BeforeSession? {
      SessionShowsLease(s.tables, lease, step.authority, step.renewal, s.now, s.now + step.check);
    } else {
      DispatchShowsLease(s.tables, lease, step.authority, s.now);
    }
  }

  lemma SessionShowsLease(t: Tables, lease: Lease, authority: Authority, renewal: Option<int>, renewedAt: Time, now: Time)
    requires AllSound(t.runs) && SessionTransaction(t, lease, authority, renewal, renewedAt, now).Ok?
    ensures var after := SessionTransaction(t, lease, authority, renewal, renewedAt, now).value;
      LiveLease(after, lease, now) && after.runs[lease.run].status == SessionFenced
  {
    hide Sound, MayProceed, SessionTransaction;
    SessionEffect(t, lease, authority, renewal, renewedAt, now);
  }

  lemma DispatchShowsLease(t: Tables, lease: Lease, authority: Authority, now: Time)
    requires AllSound(t.runs) && Fence(t, authority, lease, ForDispatch, now).Ok?
    ensures var after := Fence(t, authority, lease, ForDispatch, now).value;
      LiveLease(after, lease, now) && after.runs[lease.run].status == DispatchFenced
  {
    hide Sound, Entitled, Fence, Logged;
    FenceEffect(t, authority, lease, ForDispatch, now);
  }

  // ---------- in the runner's pass ----------

  /** A pass calls the tool exactly when the adapter gets that far under a lease that is live at both fences. */
  lemma PassCallsUnderLiveLeases(
    t: Tables, lease: Lease, authority: Authority, renewal: Option<int>, script: InvocationRunner.Script, at: InvocationRunner.Readings
  )
    requires AllSound(t.runs)
    ensures InvocationRunner.Pass(t, lease, authority, renewal, script, at).2 <==>
      && script.Calls()
      && StillLeased(t, lease, renewal, at.renewed, at.session)
      && StillLeased(t, lease, renewal, at.renewed, at.dispatch)
      && MayProceed(t, lease, authority, Preparing)
  {
    hide Sound, Entitled, SessionTransaction, Fence, InvocationRunner.Settle;
    SessionEffect(t, lease, authority, renewal, at.renewed, at.session);
    var session := SessionTransaction(t, lease, authority, renewal, at.renewed, at.session);
    if session.Ok? {
      DispatchEffect(session.value, lease, authority, at.dispatch);
      EntitledIsAboutPins(authority, t.runs[lease.run], session.value.runs[lease.run]);
    }
  }

  /** The renewals a report needs go through: one, and a second one before an unacceptable result is reported. */
  predicate Renewable(t: Tables, lease: Lease, renewal: int, again: bool, at: InvocationRunner.Readings) {
    && renewal > 0 && !t.quarantined && LiveLease(t, lease, at.renewing)
    && var job := t.runs[lease.run].job;
       again ==> Expiry(job, Some(renewal), at.renewing).value > at.retried && job.deadline > at.retried
  }

  /** A report under the current lease that, before the deadline, is in time and fits the stage. */
  predicate Settles(t: Tables, lease: Lease, expiry: Option<Time>, report: Report, now: Time) {
    && report.Reported? && HoldsLease(t, lease)
    && var run := t.runs[lease.run];
       run.job.deadline > now ==> expiry.Some? && expiry.value > now && Reportable(run, report.status, report.code)
  }

  lemma RenewedEffect(t: Tables, lease: Lease, renewal: Option<int>, now: Time)
    requires AllSound(t.runs)
    ensures InvocationRunner.Renewed(t, lease, renewal, now).Ok? <==>
              (renewal.Some? ==> renewal.value > 0 && !t.quarantined && LiveLease(t, lease, now))
    ensures InvocationRunner.Renewed(t, lease, renewal, now).Ok? ==>
      var after := InvocationRunner.Renewed(t, lease, renewal, now).value;
      && AllSound(after.runs) && after.epoch == t.epoch && after.quarantined == t.quarantined
      && (lease.run in t.runs <==> lease.run in after.runs)
      && (lease.run in t.runs ==> LeaseExtended(t.runs[lease.run], after.runs[lease.run], renewal, now))
  {
    hide Sound, Heartbeat, LiveLease;
    if renewal.Some? {
      HeartbeatEffect(t, lease, renewal.value, now);
      HeartbeatKeepsSound(t, lease, renewal.value, now);
    }
  }

  /** The row but for its lease's expiry, which is the renewed one. */
  predicate LeaseExtended(before: Run, after: Run, renewal: Option<int>, now: Time) {
    after == before.(job := before.job.(expiresAt := Expiry(before.job, renewal, now)))
  }

  predicate SameButExpiry(a: Run, b: Run) {
    b == a.(job := a.job.(expiresAt := b.job.expiresAt))
  }

  lemma AboutTheSame(a: Run, b: Run, row: Run, status: RunStatus, code: Option<FailureCode>, now: Time)
    requires SameButExpiry(a, b)
    ensures Reportable(a, status, code) <==> Reportable(b, status, code)
    ensures CompletesAs(b, row, status, code, now) ==> CompletesAs(a, row, status, code, now)
  {
  }

  lemma ReportsAreTerminal(outcome: AdapterOutcome)
    ensures ReportOf(outcome).Silent? <==> outcome == FenceRejected
    ensures ReportOf(outcome).Reported? ==>
      ReportOf(outcome).status.Terminal() && (ReportOf(outcome).status == Succeeded ==> ReportOf(outcome).code == None)
  {
  }

  /**
    A report ends the run exactly when its renewals go through and then, before the deadline, the
    lease lasts and the report fits the stage; it ends the run as reported, or by time.
  */
  lemma SettleEffect(
    t: Tables, lease: Lease, renewal: Option<int>, outcome: AdapterOutcome, at: InvocationRunner.Readings
  )
    requires AllSound(t.runs)
    ensures var again := outcome == Returned(false);
      InvocationRunner.Settle(t, lease, renewal, outcome, at).1.Some? <==>
        && outcome != FenceRejected
        && (renewal.Some? ==> Renewable(t, lease, renewal.value, again, at))
        && lease.run in t.runs
        && Settles(t, lease, Expiry(t.runs[lease.run].job, renewal, if again then at.retried else at.renewing),
                   ReportOf(outcome), at.completed)
    ensures var (after, status) := InvocationRunner.Settle(t, lease, renewal, outcome, at);
      status.Some? ==>
        && lease.run in t.runs && lease.run in after.runs && ReportOf(outcome).Reported?
        && status == Some(after.runs[lease.run].status)
        && CompletesAs(t.runs[lease.run], after.runs[lease.run], ReportOf(outcome).status, ReportOf(outcome).code, at.completed)
  {
    hide Sound, Heartbeat, Complete, InvocationRunner.Renewed, Reportable, CompletesAs, ReportOf;
    ReportsAreTerminal(outcome);
    if outcome != FenceRejected {
      RenewedEffect(t, lease, renewal, at.renewing);
      var first := InvocationRunner.Renewed(t, lease, renewal, at.renewing);
      if first.Ok? {
        RenewedEffect(first.value, lease, renewal, at.retried);
        var second := if outcome == Returned(false) then InvocationRunner.Renewed(first.value, lease, renewal, at.retried) else first;
        if second.Ok? {
          var report := ReportOf(outcome);
          CompleteEffect(second.value, lease, report.status, report.code, at.completed);
          var done := Complete(second.value, lease, report.status, report.code, at.completed);
          if lease.run in t.runs {
            var row := if done.Ok? then done.value.runs[lease.run] else t.runs[lease.run];
            AboutTheSame(t.runs[lease.run], second.value.runs[lease.run], row, report.status, report.code, at.completed);
          }
        }
      }
    }
  }
}
