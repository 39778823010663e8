/**
  The invocation runner: it loads the target, lets the adapter run between the session fence
  and the dispatch fence, and reports what became of the call. This is one worker's pass with
  nobody else acting in between; the interleaved version is the protocol.
*/
module InvocationRunner {
  import opened Common
  import opened RegistryTypes
  import opened ExecutionTypes
  import opened RunRows
  import opened Ledger
  import opened Protocol
  import opened Runner
  import opened ExecutionService
  import ProtocolInvariant

  /** How far the adapter gets: a failure before the session, one before dispatch, or the call's result. */
  datatype Script = Script(preparation: Option<AdapterOutcome>, initialization: Option<AdapterOutcome>, result: AdapterOutcome)
  {
    predicate Plausible() {
      && (preparation.Some? ==> Arises(preparation.value, Preparing) && !preparation.value.FenceRejected?)
      && (initialization.Some? ==> Arises(initialization.value, SessionFenced) && !initialization.value.FenceRejected?)
      && Arises(result, DispatchFenced) && !result.FenceRejected?
    }

    function Outcome(): AdapterOutcome {
      if preparation.Some? then preparation.value
      else if initialization.Some? then initialization.value
      else result
    }

    predicate Calls() { preparation.None? && initialization.None? }
  }

  /** Clock readings of the pass, in order. */
  datatype Readings = Readings(renewed: Time, session: Time, dispatch: Time, renewing: Time, retried: Time, completed: Time)
  {
    predicate InOrder() { renewed <= session <= dispatch <= renewing <= retried <= completed }
  }

  // ---------- what a pass does to the tables ----------

  /** The adapter's part: the tables, its outcome, and whether the tool was called. */
  function Invoke(t: Tables, lease: Lease, authority: Authority, renewal: Option<int>, script: Script, at: Readings):
    (Tables, AdapterOutcome, bool)
  {
    if script.preparation.Some? then (t, script.preparation.value, false)
    else
      match SessionTransaction(t, lease, authority, renewal, at.renewed, at.session)
      case Err(_) => (t, FenceRejected, false)
      case Ok(ready) =>
        if script.initialization.Some? then (ready, script.initialization.value, false)
        else
          match Fence(ready, authority, lease, ForDispatch, at.dispatch)
          case Err(_) => (ready, FenceRejected, false)
          case Ok(dispatched) => (dispatched, script.result, true)
  }

  function Renewed(t: Tables, lease: Lease, renewal: Option<int>, now: Time): Outcome<Tables, ErrorCode> {
    if renewal.None? then Ok(t) else Heartbeat(t, lease, renewal.value, now)
  }

  /** A report is made right after renewing; an unacceptable result renews once more before it is reported as a failure. */
  function Settle(
    t: Tables, lease: Lease, renewal: Option<int>, outcome: AdapterOutcome, at: Readings
  ): (Tables, Option<RunStatus>)
  {
    match ReportOf(outcome)
    case Silent => (t, None)
    case Reported(status, code) =>
      match Renewed(t, lease, renewal, at.renewing)
      case Err(_) => (t, None)
      case Ok(first) =>
        match if outcome == Returned(false) then Renewed(first, lease, renewal, at.retried) else Ok(first)
        case Err(_) => (first, None)
        case Ok(second) =>
          match Complete(second, lease, status, code, at.completed)
          case Err(_) => (second, None)
          case Ok(after) => (after, if lease.run in after.runs then Some(after.runs[lease.run].status) else None)
  }

  function Pass(t: Tables, lease: Lease, authority: Authority, renewal: Option<int>, script: Script, at: Readings):
    (Tables, Option<RunStatus>, bool)
  {
    var (invoked, outcome, called) := Invoke(t, lease, authority, renewal, script, at);
    var (settled, status) := Settle(invoked, lease, renewal, outcome, at);
    (settled, status, called)
  }

  class InvocationRunner {
    const service: ExecutionService
    /** Tool calls made. */
    var calls: nat

    constructor (service: ExecutionService)
      ensures this.service == service && calls == 0
    {
      this.service, calls := service, 0;
    }

    method Run(lease: Lease, authority: Authority, renewal: Option<int>, script: Script, at: Readings)
      returns (status: Option<RunStatus>)
      requires service.Settled() && Timely(service.runs, at.completed)
      modifies this, service
      ensures service.Settled()
      ensures Pass(old(service.View()), lease, authority, renewal, script, at)
           == (service.View(), status, calls == old(calls) + 1)
      ensures calls == old(calls) || calls == old(calls) + 1
    {
      hide AllSound, Heartbeat, Fence, Complete, ReportOf, SessionTransaction, Timely;
      var outcome := InvokeAdapter(lease, authority, renewal, script, at);
      var report := ReportOf(outcome);
      if report.Silent? {
        return None;
      }
      var renewed := RenewLease(lease, renewal, at.renewing, at.completed);
      if renewed.Err? {
        return None;
      }
      if outcome == Returned(false) {
        var again := RenewLease(lease, renewal, at.retried, at.completed);
        if again.Err? {
          return None;
        }
      }
      var completed := service.CompleteLease(lease, report.status, report.code, at.completed);
      if completed.Err? || lease.run !in service.runs {
        return None;
      }
      return Some(service.runs[lease.run].status);
    }

    method InvokeAdapter(lease: Lease, authority: Authority, renewal: Option<int>, script: Script, at: Readings)
      returns (outcome: AdapterOutcome)
      requires service.Settled() && Timely(service.runs, at.completed)
      modifies this, service
      ensures service.Settled() && Timely(service.runs, at.completed)
      ensures Invoke(old(service.View()), lease, authority, renewal, script, at)
           == (service.View(), outcome, calls == old(calls) + 1)
      ensures calls == old(calls) || calls == old(calls) + 1
    {
      hide AllSound, Heartbeat, Fence, Timely;
      if script.preparation.Some? {
        return script.preparation.value;
      }
      var session := FenceSession(lease, authority, renewal, at);
      if session.Err? {
        return FenceRejected;
      }
      if script.initialization.Some? {
        return script.initialization.value;
      }
      FenceStaysTimely(service.View(), authority, lease, ForDispatch, at.dispatch, at.completed);
      var dispatch := service.FenceAttempt(authority, lease, ForDispatch, at.dispatch);
      if dispatch.Err? {
        return FenceRejected;
      }
      calls := calls + 1;
      return script.result;
    }

    /** Heartbeat and fence share a transaction: a refused fence takes the heartbeat back. */
    method FenceSession(lease: Lease, authority: Authority, renewal: Option<int>, at: Readings)
      returns (reply: Outcome<(), ErrorCode>)
      requires service.Settled() && Timely(service.runs, at.completed)
      modifies service
      ensures service.Settled() && Timely(service.runs, at.completed)
      ensures match SessionTransaction(old(service.View()), lease, authority, renewal, at.renewed, at.session)
              case Err(error) => reply == Err(error) && service.View() == old(service.View())
              case Ok(tables) => reply == Ok(()) && service.View() == tables
    {
      hide AllSound, Heartbeat, Fence, Timely;
      var runs, flushed := service.runs, service.flushed;
      var renewed := RenewLease(lease, renewal, at.renewed, at.completed);
      if renewed.Err? {
        return renewed;
      }
      FenceStaysTimely(service.View(), authority, lease, ForSession, at.session, at.completed);
      reply := service.FenceAttempt(authority, lease, ForSession, at.session);
      if reply.Err? {
        service.runs, service.flushed := runs, flushed;
      }
    }

    method RenewLease(lease: Lease, renewal: Option<int>, now: Time, end: Time) returns (reply: Outcome<(), ErrorCode>)
      requires service.Settled() && Timely(service.runs, end)
      modifies service
      ensures service.Settled() && Timely(service.runs, end)
      ensures service.epoch == old(service.epoch) && service.quarantined == old(service.quarantined)
      ensures service.records == old(service.records) && service.nonces == old(service.nonces)
      ensures match Renewed(old(service.View()), lease, renewal, now)
              case Err(error) => reply == Err(error) && service.View() == old(service.View())
              case Ok(tables) => reply == Ok(()) && service.View() == tables
    {
      hide AllSound, Timely;
      if renewal.None? {
        return Ok(());
      }
      HeartbeatStaysTimely(service.View(), lease, renewal.value, now, end);
      reply := service.HeartbeatLease(lease, renewal.value, now);
    }
  }

  lemma HeartbeatStaysTimely(t: Tables, lease: Lease, duration: int, now: Time, end: Time)
    requires Timely(t.runs, end)
    ensures Heartbeat(t, lease, duration, now).Ok? ==> Timely(Heartbeat(t, lease, duration, now).value.runs, end)
  {
  }

  lemma FenceStaysTimely(t: Tables, authority: Authority, lease: Lease, fence: FenceKind, now: Time, end: Time)
    requires Timely(t.runs, end)
    ensures Fence(t, authority, lease, fence, now).Ok? ==> Timely(Fence(t, authority, lease, fence, now).value.runs, end)
  {
    hide TargetIsCurrent;
  }

  // ---------- an undisturbed pass ----------

  /** The lease is current at this stage and lasts beyond `end`. */
  predicate Ready(t: Tables, lease: Lease, authority: Authority, stage: RunStatus, end: Time) {
    && !t.quarantined && LeaseKnown(t, lease)
    && var run := t.runs[lease.run];
       && Sound(run) && LeaseMatches(run, lease)
       && run.job.executionEpoch == lease.executionEpoch
       && run.job.expiresAt.value > end && run.job.deadline > end
       && run.status == stage && stage.Live()
       && !run.cancellationRequested && TargetIsCurrent(authority, run)
  }

  lemma RenewedReady(
    t: Tables, lease: Lease, authority: Authority, stage: RunStatus, end: Time, renewal: Option<int>, now: Time
  )
    requires Ready(t, lease, authority, stage, end) && now <= end && (renewal.Some? ==> now + renewal.value > end)
    ensures Renewed(t, lease, renewal, now).Ok? && Ready(Renewed(t, lease, renewal, now).value, lease, authority, stage, end)
  {
    hide Numbered, Fenced, FencedOnce;
  }

  lemma FenceReady(t: Tables, lease: Lease, authority: Authority, fence: FenceKind, end: Time, now: Time)
    requires Ready(t, lease, authority, fence.From(), end) && now <= end
    ensures Fence(t, authority, lease, fence, now).Ok?
    ensures Ready(Fence(t, authority, lease, fence, now).value, lease, authority, fence.To(), end)
  {
    hide LogInStep, JobInStep;
    var run := t.runs[lease.run];
    SoundLatestLive(run);
    FenceRowSound(run, fence, now);
  }

  lemma CompleteReady(
    t: Tables, lease: Lease, authority: Authority, stage: RunStatus, end: Time, outcome: AdapterOutcome
  )
    requires Ready(t, lease, authority, stage, end) && Arises(outcome, stage) && !outcome.FenceRejected?
    ensures var report := ReportOf(outcome);
      && report.Reported?
      && Complete(t, lease, report.status, report.code, end).Ok?
      && lease.run in Complete(t, lease, report.status, report.code, end).value.runs
      && Complete(t, lease, report.status, report.code, end).value.runs[lease.run].status == report.status
  {
    hide LogInStep, TargetIsCurrent;
    var run := t.runs[lease.run];
    SoundLatestLive(run);
    ReportsAreAccepted(run, run.attempts[|run.attempts| - 1], outcome);
  }

  lemma SettledReady(t: Tables, lease: Lease, authority: Authority, stage: RunStatus, renewal: Option<int>, outcome: AdapterOutcome, at: Readings)
    requires Ready(t, lease, authority, stage, at.completed) && Arises(outcome, stage) && !outcome.FenceRejected?
    requires at.InOrder() && (renewal.Some? ==> at.renewed + renewal.value > at.completed)
    ensures ReportOf(outcome).Reported?
    ensures Settle(t, lease, renewal, outcome, at).1 == Some(ReportOf(outcome).status)
  {
    hide Ready, ReportOf, Complete, Renewed, Arises;
    RenewedReady(t, lease, authority, stage, at.completed, renewal, at.renewing);
    var first := Renewed(t, lease, renewal, at.renewing).value;
    RenewedReady(first, lease, authority, stage, at.completed, renewal, at.retried);
    CompleteReady(first, lease, authority, stage, at.completed, outcome);
    CompleteReady(Renewed(first, lease, renewal, at.retried).value, lease, authority, stage, at.completed, outcome);
  }

  /**
    A pass that nobody disturbs, under a lease that lasts, ends the run with the status that
    stands for what the adapter met, and calls the tool exactly when both earlier phases went well.
  */
  lemma UndisturbedPassEndsTheRun(
    t: Tables, lease: Lease, authority: Authority, renewal: Option<int>, script: Script, at: Readings
  )
    requires Ready(t, lease, authority, Preparing, at.completed) && script.Plausible() && at.InOrder()
    requires renewal.Some? ==> at.renewed + renewal.value > at.completed
    ensures ReportOf(script.Outcome()).Reported?
    ensures Pass(t, lease, authority, renewal, script, at).1 == Some(ReportOf(script.Outcome()).status)
    ensures Pass(t, lease, authority, renewal, script, at).2 == script.Calls()
  {
    hide Ready, ReportOf, Settle, Fence, Heartbeat, Arises;
    if script.preparation.Some? {
      SettledReady(t, lease, authority, Preparing, renewal, script.preparation.value, at);
    } else {
      RenewedReady(t, lease, authority, Preparing, at.completed, renewal, at.renewed);
      var renewed := Renewed(t, lease, renewal, at.renewed).value;
      FenceReady(renewed, lease, authority, ForSession, at.completed, at.session);
      var session := Fence(renewed, authority, lease, ForSession, at.session).value;
      if script.initialization.Some? {
        SettledReady(session, lease, authority, SessionFenced, renewal, script.initialization.value, at);
      } else {
        FenceReady(session, lease, authority, ForDispatch, at.completed, at.dispatch);
        SettledReady(Fence(session, authority, lease, ForDispatch, at.dispatch).value, lease, authority, DispatchFenced,
                     renewal, script.result, at);
      }
    }
  }

  /** The same runs, with the dispatch fence in the same logs. */
  ghost predicate SameFences(before: Tables, after: Tables) {
    && before.runs.Keys == after.runs.Keys
    && forall id | id in before.runs :: Fenced(after.runs[id].events) <==> Fenced(before.runs[id].events)
  }

  lemma QuietSameFences(before: Tables, after: Tables)
    requires QuietTables(before, after)
    ensures SameFences(before, after)
  {
    hide Sound, Evolves, Fenced;
    forall id | id in before.runs ensures Fenced(after.runs[id].events) <==> Fenced(before.runs[id].events) {
      assert Quiet(before.runs[id], after.runs[id]);
    }
  }

  lemma RenewedQuiet(t: Tables, lease: Lease, renewal: Option<int>, now: Time, end: Time)
    requires AllSound(t.runs) && Timely(t.runs, end)
    ensures Renewed(t, lease, renewal, now).Ok? ==>
      var after := Renewed(t, lease, renewal, now).value;
      SameFences(t, after) && AllSound(after.runs) && Timely(after.runs, end)
  {
    hide AllSound, Timely, Fenced, Quiet;
    if renewal.Some? {
      HeartbeatQuiet(t, lease, renewal.value, now);
      HeartbeatKeepsSound(t, lease, renewal.value, now);
      HeartbeatStaysTimely(t, lease, renewal.value, now, end);
      if Heartbeat(t, lease, renewal.value, now).Ok? { QuietSameFences(t, Heartbeat(t, lease, renewal.value, now).value); }
    }
  }

  lemma SettleSameFences(t: Tables, lease: Lease, renewal: Option<int>, outcome: AdapterOutcome, at: Readings)
    requires AllSound(t.runs) && Timely(t.runs, at.completed)
    ensures SameFences(t, Settle(t, lease, renewal, outcome, at).0)
  {
    hide AllSound, Timely, Fenced, Complete, Renewed, Quiet, QuietTables;
    if ReportOf(outcome).Reported? {
      RenewedQuiet(t, lease, renewal, at.renewing, at.completed);
      var first := Renewed(t, lease, renewal, at.renewing);
      if first.Ok? {
        RenewedQuiet(first.value, lease, renewal, at.retried, at.completed);
        var second := if outcome == Returned(false) then Renewed(first.value, lease, renewal, at.retried) else first;
        if second.Ok? {
          var report := ReportOf(outcome);
          CompleteQuiet(second.value, lease, report.status, report.code, at.completed);
          var after := Complete(second.value, lease, report.status, report.code, at.completed);
          if after.Ok? { QuietSameFences(second.value, after.value); }
        }
      }
    }
  }

  lemma SessionSameFences(t: Tables, lease: Lease, authority: Authority, renewal: Option<int>, at: Readings)
    requires AllSound(t.runs) && Timely(t.runs, at.completed)
    ensures var reply := SessionTransaction(t, lease, authority, renewal, at.renewed, at.session);
      reply.Ok? ==> SameFences(t, reply.value) && AllSound(reply.value.runs) && Timely(reply.value.runs, at.completed)
  {
    hide AllSound, Timely, Fenced, Quiet, Fence;
    ProtocolInvariant.SessionTransactionQuiet(t, lease, authority, renewal, at.renewed, at.session);
    var reply := SessionTransaction(t, lease, authority, renewal, at.renewed, at.session);
    if reply.Ok? {
      QuietSameFences(t, reply.value);
      QuietKeeps(t.runs, reply.value.runs, at.completed);
    }
  }

  lemma DispatchLogged(t: Tables, lease: Lease, authority: Authority, now: Time, end: Time)
    requires AllSound(t.runs) && Timely(t.runs, end)
    ensures var reply := Fence(t, authority, lease, ForDispatch, now);
      reply.Ok? ==>
        && AllSound(reply.value.runs) && Timely(reply.value.runs, end)
        && lease.run in t.runs && lease.run in reply.value.runs
        && !Fenced(t.runs[lease.run].events) && Fenced(reply.value.runs[lease.run].events)
  {
    hide Sound, Fenced, TargetIsCurrent;
    FenceKeepsSound(t, authority, lease, ForDispatch, now);
    FenceStaysTimely(t, authority, lease, ForDispatch, now, end);
    if Fence(t, authority, lease, ForDispatch, now).Ok? { FenceRowSound(t.runs[lease.run], ForDispatch, now); }
  }

  /** Whatever the lease and the script, the tool is called in exactly those passes that log the dispatch fence. */
  lemma CalledExactlyWhenFenced(
    t: Tables, lease: Lease, authority: Authority, renewal: Option<int>, script: Script, at: Readings
  )
    requires AllSound(t.runs) && Timely(t.runs, at.completed)
    ensures var (after, _, called) := Pass(t, lease, authority, renewal, script, at);
      if called then
        && lease.run in t.runs && lease.run in after.runs
        && !Fenced(t.runs[lease.run].events) && Fenced(after.runs[lease.run].events)
      else SameFences(t, after)
  {
    hide AllSound, Timely, Fenced, Settle, SessionTransaction, Fence;
    SessionSameFences(t, lease, authority, renewal, at);
    var session := SessionTransaction(t, lease, authority, renewal, at.renewed, at.session);
    if session.Ok? { DispatchLogged(session.value, lease, authority, at.dispatch, at.completed); }
    var (invoked, outcome, _) := Invoke(t, lease, authority, renewal, script, at);
    SettleSameFences(invoked, lease, renewal, outcome, at);
  }
}
