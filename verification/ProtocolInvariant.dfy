/** The invariant of the execution protocol, and its preservation by every step. */
module ProtocolInvariant {
  import opened Common
  import opened RegistryTypes
  import opened ExecutionTypes
  import opened RunRows
  import opened Ledger
  import opened Admission
  import opened Runner
  import opened Protocol

  ghost predicate TablesFit(s: System) {
    && AllSound(s.tables.runs)
    && Timely(s.tables.runs, s.now)
    && ReplayProtected(s.tables)
    && s.tables.runs.Keys <= s.issued
    && (!s.tables.quarantined ==>
          forall id | id in s.tables.runs && !s.tables.runs[id].status.Terminal() ::
            s.tables.runs[id].job.executionEpoch == s.tables.epoch)
  }

  /** A lease is never from the future, and never current while quarantined. */
  predicate LeaseFits(s: System, lease: Lease) {
    && lease.run in s.issued
    && lease.executionEpoch <= s.tables.epoch
    && (s.tables.quarantined ==> lease.executionEpoch < s.tables.epoch)
    && (lease.run in s.tables.runs ==>
          && lease.leaseEpoch <= s.tables.runs[lease.run].job.leaseEpoch
          && lease.executionEpoch == s.tables.runs[lease.run].job.executionEpoch)
  }

  ghost predicate LeasesFit(s: System) {
    forall task | task in s.workers :: LeaseFits(s, s.workers[task].lease)
  }

  ghost predicate TokensFit(s: System) {
    && s.limits.Valid()
    && (forall nonce | nonce in s.tokens ::
          s.tokens[nonce].nonce == nonce && s.tokens[nonce].expiresAt < s.tokens[nonce].issuedAt + DAY)
    && (forall c | c in s.creators ::
          && Authentic(s, s.creators[c].request.claims)
          && BindingsHold(s.creators[c].request, s.now)
          && s.creators[c].keyrings.Valid(s.limits)
          && s.creators[c].state == StateRead(s.tables.epoch, s.tables.quarantined))
  }

  predicate HasLicence(history: seq<Mark>, run: Id) {
    exists i | 0 <= i < |history| :: history[i].DispatchLicensed? && history[i].run == run
  }

  /** No two marks of the same kind name the same run (or, for creations, the same token). */
  predicate MarksUnique(history: seq<Mark>) {
    forall i, j | 0 <= i < j < |history| ::
      && (history[i].DispatchLicensed? && history[j].DispatchLicensed? ==> history[i].run != history[j].run)
      && (history[i].ToolCalled? && history[j].ToolCalled? ==> history[i].run != history[j].run)
      && (history[i].RunCreated? && history[j].RunCreated? ==>
            history[i].run != history[j].run && history[i].nonce != history[j].nonce)
  }

  /** Every call is preceded by the dispatch fence of the same run and worker. */
  predicate CallsFollowLicences(history: seq<Mark>) {
    forall i | 0 <= i < |history| && history[i].ToolCalled? ::
      exists j | 0 <= j < i :: history[j] == DispatchLicensed(history[i].run, history[i].task)
  }

  ghost predicate LicencesFit(s: System) {
    && (forall i | 0 <= i < |s.history| && s.history[i].DispatchLicensed? ::
          && s.history[i].run in s.issued
          && s.history[i].task in s.workers
          && s.workers[s.history[i].task].lease.run == s.history[i].run
          && s.workers[s.history[i].task].pc in {Licensed, CallMade, Stopped})
    && (forall i | 0 <= i < |s.history| && s.history[i].ToolCalled? ::
          && s.history[i].task in s.workers
          && s.workers[s.history[i].task].pc in {CallMade, Stopped})
    && (forall task | task in s.workers && s.workers[task].pc == Licensed ::
          DispatchLicensed(s.workers[task].lease.run, task) in s.history)
    && (forall id | id in s.tables.runs ::
          HasLicence(s.history, id) <==> Fenced(s.tables.runs[id].events))
  }

  /** A creation's token stays bound to its run until the token has expired. */
  predicate CreationFits(s: System, run: Id, nonce: Id) {
    && run in s.issued
    && nonce in s.tokens
    && (run in s.tables.runs ==>
          && nonce in s.tables.nonces && s.tables.nonces[nonce].run == run
          && s.tokens[nonce].issuedAt <= s.tables.runs[run].createdAt)
    && (run !in s.tables.runs ==> s.tokens[nonce].expiresAt <= s.now)
  }

  ghost predicate CreationsFit(s: System) {
    forall i | 0 <= i < |s.history| && s.history[i].RunCreated? ::
      CreationFits(s, s.history[i].run, s.history[i].nonce)
  }

  ghost predicate HistoryFits(s: System) {
    && MarksUnique(s.history)
    && CallsFollowLicences(s.history)
    && LicencesFit(s)
    && CreationsFit(s)
  }

  ghost predicate Inv(s: System) {
    TablesFit(s) && LeasesFit(s) && TokensFit(s) && HistoryFits(s)
  }

  // ---------- steps that move runs forward without a dispatch fence ----------

  predicate PcAdvance(before: Pc, after: Pc) {
    after == before || after == Stopped || (before == Started && after == SessionOpen)
  }

  ghost predicate WorkersAdvance(s: System, s': System) {
    && s.workers.Keys <= s'.workers.Keys
    && (forall task | task in s.workers ::
          s'.workers[task].lease == s.workers[task].lease
          && PcAdvance(s.workers[task].pc, s'.workers[task].pc))
    && (forall task | task in s'.workers && task !in s.workers ::
          && s'.workers[task].pc == Started
          && LeaseFits(s', s'.workers[task].lease))
  }

  ghost predicate QuietAdvance(s: System, s': System) {
    && s'.limits == s.limits
    && s.now <= s'.now
    && QuietTables(s.tables, s'.tables)
    && s'.tokens == s.tokens && s'.issued == s.issued
    && s'.creators == s.creators && s'.history == s.history
    && WorkersAdvance(s, s')
  }

  lemma QuietKeepsTables(s: System, s': System)
    requires TablesFit(s) && QuietAdvance(s, s')
    ensures TablesFit(s')
  {
    QuietKeeps(s.tables.runs, s'.tables.runs, s.now);
    QuietKeepsProtection(s.tables, s'.tables);
    forall id | id in s'.tables.runs
      ensures s'.tables.runs[id].createdAt <= s'.now
      ensures s'.tables.runs[id].job.executionEpoch == s.tables.runs[id].job.executionEpoch
      ensures !s'.tables.runs[id].status.Terminal() ==> !s.tables.runs[id].status.Terminal()
    {
      assert Quiet(s.tables.runs[id], s'.tables.runs[id]);
    }
  }

  lemma QuietKeepsLeases(s: System, s': System)
    requires LeasesFit(s) && QuietAdvance(s, s')
    ensures LeasesFit(s')
  {
    forall task | task in s'.workers ensures LeaseFits(s', s'.workers[task].lease) {
      if task in s.workers {
        var lease := s.workers[task].lease;
        assert LeaseFits(s, lease);
        if lease.run in s.tables.runs {
          assert Quiet(s.tables.runs[lease.run], s'.tables.runs[lease.run]);
        }
      }
    }
  }

  lemma QuietKeepsHistory(s: System, s': System)
    requires HistoryFits(s) && QuietAdvance(s, s')
    ensures HistoryFits(s')
  {
    forall id | id in s'.tables.runs
      ensures HasLicence(s'.history, id) <==> Fenced(s'.tables.runs[id].events)
      ensures s'.tables.runs[id].createdAt == s.tables.runs[id].createdAt
    {
      assert Quiet(s.tables.runs[id], s'.tables.runs[id]);
    }
    forall i | 0 <= i < |s'.history| && s'.history[i].RunCreated?
      ensures CreationFits(s', s'.history[i].run, s'.history[i].nonce)
    {
      assert CreationFits(s, s.history[i].run, s.history[i].nonce);
    }
  }

  lemma QuietKeepsInv(s: System, s': System)
    requires Inv(s) && QuietAdvance(s, s')
    ensures Inv(s')
  {
    QuietKeepsTables(s, s');
    QuietKeepsLeases(s, s');
    QuietKeepsHistory(s, s');
  }

  lemma TablesStay(s: System)
    requires TablesFit(s)
    ensures QuietTables(s.tables, s.tables)
  {
    forall id | id in s.tables.runs ensures Quiet(s.tables.runs[id], s.tables.runs[id]) {
      QuietRefl(s.tables.runs[id]);
    }
  }

  /** A transaction on the tables alone. */
  lemma CommitQuiet(s: System, reply: Outcome<Tables, ErrorCode>)
    requires TablesFit(s)
    requires reply.Ok? ==> QuietTables(s.tables, reply.value)
    ensures QuietAdvance(s, Commit(s, reply))
  {
    TablesStay(s);
  }

  /** A transaction on the tables together with one worker's program counter. */
  lemma WorkerStepQuiet(s: System, tables: Tables, now: Time, task: Id, pc: Pc)
    requires task in s.workers && s.now <= now
    requires QuietTables(s.tables, tables) && PcAdvance(s.workers[task].pc, pc)
    ensures QuietAdvance(s, SetPc(s.(now := now, tables := tables), task, pc))
  {
  }

  /** A transaction on the tables that hands a fresh lease to a new worker. */
  lemma NewWorkerQuiet(s: System, tables: Tables, now: Time, task: Id, lease: Lease)
    requires task !in s.workers && s.now <= now && QuietTables(s.tables, tables)
    requires lease.run in s.tables.runs && s.tables.runs.Keys <= s.issued
    requires lease.executionEpoch == s.tables.epoch && !s.tables.quarantined
    requires lease.leaseEpoch == tables.runs[lease.run].job.leaseEpoch
    requires lease.executionEpoch == tables.runs[lease.run].job.executionEpoch
    ensures QuietAdvance(s, s.(now := now, tables := tables, workers := s.workers[task := Worker(lease, Started)]))
  {
    hide Quiet;
    assert LeaseFits(s.(now := now, tables := tables, workers := s.workers[task := Worker(lease, Started)]), lease);
  }

  lemma ClaimStep(s: System, step: Step)
    requires Inv(s) && step.ClaimJob?
    ensures QuietAdvance(s, Apply(s, step))
  {
    hide Claim, Quiet, ReplayProtected, HistoryFits, TokensFit, LeasesFit, AllSound, Timely;
    TablesStay(s);
    var times := ClaimTimes(s.now, s.now + step.select, s.now + step.select + step.check);
    var batch := s.limits.reconciliationBatch;
    ClaimQuiet(s.tables, step.authority, step.worker, step.duration, batch, step.skips, times);
    if step.task !in s.workers {
      match Claim(s.tables, step.authority, step.worker, step.duration, batch, step.skips, times)
      case Err(_) =>
      case Ok((tables, lease)) =>
        if lease.Some? { NewWorkerQuiet(s, tables, times.checked, step.task, lease.value); }
    }
  }

  lemma SessionFenceQuiet(t: Tables, lease: Lease, authority: Authority, now: Time)
    requires AllSound(t.runs)
    ensures var reply := Fence(t, authority, lease, ForSession, now);
            reply.Ok? ==> QuietTables(t, reply.value)
  {
    if Fence(t, authority, lease, ForSession, now).Ok? {
      FenceRowSound(t.runs[lease.run], ForSession, now);
      OneRowQuiet(t.runs, lease.run, FenceRow(t.runs[lease.run], ForSession, now));
    }
  }

  lemma SessionTransactionQuiet(
    t: Tables, lease: Lease, authority: Authority, renewal: Option<int>, renewedAt: Time, now: Time
  )
    requires AllSound(t.runs)
    ensures var reply := SessionTransaction(t, lease, authority, renewal, renewedAt, now);
            reply.Ok? ==> QuietTables(t, reply.value)
  {
    if renewal.None? {
      SessionFenceQuiet(t, lease, authority, now);
    } else {
      HeartbeatQuiet(t, lease, renewal.value, renewedAt);
      var renewed := Heartbeat(t, lease, renewal.value, renewedAt);
      if renewed.Ok? {
        QuietKeeps(t.runs, renewed.value.runs, now);
        SessionFenceQuiet(renewed.value, lease, authority, now);
        if Fence(renewed.value, authority, lease, ForSession, now).Ok? {
          QuietRunsCompose(t.runs, renewed.value.runs, Fence(renewed.value, authority, lease, ForSession, now).value.runs);
        }
      }
    }
  }

  lemma BeforeSessionStep(s: System, step: Step)
    requires Inv(s) && step.BeforeSession?
    ensures QuietAdvance(s, Apply(s, step))
  {
    hide SessionTransaction, Quiet, RecordFits, HistoryFits, TokensFit;
    TablesStay(s);
    if step.task in s.workers && s.workers[step.task].pc == Started {
      var lease := s.workers[step.task].lease;
      var now := s.now + step.check;
      SessionTransactionQuiet(s.tables, lease, step.authority, step.renewal, s.now, now);
      match SessionTransaction(s.tables, lease, step.authority, step.renewal, s.now, now)
      case Err(_) => WorkerStepQuiet(s, s.tables, now, step.task, Stopped);
      case Ok(tables) => WorkerStepQuiet(s, tables, now, step.task, SessionOpen);
    }
  }

  lemma ReportStep(s: System, step: Step)
    requires Inv(s) && step.Report?
    ensures QuietAdvance(s, Apply(s, step))
  {
    TablesStay(s);
    if step.task in s.workers && s.workers[step.task].pc != Stopped {
      match ReportOf(step.outcome)
      case Silent => WorkerStepQuiet(s, s.tables, s.now, step.task, Stopped);
      case Reported(status, code) =>
        var lease := s.workers[step.task].lease;
        CompleteQuiet(s.tables, lease, status, code, s.now);
        var reply := Complete(s.tables, lease, status, code, s.now);
        WorkerStepQuiet(s, if reply.Ok? then reply.value else s.tables, s.now, step.task, Stopped);
    }
  }

  predicate MovesRunsOnly(step: Step) {
    step.Tick? || step.ClaimJob? || step.BeforeSession? || step.Renew? || step.Report?
    || step.CancelRun? || step.ReconcileBatch? || step.ExpireBatch?
  }

  lemma RenewStep(s: System, step: Step)
    requires Inv(s) && step.Renew?
    ensures QuietAdvance(s, Apply(s, step))
  {
    hide Quiet, HistoryFits, LeasesFit, TokensFit, Heartbeat;
    TablesStay(s);
    if step.task in s.workers {
      HeartbeatQuiet(s.tables, s.workers[step.task].lease, step.duration, s.now);
      CommitQuiet(s, Heartbeat(s.tables, s.workers[step.task].lease, step.duration, s.now));
    }
  }

  lemma CancelStep(s: System, step: Step)
    requires Inv(s) && step.CancelRun?
    ensures QuietAdvance(s, Apply(s, step))
  {
    hide Quiet, HistoryFits, LeasesFit, TokensFit, Cancel;
    CancelQuiet(s.tables, step.workspace, step.run, s.now);
    CommitQuiet(s, Cancel(s.tables, step.workspace, step.run, s.now));
  }

  lemma ReconcileStep(s: System, step: Step)
    requires Inv(s) && step.ReconcileBatch?
    ensures QuietAdvance(s, Apply(s, step))
  {
    hide Quiet, HistoryFits, LeasesFit, TokensFit, SweepBatch, Picked, WorkersAdvance, Timely;
    if 0 < step.batch <= 1000 { SweepBatchQuiet(Restored, s.tables.runs, step.skipped, step.batch, s.now); }
    var reply := Reconcile(s.tables, step.skipped, step.batch, s.now);
    CommitQuiet(s, if reply.Ok? then Ok(reply.value.0) else Err(reply.error));
  }

  lemma ExpireStep(s: System, step: Step)
    requires Inv(s) && step.ExpireBatch?
    ensures QuietAdvance(s, Apply(s, step))
  {
    hide Quiet, HistoryFits, LeasesFit, TokensFit, SweepBatch, Picked;
    if 0 < step.batch <= 1000 { SweepBatchQuiet(ContentDue, s.tables.runs, step.skipped, step.batch, s.now); }
    CommitQuiet(s, ExpireContent(s.tables, step.skipped, step.batch, s.now));
  }

  lemma MovingSteps(s: System, step: Step)
    requires Inv(s) && MovesRunsOnly(step)
    ensures QuietAdvance(s, Apply(s, step))
  {
    hide Inv, QuietAdvance, Apply;
    match step
    case Tick(_) => TickStep(s, step);
    case ClaimJob(_, _, _, _, _, _, _) => ClaimStep(s, step);
    case BeforeSession(_, _, _, _) => BeforeSessionStep(s, step);
    case Renew(_, _) => RenewStep(s, step);
    case Report(_, _) => ReportStep(s, step);
    case CancelRun(_, _) => CancelStep(s, step);
    case ReconcileBatch(_, _) => ReconcileStep(s, step);
    case ExpireBatch(_, _) => ExpireStep(s, step);
    case _ =>
  }

  lemma TickStep(s: System, step: Step)
    requires Inv(s) && step.Tick?
    ensures QuietAdvance(s, Apply(s, step))
  {
    hide Quiet, HistoryFits, LeasesFit, TokensFit;
    TablesStay(s);
  }

  // ---------- the dispatch fence and the call ----------

  lemma ReplaceRowTables(s: System, s': System, id: Id, row: Run)
    requires TablesFit(s)
    requires id in s.tables.runs && Sound(row) && Evolves(s.tables.runs[id], row)
    requires !s.tables.runs[id].status.Terminal()
    requires s'.tables == s.tables.(runs := s.tables.runs[id := row]) && s'.now == s.now && s'.issued == s.issued
    ensures TablesFit(s')
  {
    hide Sound;
    forall other | other in s'.tables.runs ensures RecordFits(s'.tables.records[other], s'.tables.runs[other]) {
      assert RecordFits(s.tables.records[other], s.tables.runs[other]);
    }
  }

  /** One row replaced by a later state of the same run. */
  lemma ReplaceRowKeeps(s: System, s': System, id: Id, row: Run)
    requires TablesFit(s) && LeasesFit(s)
    requires id in s.tables.runs && Sound(row) && Evolves(s.tables.runs[id], row)
    requires !s.tables.runs[id].status.Terminal()
    requires s'.tables == s.tables.(runs := s.tables.runs[id := row]) && s'.now == s.now && s'.issued == s.issued
    requires s'.workers.Keys == s.workers.Keys
    requires forall task | task in s.workers :: s'.workers[task].lease == s.workers[task].lease
    ensures TablesFit(s') && LeasesFit(s')
  {
    hide TablesFit;
    ReplaceRowTables(s, s', id, row);
    forall task | task in s'.workers ensures LeaseFits(s', s'.workers[task].lease) {
      assert LeaseFits(s, s.workers[task].lease);
    }
  }

  lemma HasLicenceAppend(history: seq<Mark>, mark: Mark, run: Id)
    ensures HasLicence(history + [mark], run) <==> HasLicence(history, run) || (mark.DispatchLicensed? && mark.run == run)
  {
    var longer := history + [mark];
    assert longer[|history|] == mark;
    if HasLicence(history, run) {
      var i :| 0 <= i < |history| && history[i].DispatchLicensed? && history[i].run == run;
      assert longer[i] == history[i];
    }
  }

  lemma CallsFollowAppend(history: seq<Mark>, mark: Mark)
    requires CallsFollowLicences(history)
    requires mark.ToolCalled? ==> DispatchLicensed(mark.run, mark.task) in history
    ensures CallsFollowLicences(history + [mark])
  {
    var longer := history + [mark];
    forall i | 0 <= i < |longer| && longer[i].ToolCalled?
      ensures exists j | 0 <= j < i :: longer[j] == DispatchLicensed(longer[i].run, longer[i].task)
    {
      if i < |history| {
        var j :| 0 <= j < i && history[j] == DispatchLicensed(history[i].run, history[i].task);
        assert longer[j] == history[j];
      } else {
        var j :| 0 <= j < |history| && history[j] == DispatchLicensed(mark.run, mark.task);
        assert longer[j] == history[j];
      }
    }
  }

  /** Creations carry over to any state that keeps runs, nonces, tokens and time. */
  lemma CreationsCarryOver(s: System, s': System)
    requires CreationsFit(s)
    requires s'.tables.runs.Keys == s.tables.runs.Keys && s'.tables.nonces == s.tables.nonces
    requires s'.tokens == s.tokens && s'.issued == s.issued && s.now <= s'.now
    requires forall id | id in s.tables.runs :: s'.tables.runs[id].createdAt == s.tables.runs[id].createdAt
    requires |s.history| <= |s'.history| && s.history == s'.history[..|s.history|]
    requires forall i | |s.history| <= i < |s'.history| :: !s'.history[i].RunCreated?
    ensures CreationsFit(s')
  {
    forall i | 0 <= i < |s'.history| && s'.history[i].RunCreated?
      ensures CreationFits(s', s'.history[i].run, s'.history[i].nonce)
    {
      assert s'.history[i] == s.history[i];
      assert CreationFits(s, s.history[i].run, s.history[i].nonce);
    }
  }

  lemma DispatchHistory(s: System, s': System, task: Id, row: Run)
    requires HistoryFits(s) && s.tables.runs.Keys <= s.issued
    requires task in s.workers && s.workers[task].pc == SessionOpen
    requires var run := s.workers[task].lease.run;
             && run in s.tables.runs && row.createdAt == s.tables.runs[run].createdAt
             && !Fenced(s.tables.runs[run].events) && Fenced(row.events)
             && s' == SetPc(s.(tables := s.tables.(runs := s.tables.runs[run := row]),
                               history := s.history + [DispatchLicensed(run, task)]), task, Licensed)
    ensures HistoryFits(s')
  {
    hide Fenced;
    var run := s.workers[task].lease.run;
    var mark := DispatchLicensed(run, task);
    assert !HasLicence(s.history, run);
    CallsFollowAppend(s.history, mark);
    forall id | id in s'.tables.runs ensures HasLicence(s'.history, id) <==> Fenced(s'.tables.runs[id].events) {
      HasLicenceAppend(s.history, mark, id);
    }
    CreationsCarryOver(s, s');
    assert s'.history[|s.history|] == mark;
    assert MarksUnique(s'.history);
  }

  lemma DispatchStep(s: System, step: Step)
    requires Inv(s) && step.BeforeDispatch?
    ensures Inv(Apply(s, step))
  {
    hide HistoryFits, TablesFit, LeasesFit;
    if step.task in s.workers && s.workers[step.task].pc == SessionOpen {
      var s' := Apply(s, step);
      var lease := s.workers[step.task].lease;
      if Fence(s.tables, step.authority, lease, ForDispatch, s.now).Ok? {
        FenceOpensDispatch(s, step.authority, lease);
        var row := FenceRow(s.tables.runs[lease.run], ForDispatch, s.now);
        ReplaceRowKeeps(s, s', lease.run, row);
        DispatchHistory(s, s', step.task, row);
      } else {
        TablesStay(s);
        WorkerStepQuiet(s, s.tables, s.now, step.task, Stopped);
        QuietKeepsInv(s, Apply(s, step));
      }
    }
  }

  lemma FenceOpensDispatch(s: System, authority: Authority, lease: Lease)
    requires TablesFit(s) && Fence(s.tables, authority, lease, ForDispatch, s.now).Ok?
    ensures s.tables.runs.Keys <= s.issued
    ensures lease.run in s.tables.runs && LatestLive(s.tables.runs[lease.run].attempts) >= 0
    ensures var before := s.tables.runs[lease.run];
            var row := FenceRow(before, ForDispatch, s.now);
            && !Fenced(before.events) && Fenced(row.events) && Sound(row) && Evolves(before, row)
            && !before.status.Terminal()
            && Fence(s.tables, authority, lease, ForDispatch, s.now).value
                 == s.tables.(runs := s.tables.runs[lease.run := row])
  {
    FenceRowSound(s.tables.runs[lease.run], ForDispatch, s.now);
  }

  /** The caller's licence is the only one for its run, so no earlier call names the run. */
  lemma NoEarlierCall(s: System, task: Id)
    requires HistoryFits(s) && task in s.workers && s.workers[task].pc == Licensed
    ensures forall i | 0 <= i < |s.history| && s.history[i].ToolCalled? ::
              s.history[i].run != s.workers[task].lease.run
  {
    var run := s.workers[task].lease.run;
    forall i | 0 <= i < |s.history| && s.history[i].ToolCalled? ensures s.history[i].run != run {
      assert s.history[i].task != task;
      var j :| 0 <= j < i && s.history[j] == DispatchLicensed(s.history[i].run, s.history[i].task);
      var k :| 0 <= k < |s.history| && s.history[k] == DispatchLicensed(run, task);
      assert j != k;
    }
  }

  lemma CallLicences(s: System, s': System, task: Id)
    requires LicencesFit(s) && task in s.workers && s.workers[task].pc == Licensed
    requires s' == SetPc(s.(history := s.history + [ToolCalled(s.workers[task].lease.run, task)]), task, CallMade)
    ensures LicencesFit(s')
  {
    hide Fenced, HasLicence;
    var mark := ToolCalled(s.workers[task].lease.run, task);
    forall id ensures HasLicence(s'.history, id) <==> HasLicence(s.history, id) {
      HasLicenceAppend(s.history, mark, id);
    }
    forall other | other in s'.workers && s'.workers[other].pc == Licensed
      ensures DispatchLicensed(s'.workers[other].lease.run, other) in s'.history
    {
      assert DispatchLicensed(s.workers[other].lease.run, other) in s.history;
    }
  }

  lemma CallHistory(s: System, task: Id)
    requires HistoryFits(s) && task in s.workers && s.workers[task].pc == Licensed
    ensures HistoryFits(SetPc(s.(history := s.history + [ToolCalled(s.workers[task].lease.run, task)]), task, CallMade))
  {
    var mark := ToolCalled(s.workers[task].lease.run, task);
    var s' := SetPc(s.(history := s.history + [mark]), task, CallMade);
    assert CallsFollowLicences(s'.history) by {
      assert mark.ToolCalled? && DispatchLicensed(mark.run, mark.task) in s.history;
      CallsFollowAppend(s.history, mark);
    }
    assert MarksUnique(s'.history) by { NoEarlierCall(s, task); }
    assert LicencesFit(s') by { CallLicences(s, s', task); }
    assert CreationsFit(s') by { CreationsCarryOver(s, s'); }
  }

  lemma CallStep(s: System, step: Step)
    requires Inv(s) && step.CallTool?
    ensures Inv(Apply(s, step))
  {
    hide HistoryFits, ReplayProtected, Sound;
    if step.task in s.workers && s.workers[step.task].pc == Licensed {
      CallHistory(s, step.task);
      var s' := Apply(s, step);
      forall task | task in s'.workers ensures LeaseFits(s', s'.workers[task].lease) {
        assert LeaseFits(s, s.workers[task].lease);
      }
    }
  }
}
