/** What holds over every run of the execution service. */
module ProtocolTheorems {
  import opened Common
  import opened Queries
  import opened RegistryTypes
  import opened ExecutionTypes
  import opened RunRows
  import opened Ledger
  import opened Admission
  import opened Protocol
  import opened ProtocolInvariant
  import opened ProtocolAdmission

  lemma StepKeepsInv(s: System, step: Step)
    requires Inv(s)
    ensures Inv(Apply(s, step))
  {
    hide Inv, Apply;
    if MovesRunsOnly(step) {
      MovingSteps(s, step);
      QuietKeepsInv(s, Apply(s, step));
    } else {
      match step
      case MintToken(_) => MintStep(s, step);
      case BeginCreate(_, _, _) => BeginCreateStep(s, step);
      case FinishCreate(_, _, _, _, _, _) => FinishCreateStep(s, step);
      case AbandonCreate(_) => AbandonStep(s, step);
      case BeforeDispatch(_, _) => DispatchStep(s, step);
      case CallTool(_) => CallStep(s, step);
      case Enter => QuarantineSteps(s, step);
      case Clear => QuarantineSteps(s, step);
      case DeleteBatch(_, _) => DeleteStep(s, step);
      case _ =>
    }
  }

  lemma {:induction false} ExecKeepsInv(s: System, steps: seq<Step>)
    requires Inv(s)
    ensures Inv(Exec(s, steps))
    decreases |steps|
  {
    hide Inv, Apply;
    if steps != [] {
      ExecKeepsInv(s, steps[..|steps| - 1]);
      StepKeepsInv(Exec(s, steps[..|steps| - 1]), steps[|steps| - 1]);
    }
  }

  lemma InitFits(limits: Limits, now: Time)
    requires limits.Valid()
    ensures Inv(Init(limits, now))
  {
  }

  /** The state after any steps of a service that starts empty. */
  function Reached(limits: Limits, start: Time, steps: seq<Step>): System {
    Exec(Init(limits, start), steps)
  }

  lemma ReachedFits(limits: Limits, start: Time, steps: seq<Step>)
    requires limits.Valid()
    ensures Inv(Reached(limits, start, steps))
  {
    InitFits(limits, start);
    ExecKeepsInv(Init(limits, start), steps);
  }

  // ---------- at most one call ----------

  /**
    Over every interleaving, a run passes the dispatch fence at most once and its tool is
    called at most once, by the worker that passed the fence and after it did.
  */
  lemma AtMostOneCall(limits: Limits, start: Time, steps: seq<Step>)
    requires limits.Valid()
    ensures var history := Reached(limits, start, steps).history;
            && (forall i, j | 0 <= i < j < |history| && history[i].ToolCalled? && history[j].ToolCalled? ::
                  history[i].run != history[j].run)
            && (forall i, j | 0 <= i < j < |history| && history[i].DispatchLicensed? && history[j].DispatchLicensed? ::
                  history[i].run != history[j].run)
            && (forall i | 0 <= i < |history| && history[i].ToolCalled? ::
                  exists j | 0 <= j < i :: history[j] == DispatchLicensed(history[i].run, history[i].task))
  {
    ReachedFits(limits, start, steps);
  }

  // ---------- what one step does to a run ----------

  lemma {:induction false} EvolvesSelf(run: Run)
    ensures Evolves(run, run)
  {
  }

  /** A run retained across a step keeps its pins and only moves forward. */
  lemma StepEvolves(s: System, step: Step, id: Id)
    requires Inv(s) && id in s.issued
    requires id in Apply(s, step).tables.runs
    ensures id in s.tables.runs && Evolves(s.tables.runs[id], Apply(s, step).tables.runs[id])
  {
    hide Inv, Fence, Quiet, QuietAdvance, Evolves, Admit, Probe;
    if MovesRunsOnly(step) {
      MovingSteps(s, step);
      QuietEvolves(s, Apply(s, step), id);
    } else if step.BeforeDispatch? {
      DispatchEvolves(s, step, id);
    } else if step.BeginCreate? || step.FinishCreate? {
      CreationEvolves(s, step, id);
    } else {
      EvolvesSelf(s.tables.runs[id]);
    }
  }

  lemma QuietEvolves(s: System, s': System, id: Id)
    requires QuietAdvance(s, s') && id in s'.tables.runs
    ensures id in s.tables.runs && Evolves(s.tables.runs[id], s'.tables.runs[id])
  {
    assert Quiet(s.tables.runs[id], s'.tables.runs[id]);
  }

  lemma DispatchEvolves(s: System, step: Step, id: Id)
    requires Inv(s) && step.BeforeDispatch? && id in Apply(s, step).tables.runs
    ensures id in s.tables.runs && Evolves(s.tables.runs[id], Apply(s, step).tables.runs[id])
  {
    hide TablesFit, LeasesFit, HistoryFits, TokensFit, Fence, Evolves, Sound;
    if step.task in s.workers && s.workers[step.task].pc == SessionOpen {
      var lease := s.workers[step.task].lease;
      if Fence(s.tables, step.authority, lease, ForDispatch, s.now).Ok? {
        FenceOpensDispatch(s, step.authority, lease);
      }
    }
    if id in s.tables.runs { EvolvesSelf(s.tables.runs[id]); }
  }

  /** The admission transactions leave every existing run row as it was. */
  lemma AdmitKeepsRows(
    t: Tables, request: CreateRequest, keyrings: Keyrings, authority: Authority, state: StateRead,
    limits: Limits, argumentsValid: bool, id: Id, lockedAt: Time, now: Time, other: Id
  )
    requires keyrings.Valid(limits) && other != id
    ensures var reply := Admit(t, request, keyrings, authority, state, limits, argumentsValid, id, lockedAt, now);
            reply.Ok? ==>
              && (other in reply.value.tables.runs <==> other in t.runs)
              && (other in t.runs ==> reply.value.tables.runs[other] == t.runs[other])
  {
    hide HistoryError, AdmissionTarget, AdmissionDeadline, NewRun, NewRecord, FindRecord;
  }

  lemma CreationEvolves(s: System, step: Step, id: Id)
    requires (step.BeginCreate? || step.FinishCreate?)
    requires id in s.issued && id in Apply(s, step).tables.runs
    ensures id in s.tables.runs && Evolves(s.tables.runs[id], Apply(s, step).tables.runs[id])
  {
    hide Evolves, Admit, HistoryError, FindRecord;
    if step.FinishCreate? && step.creator in s.creators && s.creators[step.creator].keyrings.Valid(s.limits)
       && step.run !in s.issued
    {
      var creator := s.creators[step.creator];
      AdmitKeepsRows(s.tables, creator.request, creator.keyrings, step.authority, creator.state, s.limits,
                     step.argumentsValid, step.run, s.now + step.wait, s.now + step.wait + step.check, id);
    }
    assert id in s.tables.runs && Apply(s, step).tables.runs[id] == s.tables.runs[id];
    EvolvesSelf(s.tables.runs[id]);
  }

  lemma EvolvesCompose(a: Run, b: Run, c: Run)
    requires Evolves(a, b) && Evolves(b, c)
    ensures Evolves(a, c)
  {
  }

  lemma StepIssued(s: System, step: Step)
    ensures s.issued <= Apply(s, step).issued
  {
  }

  lemma {:induction false} ExecEvolves(s: System, steps: seq<Step>, id: Id)
    requires Inv(s) && id in s.issued
    ensures id in Exec(s, steps).issued
    ensures id in Exec(s, steps).tables.runs ==>
              id in s.tables.runs && Evolves(s.tables.runs[id], Exec(s, steps).tables.runs[id])
    decreases |steps|
  {
    hide Inv, Apply, Evolves;
    if steps == [] {
      if id in s.tables.runs { EvolvesSelf(s.tables.runs[id]); }
    } else {
      var before := Exec(s, steps[..|steps| - 1]);
      var step := steps[|steps| - 1];
      ExecKeepsInv(s, steps[..|steps| - 1]);
      ExecEvolves(s, steps[..|steps| - 1], id);
      StepIssued(before, step);
      if id in Apply(before, step).tables.runs {
        StepEvolves(before, step, id);
        EvolvesCompose(s.tables.runs[id], before.tables.runs[id], Apply(before, step).tables.runs[id]);
      }
    }
  }

  lemma {:induction false} ExecConcat(s: System, first: seq<Step>, second: seq<Step>)
    ensures Exec(s, first + second) == Exec(Exec(s, first), second)
    decreases |second|
  {
    if second == [] {
      assert first + second == first;
    } else {
      var n := |first + second|;
      assert (first + second)[..n - 1] == first + second[..|second| - 1];
      assert (first + second)[n - 1] == second[|second| - 1];
      ExecConcat(s, first, second[..|second| - 1]);
    }
  }

  /**
    The outcome of a run is final: in every later state in which it is still retained its
    status, failure code, job and attempts are the same and its log only grew.
  */
  lemma OutcomeIsFinal(limits: Limits, start: Time, steps: seq<Step>, later: seq<Step>, id: Id)
    requires limits.Valid()
    requires id in Reached(limits, start, steps).tables.runs
    requires Reached(limits, start, steps).tables.runs[id].status.Terminal()
    requires id in Reached(limits, start, steps + later).tables.runs
    ensures var ended := Reached(limits, start, steps).tables.runs[id];
            var after := Reached(limits, start, steps + later).tables.runs[id];
            after.status == ended.status && after.code == ended.code && after.terminalAt == ended.terminalAt
            && after.job == ended.job && after.attempts == ended.attempts && ended.events <= after.events
  {
    hide Apply;
    var s := Reached(limits, start, steps);
    ReachedFits(limits, start, steps);
    ExecConcat(Init(limits, start), steps, later);
    ExecEvolves(s, later, id);
  }

  // ---------- stale leases ----------

  /** A later claim of the lease's run succeeded, or the run has been deleted since. */
  predicate Superseded(s: System, lease: Lease) {
    lease.run in s.issued
    && (lease.run in s.tables.runs ==> lease.leaseEpoch < s.tables.runs[lease.run].job.leaseEpoch)
  }

  /**
    Once a later claim succeeds, an earlier lease is powerless for ever: whatever happens
    next, its heartbeat, fences and completions are refused and change nothing.
  */
  lemma SupersededForEver(
    limits: Limits, start: Time, steps: seq<Step>, later: seq<Step>, lease: Lease,
    authority: Authority, fence: FenceKind, status: RunStatus, code: Option<FailureCode>, duration: int, now: Time
  )
    requires limits.Valid() && Superseded(Reached(limits, start, steps), lease)
    ensures var tables := Reached(limits, start, steps + later).tables;
            && Heartbeat(tables, lease, duration, now).Err?
            && Fence(tables, authority, lease, fence, now).Err?
            && Complete(tables, lease, status, code, now).Err?
  {
    hide Apply, Heartbeat, Fence, Complete;
    ReachedFits(limits, start, steps);
    ExecConcat(Init(limits, start), steps, later);
    ExecEvolves(Reached(limits, start, steps), later, lease.run);
    StaleLeaseIsInert(Reached(limits, start, steps + later).tables, lease, authority, fence, status, code, duration, now);
  }

  // ---------- terminal outcomes tell the truth ----------

  /**
    A retained run's log holds a dispatch fence exactly when its status is one that
    admits a dispatch, exactly when a worker was licensed to call its tool.
  */
  lemma StatusTellsDispatch(limits: Limits, start: Time, steps: seq<Step>, id: Id)
    requires limits.Valid()
    requires id in Reached(limits, start, steps).tables.runs
    ensures var s := Reached(limits, start, steps);
            var run := s.tables.runs[id];
            && (Fenced(run.events) <==> AdmitsDispatch(run.status, run.code))
            && (Fenced(run.events) <==> HasLicence(s.history, id))
  {
    ReachedFits(limits, start, steps);
    assert Sound(Reached(limits, start, steps).tables.runs[id]);
  }

  /** No worker has or can obtain a licence for the run. */
  predicate Sealed(s: System, id: Id) {
    && id in s.issued
    && !HasLicence(s.history, id)
    && (id in s.tables.runs ==> s.tables.runs[id].status.Terminal())
  }

  lemma StepKeepsSealed(s: System, step: Step, id: Id)
    requires Inv(s) && Sealed(s, id)
    ensures Sealed(Apply(s, step), id)
  {
    var s' := Apply(s, step);
    assert !HasLicence(s'.history, id) by { SealedHistory(s, step, id); }
    assert id in s'.issued by { StepIssued(s, step); }
    if id in s'.tables.runs {
      hide Inv, Apply;
      StepEvolves(s, step, id);
    }
  }

  lemma SealedDispatch(s: System, step: Step, id: Id)
    requires Inv(s) && Sealed(s, id) && step.BeforeDispatch?
    ensures !HasLicence(Apply(s, step).history, id)
  {
    hide Inv, HasLicence;
    if step.task in s.workers {
      var run := s.workers[step.task].lease.run;
      if Fence(s.tables, step.authority, s.workers[step.task].lease, ForDispatch, s.now).Ok? {
        assert s.tables.runs[run].status == SessionFenced;
        HasLicenceAppend(s.history, DispatchLicensed(run, step.task), id);
      }
    }
  }

  lemma SealedHistory(s: System, step: Step, id: Id)
    requires Inv(s) && Sealed(s, id)
    ensures !HasLicence(Apply(s, step).history, id)
  {
    hide Inv, HasLicence, Fence, Admit;
    if step.BeforeDispatch? {
      SealedDispatch(s, step, id);
    } else if step.CallTool? && step.task in s.workers {
      HasLicenceAppend(s.history, ToolCalled(s.workers[step.task].lease.run, step.task), id);
    } else if step.FinishCreate? && step.creator in s.creators {
      HasLicenceAppend(s.history, RunCreated(step.run, s.creators[step.creator].request.claims.nonce), id);
      CreatedNames(s, step);
    }
  }

  lemma CreatedNames(s: System, step: Step)
    requires step.FinishCreate? && step.creator in s.creators
    ensures Apply(s, step).history == s.history
         || Apply(s, step).history == s.history + [RunCreated(step.run, s.creators[step.creator].request.claims.nonce)]
  {
    hide Replay, HistoryError, AdmissionTarget, AdmissionDeadline, NewRun, InsertRun;
  }

  lemma {:induction false} ExecKeepsSealed(s: System, steps: seq<Step>, id: Id)
    requires Inv(s) && Sealed(s, id)
    ensures Sealed(Exec(s, steps), id)
    decreases |steps|
  {
    hide Inv, Apply, Sealed;
    if steps != [] {
      ExecKeepsInv(s, steps[..|steps| - 1]);
      ExecKeepsSealed(s, steps[..|steps| - 1], id);
      StepKeepsSealed(Exec(s, steps[..|steps| - 1]), steps[|steps| - 1], id);
    }
  }

  /**
    A run that ended cancelled, timed out, or failed before dispatch has never been called
    and never will be, not even after it has been deleted.
  */
  lemma UndispatchedMeansNoCallEver(limits: Limits, start: Time, steps: seq<Step>, later: seq<Step>, id: Id)
    requires limits.Valid()
    requires id in Reached(limits, start, steps).tables.runs
    requires var run := Reached(limits, start, steps).tables.runs[id];
             run.status.Terminal() && !AdmitsDispatch(run.status, run.code)
    ensures forall i | 0 <= i < |Reached(limits, start, steps + later).history| ::
              !(Reached(limits, start, steps + later).history[i].ToolCalled?
                && Reached(limits, start, steps + later).history[i].run == id)
  {
    hide Apply, Sound;
    var s := Reached(limits, start, steps);
    var s' := Reached(limits, start, steps + later);
    ReachedFits(limits, start, steps);
    StatusTellsDispatch(limits, start, steps, id);
    ExecConcat(Init(limits, start), steps, later);
    ExecKeepsSealed(s, later, id);
    AtMostOneCall(limits, start, steps + later);
    forall i | 0 <= i < |s'.history| && s'.history[i].ToolCalled? ensures s'.history[i].run != id {
      var j :| 0 <= j < i && s'.history[j] == DispatchLicensed(s'.history[i].run, s'.history[i].task);
    }
  }

  // ---------- restore quarantine ----------

  /** Outside quarantine every active run's job carries the current execution epoch. */
  lemma ActiveRunsAreCurrent(limits: Limits, start: Time, steps: seq<Step>)
    requires limits.Valid() && !Reached(limits, start, steps).tables.quarantined
    ensures var tables := Reached(limits, start, steps).tables;
            forall id | id in tables.runs && !tables.runs[id].status.Terminal() ::
              tables.runs[id].job.executionEpoch == tables.epoch
  {
    ReachedFits(limits, start, steps);
  }

  predicate WorkerOrAdmission(step: Step) {
    step.FinishCreate? || step.ClaimJob? || step.BeforeSession? || step.BeforeDispatch? || step.Renew? || step.Report?
  }

  /**
    While quarantined nothing is admitted, claimed, renewed, fenced or completed: no step of
    a creator or worker changes a run, and none adds one.
  */
  lemma QuarantineStopsWork(limits: Limits, start: Time, steps: seq<Step>, step: Step)
    requires limits.Valid() && Reached(limits, start, steps).tables.quarantined
    requires WorkerOrAdmission(step)
    ensures Apply(Reached(limits, start, steps), step).tables.runs == Reached(limits, start, steps).tables.runs
  {
    var s := Reached(limits, start, steps);
    ReachedFits(limits, start, steps);
    QuarantinedStep(s, step);
  }

  lemma QuarantinedStep(s: System, step: Step)
    requires Inv(s) && s.tables.quarantined && WorkerOrAdmission(step)
    ensures Apply(s, step).tables.runs == s.tables.runs
  {
    hide Inv;
    match step
    case FinishCreate(_, _, _, _, _, _) => QuarantinedCreation(s, step);
    case BeforeSession(task, _, _, _) => QuarantinedWorker(s, step, task);
    case BeforeDispatch(task, _) => QuarantinedWorker(s, step, task);
    case Renew(task, _) => QuarantinedWorker(s, step, task);
    case Report(task, _) => QuarantinedWorker(s, step, task);
    case _ =>
  }

  lemma QuarantinedCreation(s: System, step: Step)
    requires Inv(s) && s.tables.quarantined && step.FinishCreate?
    ensures Apply(s, step).tables.runs == s.tables.runs
  {
    hide TablesFit, LeasesFit, HistoryFits, HistoryError, AdmissionTarget, AdmissionDeadline, NewRun, InsertRun;
  }

  lemma QuarantinedWorker(s: System, step: Step, task: Id)
    requires Inv(s) && s.tables.quarantined
    requires (step.BeforeSession? || step.BeforeDispatch? || step.Renew? || step.Report?) && task == step.task
    ensures Apply(s, step).tables.runs == s.tables.runs
  {
    hide TablesFit, TokensFit, HistoryFits;
    if task in s.workers { assert LeaseFits(s, s.workers[task].lease); }
  }

  /** From any reachable quarantine, ceil(active / batch) reconciliation batches let it clear. */
  lemma QuarantineClears(limits: Limits, start: Time, steps: seq<Step>, batch: int, times: seq<Time>)
    requires limits.Valid() && 0 < batch <= 1000
    requires Reached(limits, start, steps).tables.quarantined
    requires forall i | 0 <= i < |times| :: times[i] >= Reached(limits, start, steps).now
    ensures var tables := Reached(limits, start, steps).tables;
            ClearQuarantine(ReconcileAll(tables, batch, times)).Ok? <==> |times| * batch >= |ActiveIds(tables.runs)|
  {
    hide Apply, Sound, ReconcileAll, ClearQuarantine;
    ReachedFits(limits, start, steps);
    ReconcileTerminates(Reached(limits, start, steps).tables, batch, times);
  }

  // ---------- replay protection ----------

  /** No two retained runs were created under the same idempotency key of the same actor. */
  lemma OneRunPerKey(limits: Limits, start: Time, steps: seq<Step>, a: Id, b: Id)
    requires limits.Valid()
    requires a in Reached(limits, start, steps).tables.runs && b in Reached(limits, start, steps).tables.runs
    requires a != b
    ensures var tables := Reached(limits, start, steps).tables;
            && a in tables.records && b in tables.records
            && tables.records[a].keyMac.KeyMac? && tables.records[b].keyMac.KeyMac?
            && (tables.records[a].workspace, tables.records[a].actor, tables.records[a].keyMac.rawKey)
            != (tables.records[b].workspace, tables.records[b].actor, tables.records[b].keyMac.rawKey)
  {
    ReachedFits(limits, start, steps);
    var tables := Reached(limits, start, steps).tables;
    assert RecordFits(tables.records[a], tables.runs[a]) && RecordFits(tables.records[b], tables.runs[b]);
    assert !SameKey(tables.records[a], tables.records[b]);
  }

  /** One confirmation token creates at most one run, even after that run is deleted. */
  lemma OneRunPerToken(limits: Limits, start: Time, steps: seq<Step>)
    requires limits.Valid()
    ensures var history := Reached(limits, start, steps).history;
            forall i, j | 0 <= i < j < |history| && history[i].RunCreated? && history[j].RunCreated? ::
              history[i].nonce != history[j].nonce && history[i].run != history[j].run
  {
    ReachedFits(limits, start, steps);
  }

  /** The request repeats the key under which the retained run was created. */
  predicate RepeatsKey(t: Tables, id: Id, request: CreateRequest) {
    && id in t.records
    && t.records[id].workspace == request.workspace
    && t.records[id].actor == request.actor
    && t.records[id].keyMac == KeyMac(t.records[id].version, request.workspace, request.actor, request.rawKey)
  }

  /** The request is the one the run was created with. */
  predicate RepeatsRequest(t: Tables, id: Id, request: CreateRequest)
    requires id in t.records
  {
    t.records[id].requestMac == RequestMac(t.records[id].version, CanonicalOf(request))
  }

  predicate SpentElsewhere(t: Tables, id: Id, nonce: Id) {
    nonce in t.nonces && t.nonces[nonce].run != id
  }

  /**
    While a run is retained, its key never creates another one: under any keyrings whose
    history is complete, both the unlocked probe and the re-check behind the lock return
    that run for the same request and refuse any other request.
  */
  lemma RepeatedKey(
    limits: Limits, start: Time, steps: seq<Step>, id: Id, request: CreateRequest, keyrings: Keyrings, now: Time,
    authority: Authority, state: StateRead, argumentsValid: bool, newId: Id, lockedAt: Time
  )
    requires limits.Valid() && keyrings.Valid(limits)
    requires var t := Reached(limits, start, steps).tables;
             RepeatsKey(t, id, request) && HistoryError(t, keyrings).None?
    requires request.claims.keyVersion in keyrings.confirmation && BindingsHold(request, now)
    ensures var t := Reached(limits, start, steps).tables;
            var probed := Probe(t, request, keyrings, now);
            var admitted := Admit(t, request, keyrings, authority, state, limits, argumentsValid, newId, lockedAt, now);
            if !RepeatsRequest(t, id, request) then
              probed == Err(IdempotencyConflict) && admitted == Err(IdempotencyConflict)
            else if SpentElsewhere(t, id, request.claims.nonce) then
              probed == Err(ConfirmationReplayed) && admitted == Err(ConfirmationReplayed)
            else
              && probed.Ok? && probed.value.Replayed? && probed.value.run == id
              && admitted.Ok? && admitted.value.Existing? && admitted.value.run == id
              && probed.value.tables.runs == t.runs && admitted.value.tables.runs == t.runs
  {
    hide Sound, FindRecord, AdmissionTarget, AdmissionDeadline, NewRun;
    ReachedFits(limits, start, steps);
    var t := Reached(limits, start, steps).tables;
    assert RecordFits(t.records[id], t.runs[id]);
    LookupIsExact(t, id, request.workspace, request.actor, request.rawKey, keyrings.idempotency);
  }

  // ---------- the active-run limit ----------

  lemma ActiveStep(s: System, step: Step, workspace: Id)
    requires Inv(s) && |ActiveIn(s.tables.runs, workspace)| <= s.limits.maxActiveRuns
    ensures |ActiveIn(Apply(s, step).tables.runs, workspace)| <= s.limits.maxActiveRuns
  {
    hide Inv, Apply, Evolves, Admit;
    var s' := Apply(s, step);
    var before, after := ActiveIn(s.tables.runs, workspace), ActiveIn(s'.tables.runs, workspace);
    forall id | id in after && id in s.issued ensures id in before {
      StepEvolves(s, step, id);
      StaysActive(s.tables.runs[id], s'.tables.runs[id]);
    }
    RunsAreIssued(s, step);
    if created :| created in after && created !in s.issued {
      NewRunUnderLimit(s, step, created, workspace);
      assert after <= before + {created};
      SubsetSize(after, before + {created});
    } else {
      assert after <= before;
      SubsetSize(after, before);
    }
  }

  lemma StaysActive(before: Run, after: Run)
    requires Evolves(before, after) && !after.status.Terminal()
    ensures !before.status.Terminal() && before.workspace == after.workspace
  {
  }

  lemma RunsAreIssued(s: System, step: Step)
    requires Inv(s)
    ensures forall id | id in Apply(s, step).tables.runs && id !in s.issued :: step.FinishCreate? && id == step.run
  {
    hide Inv, TablesFit, Admit, Probe;
    var s' := Apply(s, step);
    StepKeepsInv(s, step);
    IssuedBy(s, step);
    IssuedRuns(s');
  }

  lemma IssuedRuns(s: System)
    requires Inv(s)
    ensures s.tables.runs.Keys <= s.issued
  {
  }

  lemma IssuedBy(s: System, step: Step)
    ensures forall id | id in Apply(s, step).issued && id !in s.issued :: step.FinishCreate? && id == step.run
  {
    hide HistoryError, AdmissionTarget, AdmissionDeadline, NewRun, InsertRun, Replay, FindRecord;
  }

  lemma NewRunUnderLimit(s: System, step: Step, id: Id, workspace: Id)
    requires Inv(s) && step.FinishCreate? && id == step.run && id !in s.issued
    requires id in ActiveIn(Apply(s, step).tables.runs, workspace)
    ensures |ActiveIn(s.tables.runs, workspace)| < s.limits.maxActiveRuns
  {
    hide Admit, Replay, HistoryError, HistoryFits, LeasesFit, Sound, Fenced, FindRecord, AdmissionTarget,
         ReplayProtected, Timely, AllSound;
    var lockedAt := s.now + step.wait;
    var now := lockedAt + step.check;
    if step.creator in s.creators && s.creators[step.creator].keyrings.Valid(s.limits) {
      var creator := s.creators[step.creator];
      var reply := Admit(s.tables, creator.request, creator.keyrings, step.authority, creator.state,
                         s.limits, step.argumentsValid, id, lockedAt, now);
      if reply.Ok? && reply.value.Created? {
        var run := AdmittedFacts(s, creator, step.authority, step.argumentsValid, id, lockedAt, now);
      } else if reply.Ok? {
        ExistingTables(s, step);
        ReplayShape(s.tables, creator.request, reply.value.run);
      }
    }
  }

  /** No workspace ever has more active runs than the limit. */
  lemma {:induction false} ActiveRunsBounded(limits: Limits, start: Time, steps: seq<Step>, workspace: Id)
    requires limits.Valid()
    ensures |ActiveIn(Reached(limits, start, steps).tables.runs, workspace)| <= limits.maxActiveRuns
    ensures Reached(limits, start, steps).limits == limits
    decreases |steps|
  {
    hide Apply, ActiveIn;
    if steps == [] {
      NoRunsActive(workspace);
    } else {
      var before := Reached(limits, start, steps[..|steps| - 1]);
      ActiveRunsBounded(limits, start, steps[..|steps| - 1], workspace);
      ReachedFits(limits, start, steps[..|steps| - 1]);
      ActiveStep(before, steps[|steps| - 1], workspace);
      LimitsStay(before, steps[|steps| - 1]);
    }
  }

  lemma NoRunsActive(workspace: Id)
    ensures ActiveIn(map[], workspace) == {}
  {
  }

  lemma LimitsStay(s: System, step: Step)
    ensures Apply(s, step).limits == s.limits
  {
  }
}
