/**
  The whole execution service as a transition system: creators racing for admission,
  workers that may stall or crash between their transactions, cancellation, restore and
  retention, in any interleaving. Each step is one transaction; a step whose guards fail
  changes nothing but the clock.
*/
module Protocol {
  import opened Common
  import opened RegistryTypes
  import opened ExecutionTypes
  import opened RunRows
  import opened Ledger
  import opened Admission
  import opened Runner

  /** Where a worker stands between its transactions. */
  datatype Pc = Started | SessionOpen | Licensed | CallMade | Stopped

  datatype Worker = Worker(lease: Lease, pc: Pc)

  /** A creator that found no record and waits for the workspace lock. */
  datatype Creator = Creator(request: CreateRequest, keyrings: Keyrings, state: StateRead)

  /** What happened, in order. */
  datatype Mark =
    | RunCreated(run: Id, nonce: Id)
    | DispatchLicensed(run: Id, task: Id)
    | ToolCalled(run: Id, task: Id)

  datatype System = System(
    limits: Limits,
    now: Time,
    tables: Tables,
    tokens: map<Id, Claims>,
    issued: set<Id>,
    creators: map<Id, Creator>,
    workers: map<Id, Worker>,
    history: seq<Mark>)

  datatype Step =
    | Tick(elapsed: nat)
    | MintToken(claims: Claims)
    | BeginCreate(creator: Id, request: CreateRequest, keyrings: Keyrings)
    | FinishCreate(creator: Id, authority: Authority, argumentsValid: bool, run: Id, wait: nat, check: nat)
    | AbandonCreate(creator: Id)
    | ClaimJob(task: Id, authority: Authority, worker: Id, duration: int, skips: Skips, select: nat, check: nat)
    | BeforeSession(task: Id, authority: Authority, renewal: Option<int>, check: nat)
    | BeforeDispatch(task: Id, authority: Authority)
    | CallTool(task: Id)
    | Renew(task: Id, duration: int)
    | Report(task: Id, outcome: AdapterOutcome)
    | CancelRun(workspace: Id, run: Id)
    | Enter
    | ReconcileBatch(skipped: set<Id>, batch: int)
    | Clear
    | ExpireBatch(skipped: set<Id>, batch: int)
    | DeleteBatch(skipped: set<Id>, batch: int)

  function Init(limits: Limits, now: Time): System {
    System(limits, now, Tables(1, false, map[], map[], map[]), map[], {}, map[], map[], [])
  }

  /** A token's issue and expiry times are those encoded at the present moment. */
  predicate MintedNow(s: System, claims: Claims) {
    && claims.nonce !in s.tokens
    && claims.issuedAt == FloorSecond(s.now)
    && claims.expiresAt == CeilSecond(s.now + s.limits.confirmationTtlSeconds * SECOND)
  }

  /** A token decodes only if it was issued, and then to the issued content. */
  predicate Authentic(s: System, claims: Claims) {
    claims.nonce in s.tokens && s.tokens[claims.nonce] == claims
  }

  function ApplyBeginCreate(s: System, step: Step): System
    requires step.BeginCreate?
  {
    if step.creator in s.creators || !step.keyrings.Valid(s.limits) || !Authentic(s, step.request.claims) then s
    else
      match Probe(s.tables, step.request, step.keyrings, s.now)
      case Err(_) => s
      case Ok(Replayed(tables, _)) => s.(tables := tables)
      case Ok(MustLock) =>
        s.(creators := s.creators[step.creator :=
             Creator(step.request, step.keyrings, StateRead(s.tables.epoch, s.tables.quarantined))])
  }

  function ApplyFinishCreate(s: System, step: Step): System
    requires step.FinishCreate?
  {
    var lockedAt := s.now + step.wait;
    var now := lockedAt + step.check;
    if step.creator !in s.creators || step.run in s.issued then s
    else
      var creator := s.creators[step.creator];
      var ended := s.(now := now, creators := s.creators - {step.creator});
      if !creator.keyrings.Valid(s.limits) then ended
      else
        match Admit(s.tables, creator.request, creator.keyrings, step.authority, creator.state,
                    s.limits, step.argumentsValid, step.run, lockedAt, now)
        case Err(_) => ended
        case Ok(Existing(tables, _)) => ended.(tables := tables)
        case Ok(Created(tables, run)) =>
          ended.(tables := tables, issued := s.issued + {run},
                 history := s.history + [RunCreated(run, creator.request.claims.nonce)])
  }

  function ApplyClaim(s: System, step: Step): System
    requires step.ClaimJob?
  {
    var times := ClaimTimes(s.now, s.now + step.select, s.now + step.select + step.check);
    if step.task in s.workers then s
    else
      match Claim(s.tables, step.authority, step.worker, step.duration, s.limits.reconciliationBatch, step.skips, times)
      case Err(_) => s
      case Ok((tables, lease)) =>
        var ended := s.(now := times.checked, tables := tables);
        if lease.None? then ended
        else ended.(workers := s.workers[step.task := Worker(lease.value, Started)])
  }

  function SetPc(s: System, task: Id, pc: Pc): System
    requires task in s.workers
  {
    s.(workers := s.workers[task := s.workers[task].(pc := pc)])
  }

  /** The heartbeat and the session fence share one transaction. */
  function SessionTransaction(
    t: Tables, lease: Lease, authority: Authority, renewal: Option<int>, renewedAt: Time, now: Time
  ): Outcome<Tables, ErrorCode>
  {
    var renewed := if renewal.None? then Ok(t) else Heartbeat(t, lease, renewal.value, renewedAt);
    match renewed
    case Err(error) => Err(error)
    case Ok(tables) => Fence(tables, authority, lease, ForSession, now)
  }

  function ApplyBeforeSession(s: System, step: Step): System
    requires step.BeforeSession?
  {
    if step.task !in s.workers || s.workers[step.task].pc != Started then s
    else
      var lease := s.workers[step.task].lease;
      var now := s.now + step.check;
      match SessionTransaction(s.tables, lease, step.authority, step.renewal, s.now, now)
      case Err(_) => SetPc(s.(now := now), step.task, Stopped)
      case Ok(tables) => SetPc(s.(now := now, tables := tables), step.task, SessionOpen)
  }

  function ApplyBeforeDispatch(s: System, step: Step): System
    requires step.BeforeDispatch?
  {
    if step.task !in s.workers || s.workers[step.task].pc != SessionOpen then s
    else
      var lease := s.workers[step.task].lease;
      match Fence(s.tables, step.authority, lease, ForDispatch, s.now)
      case Err(_) => SetPc(s, step.task, Stopped)
      case Ok(tables) =>
        SetPc(s.(tables := tables, history := s.history + [DispatchLicensed(lease.run, step.task)]),
              step.task, Licensed)
  }

  function ApplyCall(s: System, step: Step): System
    requires step.CallTool?
  {
    if step.task !in s.workers || s.workers[step.task].pc != Licensed then s
    else
      SetPc(s.(history := s.history + [ToolCalled(s.workers[step.task].lease.run, step.task)]),
            step.task, CallMade)
  }

  function Commit(s: System, reply: Outcome<Tables, ErrorCode>): System {
    match reply
    case Err(_) => s
    case Ok(tables) => s.(tables := tables)
  }

  function ApplyReport(s: System, step: Step): System
    requires step.Report?
  {
    if step.task !in s.workers || s.workers[step.task].pc == Stopped then s
    else
      match ReportOf(step.outcome)
      case Silent => SetPc(s, step.task, Stopped)
      case Reported(status, code) =>
        SetPc(Commit(s, Complete(s.tables, s.workers[step.task].lease, status, code, s.now)), step.task, Stopped)
  }

  /** Creators hold a shared lock on the execution state, which entering and clearing exclude. */
  predicate StateLockFree(s: System) { s.creators.Keys == {} }

  function Apply(s: System, step: Step): System {
    match step
    case Tick(elapsed) => s.(now := s.now + elapsed)
    case MintToken(claims) => if MintedNow(s, claims) then s.(tokens := s.tokens[claims.nonce := claims]) else s
    case BeginCreate(_, _, _) => ApplyBeginCreate(s, step)
    case FinishCreate(_, _, _, _, _, _) => ApplyFinishCreate(s, step)
    case AbandonCreate(creator) => s.(creators := s.creators - {creator})
    case ClaimJob(_, _, _, _, _, _, _) => ApplyClaim(s, step)
    case BeforeSession(_, _, _, _) => ApplyBeforeSession(s, step)
    case BeforeDispatch(_, _) => ApplyBeforeDispatch(s, step)
    case CallTool(_) => ApplyCall(s, step)
    case Renew(task, duration) =>
      if task in s.workers then Commit(s, Heartbeat(s.tables, s.workers[task].lease, duration, s.now)) else s
    case Report(_, _) => ApplyReport(s, step)
    case CancelRun(workspace, run) => Commit(s, Cancel(s.tables, workspace, run, s.now))
    case Enter => if StateLockFree(s) then s.(tables := EnterQuarantine(s.tables)) else s
    case ReconcileBatch(skipped, batch) =>
      (match Reconcile(s.tables, skipped, batch, s.now)
       case Err(_) => s
       case Ok(reply) => s.(tables := reply.0))
    case Clear => if StateLockFree(s) then Commit(s, ClearQuarantine(s.tables)) else s
    case ExpireBatch(skipped, batch) => Commit(s, ExpireContent(s.tables, skipped, batch, s.now))
    case DeleteBatch(skipped, batch) => Commit(s, DeleteExpired(s.tables, s.limits, skipped, batch, s.now))
  }

  function Exec(s: System, steps: seq<Step>): System
    decreases |steps|
  {
    if steps == [] then s else Apply(Exec(s, steps[..|steps| - 1]), steps[|steps| - 1])
  }
}
