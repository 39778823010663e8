/** Token issue, admission, restore and deletion steps keep the protocol invariant. */
module ProtocolAdmission {
  import opened Common
  import opened Queries
  import opened RegistryTypes
  import opened ExecutionTypes
  import opened RunRows
  import opened Ledger
  import opened Admission
  import opened Protocol
  import opened ProtocolInvariant

  // ---------- tokens ----------

  lemma MintStep(s: System, step: Step)
    requires Inv(s) && step.MintToken?
    ensures Inv(Apply(s, step))
  {
    hide Sound, ReplayProtected, LicencesFit, MarksUnique, CallsFollowLicences;
    var claims := step.claims;
    if MintedNow(s, claims) {
      TokenWindow(s.now, s.limits.confirmationTtlSeconds);
      var s' := Apply(s, step);
      assert LicencesFit(s') by { LicencesIgnore(s, s'); }
      forall i | 0 <= i < |s'.history| && s'.history[i].RunCreated?
        ensures CreationFits(s', s'.history[i].run, s'.history[i].nonce)
      {
        assert CreationFits(s, s.history[i].run, s.history[i].nonce);
      }
      assert LeasesFit(s') by { LeasesIgnore(s, s'); }
    }
  }

  /** Licences depend only on the workers, the history, the issued runs and the logs. */
  lemma LicencesIgnore(s: System, s': System)
    requires LicencesFit(s)
    requires s'.workers == s.workers && s'.history == s.history && s'.issued == s.issued
    requires s'.tables.runs.Keys <= s.tables.runs.Keys
    requires forall id | id in s'.tables.runs :: s'.tables.runs[id] == s.tables.runs[id]
    ensures LicencesFit(s')
  {
    hide Fenced, HasLicence;
  }

  lemma LeasesIgnore(s: System, s': System)
    requires LeasesFit(s) && s.tables.runs.Keys <= s.issued
    requires s'.workers == s.workers && s.issued <= s'.issued
    requires s'.tables.epoch == s.tables.epoch && s'.tables.quarantined == s.tables.quarantined
    requires forall id | id in s'.tables.runs && id in s.issued ::
               id in s.tables.runs && s'.tables.runs[id] == s.tables.runs[id]
    ensures LeasesFit(s')
  {
    forall task | task in s'.workers ensures LeaseFits(s', s'.workers[task].lease) {
      assert LeaseFits(s, s.workers[task].lease);
    }
  }

  // ---------- replay ----------

  /** Replay only ever adds a nonce that was not there before. */
  lemma ReplayShape(t: Tables, request: CreateRequest, id: Id)
    requires id in t.records && Replay(t, request, id).Ok?
    ensures var after := Replay(t, request, id).value;
            && after == t.(nonces := after.nonces)
            && (forall nonce | nonce in t.nonces :: nonce in after.nonces && after.nonces[nonce] == t.nonces[nonce])
  {
  }

  lemma NoncesOnly(s: System, s': System)
    requires HistoryFits(s) && LeasesFit(s) && s.tables.runs.Keys <= s.issued
    requires s' == s.(now := s'.now, tables := s.tables.(nonces := s'.tables.nonces), creators := s'.creators)
    requires s.now <= s'.now
    requires forall nonce | nonce in s.tables.nonces ::
               nonce in s'.tables.nonces && s'.tables.nonces[nonce] == s.tables.nonces[nonce]
    ensures HistoryFits(s') && LeasesFit(s')
  {
    hide LicencesFit, MarksUnique, CallsFollowLicences;
    LicencesIgnore(s, s');
    LeasesIgnore(s, s');
    forall i | 0 <= i < |s'.history| && s'.history[i].RunCreated?
      ensures CreationFits(s', s'.history[i].run, s'.history[i].nonce)
    {
      assert CreationFits(s, s.history[i].run, s.history[i].nonce);
    }
  }

  lemma ReplayTables(s: System, request: CreateRequest, id: Id, now: Time, s': System)
    requires Inv(s) && id in s.tables.records && Replay(s.tables, request, id).Ok?
    requires s' == s.(now := now, tables := Replay(s.tables, request, id).value, creators := s'.creators)
    requires s.now <= now && s'.creators.Keys <= s.creators.Keys
    requires forall c | c in s'.creators :: s'.creators[c] == s.creators[c]
    ensures Inv(s')
  {
    hide Sound, HistoryFits, LeasesFit, Replay, ReplayProtected;
    ReplayShape(s.tables, request, id);
    ReplayKeepsProtection(s.tables, request, id);
    NoncesOnly(s, s');
  }

  lemma BeginCreateStep(s: System, step: Step)
    requires Inv(s) && step.BeginCreate?
    ensures Inv(Apply(s, step))
  {
    hide TablesFit, LeasesFit, HistoryFits, Replay, HistoryError;
    var s' := Apply(s, step);
    if step.creator !in s.creators && step.keyrings.Valid(s.limits) && Authentic(s, step.request.claims) {
      match Probe(s.tables, step.request, step.keyrings, s.now)
      case Err(_) =>
      case Ok(Replayed(tables, found)) =>
        ReplayTables(s, step.request, found, s.now, s');
      case Ok(MustLock) =>
        CreatorsOnly(s, s', s.now);
    }
  }

  /** Only pending creators and the clock changed. */
  lemma CreatorsOnly(s: System, s': System, now: Time)
    requires Inv(s) && s.now <= now && s' == s.(now := now, creators := s'.creators)
    requires TokensFit(s')
    ensures Inv(s')
  {
    hide Sound, ReplayProtected, LicencesFit, MarksUnique, CallsFollowLicences, TokensFit;
    LicencesIgnore(s, s');
    LeasesIgnore(s, s');
    forall i | 0 <= i < |s'.history| && s'.history[i].RunCreated?
      ensures CreationFits(s', s'.history[i].run, s'.history[i].nonce)
    {
      assert CreationFits(s, s.history[i].run, s.history[i].nonce);
    }
  }

  // ---------- admission ----------

  /** What a successful admission has checked. */
  lemma AdmittedFacts(
    s: System, creator: Creator, authority: Authority, argumentsValid: bool, id: Id, lockedAt: Time, now: Time
  ) returns (run: Run)
    requires creator.keyrings.Valid(s.limits)
    requires Admit(s.tables, creator.request, creator.keyrings, authority, creator.state,
                   s.limits, argumentsValid, id, lockedAt, now).Ok?
    requires Admit(s.tables, creator.request, creator.keyrings, authority, creator.state,
                   s.limits, argumentsValid, id, lockedAt, now).value.Created?
    ensures var request := creator.request;
            && Admit(s.tables, request, creator.keyrings, authority, creator.state,
                     s.limits, argumentsValid, id, lockedAt, now).value
                 == Created(InsertRun(s.tables, request, creator.keyrings.idempotency, id, run), id)
            && Sound(run) && !Fenced(run.events) && !creator.state.quarantined
            && AdmissionTarget(authority, request.capabilityVersion) == Some(run.pins)
            && run.workspace == request.workspace && run.actor == request.actor
            && run.createdAt == now && run.job.executionEpoch == creator.state.epoch
            && run.pins.capability == request.claims.capability
            && run.pins.capabilityVersion == request.capabilityVersion
            && run.pins.connection == request.claims.connection
            && run.pins.connectionVersion == request.claims.connectionVersion
            && request.claims.nonce !in s.tables.nonces
            && request.claims.expiresAt > now
            && IdempotencyHistoryComplete(s.tables, creator.keyrings.idempotency)
            && FindRecord(s.tables, request.workspace, request.actor, request.rawKey,
                          creator.keyrings.idempotency).None?
            && |ActiveIn(s.tables.runs, request.workspace)| < s.limits.maxActiveRuns
  {
    hide Sound, Fenced, MatchingRecords, ConfirmationHistoryComplete, IdempotencyHistoryComplete;
    var request := creator.request;
    var pins := AdmissionTarget(authority, request.capabilityVersion).value;
    var deadline := AdmissionDeadline(request.deadline, s.limits, now).value;
    run := NewRun(request, pins, creator.state.epoch, s.limits, deadline, now);
    NewRunSound(request, pins, creator.state.epoch, s.limits, deadline, now);
  }

  lemma CreatedTables(s: System, s': System, creator: Creator, id: Id, run: Run)
    requires TablesFit(s) && id !in s.issued && s.now <= s'.now
    requires creator.keyrings.idempotency != []
    requires creator.state == StateRead(s.tables.epoch, s.tables.quarantined)
    requires Sound(run) && run.createdAt == s'.now && run.job.executionEpoch == creator.state.epoch
    requires IdempotencyHistoryComplete(s.tables, creator.keyrings.idempotency)
    requires FindRecord(s.tables, creator.request.workspace, creator.request.actor, creator.request.rawKey,
                        creator.keyrings.idempotency).None?
    requires run.workspace == creator.request.workspace && run.actor == creator.request.actor
    requires run.pins.capability == creator.request.claims.capability
    requires run.pins.capabilityVersion == creator.request.capabilityVersion
    requires run.pins.connection == creator.request.claims.connection
    requires run.pins.connectionVersion == creator.request.claims.connectionVersion
    requires s'.tables == InsertRun(s.tables, creator.request, creator.keyrings.idempotency, id, run)
    requires s'.issued == s.issued + {id}
    ensures TablesFit(s')
  {
    hide Sound, FindRecord;
    InsertKeepsProtection(s.tables, creator.request, creator.keyrings.idempotency, id, run);
  }

  lemma CreatedHistory(s: System, s': System, id: Id, nonce: Id, run: Run)
    requires HistoryFits(s) && s.tables.runs.Keys <= s.issued && id !in s.issued
    requires nonce in s.tokens && nonce !in s.tables.nonces
    requires s.tokens[nonce].issuedAt <= s'.now < s.tokens[nonce].expiresAt && s.now <= s'.now
    requires !Fenced(run.events) && run.createdAt == s'.now
    requires s'.tables.runs == s.tables.runs[id := run]
    requires nonce in s'.tables.nonces && s'.tables.nonces[nonce].run == id
    requires forall n | n in s.tables.nonces :: n in s'.tables.nonces && s'.tables.nonces[n] == s.tables.nonces[n]
    requires s'.workers == s.workers && s'.tokens == s.tokens && s'.issued == s.issued + {id}
    requires s'.history == s.history + [RunCreated(id, nonce)]
    ensures HistoryFits(s')
  {
    var mark := RunCreated(id, nonce);
    assert CallsFollowLicences(s'.history) by { CallsFollowAppend(s.history, mark); }
    forall i | 0 <= i < |s.history| && s.history[i].RunCreated?
      ensures s.history[i].run != id && s.history[i].nonce != nonce
    {
      assert CreationFits(s, s.history[i].run, s.history[i].nonce);
    }
    assert MarksUnique(s'.history);
    assert CreationsFit(s') by {
      forall i | 0 <= i < |s'.history| && s'.history[i].RunCreated?
        ensures CreationFits(s', s'.history[i].run, s'.history[i].nonce)
      {
        if i < |s.history| { assert CreationFits(s, s.history[i].run, s.history[i].nonce); }
      }
    }
    assert LicencesFit(s') by { CreatedLicences(s, s', id, mark); }
  }

  lemma CreatedLicences(s: System, s': System, id: Id, mark: Mark)
    requires LicencesFit(s) && id !in s.issued && mark.RunCreated?
    requires id in s'.tables.runs && !Fenced(s'.tables.runs[id].events)
    requires s'.tables.runs == s.tables.runs[id := s'.tables.runs[id]]
    requires s'.workers == s.workers && s'.issued == s.issued + {id}
    requires s'.history == s.history + [mark]
    ensures LicencesFit(s')
  {
    hide Fenced;
    assert !HasLicence(s.history, id);
    forall other ensures HasLicence(s'.history, other) <==> HasLicence(s.history, other) {
      HasLicenceAppend(s.history, mark, other);
    }
    forall task | task in s'.workers && s'.workers[task].pc == Licensed
      ensures DispatchLicensed(s'.workers[task].lease.run, task) in s'.history
    {
      assert DispatchLicensed(s.workers[task].lease.run, task) in s.history;
    }
  }

  /** A creation that ended without a new run. */
  lemma UncreatedStep(s: System, step: Step, reply: Outcome<Admitted, ErrorCode>)
    requires Inv(s) && step.FinishCreate? && step.creator in s.creators && step.run !in s.issued
    requires var creator := s.creators[step.creator];
      && creator.keyrings.Valid(s.limits)
      && reply == Admit(s.tables, creator.request, creator.keyrings, step.authority, creator.state,
                        s.limits, step.argumentsValid, step.run, s.now + step.wait, s.now + step.wait + step.check)
    requires reply.Ok? ==> reply.value.Existing?
    ensures Inv(Apply(s, step))
  {
    hide TablesFit, LeasesFit, HistoryFits, Replay, HistoryError, Sound, Admit;
    var now := s.now + step.wait + step.check;
    var ended := s.(now := now, creators := s.creators - {step.creator});
    CreatorsOnly(s, ended, now);
    if reply.Ok? {
      ExistingTables(s, step);
      ReplayTables(s, s.creators[step.creator].request, reply.value.run, now, Apply(s, step));
    }
  }

  lemma FinishCreateStep(s: System, step: Step)
    requires Inv(s) && step.FinishCreate?
    ensures Inv(Apply(s, step))
  {
    hide TablesFit, LeasesFit, HistoryFits, Admit;
    if step.creator in s.creators && step.run !in s.issued {
      var creator := s.creators[step.creator];
      var reply := Admit(s.tables, creator.request, creator.keyrings, step.authority, creator.state, s.limits,
                         step.argumentsValid, step.run, s.now + step.wait, s.now + step.wait + step.check);
      if reply.Ok? && reply.value.Created? {
        CreatedStep(s, step);
      } else {
        UncreatedStep(s, step, reply);
      }
    }
  }

  lemma ExistingTables(s: System, step: Step)
    requires step.FinishCreate? && step.creator in s.creators && s.creators[step.creator].keyrings.Valid(s.limits)
    requires var creator := s.creators[step.creator];
             var reply := Admit(s.tables, creator.request, creator.keyrings, step.authority, creator.state, s.limits,
                                step.argumentsValid, step.run, s.now + step.wait, s.now + step.wait + step.check);
             reply.Ok? && reply.value.Existing?
    ensures var creator := s.creators[step.creator];
            var reply := Admit(s.tables, creator.request, creator.keyrings, step.authority, creator.state, s.limits,
                               step.argumentsValid, step.run, s.now + step.wait, s.now + step.wait + step.check);
            && reply.value.run in s.tables.records
            && Replay(s.tables, creator.request, reply.value.run).Ok?
            && reply.value.tables == Replay(s.tables, creator.request, reply.value.run).value
  {
    hide Replay, HistoryError;
  }

  lemma CreatedState(s: System, s': System, creator: Creator, id: Id, run: Run)
    requires Inv(s) && id !in s.issued && s.now <= s'.now
    requires creator in s.creators.Values
    requires Sound(run) && !Fenced(run.events) && run.createdAt == s'.now
    requires run.job.executionEpoch == creator.state.epoch
    requires IdempotencyHistoryComplete(s.tables, creator.keyrings.idempotency)
    requires FindRecord(s.tables, creator.request.workspace, creator.request.actor, creator.request.rawKey,
                        creator.keyrings.idempotency).None?
    requires run.workspace == creator.request.workspace && run.actor == creator.request.actor
    requires run.pins.capability == creator.request.claims.capability
    requires run.pins.capabilityVersion == creator.request.capabilityVersion
    requires run.pins.connection == creator.request.claims.connection
    requires run.pins.connectionVersion == creator.request.claims.connectionVersion
    requires creator.request.claims.nonce !in s.tables.nonces
    requires creator.request.claims.expiresAt > s'.now
    requires creator.keyrings.Valid(s.limits)
    requires s' == s.(now := s'.now, creators := s'.creators,
                      tables := InsertRun(s.tables, creator.request, creator.keyrings.idempotency, id, run),
                      issued := s.issued + {id},
                      history := s.history + [RunCreated(id, creator.request.claims.nonce)])
    ensures TablesFit(s') && HistoryFits(s') && LeasesFit(s')
  {
    hide Sound, Fenced, ReplayProtected, FindRecord, IdempotencyHistoryComplete, HistoryFits, LeasesFit;
    var c :| c in s.creators && s.creators[c] == creator;
    CreatedTables(s, s', creator, id, run);
    CreatedHistory(s, s', id, creator.request.claims.nonce, run);
    LeasesIgnore(s, s');
  }

  lemma CreatedStep(s: System, step: Step)
    requires Inv(s) && step.FinishCreate? && step.creator in s.creators && step.run !in s.issued
    requires var creator := s.creators[step.creator];
             var reply := Admit(s.tables, creator.request, creator.keyrings, step.authority, creator.state, s.limits,
                                step.argumentsValid, step.run, s.now + step.wait, s.now + step.wait + step.check);
             reply.Ok? && reply.value.Created?
    ensures Inv(Apply(s, step))
  {
    hide Admit, TablesFit, LeasesFit, HistoryFits, Sound, Fenced, FindRecord, IdempotencyHistoryComplete, InsertRun,
         AdmissionTarget;
    var lockedAt := s.now + step.wait;
    var now := lockedAt + step.check;
    var creator := s.creators[step.creator];
    var run := AdmittedFacts(s, creator, step.authority, step.argumentsValid, step.run, lockedAt, now);
    var s' := Apply(s, step);
    CreatedState(s, s', creator, step.run, run);
    assert s'.tables.epoch == s.tables.epoch && s'.tables.quarantined == s.tables.quarantined by {
      InsertKeepsState(s.tables, creator.request, creator.keyrings.idempotency, step.run, run);
    }
  }

  lemma InsertKeepsState(t: Tables, request: CreateRequest, ring: seq<int>, id: Id, run: Run)
    requires ring != []
    ensures InsertRun(t, request, ring, id, run).epoch == t.epoch
    ensures InsertRun(t, request, ring, id, run).quarantined == t.quarantined
  {
  }

  // ---------- restore and deletion ----------

  lemma QuarantineSteps(s: System, step: Step)
    requires Inv(s) && (step.Enter? || step.Clear?)
    ensures Inv(Apply(s, step))
  {
    hide Sound, ReplayProtected, LicencesFit, MarksUnique, CallsFollowLicences;
    var s' := Apply(s, step);
    LicencesIgnore(s, s');
    forall i | 0 <= i < |s'.history| && s'.history[i].RunCreated?
      ensures CreationFits(s', s'.history[i].run, s'.history[i].nonce)
    {
      assert CreationFits(s, s.history[i].run, s.history[i].nonce);
    }
    forall task | task in s'.workers ensures LeaseFits(s', s'.workers[task].lease) {
      assert LeaseFits(s, s.workers[task].lease);
    }
    assert ReplayProtected(s'.tables) by { ProtectionIgnoresState(s.tables, s'.tables); }
    if step.Clear? && s'.tables != s.tables {
      forall id | id in s'.tables.runs ensures s'.tables.runs[id].status.Terminal() {
        assert id !in ActiveIds(s.tables.runs);
      }
    }
  }

  lemma ProtectionIgnoresState(t: Tables, t': Tables)
    requires ReplayProtected(t)
    requires t'.runs == t.runs && t'.records == t.records && t'.nonces == t.nonces
    ensures ReplayProtected(t')
  {
  }

  /** A deleted run was terminal for a day at least, so its token has expired. */
  lemma DeletedTokenExpired(s: System, run: Id, nonce: Id)
    requires s.limits.Valid() && run in s.tables.runs && Sound(s.tables.runs[run])
    requires CreationFits(s, run, nonce) && s.tokens[nonce].expiresAt < s.tokens[nonce].issuedAt + DAY
    requires s.tables.runs[run].terminalAt.Some?
    requires s.tables.runs[run].terminalAt.value <= Cutoff(s.limits, s.now)
    ensures s.tokens[nonce].expiresAt <= s.now
  {
    hide AttemptsInStep, LogInStep;
    assert s.limits.runRetentionDays * DAY >= DAY;
  }

  lemma DeletedCreations(s: System, s': System, ids: set<Id>)
    requires Inv(s)
    requires forall id | id in ids ::
               && id in s.tables.runs && s.tables.runs[id].terminalAt.Some?
               && s.tables.runs[id].terminalAt.value <= Cutoff(s.limits, s.now)
    requires s' == s.(tables := DeleteRuns(s.tables, ids))
    ensures CreationsFit(s')
  {
    hide Sound, LicencesFit, MarksUnique, CallsFollowLicences, ReplayProtected, LeasesFit;
    forall i | 0 <= i < |s'.history| && s'.history[i].RunCreated?
      ensures CreationFits(s', s'.history[i].run, s'.history[i].nonce)
    {
      var run, nonce := s.history[i].run, s.history[i].nonce;
      assert CreationFits(s, run, nonce);
      if run in ids {
        DeletedTokenExpired(s, run, nonce);
      }
    }
  }

  lemma DeleteStep(s: System, step: Step)
    requires Inv(s) && step.DeleteBatch?
    ensures Inv(Apply(s, step))
  {
    hide Sound, LicencesFit, MarksUnique, CallsFollowLicences, ReplayProtected, CreationsFit, LeasesFit, Deletable;
    if 0 < step.batch <= 1000 {
      var ids := Elements(Deletable(s.tables.runs, step.skipped, step.batch, Cutoff(s.limits, s.now)));
      var s' := Apply(s, step);
      DeletionKeepsProtection(s.tables, ids);
      LicencesIgnore(s, s');
      LeasesIgnore(s, s');
      DeletedCreations(s, s', ids);
    }
  }

  lemma AbandonStep(s: System, step: Step)
    requires Inv(s) && step.AbandonCreate?
    ensures Inv(Apply(s, step))
  {
    hide TablesFit, LeasesFit, HistoryFits;
    CreatorsOnly(s, Apply(s, step), s.now);
  }
}
