/** When a run is admitted and what its rows then hold, told in the fields of the rows. */
module AdmissionEffects {
  import opened Common
  import opened RegistryTypes
  import opened ExecutionTypes
  import opened RunRows
  import opened Ledger
  import opened Admission

  /** Every key version a retained row was made under is configured. */
  predicate KeysKnown(t: Tables, keyrings: Keyrings) {
    && (forall id | id in t.records ::
          t.records[id].confirmationVersion in keyrings.confirmation && t.records[id].version in keyrings.idempotency)
    && (forall nonce | nonce in t.nonces :: t.nonces[nonce].keyVersion in keyrings.confirmation)
  }

  /** A retained record protects this actor's raw key under a configured version. */
  predicate KeyTaken(t: Tables, request: CreateRequest, keyrings: Keyrings) {
    exists id :: id in t.records
      && t.records[id].workspace == request.workspace && t.records[id].actor == request.actor
      && t.records[id].version in keyrings.idempotency
      && t.records[id].keyMac == KeyMac(t.records[id].version, request.workspace, request.actor, request.rawKey)
  }

  /** The token was issued for exactly this request, not in the future. */
  predicate TokenFits(request: CreateRequest, keyrings: Keyrings, now: Time) {
    && request.claims.keyVersion in keyrings.confirmation
    && request.claims.workspace == request.workspace && request.claims.actor == request.actor
    && request.claims.capabilityVersion == request.capabilityVersion
    && request.claims.argumentDigest == request.argumentDigest
    && request.claims.issuedAt <= now && request.claims.issuedAt < request.claims.expiresAt
  }

  /** Two requests are the same for replay exactly when all these fields agree. */
  lemma CanonicalFields(a: CreateRequest, b: CreateRequest)
    ensures CanonicalOf(a) == CanonicalOf(b) <==>
      && a.claims.capability == b.claims.capability && a.capabilityVersion == b.capabilityVersion
      && a.claims.connection == b.claims.connection && a.claims.connectionVersion == b.claims.connectionVersion
      && a.argumentDigest == b.argumentDigest && a.deadline == b.deadline
  {
  }

  /** The unlocked part of creation asks for the lock exactly for a fitting token and an unused key. */
  lemma ProbeEffect(t: Tables, request: CreateRequest, keyrings: Keyrings, now: Time)
    ensures Probe(t, request, keyrings, now) == Ok(MustLock) <==>
      KeysKnown(t, keyrings) && TokenFits(request, keyrings, now) && !KeyTaken(t, request, keyrings)
  {
    FoundIsTaken(t, request, keyrings);
    HistoryIsKnown(t, keyrings);
  }

  lemma FoundIsTaken(t: Tables, request: CreateRequest, keyrings: Keyrings)
    ensures FindRecord(t, request.workspace, request.actor, request.rawKey, keyrings.idempotency).Some?
       <==> KeyTaken(t, request, keyrings)
  {
    var matches := MatchingRecords(t, request.workspace, request.actor, request.rawKey, keyrings.idempotency);
    if KeyTaken(t, request, keyrings) {
      var id :| id in t.records
        && t.records[id].workspace == request.workspace && t.records[id].actor == request.actor
        && t.records[id].version in keyrings.idempotency
        && t.records[id].keyMac == KeyMac(t.records[id].version, request.workspace, request.actor, request.rawKey);
      assert id in matches;
    }
    if id :| id in matches { assert KeyTaken(t, request, keyrings); }
  }

  lemma HistoryIsKnown(t: Tables, keyrings: Keyrings)
    ensures HistoryError(t, keyrings).None? <==> KeysKnown(t, keyrings)
  {
  }

  /** A replay writes nothing but, the first time, that this token was spent on the run. */
  lemma ReplayEffect(t: Tables, request: CreateRequest, found: Id)
    requires found in t.records && Replay(t, request, found).Ok?
    ensures Replay(t, request, found).value ==
      t.(nonces := if request.claims.nonce in t.nonces then t.nonces
                   else t.nonces[request.claims.nonce := NonceRow(found, request.claims.keyVersion, request.claims.expiresAt)])
  {
  }

  /** The version may be invoked now: enabled, observed, supported, and bound to the active connection. */
  predicate Invocable(authority: Authority, version: Id) {
    && version in authority.versions
    && var row := authority.versions[version];
       && row.capability in authority.capabilities && row.connection in authority.connections
       && row.supported && row.protocol == "2025-06-18"
       && authority.Observed(row.connection, row.connectionVersion, version)
       && var capability, connection := authority.capabilities[row.capability], authority.connections[row.connection];
          && capability.status == Enabled && capability.enabled == Some(version) && capability.pending.None?
          && connection.lifecycle == Active && connection.pending.None?
          && connection.verified == Some(row.connectionVersion)
  }

  /** The token was issued for the version as it is bound. */
  predicate NamesLineage(authority: Authority, claims: Claims, version: Id) {
    && version in authority.versions
    && var row := authority.versions[version];
       && row.capability == claims.capability && row.connection == claims.connection
       && row.connectionVersion == claims.connectionVersion
  }

  predicate Admissible(authority: Authority, claims: Claims, version: Id) {
    Invocable(authority, version) && NamesLineage(authority, claims, version)
  }

  function PinsOf(authority: Authority, claims: Claims, version: Id): Pins
    requires Admissible(authority, claims, version)
  {
    Pins(claims.capability, version, claims.connection, claims.connectionVersion,
         authority.connections[claims.connection].controlEpoch, authority.capabilities[claims.capability].statusEpoch, "2025-06-18")
  }

  lemma TargetIsAdmissible(authority: Authority, claims: Claims, version: Id)
    ensures Invocable(authority, version) <==> AdmissionTarget(authority, version).Some?
    ensures Invocable(authority, version) ==>
      (NamesLineage(authority, claims, version) <==>
         var pins := AdmissionTarget(authority, version).value;
         && claims.capability == pins.capability && claims.connection == pins.connection
         && claims.connectionVersion == pins.connectionVersion)
    ensures Admissible(authority, claims, version) ==>
      AdmissionTarget(authority, version) == Some(PinsOf(authority, claims, version))
  {
  }

  /** A requested deadline lies ahead, and no further than the longest run. */
  predicate InTime(deadline: Option<Time>, limits: Limits, now: Time) {
    deadline.Some? ==> now < deadline.value <= now + limits.maxRunSeconds * 1_000_000
  }

  lemma DeadlineIsInTime(requested: Option<Time>, limits: Limits, now: Time)
    ensures AdmissionDeadline(requested, limits, now).Some? <==> InTime(requested, limits, now)
    ensures InTime(requested, limits, now) ==>
      AdmissionDeadline(requested, limits, now).value
        == if requested.Some? then requested.value else now + limits.maxRunSeconds * 1_000_000
  {
  }

  function ActiveCount(t: Tables, workspace: Id): nat {
    |set id | id in t.runs && t.runs[id].workspace == workspace && !t.runs[id].status.Terminal()|
  }

  /** The rows of a fresh run: queued, due at once, with its first event, and its key and token written down. */
  predicate AdmittedAs(
    t: Tables, after: Tables, request: CreateRequest, keyrings: Keyrings, authority: Authority, epoch: nat,
    limits: Limits, id: Id, now: Time
  )
    requires Admissible(authority, request.claims, request.capabilityVersion) && keyrings.idempotency != []
  {
    && after.epoch == t.epoch && after.quarantined == t.quarantined
    && id in after.runs && after.runs == t.runs[id := after.runs[id]]
    && after.records == t.records[id :=
         Record(request.workspace, request.actor, request.claims.keyVersion, keyrings.idempotency[0],
                KeyMac(keyrings.idempotency[0], request.workspace, request.actor, request.rawKey),
                RequestMac(keyrings.idempotency[0], CanonicalOf(request)))]
    && after.nonces == t.nonces[request.claims.nonce := NonceRow(id, request.claims.keyVersion, request.claims.expiresAt)]
    && var run := after.runs[id];
       && run.workspace == request.workspace && run.actor == request.actor
       && run.pins == PinsOf(authority, request.claims, request.capabilityVersion)
       && run.status == Queued && run.code == None && run.attempts == []
       && run.events == [Event(1, Admitted, Queued, None, now)]
       && run.argumentsKept && !run.cancellationRequested && run.terminalAt == None
       && run.createdAt == now && run.updatedAt == now
       && KeptFor(run.argumentsExpireAt, limits, now)
       && EndsBy(run.deadline, request.deadline, limits, now)
       && run.job == Job(epoch, JobQueued, None, 0, None, now, run.deadline, now, None)
  }

  predicate KeptFor(until: Time, limits: Limits, now: Time) {
    until == now + limits.argumentRetentionDays * 86_400_000_000
  }

  predicate EndsBy(deadline: Time, requested: Option<Time>, limits: Limits, now: Time) {
    deadline == if requested.Some? then requested.value else now + limits.maxRunSeconds * 1_000_000
  }

  /**
    Behind the lock a run is created exactly when all key versions are known, the key and the
    token are unused, the token and the deadline are good at both clock readings, the version may
    be invoked, the arguments are valid, dispatch is not quarantined and the workspace has room.
  */
  lemma AdmitEffect(
    t: Tables, request: CreateRequest, keyrings: Keyrings, authority: Authority, state: StateRead,
    limits: Limits, argumentsValid: bool, id: Id, lockedAt: Time, now: Time
  )
    requires keyrings.Valid(limits)
    ensures var reply := Admit(t, request, keyrings, authority, state, limits, argumentsValid, id, lockedAt, now);
      (reply.Ok? && reply.value.Created?) <==>
        && KeysKnown(t, keyrings) && !KeyTaken(t, request, keyrings)
        && request.claims.nonce !in t.nonces
        && request.claims.expiresAt > lockedAt && request.claims.expiresAt > now
        && InTime(request.deadline, limits, lockedAt) && InTime(request.deadline, limits, now)
        && Admissible(authority, request.claims, request.capabilityVersion)
        && argumentsValid && !state.quarantined
        && ActiveCount(t, request.workspace) < limits.maxActiveRuns
    ensures var reply := Admit(t, request, keyrings, authority, state, limits, argumentsValid, id, lockedAt, now);
      reply.Ok? && reply.value.Created? ==>
        && Admissible(authority, request.claims, request.capabilityVersion)
        && reply.value.run == id
        && AdmittedAs(t, reply.value.tables, request, keyrings, authority, state.epoch, limits, id, now)
  {
    hide AdmissionTarget, AdmissionDeadline, FindRecord, HistoryError, Invocable, NamesLineage, InTime, KeyTaken, KeysKnown, PinsOf,
         AdmittedAs, NewRun, InsertRun, Replay;
    FoundIsTaken(t, request, keyrings);
    HistoryIsKnown(t, keyrings);
    TargetIsAdmissible(authority, request.claims, request.capabilityVersion);
    DeadlineIsInTime(request.deadline, limits, lockedAt);
    DeadlineIsInTime(request.deadline, limits, now);
    SameCount(t, request.workspace);
    if Admissible(authority, request.claims, request.capabilityVersion) && InTime(request.deadline, limits, now) {
      FreshRows(t, request, keyrings, authority, state.epoch, limits, id, now);
    }
  }

  /** Why a creation behind the lock is refused, in the order of the checks, for a key nobody used. */
  lemma AdmitRefusals(
    t: Tables, request: CreateRequest, keyrings: Keyrings, authority: Authority, state: StateRead,
    limits: Limits, argumentsValid: bool, id: Id, lockedAt: Time, now: Time
  )
    requires keyrings.Valid(limits) && KeysKnown(t, keyrings) && !KeyTaken(t, request, keyrings)
    ensures var reply := Admit(t, request, keyrings, authority, state, limits, argumentsValid, id, lockedAt, now);
      if request.claims.expiresAt <= lockedAt then reply == Err(ConfirmationExpired)
      else if request.claims.nonce in t.nonces then reply == Err(ConfirmationReplayed)
      else if !InTime(request.deadline, limits, lockedAt) then reply == Err(InvalidArguments)
      else if !Invocable(authority, request.capabilityVersion) then reply == Err(CapabilityUnavailable)
      else if !NamesLineage(authority, request.claims, request.capabilityVersion) then reply == Err(InvalidConfirmation)
      else if !argumentsValid then reply == Err(InvalidArguments)
      else if request.claims.expiresAt <= now then reply == Err(ConfirmationExpired)
      else if !InTime(request.deadline, limits, now) then reply == Err(InvalidArguments)
      else if state.quarantined then reply == Err(DispatchQuarantined)
      else if ActiveCount(t, request.workspace) >= limits.maxActiveRuns then reply == Err(ActiveRunLimit)
      else reply.Ok? && reply.value.Created?
  {
    hide AdmissionTarget, AdmissionDeadline, FindRecord, HistoryError, Invocable, NamesLineage, InTime, KeyTaken, KeysKnown, PinsOf,
         NewRun, InsertRun, Replay;
    FoundIsTaken(t, request, keyrings);
    HistoryIsKnown(t, keyrings);
    TargetIsAdmissible(authority, request.claims, request.capabilityVersion);
    DeadlineIsInTime(request.deadline, limits, lockedAt);
    DeadlineIsInTime(request.deadline, limits, now);
    SameCount(t, request.workspace);
  }

  /** An unknown key version refuses every creation before anything else; confirmation versions are looked at first. */
  lemma UnknownKeysRefuse(
    t: Tables, request: CreateRequest, keyrings: Keyrings, authority: Authority, state: StateRead,
    limits: Limits, argumentsValid: bool, id: Id, lockedAt: Time, now: Time
  )
    requires keyrings.Valid(limits) && !KeysKnown(t, keyrings)
    ensures var error :=
        if (exists run :: run in t.records && t.records[run].confirmationVersion !in keyrings.confirmation)
           || (exists nonce :: nonce in t.nonces && t.nonces[nonce].keyVersion !in keyrings.confirmation)
        then ConfirmationHistoryIncomplete else IdempotencyHistoryIncomplete;
      && Probe(t, request, keyrings, now) == Err(error)
      && Admit(t, request, keyrings, authority, state, limits, argumentsValid, id, lockedAt, now) == Err(error)
  {
    hide FindRecord, AdmissionTarget, AdmissionDeadline, NewRun, InsertRun, Replay;
  }

  lemma SameCount(t: Tables, workspace: Id)
    ensures |ActiveIn(t.runs, workspace)| == ActiveCount(t, workspace)
  {
    assert ActiveIn(t.runs, workspace) == set id | id in t.runs && t.runs[id].workspace == workspace && !t.runs[id].status.Terminal();
  }

  lemma FreshRows(
    t: Tables, request: CreateRequest, keyrings: Keyrings, authority: Authority, epoch: nat, limits: Limits, id: Id, now: Time
  )
    requires Admissible(authority, request.claims, request.capabilityVersion) && keyrings.Valid(limits)
    requires InTime(request.deadline, limits, now)
    ensures var pins := PinsOf(authority, request.claims, request.capabilityVersion);
      var deadline := AdmissionDeadline(request.deadline, limits, now);
      && deadline.Some?
      && AdmittedAs(t, InsertRun(t, request, keyrings.idempotency, id, NewRun(request, pins, epoch, limits, deadline.value, now)),
                    request, keyrings, authority, epoch, limits, id, now)
  {
    hide Invocable, NamesLineage, PinsOf;
    DeadlineIsInTime(request.deadline, limits, now);
  }
}
