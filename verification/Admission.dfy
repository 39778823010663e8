/**
  Run admission: the unlocked probe, the serialised re-check behind the workspace lock,
  and replay of an existing run.
*/
module Admission {
  import opened Common
  import opened Queries
  import opened RegistryTypes
  import opened ExecutionTypes
  import opened RunRows
  import opened Ledger
  import opened KeyHistory

  /** The signed content of a confirmation token. */
  datatype Claims = Claims(
    workspace: Id,
    actor: Id,
    capabilityVersion: Id,
    capability: Id,
    connection: Id,
    connectionVersion: Id,
    argumentDigest: Id,
    nonce: Id,
    keyVersion: int,
    issuedAt: Time,
    expiresAt: Time)

  datatype CreateRequest = CreateRequest(
    workspace: Id,
    actor: Id,
    capabilityVersion: Id,
    argumentDigest: Id,
    deadline: Option<Time>,
    rawKey: string,
    claims: Claims)

  /** Key versions, the active one first. A version always names the same secret. */
  datatype Keyrings = Keyrings(confirmation: seq<int>, idempotency: seq<int>)
  {
    predicate Valid(limits: Limits) {
      ValidRing(confirmation, limits.maxHistoricalKeys) && ValidRing(idempotency, limits.maxHistoricalKeys)
    }
  }

  predicate ValidRing(ring: seq<int>, maxKeys: nat) {
    0 < |ring| <= maxKeys && forall i, j | 0 <= i < j < |ring| :: ring[i] != ring[j]
  }

  /** A keyring within the bound never makes the probe loop run out of probes. */
  lemma {:induction false} RingSize(ring: seq<int>)
    ensures |Versions(ring)| <= |ring|
  {
    if ring != [] {
      RingSize(ring[..|ring| - 1]);
      assert Versions(ring) == Versions(ring[..|ring| - 1]) + {ring[|ring| - 1]};
    }
  }

  // ---------- confirmation tokens ----------

  /** Floor and ceiling to whole seconds, as the token's iat and exp are encoded. */
  function FloorSecond(t: Time): Time { t / SECOND * SECOND }

  function CeilSecond(t: Time): Time { (t + SECOND - 1) / SECOND * SECOND }

  lemma TokenWindow(now: Time, ttlSeconds: int)
    requires 1 <= ttlSeconds <= 300
    ensures FloorSecond(now) <= now < now + ttlSeconds * SECOND <= CeilSecond(now + ttlSeconds * SECOND)
    ensures CeilSecond(now + ttlSeconds * SECOND) < FloorSecond(now) + DAY
  {
  }

  // ---------- key history and lookup ----------

  predicate ConfirmationHistoryComplete(t: Tables, ring: seq<int>) {
    && (forall id | id in t.records :: t.records[id].confirmationVersion in ring)
    && (forall nonce | nonce in t.nonces :: t.nonces[nonce].keyVersion in ring)
  }

  predicate IdempotencyHistoryComplete(t: Tables, ring: seq<int>) {
    forall id | id in t.records :: t.records[id].version in ring
  }

  function HistoryError(t: Tables, keyrings: Keyrings): Option<ErrorCode> {
    if !ConfirmationHistoryComplete(t, keyrings.confirmation) then Some(ConfirmationHistoryIncomplete)
    else if !IdempotencyHistoryComplete(t, keyrings.idempotency) then Some(IdempotencyHistoryIncomplete)
    else None
  }

  /** The records whose digest of the raw key matches under a configured version. */
  function MatchingRecords(t: Tables, workspace: Id, actor: Id, rawKey: string, ring: seq<int>): set<Id> {
    set id | id in t.records
      && t.records[id].workspace == workspace
      && t.records[id].actor == actor
      && t.records[id].version in ring
      && t.records[id].keyMac == KeyMac(t.records[id].version, workspace, actor, rawKey)
  }

  function FindRecord(t: Tables, workspace: Id, actor: Id, rawKey: string, ring: seq<int>): (found: Option<Id>)
    ensures found.Some? ==> found.value in MatchingRecords(t, workspace, actor, rawKey, ring)
  {
    var matches := MatchingRecords(t, workspace, actor, rawKey, ring);
    if matches == {} then None else Some(First(matches, map id | id in t.records :: 0))
  }

  function CanonicalOf(request: CreateRequest): Canonical {
    Canonical(request.claims.capability, request.capabilityVersion, request.claims.connection,
              request.claims.connectionVersion, request.argumentDigest, request.deadline)
  }

  predicate BindingsHold(request: CreateRequest, now: Time) {
    var claims := request.claims;
    && claims.workspace == request.workspace
    && claims.actor == request.actor
    && claims.capabilityVersion == request.capabilityVersion
    && claims.argumentDigest == request.argumentDigest
    && claims.issuedAt <= now
    && claims.expiresAt > claims.issuedAt
  }

  // ---------- replay ----------

  function AddNonce(t: Tables, request: CreateRequest, id: Id): Tables {
    t.(nonces := t.nonces[request.claims.nonce :=
         NonceRow(id, request.claims.keyVersion, request.claims.expiresAt)])
  }

  function Replay(t: Tables, request: CreateRequest, found: Id): Outcome<Tables, ErrorCode>
    requires found in t.records
  {
    var claims := request.claims;
    if t.records[found].requestMac != RequestMac(t.records[found].version, CanonicalOf(request)) then
      Err(IdempotencyConflict)
    else if found !in t.runs || t.runs[found].workspace != request.workspace then
      Err(IdempotencyConflict)
    else if
      var pins := t.runs[found].pins;
      || pins.capability != claims.capability || pins.capabilityVersion != claims.capabilityVersion
      || pins.connection != claims.connection || pins.connectionVersion != claims.connectionVersion
    then Err(IdempotencyConflict)
    else if claims.nonce in t.nonces then
      if t.nonces[claims.nonce].run != found then Err(ConfirmationReplayed) else Ok(t)
    else Ok(AddNonce(t, request, found))
  }

  datatype Probed = Replayed(tables: Tables, run: Id) | MustLock

  /** The part of creation before the workspace lock. */
  function Probe(t: Tables, request: CreateRequest, keyrings: Keyrings, now: Time): Outcome<Probed, ErrorCode> {
    var history := HistoryError(t, keyrings);
    if history.Some? then Err(history.value)
    else if request.claims.keyVersion !in keyrings.confirmation then Err(InvalidConfirmation)
    else if !BindingsHold(request, now) then Err(InvalidConfirmation)
    else
      match FindRecord(t, request.workspace, request.actor, request.rawKey, keyrings.idempotency)
      case None => Ok(MustLock)
      case Some(found) =>
        match Replay(t, request, found)
        case Err(error) => Err(error)
        case Ok(after) => Ok(Replayed(after, found))
  }

  // ---------- admission ----------

  /** The lineage and epochs a run is pinned to, when its version may be invoked now. */
  function AdmissionTarget(authority: Authority, version: Id): Option<Pins> {
    if version !in authority.versions then None
    else
      var row := authority.versions[version];
      if row.capability !in authority.capabilities || row.connection !in authority.connections then None
      else
        var capability := authority.capabilities[row.capability];
        var connection := authority.connections[row.connection];
        if
          || !authority.Observed(row.connection, row.connectionVersion, version)
          || !row.supported
          || capability.status != Enabled
          || capability.enabled != Some(version)
          || capability.pending != None
          || connection.lifecycle != Active
          || connection.pending != None
          || connection.verified != Some(row.connectionVersion)
          || row.protocol != QUALIFIED_PROTOCOL_REVISION
        then None
        else
          Some(Pins(row.capability, version, row.connection, row.connectionVersion,
                    connection.controlEpoch, capability.statusEpoch, row.protocol))
  }

  function AdmissionDeadline(requested: Option<Time>, limits: Limits, now: Time): Option<Time> {
    var latest := now + limits.maxRunSeconds * SECOND;
    if requested.None? then Some(latest)
    else if requested.value <= now || requested.value > latest then None
    else requested
  }

  function ActiveIn(runs: map<Id, Run>, workspace: Id): set<Id> {
    set id | id in runs && runs[id].workspace == workspace && !runs[id].status.Terminal()
  }

  function NewRun(
    request: CreateRequest, pins: Pins, epoch: nat, limits: Limits, deadline: Time, now: Time
  ): Run {
    Run(request.workspace, request.actor, pins, Queued, None, true,
        now + limits.argumentRetentionDays * DAY, deadline, false, now, now, None,
        Job(epoch, JobQueued, None, 0, None, now, deadline, now, None),
        [],
        [Event(1, Admitted, Queued, None, now)])
  }

  function NewRecord(request: CreateRequest, ring: seq<int>): Record
    requires ring != []
  {
    Record(request.workspace, request.actor, request.claims.keyVersion, ring[0],
           KeyMac(ring[0], request.workspace, request.actor, request.rawKey),
           RequestMac(ring[0], CanonicalOf(request)))
  }

  function InsertRun(t: Tables, request: CreateRequest, ring: seq<int>, id: Id, run: Run): Tables
    requires ring != []
  {
    AddNonce(t.(runs := t.runs[id := run], records := t.records[id := NewRecord(request, ring)]), request, id)
  }

  /** The execution state row, read under a shared lock that lasts until commit. */
  datatype StateRead = StateRead(epoch: nat, quarantined: bool)

  datatype Admitted = Existing(tables: Tables, run: Id) | Created(tables: Tables, run: Id)

  /** The part of creation behind the workspace lock. */
  function Admit(
    t: Tables, request: CreateRequest, keyrings: Keyrings, authority: Authority, state: StateRead,
    limits: Limits, argumentsValid: bool, id: Id, lockedAt: Time, now: Time
  ): Outcome<Admitted, ErrorCode>
    requires keyrings.Valid(limits)
  {
    var claims := request.claims;
    var history := HistoryError(t, keyrings);
    if history.Some? then Err(history.value)
    else
      match FindRecord(t, request.workspace, request.actor, request.rawKey, keyrings.idempotency)
      case Some(found) =>
        (match Replay(t, request, found)
         case Err(error) => Err(error)
         case Ok(after) => Ok(Existing(after, found)))
      case None =>
        if claims.expiresAt <= lockedAt then Err(ConfirmationExpired)
        else if claims.nonce in t.nonces then Err(ConfirmationReplayed)
        else if AdmissionDeadline(request.deadline, limits, lockedAt).None? then Err(InvalidArguments)
        else
          match AdmissionTarget(authority, request.capabilityVersion)
          case None => Err(CapabilityUnavailable)
          case Some(pins) =>
            if
              || claims.capability != pins.capability
              || claims.connection != pins.connection
              || claims.connectionVersion != pins.connectionVersion
            then Err(InvalidConfirmation)
            else if !argumentsValid then Err(InvalidArguments)
            else if claims.expiresAt <= now then Err(ConfirmationExpired)
            else
              match AdmissionDeadline(request.deadline, limits, now)
              case None => Err(InvalidArguments)
              case Some(deadline) =>
                if state.quarantined then Err(DispatchQuarantined)
                else if |ActiveIn(t.runs, request.workspace)| >= limits.maxActiveRuns then Err(ActiveRunLimit)
                else
                  var run := NewRun(request, pins, state.epoch, limits, deadline, now);
                  Ok(Created(InsertRun(t, request, keyrings.idempotency, id, run), id))
  }

  lemma NewRunSound(request: CreateRequest, pins: Pins, epoch: nat, limits: Limits, deadline: Time, now: Time)
    ensures Sound(NewRun(request, pins, epoch, limits, deadline, now))
    ensures !Fenced(NewRun(request, pins, epoch, limits, deadline, now).events)
  {
  }

  // ---------- one retained run per idempotency key ----------

  /** Two records protect the same raw key of the same actor. */
  predicate SameKey(a: Record, b: Record) {
    && a.workspace == b.workspace && a.actor == b.actor
    && a.keyMac.KeyMac? && b.keyMac.KeyMac? && a.keyMac.rawKey == b.keyMac.rawKey
  }

  predicate RecordFits(record: Record, run: Run) {
    && record.workspace == run.workspace
    && record.actor == run.actor
    && record.keyMac.KeyMac?
    && record.keyMac == KeyMac(record.version, record.workspace, record.actor, record.keyMac.rawKey)
    && record.requestMac.RequestMac?
    && record.requestMac.version == record.version
    && record.requestMac.request.capability == run.pins.capability
    && record.requestMac.request.capabilityVersion == run.pins.capabilityVersion
    && record.requestMac.request.connection == run.pins.connection
    && record.requestMac.request.connectionVersion == run.pins.connectionVersion
  }

  ghost predicate ReplayProtected(t: Tables) {
    && t.records.Keys == t.runs.Keys
    && (forall id | id in t.runs :: RecordFits(t.records[id], t.runs[id]))
    && (forall a, b | a in t.records && b in t.records && a != b :: !SameKey(t.records[a], t.records[b]))
    && (forall nonce | nonce in t.nonces :: t.nonces[nonce].run in t.runs)
  }

  /** Under a complete key history the lookup finds the key's record whenever there is one. */
  lemma LookupIsExact(t: Tables, id: Id, workspace: Id, actor: Id, rawKey: string, ring: seq<int>)
    requires ReplayProtected(t) && IdempotencyHistoryComplete(t, ring)
    requires id in t.records
    ensures FindRecord(t, workspace, actor, rawKey, ring) == Some(id)
       <==> t.records[id].workspace == workspace && t.records[id].actor == actor
            && t.records[id].keyMac.rawKey == rawKey
  {
    var matches := MatchingRecords(t, workspace, actor, rawKey, ring);
    assert RecordFits(t.records[id], t.runs[id]);
    if t.records[id].workspace == workspace && t.records[id].actor == actor
       && t.records[id].keyMac.rawKey == rawKey
    {
      assert id in matches;
      forall other | other in matches ensures other == id {
        assert RecordFits(t.records[other], t.runs[other]);
        assert other != id ==> SameKey(t.records[other], t.records[id]);
      }
    }
  }

  /**
    A repeated key returns the retained run exactly when the request is the same and its
    token is unspent or was spent on that run; a different request always conflicts.
  */
  lemma ReplayDecides(t: Tables, request: CreateRequest, id: Id, now: Time)
    requires ReplayProtected(t) && id in t.records && BindingsHold(request, now)
    requires t.records[id].workspace == request.workspace
    ensures var nonce := request.claims.nonce;
            var same := t.records[id].requestMac.request == CanonicalOf(request);
            && (Replay(t, request, id).Ok? <==>
                  same && (nonce in t.nonces ==> t.nonces[nonce].run == id))
            && (Replay(t, request, id) == Err(IdempotencyConflict) <==> !same)
  {
    assert RecordFits(t.records[id], t.runs[id]);
  }

  lemma ReplayKeepsProtection(t: Tables, request: CreateRequest, id: Id)
    requires ReplayProtected(t) && id in t.records && Replay(t, request, id).Ok?
    ensures ReplayProtected(Replay(t, request, id).value)
  {
  }

  /** With no record found under a complete history, no retained record has the key. */
  lemma InsertKeepsProtection(t: Tables, request: CreateRequest, ring: seq<int>, id: Id, run: Run)
    requires ReplayProtected(t) && IdempotencyHistoryComplete(t, ring) && ring != []
    requires FindRecord(t, request.workspace, request.actor, request.rawKey, ring).None?
    requires id !in t.runs && run.workspace == request.workspace && run.actor == request.actor
    requires run.pins.capability == request.claims.capability
    requires run.pins.capabilityVersion == request.capabilityVersion
    requires run.pins.connection == request.claims.connection
    requires run.pins.connectionVersion == request.claims.connectionVersion
    ensures ReplayProtected(InsertRun(t, request, ring, id, run))
  {
    var after := InsertRun(t, request, ring, id, run);
    forall other | other in t.records ensures !SameKey(t.records[other], after.records[id]) {
      LookupIsExact(t, other, request.workspace, request.actor, request.rawKey, ring);
    }
    forall other | other in after.runs ensures RecordFits(after.records[other], after.runs[other]) {
      if other != id { assert RecordFits(t.records[other], t.runs[other]); }
    }
  }

  /** Changes that only move run rows forward keep the protection. */
  lemma QuietKeepsProtection(before: Tables, after: Tables)
    requires ReplayProtected(before) && QuietTables(before, after)
    ensures ReplayProtected(after)
  {
    forall id | id in after.runs ensures RecordFits(after.records[id], after.runs[id]) {
      assert RecordFits(before.records[id], before.runs[id]) && Quiet(before.runs[id], after.runs[id]);
    }
  }

  lemma DeletionKeepsProtection(t: Tables, ids: set<Id>)
    requires ReplayProtected(t)
    ensures ReplayProtected(DeleteRuns(t, ids))
  {
    var after := DeleteRuns(t, ids);
    forall id | id in after.runs ensures RecordFits(after.records[id], after.runs[id]) {
      assert RecordFits(t.records[id], t.runs[id]);
    }
  }
}
