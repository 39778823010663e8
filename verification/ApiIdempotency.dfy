/**
  Replay protection for control-plane mutations: one retained record per idempotency key,
  looked up under every configured HMAC key version and kept for a week.
*/
module ApiIdempotency {
  import opened Common
  import opened Queries
  import opened KeyHistory

  type Time = int

  const RETENTION: Time := 7 * 24 * 60 * 60 * 1_000_000

  /** A keyed digest; the same version always means the same secret, and digests do not collide. */
  datatype Digest = Digest(version: int, value: string)

  datatype Scope = Scope(workspace: Id, actor: Id, route: string)

  datatype Record = Record(
    scope: Scope,
    keyVersion: int,
    keyDigest: Digest,
    requestDigest: Digest,
    response: string,
    expiresAt: Time)

  datatype Request = Request(scope: Scope, key: string, body: string)

  datatype Reply = Replayed(response: string) | Executed(response: string)

  datatype Failure = EmptyKeyring | HistoryIncomplete | Conflict | OperationFailed | DuplicateRecord

  function LiveVersions(records: map<Id, Record>, now: Time): set<int> {
    set id | id in records && records[id].expiresAt > now :: records[id].keyVersion
  }

  /** The record is for this key in this scope, whatever key version it was made under. */
  predicate For(record: Record, scope: Scope, key: string) {
    record.scope == scope && record.keyDigest == Digest(record.keyVersion, key)
  }

  function Matching(records: map<Id, Record>, request: Request, ring: seq<int>): set<Id> {
    set id | id in records && records[id].keyVersion in ring && For(records[id], request.scope, request.key)
  }

  /** The database returns some matching row; `preferred` settles which one. */
  function Found(records: map<Id, Record>, request: Request, ring: seq<int>, preferred: Id): (found: Option<Id>)
    ensures found.Some? ==> found.value in Matching(records, request, ring)
    ensures found.None? ==> Matching(records, request, ring) == {}
  {
    var matches := Matching(records, request, ring);
    if preferred in matches then Some(preferred)
    else if matches == {} then None
    else Some(First(matches, map id | id in records :: 0))
  }

  function NewRecord(request: Request, version: int, response: string, now: Time): Record {
    Record(request.scope, version, Digest(version, request.key), Digest(version, request.body), response, now + RETENTION)
  }

  /** A unique constraint covers scope, key version and key digest. */
  predicate Taken(records: map<Id, Record>, record: Record) {
    exists id :: id in records && records[id].scope == record.scope
      && records[id].keyVersion == record.keyVersion && records[id].keyDigest == record.keyDigest
  }

  function Execute(
    records: map<Id, Record>, request: Request, ring: seq<int>, operation: Option<string>, id: Id, now: Time
  ):
    Outcome<(map<Id, Record>, Reply), Failure>
    requires ring != []
  {
    if operation.None? then Err(OperationFailed)
    else
      var record := NewRecord(request, ring[0], operation.value, now);
      if Taken(records, record) then Err(DuplicateRecord)
      else Ok((records[id := record], Executed(operation.value)))
  }

  /** One mutation under the workspace lock; an error rolls everything back. */
  function Mutate(
    records: map<Id, Record>, request: Request, ring: seq<int>, preferred: Id, operation: Option<string>, id: Id, now: Time
  ): Outcome<(map<Id, Record>, Reply), Failure>
  {
    if ring == [] then Err(EmptyKeyring)
    else if !(LiveVersions(records, now) <= Versions(ring)) then Err(HistoryIncomplete)
    else
      match Found(records, request, ring, preferred)
      case None => Execute(records, request, ring, operation, id, now)
      case Some(existing) =>
        if records[existing].expiresAt <= now then Execute(records - {existing}, request, ring, operation, id, now)
        else if records[existing].requestDigest != Digest(records[existing].keyVersion, request.body) then Err(Conflict)
        else Ok((records, Replayed(records[existing].response)))
  }

  function Expired(records: map<Id, Record>, cutoff: Time): set<Id> {
    set id | id in records && records[id].expiresAt <= cutoff
  }

  /** One bounded batch of expired records, oldest first. */
  function Purge(records: map<Id, Record>, cutoff: Time, batch: int): Option<map<Id, Record>> {
    if !(1 <= batch <= 1000) then None
    else Some(records - Elements(TakeFirst(Expired(records, cutoff), map id | id in records :: records[id].expiresAt, batch)))
  }

  class ApiIdempotencyStore {
    var records: map<Id, Record>

    constructor ()
      ensures records == map[]
    {
      records := map[];
    }

    method IdempotentMutation(
      request: Request, ring: seq<int>, preferred: Id, operation: Option<string>, id: Id, now: Time
    )
      returns (reply: Outcome<Reply, Failure>)
      modifies this
      ensures match Mutate(old(records), request, ring, preferred, operation, id, now)
              case Err(error) => reply == Err(error) && records == old(records)
              case Ok((after, answer)) => reply == Ok(answer) && records == after
    {
      if ring == [] {
        return Err(EmptyKeyring);
      }
      var complete := KeyHistoryComplete(LiveVersions(records, now), Versions(ring));
      BoundedKeyringDecides(LiveVersions(records, now), Versions(ring), |Versions(ring)|);
      if !complete {
        return Err(HistoryIncomplete);
      }
      var existing := Found(records, request, ring, preferred);
      var before := records;
      if existing.Some? && records[existing.value].expiresAt <= now {
        records := records - {existing.value};
        existing := None;
      }
      if existing.Some? {
        var row := records[existing.value];
        if row.requestDigest != Digest(row.keyVersion, request.body) {
          return Err(Conflict);
        }
        return Ok(Replayed(row.response));
      }
      if operation.None? {
        records := before;
        return Err(OperationFailed);
      }
      var active := ring[0];
      var record := Record(request.scope, active, Digest(active, request.key), Digest(active, request.body),
                           operation.value, now + RETENTION);
      if exists other :: other in records && records[other].scope == record.scope
           && records[other].keyVersion == record.keyVersion && records[other].keyDigest == record.keyDigest
      {
        records := before;
        return Err(DuplicateRecord);
      }
      records := records[id := record];
      return Ok(Executed(operation.value));
    }

    method PurgeExpired(cutoff: Time, batch: int) returns (deleted: Option<nat>)
      modifies this
      ensures match Purge(old(records), cutoff, batch)
              case None => deleted == None && records == old(records)
              case Some(after) => deleted == Some(|old(records)| - |after|) && records == after
    {
      if !(1 <= batch <= 1000) {
        return None;
      }
      var identifiers := TakeFirst(Expired(records, cutoff), map id | id in records :: records[id].expiresAt, batch);
      ElementsCount(identifiers);
      RemovedCount(records, Elements(identifiers));
      records := records - Elements(identifiers);
      return Some(|identifiers|);
    }
  }

  lemma RemovedCount(records: map<Id, Record>, ids: set<Id>)
    requires ids <= records.Keys
    ensures |records - ids| == |records| - |ids|
  {
    assert (records - ids).Keys == records.Keys - ids;
  }

  // ---------- over time ----------

  datatype Execution = Execution(scope: Scope, key: string, body: string, response: string, at: Time)

  /** The table, the clock, the keyrings used so far and the operations that ran. */
  datatype State = State(now: Time, records: map<Id, Record>, rings: seq<seq<int>>, log: seq<Execution>)

  datatype Step =
    | Tick(elapsed: nat)
    | Handle(request: Request, ring: seq<int>, preferred: Id, operation: Option<string>, id: Id)
    | Clean(batch: int)

  function Apply(s: State, step: Step): State {
    match step
    case Tick(elapsed) => s.(now := s.now + elapsed)
    case Clean(batch) =>
      (match Purge(s.records, s.now, batch)
       case None => s
       case Some(records) => s.(records := records))
    case Handle(request, ring, preferred, operation, id) =>
      var used := s.(rings := s.rings + [ring]);
      if id in s.records then used
      else
        match Mutate(s.records, request, ring, preferred, operation, id, s.now)
        case Err(_) => used
        case Ok((records, reply)) =>
          used.(records := records,
                log := if reply.Executed? then s.log + [Execution(request.scope, request.key, request.body, reply.response, s.now)]
                       else s.log)
  }

  function Exec(start: Time, steps: seq<Step>): State
    decreases |steps|
  {
    if steps == [] then State(start, map[], [], []) else Apply(Exec(start, steps[..|steps| - 1]), steps[|steps| - 1])
  }

  /** A key version that was dropped from the keyring stays out. */
  predicate NeverBroughtBack(rings: seq<seq<int>>) {
    forall i, j, k, v | 0 <= i < j < k < |rings| && v in rings[i] && v in rings[k] :: v in rings[j]
  }

  /** Of the records for one key, at most one is under a version of the last keyring. */
  predicate OnePerKey(records: map<Id, Record>, ring: seq<int>) {
    forall a, b | a in records && b in records && a != b
      && records[a].keyVersion in ring && records[b].keyVersion in ring && records[a].scope == records[b].scope ::
      records[a].keyDigest.value != records[b].keyDigest.value
  }

  /** The record remembers this execution: its key, what was asked, what was answered, and for a week. */
  predicate Remembers(record: Record, e: Execution) {
    && For(record, e.scope, e.key)
    && record.requestDigest == Digest(record.keyVersion, e.body) && record.response == e.response
    && record.expiresAt == e.at + RETENTION
  }

  /** Every recent execution still has its record. */
  predicate Kept(records: map<Id, Record>, e: Execution) {
    exists id :: id in records && Remembers(records[id], e)
  }

  /** A record comes from an execution. */
  predicate Stems(log: seq<Execution>, record: Record) {
    exists i :: 0 <= i < |log| && Remembers(record, log[i])
  }

  predicate Spaced(log: seq<Execution>) {
    forall i, j | 0 <= i < j < |log| && log[i].scope == log[j].scope && log[i].key == log[j].key ::
      log[i].at + RETENTION <= log[j].at
  }

  predicate VersionUsed(rings: seq<seq<int>>, v: int) {
    exists i :: 0 <= i < |rings| && v in rings[i]
  }

  predicate Inv(s: State) {
    && (forall id | id in s.records ::
          VersionUsed(s.rings, s.records[id].keyVersion) && s.records[id].keyDigest.version == s.records[id].keyVersion)
    && (forall id | id in s.records :: Stems(s.log, s.records[id]))
    && (s.rings != [] ==> OnePerKey(s.records, s.rings[|s.rings| - 1]))
    && (forall i | 0 <= i < |s.log| :: s.log[i].at <= s.now)
    && (forall i | 0 <= i < |s.log| && s.log[i].at + RETENTION > s.now :: Kept(s.records, s.log[i]))
    && Spaced(s.log)
  }

  /** A new keyring that brings nothing back leaves at most one record per key in its reach. */
  lemma NextRing(s: State, ring: seq<int>)
    requires Inv(s) && NeverBroughtBack(s.rings + [ring])
    ensures OnePerKey(s.records, ring)
    ensures forall id | id in s.records :: VersionUsed(s.rings + [ring], s.records[id].keyVersion)
  {
    var rings := s.rings + [ring];
    var n := |s.rings|;
    forall id | id in s.records
      ensures VersionUsed(rings, s.records[id].keyVersion)
      ensures s.records[id].keyVersion in ring ==> s.rings != [] && s.records[id].keyVersion in s.rings[n - 1]
    {
      var v := s.records[id].keyVersion;
      var i :| 0 <= i < n && v in s.rings[i];
      assert rings[i] == s.rings[i] && rings[n] == ring && rings[n - 1] == s.rings[n - 1];
    }
  }

  /** While an unexpired record exists for a key, the lookup finds that record and no other. */
  lemma LiveRecordIsFound(records: map<Id, Record>, request: Request, ring: seq<int>, preferred: Id, now: Time, id: Id)
    requires OnePerKey(records, ring) && LiveVersions(records, now) <= Versions(ring)
    requires id in records && For(records[id], request.scope, request.key) && records[id].expiresAt > now
    ensures Found(records, request, ring, preferred) == Some(id)
  {
    assert records[id].keyVersion in LiveVersions(records, now);
    assert id in Matching(records, request, ring);
  }

  lemma HandleKeeps(s: State, step: Step)
    requires Inv(s) && step.Handle? && NeverBroughtBack(s.rings + [step.ring])
    ensures Inv(Apply(s, step))
  {
    hide Mutate, NeverBroughtBack, Found;
    NextRing(s, step.ring);
    var s' := Apply(s, step);
    if step.id !in s.records {
      var reply := Mutate(s.records, step.request, step.ring, step.preferred, step.operation, step.id, s.now);
      if reply.Ok? {
        MutateEffect(s.records, step.request, step.ring, step.preferred, step.operation, step.id, s.now);
        if reply.value.1.Executed? { ExecutedKeeps(s, s', step, reply.value.1.response); }
      }
    }
  }

  /** An executed mutation replaces at most one expired record of its key by the new one. */
  lemma MutateEffect(
    records: map<Id, Record>, request: Request, ring: seq<int>, preferred: Id, operation: Option<string>, id: Id, now: Time
  )
    requires id !in records && Mutate(records, request, ring, preferred, operation, id, now).Ok?
    ensures var (after, reply) := Mutate(records, request, ring, preferred, operation, id, now).value;
      && LiveVersions(records, now) <= Versions(ring)
      && (reply.Replayed? ==> after == records)
      && (reply.Executed? ==>
            && ring != []
            && var found := Found(records, request, ring, preferred);
               && (found.Some? ==> records[found.value].expiresAt <= now)
               && after == (if found.Some? then records - {found.value} else records)[id := NewRecord(request, ring[0], reply.response, now)])
  {
  }

  lemma ExecutedKeeps(s: State, s': State, step: Step, response: string)
    requires Inv(s) && step.Handle? && step.id !in s.records && step.ring != []
    requires OnePerKey(s.records, step.ring) && LiveVersions(s.records, s.now) <= Versions(step.ring)
    requires forall id | id in s.records :: VersionUsed(s.rings + [step.ring], s.records[id].keyVersion)
    requires var found := Found(s.records, step.request, step.ring, step.preferred);
      && (found.Some? ==> s.records[found.value].expiresAt <= s.now)
      && s'.records == (if found.Some? then s.records - {found.value} else s.records)
           [step.id := NewRecord(step.request, step.ring[0], response, s.now)]
    requires s'.now == s.now && s'.rings == s.rings + [step.ring]
    requires s'.log == s.log + [Execution(step.request.scope, step.request.key, step.request.body, response, s.now)]
    ensures Inv(s')
  {
    hide Remembers, Kept, Stems, OnePerKey, Found, LiveVersions;
    assert s'.rings[|s.rings|] == step.ring;
    NoRecentExecution(s, step);
    OnlyRecord(s, s', step, response);
    LogKept(s, s', step, response);
    RecordsStem(s, s', step, response);
  }

  /** An earlier execution of the same key is at least a week old. */
  lemma NoRecentExecution(s: State, step: Step)
    requires Inv(s) && step.Handle?
    requires OnePerKey(s.records, step.ring) && LiveVersions(s.records, s.now) <= Versions(step.ring)
    requires var found := Found(s.records, step.request, step.ring, step.preferred);
      found.Some? ==> s.records[found.value].expiresAt <= s.now
    ensures forall i | 0 <= i < |s.log| && s.log[i].scope == step.request.scope && s.log[i].key == step.request.key ::
              s.log[i].at + RETENTION <= s.now
  {
    forall i | 0 <= i < |s.log| && s.log[i].scope == step.request.scope && s.log[i].key == step.request.key
      ensures s.log[i].at + RETENTION <= s.now
    {
      if s.log[i].at + RETENTION > s.now {
        var id :| id in s.records && Remembers(s.records[id], s.log[i]);
        LiveRecordIsFound(s.records, step.request, step.ring, step.preferred, s.now, id);
      }
    }
  }

  lemma OnlyRecord(s: State, s': State, step: Step, response: string)
    requires Inv(s) && step.Handle? && step.id !in s.records && step.ring != []
    requires OnePerKey(s.records, step.ring)
    requires var found := Found(s.records, step.request, step.ring, step.preferred);
      s'.records == (if found.Some? then s.records - {found.value} else s.records)
           [step.id := NewRecord(step.request, step.ring[0], response, s.now)]
    ensures OnePerKey(s'.records, step.ring)
  {
    forall a | a in s'.records && a != step.id && s'.records[a].keyVersion in step.ring && s'.records[a].scope == step.request.scope
      ensures s'.records[a].keyDigest.value != step.request.key
    {
      var found := Found(s.records, step.request, step.ring, step.preferred);
      assert a in Matching(s.records, step.request, step.ring) <==> s.records[a].keyDigest.value == step.request.key;
    }
  }

  lemma LogKept(s: State, s': State, step: Step, response: string)
    requires Inv(s) && step.Handle? && step.id !in s.records && step.ring != []
    requires var found := Found(s.records, step.request, step.ring, step.preferred);
      && (found.Some? ==> s.records[found.value].expiresAt <= s.now)
      && s'.records == (if found.Some? then s.records - {found.value} else s.records)
           [step.id := NewRecord(step.request, step.ring[0], response, s.now)]
    requires s'.log == s.log + [Execution(step.request.scope, step.request.key, step.request.body, response, s.now)]
    ensures forall i | 0 <= i < |s'.log| && s'.log[i].at + RETENTION > s.now :: Kept(s'.records, s'.log[i])
  {
    hide Found, OnePerKey, Spaced, VersionUsed, Stems;
    forall i | 0 <= i < |s'.log| && s'.log[i].at + RETENTION > s.now ensures Kept(s'.records, s'.log[i]) {
      if i < |s.log| {
        assert Kept(s.records, s.log[i]);
        var id :| id in s.records && Remembers(s.records[id], s.log[i]);
        assert s'.records[id] == s.records[id];
      } else {
        assert Remembers(s'.records[step.id], s'.log[i]);
      }
    }
  }

  lemma RecordsStem(s: State, s': State, step: Step, response: string)
    requires Inv(s) && step.Handle? && step.id !in s.records && step.ring != []
    requires var found := Found(s.records, step.request, step.ring, step.preferred);
      s'.records == (if found.Some? then s.records - {found.value} else s.records)
           [step.id := NewRecord(step.request, step.ring[0], response, s.now)]
    requires s'.log == s.log + [Execution(step.request.scope, step.request.key, step.request.body, response, s.now)]
    ensures forall id | id in s'.records :: Stems(s'.log, s'.records[id])
  {
    forall id | id in s'.records ensures Stems(s'.log, s'.records[id]) {
      if id == step.id {
        assert Remembers(s'.records[id], s'.log[|s.log|]);
      } else {
        var i :| 0 <= i < |s.log| && Remembers(s.records[id], s.log[i]);
        assert s'.log[i] == s.log[i];
      }
    }
  }

  /** Removing expired records or waiting changes nothing about recent executions. */
  lemma ForgettingKeeps(s: State, s': State)
    requires Inv(s) && s.now <= s'.now && s'.rings == s.rings && s'.log == s.log
    requires s'.records.Keys <= s.records.Keys
    requires forall id | id in s'.records :: s'.records[id] == s.records[id]
    requires forall id | id in s.records && id !in s'.records :: s.records[id].expiresAt <= s'.now
    ensures Inv(s')
  {
    hide Stems, Remembers, VersionUsed;
    forall i | 0 <= i < |s'.log| && s'.log[i].at + RETENTION > s'.now ensures Kept(s'.records, s'.log[i]) {
      assert Kept(s.records, s.log[i]);
      var id :| id in s.records && Remembers(s.records[id], s.log[i]);
      RememberedFor(s.records[id], s.log[i]);
      assert id in s'.records;
    }
  }

  lemma RememberedFor(record: Record, e: Execution)
    requires Remembers(record, e)
    ensures record.expiresAt == e.at + RETENTION
  {
  }

  lemma CleanKeeps(s: State, step: Step)
    requires Inv(s) && step.Clean?
    ensures Inv(Apply(s, step))
  {
    if Purge(s.records, s.now, step.batch).Some? {
      var taken := TakeFirst(Expired(s.records, s.now), map id | id in s.records :: s.records[id].expiresAt, step.batch);
      assert forall id | id in Elements(taken) :: id in Expired(s.records, s.now);
    }
    ForgettingKeeps(s, Apply(s, step));
  }

  lemma RingsGrow(s: State, step: Step)
    ensures Apply(s, step).rings == if step.Handle? then s.rings + [step.ring] else s.rings
  {
  }

  lemma {:induction false} ExecKeeps(start: Time, steps: seq<Step>)
    requires NeverBroughtBack(Exec(start, steps).rings)
    ensures Inv(Exec(start, steps))
    decreases |steps|
  {
    hide Inv, Apply, NeverBroughtBack;
    if steps == [] {
      NothingYet(start);
    } else {
      var before, step := Exec(start, steps[..|steps| - 1]), steps[|steps| - 1];
      RingsGrow(before, step);
      PrefixNeverBroughtBack(before.rings, Apply(before, step).rings);
      ExecKeeps(start, steps[..|steps| - 1]);
      match step
      case Tick(_) => TickKeeps(before, step);
      case Clean(_) => CleanKeeps(before, step);
      case Handle(_, _, _, _, _) => HandleKeeps(before, step);
    }
  }

  lemma NothingYet(start: Time)
    ensures Inv(State(start, map[], [], []))
  {
  }

  lemma TickKeeps(s: State, step: Step)
    requires Inv(s) && step.Tick?
    ensures Inv(Apply(s, step))
  {
    ForgettingKeeps(s, Apply(s, step));
  }

  lemma PrefixNeverBroughtBack(rings: seq<seq<int>>, longer: seq<seq<int>>)
    requires NeverBroughtBack(longer) && |rings| <= |longer| <= |rings| + 1 && longer[..|rings|] == rings
    ensures NeverBroughtBack(rings)
  {
    assert forall i | 0 <= i < |rings| :: rings[i] == longer[i];
  }

  // ---------- the promises ----------

  /** Every version an unexpired record was made under is configured. */
  predicate Complete(records: map<Id, Record>, ring: seq<int>, now: Time) {
    forall id | id in records && records[id].expiresAt > now :: records[id].keyVersion in ring
  }

  lemma CompleteIsInclusion(records: map<Id, Record>, ring: seq<int>, now: Time)
    ensures LiveVersions(records, now) <= Versions(ring) <==> Complete(records, ring, now)
  {
    forall id | id in records && records[id].expiresAt > now ensures records[id].keyVersion in LiveVersions(records, now) {}
  }

  /**
    With keyrings that never bring a dropped version back, the operation behind a key runs at
    most once in any seven days, whatever the interleaving of repeats, rotations and cleanups.
  */
  lemma OperationRunsOnceAWeek(start: Time, steps: seq<Step>, i: nat, j: nat)
    requires NeverBroughtBack(Exec(start, steps).rings)
    requires i < j < |Exec(start, steps).log|
    requires Exec(start, steps).log[i].scope == Exec(start, steps).log[j].scope
    requires Exec(start, steps).log[i].key == Exec(start, steps).log[j].key
    ensures Exec(start, steps).log[i].at + 7 * 86_400_000_000 <= Exec(start, steps).log[j].at
  {
    hide Exec;
    ExecKeeps(start, steps);
  }

  /**
    For seven days after an operation ran, a repeat of its key is refused if a version in use is
    not configured, gets the very response of that operation if the body is the same, and
    conflicts if not.
  */
  lemma RepeatIsReplayed(
    start: Time, steps: seq<Step>, request: Request, ring: seq<int>, preferred: Id, operation: Option<string>, newId: Id, i: nat
  )
    requires ring != [] && NeverBroughtBack(Exec(start, steps).rings + [ring])
    requires i < |Exec(start, steps).log|
    requires Exec(start, steps).log[i].scope == request.scope && Exec(start, steps).log[i].key == request.key
    requires Exec(start, steps).log[i].at + 7 * 86_400_000_000 > Exec(start, steps).now
    ensures var s := Exec(start, steps);
      var reply := Mutate(s.records, request, ring, preferred, operation, newId, s.now);
      if !Complete(s.records, ring, s.now) then reply == Err(HistoryIncomplete)
      else if s.log[i].body == request.body then reply == Ok((s.records, Replayed(s.log[i].response)))
      else reply == Err(Conflict)
  {
    hide Exec, NeverBroughtBack, Found, Inv, Complete;
    var s := Exec(start, steps);
    PrefixNeverBroughtBack(s.rings, s.rings + [ring]);
    ExecKeeps(start, steps);
    NextRing(s, ring);
    CompleteIsInclusion(s.records, ring, s.now);
    var id := RecordOf(s, i);
    if LiveVersions(s.records, s.now) <= Versions(ring) {
      LiveRecordIsFound(s.records, request, ring, preferred, s.now, id);
    }
  }

  lemma RecordOf(s: State, i: nat) returns (id: Id)
    requires Inv(s) && i < |s.log| && s.log[i].at + RETENTION > s.now
    ensures id in s.records && Remembers(s.records[id], s.log[i])
  {
    assert Kept(s.records, s.log[i]);
    id :| id in s.records && Remembers(s.records[id], s.log[i]);
  }

  /**
    When no operation ran for the key in the last seven days and every version in use is
    configured, the operation runs; its failure is passed on.
  */
  lemma FreshKeyRuns(
    start: Time, steps: seq<Step>, request: Request, ring: seq<int>, preferred: Id, operation: Option<string>, newId: Id
  )
    requires ring != [] && NeverBroughtBack(Exec(start, steps).rings + [ring])
    requires Complete(Exec(start, steps).records, ring, Exec(start, steps).now)
    requires forall i | 0 <= i < |Exec(start, steps).log|
               && Exec(start, steps).log[i].scope == request.scope && Exec(start, steps).log[i].key == request.key ::
               Exec(start, steps).log[i].at + 7 * 86_400_000_000 <= Exec(start, steps).now
    ensures var s := Exec(start, steps);
      var reply := Mutate(s.records, request, ring, preferred, operation, newId, s.now);
      if operation.None? then reply == Err(OperationFailed)
      else reply.Ok? && reply.value.1 == Executed(operation.value)
  {
    hide Exec, NeverBroughtBack, Taken, LiveVersions, Complete;
    var s := Exec(start, steps);
    PrefixNeverBroughtBack(s.rings, s.rings + [ring]);
    ExecKeeps(start, steps);
    NextRing(s, ring);
    CompleteIsInclusion(s.records, ring, s.now);
    if operation.Some? { NotTaken(s, request, ring, preferred, operation.value); }
    var found := Found(s.records, request, ring, preferred);
    if found.Some? { assert Stems(s.log, s.records[found.value]); }
  }

  /** Without the record that the lookup found, the unique constraint has nothing against a new one. */
  lemma NotTaken(s: State, request: Request, ring: seq<int>, preferred: Id, response: string)
    requires ring != [] && OnePerKey(s.records, ring)
    ensures var found := Found(s.records, request, ring, preferred);
      !Taken(if found.Some? then s.records - {found.value} else s.records, NewRecord(request, ring[0], response, s.now))
  {
    var found := Found(s.records, request, ring, preferred);
    var rest, record := if found.Some? then s.records - {found.value} else s.records, NewRecord(request, ring[0], response, s.now);
    forall id | id in rest
      ensures !(rest[id].scope == record.scope && rest[id].keyVersion == record.keyVersion && rest[id].keyDigest == record.keyDigest)
    {
      assert rest[id].keyVersion == ring[0] ==> rest[id].keyVersion in ring;
      assert id in Matching(s.records, request, ring) <==>
        s.records[id].keyVersion in ring && For(s.records[id], request.scope, request.key);
    }
  }

  /** Cleaning up removes only expired records, at most `batch` of them, the oldest first, and all when the batch suffices. */
  lemma PurgeEffect(records: map<Id, Record>, cutoff: Time, batch: int) returns (gone: set<Id>)
    ensures Purge(records, cutoff, batch).Some? <==> 1 <= batch <= 1000
    ensures 1 <= batch <= 1000 ==>
      && Purge(records, cutoff, batch).value == records - gone
      && gone <= records.Keys && |gone| <= batch
      && (forall id | id in gone :: records[id].expiresAt <= cutoff)
      && (forall id | id in records && id !in gone && records[id].expiresAt <= cutoff ::
            |gone| == batch && forall other | other in gone :: records[other].expiresAt <= records[id].expiresAt)
  {
    gone := {};
    if 1 <= batch <= 1000 {
      var key := map id | id in records :: records[id].expiresAt;
      var taken := TakeFirst(Expired(records, cutoff), key, batch);
      gone := Elements(taken);
      ElementsCount(taken);
      TakenFirst(Expired(records, cutoff), key, batch);
      forall id | id in records && id !in gone && records[id].expiresAt <= cutoff
        ensures |gone| == batch && forall other | other in gone :: records[other].expiresAt <= records[id].expiresAt
      {
        assert id in Expired(records, cutoff);
        assert forall other | other in gone :: Before(key, other, id);
      }
    }
  }

  /**
    For any table and keyring: the operation can run although an unexpired record for the key
    exists exactly when the keyring is complete, an expired record for the key is also under a
    configured version, and nothing else is recorded for the key under the active version.
  */
  lemma WhenReplayProtectionFails(
    records: map<Id, Record>, request: Request, ring: seq<int>, result: string, id: Id, now: Time
  )
    requires ring != []
    requires exists live :: live in records && For(records[live], request.scope, request.key) && records[live].expiresAt > now
    ensures (exists preferred :: RunsAgain(records, request, ring, preferred, result, id, now)) <==>
      && LiveVersions(records, now) <= Versions(ring)
      && exists stale :: StaleMatch(records, request, ring, stale, now)
  {
    hide Taken;
    if preferred :| RunsAgain(records, request, ring, preferred, result, id, now) {
      var live :| live in records && For(records[live], request.scope, request.key) && records[live].expiresAt > now;
      assert records[live].keyVersion in LiveVersions(records, now);
      assert live in Matching(records, request, ring) by { assert records[live].keyVersion in Versions(ring); }
      var found := Found(records, request, ring, preferred).value;
      TakenElsewhere(records, request, ring, found, result, now);
      assert StaleMatch(records, request, ring, found, now);
    }
    if LiveVersions(records, now) <= Versions(ring) {
      if stale :| StaleMatch(records, request, ring, stale, now) {
        assert stale in Matching(records, request, ring);
        TakenElsewhere(records, request, ring, stale, result, now);
        assert RunsAgain(records, request, ring, stale, result, id, now);
      }
    }
  }

  predicate RunsAgain(
    records: map<Id, Record>, request: Request, ring: seq<int>, preferred: Id, result: string, id: Id, now: Time
  )
  {
    var reply := Mutate(records, request, ring, preferred, Some(result), id, now);
    reply.Ok? && reply.value.1.Executed?
  }

  /** An expired record for the key, with no other one under the active version. */
  predicate StaleMatch(records: map<Id, Record>, request: Request, ring: seq<int>, stale: Id, now: Time)
    requires ring != []
  {
    && stale in records && records[stale].keyVersion in ring && For(records[stale], request.scope, request.key)
    && records[stale].expiresAt <= now
    && forall other | other in records && other != stale && For(records[other], request.scope, request.key) ::
         records[other].keyVersion != ring[0]
  }

  lemma TakenElsewhere(records: map<Id, Record>, request: Request, ring: seq<int>, stale: Id, result: string, now: Time)
    requires ring != []
    ensures Taken(records - {stale}, NewRecord(request, ring[0], result, now)) <==>
      exists other :: other in records && other != stale && For(records[other], request.scope, request.key) && records[other].keyVersion == ring[0]
  {
    var rest, record := records - {stale}, NewRecord(request, ring[0], result, now);
    if Taken(rest, record) {
      var other :| other in rest && rest[other].scope == record.scope
        && rest[other].keyVersion == record.keyVersion && rest[other].keyDigest == record.keyDigest;
      assert For(records[other], request.scope, request.key);
    }
    if other :| other in records && other != stale && For(records[other], request.scope, request.key) && records[other].keyVersion == ring[0] {
      assert other in rest;
    }
  }

  // ---------- why a dropped version must stay out ----------

  const REPEATED := Request(Scope(1, 2, "/connections"), "k", "{}")

  function FirstRecords(): map<Id, Record> { map[10 := NewRecord(REPEATED, 1, "a", 0)] }

  function SecondRecords(): map<Id, Record> { FirstRecords()[11 := NewRecord(REPEATED, 2, "b", RETENTION)] }

  lemma FirstRun()
    ensures Mutate(map[], REPEATED, [1], 0, Some("a"), 10, 0) == Ok((FirstRecords(), Executed("a")))
  {
    assert Matching(map[], REPEATED, [1]) == {};
  }

  lemma SecondRun()
    ensures Mutate(FirstRecords(), REPEATED, [2], 0, Some("b"), 11, RETENTION) == Ok((SecondRecords(), Executed("b")))
  {
    assert LiveVersions(FirstRecords(), RETENTION) == {};
    assert Matching(FirstRecords(), REPEATED, [2]) == {};
  }

  lemma ThirdRun()
    ensures var reply := Mutate(SecondRecords(), REPEATED, [1, 2], 10, Some("c"), 12, RETENTION);
      reply.Ok? && reply.value.1 == Executed("c")
  {
    var records := SecondRecords();
    assert records[11].expiresAt == RETENTION + RETENTION;
    assert LiveVersions(records, RETENTION) <= {2};
    assert 10 in Matching(records, REPEATED, [1, 2]);
    assert (records - {10}).Keys == {11};
  }

  lemma ExecNext(start: Time, steps: seq<Step>, step: Step)
    ensures Exec(start, steps + [step]) == Apply(Exec(start, steps), step)
  {
    var longer := steps + [step];
    assert longer[..|longer| - 1] == steps;
  }

  function Comeback(): seq<Step> {
    [Handle(REPEATED, [1], 0, Some("a"), 10)] + [Tick(RETENTION)]
    + [Handle(REPEATED, [2], 0, Some("b"), 11)] + [Handle(REPEATED, [1, 2], 10, Some("c"), 12)]
  }

  lemma ComebackRuns()
    ensures var s := Exec(0, Comeback());
      && s.rings == [[1], [2], [1, 2]]
      && |s.log| == 3
      && s.log[1] == Execution(REPEATED.scope, REPEATED.key, REPEATED.body, "b", RETENTION)
      && s.log[2] == Execution(REPEATED.scope, REPEATED.key, REPEATED.body, "c", RETENTION)
  {
    hide Mutate, FirstRecords, SecondRecords, Exec;
    var first, wait := Handle(REPEATED, [1], 0, Some("a"), 10), Tick(RETENTION);
    var second, third := Handle(REPEATED, [2], 0, Some("b"), 11), Handle(REPEATED, [1, 2], 10, Some("c"), 12);
    StartsEmpty();
    NewIds();
    ExecNext(0, [], first);
    FirstRun();
    ExecNext(0, [first], wait);
    ExecNext(0, [first] + [wait], second);
    SecondRun();
    ExecNext(0, [first] + [wait] + [second], third);
    ThirdRun();
    assert [] + [first] == [first];
  }

  lemma StartsEmpty()
    ensures Exec(0, []) == State(0, map[], [], [])
  {
  }

  lemma NewIds()
    ensures 11 !in FirstRecords() && 12 !in SecondRecords()
  {
  }

  /** Dropping version 1, then making it active again, lets an operation run twice in one moment. */
  lemma BringingAVersionBackBreaksReplay()
    ensures var s := Exec(0, Comeback());
      !NeverBroughtBack(s.rings) && !Spaced(s.log)
  {
    hide Exec, Comeback;
    ComebackRuns();
    var s := Exec(0, Comeback());
    assert 1 in s.rings[0] && 1 in s.rings[2] && 1 !in s.rings[1];
    assert s.log[1].at + RETENTION > s.log[2].at;
  }
}
