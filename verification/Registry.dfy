/**
  The registry tables and each connection, refresh-job, publication and capability
  transaction as a function on them. New rows take the next unused identifier.
*/
module Registry {
  import opened Common
  import opened Queries
  import opened RegistryTypes

  type Time = int

  datatype RefreshJob = RefreshJob(
    connection: Id,
    connectionVersion: Id,
    generation: nat,
    controlEpoch: nat,
    status: RefreshStatus,
    owner: Option<Id>,
    leaseEpoch: nat,
    expiresAt: Option<Time>)
  {
    predicate Outstanding() { status.RefreshQueued? || status.RefreshLeased? }
  }

  datatype RefreshLease = RefreshLease(
    job: Id,
    worker: Id,
    leaseEpoch: nat,
    connection: Id,
    connectionVersion: Id,
    controlEpoch: nat,
    generation: nat)

  /** What an operator last decided about a capability. */
  datatype Decision = Undecided | Approved(version: Id) | Refused

  datatype Tables = Tables(
    nextId: Id,
    connections: map<Id, Connection>,
    capabilities: map<Id, Capability>,
    versions: map<Id, ToolVersion>,
    snapshots: map<Id, Snapshot>,
    jobs: map<Id, RefreshJob>)

  datatype Tool = Tool(identity: string, metadata: Metadata, supported: bool)

  datatype DiscoveryResult = DiscoveryResult(tools: seq<Tool>, protocol: string)
  {
    /** Discovery rejects a listing that repeats a tool identity. */
    predicate WellFormed() {
      forall i, j | 0 <= i < j < |tools| :: tools[i].identity != tools[j].identity
    }
  }

  datatype Rejection = NotFound | TransitionRejected

  // ---------- connections ----------

  function CreateConnection(t: Tables): Tables {
    t.(nextId := t.nextId + 2,
       connections := t.connections[t.nextId :=
         Connection(Verifying, Some(t.nextId + 1), None, 0, 0, None, None, None)])
  }

  function Obsoleted(job: RefreshJob): RefreshJob {
    job.(status := RefreshObsolete, owner := None, expiresAt := None)
  }

  /** Every queued or leased refresh of the connection becomes obsolete. */
  function ObsoleteJobs(jobs: map<Id, RefreshJob>, connection: Id): map<Id, RefreshJob> {
    map id | id in jobs ::
      if jobs[id].connection == connection && jobs[id].Outstanding() then Obsoleted(jobs[id]) else jobs[id]
  }

  function SetConnection(t: Tables, id: Id, row: Connection): Tables {
    t.(connections := t.connections[id := row])
  }

  function AppendVersion(t: Tables, id: Id): Outcome<Tables, Rejection> {
    if id !in t.connections then Err(NotFound)
    else if t.connections[id].lifecycle == Retired then Err(TransitionRejected)
    else
      var row := t.connections[id];
      Ok(SetConnection(t, id, row.(pending := Some(t.nextId), lifecycle := Verifying, controlEpoch := row.controlEpoch + 1,
                                   allocatedEpoch := None, allocatedTarget := None))
         .(nextId := t.nextId + 1, jobs := ObsoleteJobs(t.jobs, id)))
  }

  function DisableConnection(t: Tables, id: Id): Outcome<Tables, Rejection> {
    if id !in t.connections then Err(NotFound)
    else if t.connections[id].lifecycle == Retired then Err(TransitionRejected)
    else
      var row := t.connections[id];
      Ok(SetConnection(t, id, row.(lifecycle := Retired, controlEpoch := row.controlEpoch + 1,
                                   allocatedEpoch := None, allocatedTarget := None))
         .(jobs := ObsoleteJobs(t.jobs, id)))
  }

  function EnableConnection(t: Tables, id: Id): Outcome<Tables, Rejection> {
    if id !in t.connections then Err(NotFound)
    else if t.connections[id].lifecycle != Retired then Err(TransitionRejected)
    else
      var row := t.connections[id];
      Ok(SetConnection(t, id, row.(lifecycle := Verifying, controlEpoch := row.controlEpoch + 1,
                                   allocatedEpoch := None, allocatedTarget := None)))
  }

  function Allocated(row: Connection): Connection {
    row.(lifecycle := if row.pending.Some? && row.lifecycle == Degraded then Verifying else row.lifecycle,
         generation := row.generation + 1,
         allocatedEpoch := Some(row.controlEpoch),
         allocatedTarget := row.Target())
  }

  // ---------- refresh jobs ----------

  function Enqueue(t: Tables, id: Id): Outcome<Tables, Rejection> {
    if id !in t.connections then Err(NotFound)
    else if t.connections[id].lifecycle == Retired || t.connections[id].Target().None? then Err(TransitionRejected)
    else
      var row := Allocated(t.connections[id]);
      var job := RefreshJob(id, row.Target().value, row.generation, row.controlEpoch, RefreshQueued, None, 0, None);
      Ok(SetConnection(t, id, row)
         .(nextId := t.nextId + 1, jobs := ObsoleteJobs(t.jobs, id)[t.nextId := job]))
  }

  /** The connection still carries exactly this allocation. */
  predicate Eligible(row: Connection, version: Id, controlEpoch: nat, generation: nat) {
    && row.lifecycle in {Verifying, Active, Degraded}
    && row.Target() == Some(version)
    && row.controlEpoch == controlEpoch
    && row.generation == generation
    && row.allocatedEpoch == Some(controlEpoch)
    && row.allocatedTarget == Some(version)
  }

  predicate LeaseEligible(t: Tables, lease: RefreshLease) {
    lease.connection in t.connections
    && Eligible(t.connections[lease.connection], lease.connectionVersion, lease.controlEpoch, lease.generation)
  }

  function ClaimRefresh(
    t: Tables, id: Id, worker: Id, duration: int, now: Time
  ): Outcome<(Tables, RefreshLease), Rejection>
  {
    if duration <= 0 then Err(TransitionRejected)
    else if id !in t.jobs then Err(NotFound)
    else
      var job := t.jobs[id];
      if !(job.status.RefreshQueued?
           || (job.status.RefreshLeased? && job.expiresAt.Some? && job.expiresAt.value <= now))
      then Err(TransitionRejected)
      else
        var lease := RefreshLease(id, worker, job.leaseEpoch + 1, job.connection, job.connectionVersion,
                                  job.controlEpoch, job.generation);
        if !LeaseEligible(t, lease) then Err(TransitionRejected)
        else
          Ok((t.(jobs := t.jobs[id := job.(status := RefreshLeased, owner := Some(worker),
                                           leaseEpoch := job.leaseEpoch + 1, expiresAt := Some(now + duration))]),
              lease))
  }

  /** The job row still belongs to this lease. */
  predicate JobHeld(t: Tables, lease: RefreshLease) {
    && lease.job in t.jobs
    && var job := t.jobs[lease.job];
       && job.status.RefreshLeased?
       && job.owner == Some(lease.worker)
       && job.leaseEpoch == lease.leaseEpoch
       && job.connection == lease.connection
       && job.connectionVersion == lease.connectionVersion
       && job.controlEpoch == lease.controlEpoch
       && job.generation == lease.generation
       && job.expiresAt.Some?
  }

  predicate JobActive(t: Tables, lease: RefreshLease, now: Time) {
    JobHeld(t, lease) && t.jobs[lease.job].expiresAt.value > now
  }

  function Max(a: int, b: int): int { if a > b then a else b }

  function RenewRefresh(t: Tables, lease: RefreshLease, duration: int, now: Time): Outcome<Tables, Rejection> {
    if duration <= 0 || !JobActive(t, lease, now) || !LeaseEligible(t, lease) then Err(TransitionRejected)
    else
      var job := t.jobs[lease.job];
      Ok(t.(jobs := t.jobs[lease.job := job.(expiresAt := Some(Max(job.expiresAt.value, now + duration)))]))
  }

  /** The check made immediately before the endpoint is contacted. */
  predicate ContactAllowed(t: Tables, lease: RefreshLease, now: Time) {
    JobActive(t, lease, now) && LeaseEligible(t, lease)
  }

  function Closed(job: RefreshJob, status: RefreshStatus): RefreshJob {
    job.(status := status, owner := None, expiresAt := None)
  }

  // ---------- recording one observed tool ----------

  function CapabilityOf(t: Tables, connection: Id, identity: string): (found: Option<Id>)
    ensures found.Some? ==>
              && found.value in t.capabilities
              && t.capabilities[found.value].connection == connection
              && t.capabilities[found.value].identity == identity
    ensures found.None? ==> forall id | id in t.capabilities ::
              !(t.capabilities[id].connection == connection && t.capabilities[id].identity == identity)
  {
    var found := set id | id in t.capabilities
      && t.capabilities[id].connection == connection && t.capabilities[id].identity == identity;
    assert forall id | id in t.capabilities
      && t.capabilities[id].connection == connection && t.capabilities[id].identity == identity :: id in found;
    if found == {} then None else Some(First(found, map id | id in t.capabilities :: 0))
  }

  /** A recorded version is the one observed: same binding and same metadata. */
  predicate Matches(version: ToolVersion, capability: Id, connectionVersion: Id, protocol: string, tool: Tool) {
    && version.capability == capability
    && version.connectionVersion == connectionVersion
    && version.protocol == protocol
    && version.metadata == tool.metadata
    && version.supported == tool.supported
  }

  function MatchingIds(t: Tables, capability: Id, connectionVersion: Id, protocol: string, tool: Tool): set<Id> {
    set id | id in t.versions && Matches(t.versions[id], capability, connectionVersion, protocol, tool)
  }

  /** Ordering by descending sequence. */
  function LatestFirst(versions: map<Id, ToolVersion>): (key: map<Id, int>)
    ensures key.Keys == versions.Keys
  {
    map id | id in versions :: 0 - versions[id].sequence
  }

  /** The enabled version if it matches, else the pending one, else the latest that does. */
  function MatchingVersion(
    t: Tables, capability: Id, connectionVersion: Id, protocol: string, tool: Tool
  ): (found: Option<Id>)
    requires capability in t.capabilities
    ensures found.Some? ==> found.value in MatchingIds(t, capability, connectionVersion, protocol, tool)
    ensures found.None? ==> MatchingIds(t, capability, connectionVersion, protocol, tool) == {}
  {
    var matches := MatchingIds(t, capability, connectionVersion, protocol, tool);
    var row := t.capabilities[capability];
    if row.enabled.Some? && row.enabled.value in matches then row.enabled
    else if row.pending.Some? && row.pending.value in matches then row.pending
    else if matches == {} then None
    else Some(First(matches, LatestFirst(t.versions)))
  }

  /** How an observation of an already recorded version reconciles the capability. */
  function Reconciled(row: Capability, existing: Id): Capability {
    if row.enabled == Some(existing) && row.pending.Some? then
      row.(pending := None, status := if row.status == Disabled then Disabled else Enabled,
           statusEpoch := row.statusEpoch + 1)
    else if row.enabled == Some(existing) && row.status == Unavailable then
      row.(status := Enabled, statusEpoch := row.statusEpoch + 1)
    else if row.status == Unavailable && row.pending == Some(existing) then
      row.(status := PendingReview, statusEpoch := row.statusEpoch + 1)
    else if row.enabled != Some(existing) && row.pending != Some(existing) then
      row.(pending := Some(existing), status := if row.status == Disabled then Disabled else PendingReview,
           statusEpoch := row.statusEpoch + 1)
    else row
  }

  function Proposed(row: Capability, version: Id): Capability {
    row.(pending := Some(version), status := if row.status == Disabled then Disabled else PendingReview,
         statusEpoch := row.statusEpoch + 1)
  }

  function VersionsOf(t: Tables, capability: Id): set<Id> {
    set id | id in t.versions && t.versions[id].capability == capability
  }

  function NextSequence(t: Tables, capability: Id): nat {
    MaxSequence(t.versions, VersionsOf(t, capability)) + 1
  }

  /** `max(sequence)` over the selected versions, 0 without any. */
  function MaxSequence(versions: map<Id, ToolVersion>, ids: set<Id>): (max: nat)
    requires ids <= versions.Keys
    ensures forall id | id in ids :: versions[id].sequence <= max
  {
    if ids == {} then 0
    else
      var last := First(ids, LatestFirst(versions));
      assert forall id | id in ids :: !Before(LatestFirst(versions), id, last);
      versions[last].sequence
  }

  datatype Observation = Observation(connection: Id, connectionVersion: Id, controlEpoch: nat, generation: nat, protocol: string)

  predicate RecordingAllowed(t: Tables, o: Observation) {
    && o.connection in t.connections
    && var row := t.connections[o.connection];
       && row.lifecycle != Retired
       && row.Target() == Some(o.connectionVersion)
       && row.controlEpoch == o.controlEpoch
       && row.generation == o.generation
       && row.allocatedEpoch == Some(o.controlEpoch)
       && row.allocatedTarget == Some(o.connectionVersion)
  }

  function NewVersion(t: Tables, capability: Id, o: Observation, tool: Tool): ToolVersion {
    ToolVersion(capability, NextSequence(t, capability), o.connection, o.connectionVersion, o.protocol,
                tool.supported, tool.metadata)
  }

  /** Record one observed tool; the result names the version that was observed. */
  function Record(t: Tables, o: Observation, tool: Tool): Outcome<(Tables, Id), Rejection> {
    if o.connection !in t.connections then Err(NotFound)
    else if !RecordingAllowed(t, o) then Err(TransitionRejected)
    else
      match CapabilityOf(t, o.connection, tool.identity)
      case None =>
        var capability, version := t.nextId, t.nextId + 1;
        var row := Capability(o.connection, tool.identity, None, None, PendingReview, 0);
        Ok((t.(nextId := t.nextId + 2,
               capabilities := t.capabilities[capability := Proposed(row, version)],
               versions := t.versions[version := NewVersion(t, capability, o, tool)]),
            version))
      case Some(capability) =>
        match MatchingVersion(t, capability, o.connectionVersion, o.protocol, tool)
        case Some(existing) =>
          Ok((t.(capabilities := t.capabilities[capability := Reconciled(t.capabilities[capability], existing)]), existing))
        case None =>
          var version := t.nextId;
          Ok((t.(nextId := t.nextId + 1,
                 capabilities := t.capabilities[capability := Proposed(t.capabilities[capability], version)],
                 versions := t.versions[version := NewVersion(t, capability, o, tool)]),
              version))
  }

  // ---------- publication ----------

  /** Record every tool in order, collecting the versions that make up the snapshot. */
  function RecordAll(t: Tables, o: Observation, tools: seq<Tool>): Outcome<(Tables, set<Id>), Rejection> {
    if tools == [] then Ok((t, {}))
    else
      match RecordAll(t, o, tools[..|tools| - 1])
      case Err(error) => Err(error)
      case Ok((before, members)) =>
        match Record(before, o, tools[|tools| - 1])
        case Err(error) => Err(error)
        case Ok((after, version)) => Ok((after, members + {version}))
  }

  function Identities(tools: seq<Tool>): set<string> {
    set i | 0 <= i < |tools| :: tools[i].identity
  }

  predicate Missing(row: Capability, connection: Id, observed: set<string>) {
    row.connection == connection && row.identity !in observed && row.status != Unavailable && row.status != Disabled
  }

  function Marked(row: Capability, connection: Id, observed: set<string>): Capability {
    if Missing(row, connection, observed) then row.(status := Unavailable, statusEpoch := row.statusEpoch + 1) else row
  }

  function MarkMissing(t: Tables, connection: Id, observed: set<string>): Tables {
    t.(capabilities := map id | id in t.capabilities :: Marked(t.capabilities[id], connection, observed))
  }

  function PromotePending(t: Tables, o: Observation): Outcome<Tables, Rejection> {
    if o.connection !in t.connections then Err(NotFound)
    else
      var row := t.connections[o.connection];
      if
        || row.lifecycle != Verifying
        || row.Target() != Some(o.connectionVersion)
        || row.controlEpoch != o.controlEpoch
        || row.generation != o.generation
        || row.allocatedEpoch != Some(o.controlEpoch)
        || row.allocatedTarget != Some(o.connectionVersion)
      then Err(TransitionRejected)
      else
        Ok(SetConnection(t, o.connection,
             row.(verified := Some(o.connectionVersion), pending := None, lifecycle := Active,
                  allocatedEpoch := None, allocatedTarget := None)))
  }

  function CompleteRefresh(t: Tables, o: Observation): Outcome<Tables, Rejection> {
    if o.connection !in t.connections then Err(NotFound)
    else
      var row := t.connections[o.connection];
      if
        || row.lifecycle !in {Verifying, Active, Degraded}
        || row.pending.Some?
        || row.verified != Some(o.connectionVersion)
        || row.controlEpoch != o.controlEpoch
        || row.generation != o.generation
        || row.allocatedEpoch != Some(o.controlEpoch)
        || row.allocatedTarget != Some(o.connectionVersion)
      then Err(TransitionRejected)
      else
        Ok(SetConnection(t, o.connection, row.(lifecycle := Active, allocatedEpoch := None, allocatedTarget := None)))
  }

  function ObservationOf(lease: RefreshLease, protocol: string): Observation {
    Observation(lease.connection, lease.connectionVersion, lease.controlEpoch, lease.generation, protocol)
  }

  /** The last part of a publication: consume the allocation and switch the snapshot. */
  function Conclude(t: Tables, o: Observation, job: Id, snapshot: Id, members: set<Id>): Outcome<Tables, Rejection>
    requires o.connection in t.connections && job in t.jobs
  {
    var concluded :=
      if t.connections[o.connection].pending.Some? then PromotePending(t, o) else CompleteRefresh(t, o);
    match concluded
    case Err(error) => Err(error)
    case Ok(after) =>
      if o.connection !in after.connections || job !in after.jobs then Err(NotFound)
      else
        Ok(SetConnection(after, o.connection, after.connections[o.connection].(snapshot := Some(snapshot)))
           .(snapshots := after.snapshots[snapshot :=
               Snapshot(o.connection, o.connectionVersion, o.generation, o.controlEpoch, members)],
             jobs := after.jobs[job := Closed(after.jobs[job], RefreshSucceeded)]))
  }

  function PublishSuccess(
    t: Tables, lease: RefreshLease, result: DiscoveryResult, now: Time
  ): Outcome<Tables, Rejection>
  {
    if !JobActive(t, lease, now) || !LeaseEligible(t, lease) then Err(TransitionRejected)
    else
      var o := ObservationOf(lease, result.protocol);
      match RecordAll(t.(nextId := t.nextId + 1), o, result.tools)
      case Err(error) => Err(error)
      case Ok((recorded, members)) =>
        var marked := MarkMissing(recorded, lease.connection, Identities(result.tools));
        if lease.connection !in marked.connections || lease.job !in marked.jobs then Err(NotFound)
        else Conclude(marked, o, lease.job, t.nextId, members)
  }

  function PublishFailure(t: Tables, lease: RefreshLease, now: Time): Outcome<Tables, Rejection> {
    if !JobActive(t, lease, now) || !LeaseEligible(t, lease) then Err(TransitionRejected)
    else
      var row := t.connections[lease.connection];
      Ok(SetConnection(t, lease.connection, row.(lifecycle := Degraded, allocatedEpoch := None, allocatedTarget := None))
         .(jobs := t.jobs[lease.job := Closed(t.jobs[lease.job], RefreshFailed)]))
  }

  // ---------- operator decisions ----------

  function View(t: Tables): Authority {
    Authority({}, t.connections, t.capabilities, t.versions, t.snapshots)
  }

  function EnableCapability(t: Tables, id: Id, expected: Id): Outcome<Tables, Rejection> {
    if id !in t.capabilities then Err(NotFound)
    else
      var row := t.capabilities[id];
      if
        || row.Decision() != Some(expected)
        || row.status == Enabled
        || expected !in t.versions
        || t.versions[expected].capability != id
        || !t.versions[expected].supported
        || row.connection !in t.connections
        || !View(t).Observed(row.connection, t.versions[expected].connectionVersion, expected)
        || t.versions[expected].protocol != QUALIFIED_PROTOCOL_REVISION
        || t.connections[row.connection].lifecycle != Active
        || t.connections[row.connection].pending.Some?
        || t.connections[row.connection].verified != Some(t.versions[expected].connectionVersion)
      then Err(TransitionRejected)
      else
        Ok(t.(capabilities := t.capabilities[id :=
             row.(enabled := Some(expected), pending := None, status := Enabled, statusEpoch := row.statusEpoch + 1)]))
  }

  function DisableCapability(t: Tables, id: Id, expected: Id): Outcome<Tables, Rejection> {
    if id !in t.capabilities then Err(NotFound)
    else
      var row := t.capabilities[id];
      if row.status == Disabled || row.Decision() != Some(expected) then Err(TransitionRejected)
      else
        Ok(t.(capabilities := t.capabilities[id := row.(status := Disabled, statusEpoch := row.statusEpoch + 1)]))
  }
}
