/** What every connection, refresh-job and decision transaction keeps. */
module RegistryInvariant {
  import opened Common
  import opened Queries
  import opened RegistryTypes
  import opened Registry

  type Connections = map<Id, Connection>
  type Capabilities = map<Id, Capability>
  type Versions = map<Id, ToolVersion>
  type Snapshots = map<Id, Snapshot>
  type Jobs = map<Id, RefreshJob>

  // ---------- the invariant, table by table ----------

  predicate IdsUsed(t: Tables) {
    && (forall id | id in t.connections :: id < t.nextId)
    && (forall id | id in t.capabilities :: id < t.nextId)
    && (forall id | id in t.versions :: id < t.nextId)
    && (forall id | id in t.snapshots :: id < t.nextId)
    && (forall id | id in t.jobs :: id < t.nextId)
  }

  /** A capability's pointers name its own versions, and its status fits them. */
  predicate Shape(row: Capability, id: Id, versions: Versions) {
    && (row.enabled.Some? ==> row.enabled.value in versions && versions[row.enabled.value].capability == id)
    && (row.pending.Some? ==> row.pending.value in versions && versions[row.pending.value].capability == id)
    && (row.pending.Some? ==> row.pending != row.enabled)
    && row.Decision().Some?
    && (row.status == Enabled ==> row.enabled.Some? && row.pending.None?)
    && (row.status == PendingReview ==> row.pending.Some?)
  }

  predicate ShapesFit(capabilities: Capabilities, versions: Versions, connections: set<Id>) {
    forall id | id in capabilities :: capabilities[id].connection in connections && Shape(capabilities[id], id, versions)
  }

  predicate VersionsFit(versions: Versions, capabilities: Capabilities) {
    forall id | id in versions ::
      && versions[id].capability in capabilities
      && versions[id].connection == capabilities[versions[id].capability].connection
  }

  predicate IdentitiesUnique(capabilities: Capabilities) {
    forall a, b | a in capabilities && b in capabilities && a != b ::
      capabilities[a].connection != capabilities[b].connection || capabilities[a].identity != capabilities[b].identity
  }

  /** The versions of the connection's current snapshot. */
  function Members(connections: Connections, snapshots: Snapshots, connection: Id): set<Id> {
    if connection in connections && connections[connection].snapshot.Some?
       && connections[connection].snapshot.value in snapshots
    then snapshots[connections[connection].snapshot.value].members
    else {}
  }

  /** The status of a capability agrees with its connection's current snapshot. */
  predicate Projected(row: Capability, id: Id, members: set<Id>, versions: Versions) {
    && (row.status in {Enabled, PendingReview} ==> row.Decision().Some? && row.Decision().value in members)
    && (row.status == Unavailable ==> forall v | v in members :: v in versions && versions[v].capability != id)
  }

  predicate ProjectionsFit(
    capabilities: Capabilities, versions: Versions, connections: Connections, snapshots: Snapshots
  )
  {
    forall id | id in capabilities ::
      Projected(capabilities[id], id, Members(connections, snapshots, capabilities[id].connection), versions)
  }

  predicate ConnectionFits(row: Connection, id: Id, snapshots: Snapshots, nextId: Id) {
    && row.Target().Some?
    && (row.pending.Some? ==> row.pending.value < nextId)
    && (row.verified.Some? ==> row.verified.value < nextId)
    && (row.pending.Some? ==> row.pending != row.verified && row.lifecycle != Active)
    && (row.allocatedEpoch.Some? <==> row.allocatedTarget.Some?)
    && (row.allocatedEpoch.Some? ==>
          && row.allocatedEpoch == Some(row.controlEpoch)
          && row.allocatedTarget == row.Target()
          && row.lifecycle != Retired
          && (row.pending.Some? ==> row.lifecycle == Verifying))
    && (row.snapshot.Some? <==> row.verified.Some?)
    && (row.snapshot.Some? ==>
          && row.snapshot.value in snapshots
          && snapshots[row.snapshot.value].connection == id
          && Some(snapshots[row.snapshot.value].connectionVersion) == row.verified)
  }

  predicate ConnectionsFit(connections: Connections, snapshots: Snapshots, nextId: Id) {
    forall id | id in connections :: ConnectionFits(connections[id], id, snapshots, nextId)
  }

  predicate JobFits(job: RefreshJob, connections: Connections) {
    && job.connection in connections
    && var row := connections[job.connection];
       && job.generation <= row.generation
       && (job.Outstanding() ==>
             && job.generation == row.generation
             && row.allocatedEpoch == Some(job.controlEpoch)
             && row.allocatedTarget == Some(job.connectionVersion))
  }

  predicate HasJob(jobs: Jobs, connection: Id) {
    exists id :: id in jobs && jobs[id].connection == connection && jobs[id].Outstanding()
  }

  predicate JobsUnique(jobs: Jobs) {
    forall a, b | a in jobs && b in jobs && a != b && jobs[a].connection == jobs[b].connection ::
      jobs[a].generation != jobs[b].generation
  }

  predicate JobsFit(jobs: Jobs, connections: Connections) {
    && (forall id | id in jobs :: JobFits(jobs[id], connections))
    && JobsUnique(jobs)
    && (forall c | c in connections && connections[c].allocatedEpoch.Some? :: HasJob(jobs, c))
  }

  predicate SnapshotFits(snapshot: Snapshot, connections: Connections, snapshots: Snapshots, versions: Versions) {
    && snapshot.connection in connections
    && var row := connections[snapshot.connection];
       && snapshot.generation <= row.generation
       && (row.allocatedEpoch.Some? ==> snapshot.generation < row.generation)
       && row.snapshot.Some? && row.snapshot.value in snapshots
       && snapshot.generation <= snapshots[row.snapshot.value].generation
       && (forall v | v in snapshot.members ::
             && v in versions
             && versions[v].connection == snapshot.connection
             && versions[v].connectionVersion == snapshot.connectionVersion)
  }

  predicate SnapshotsUnique(snapshots: Snapshots) {
    forall a, b | a in snapshots && b in snapshots && a != b && snapshots[a].connection == snapshots[b].connection ::
      snapshots[a].generation != snapshots[b].generation
  }

  predicate SnapshotsFit(snapshots: Snapshots, connections: Connections, versions: Versions) {
    forall id | id in snapshots :: SnapshotFits(snapshots[id], connections, snapshots, versions)
  }

  predicate Inv(t: Tables) {
    && IdsUsed(t)
    && ShapesFit(t.capabilities, t.versions, t.connections.Keys)
    && VersionsFit(t.versions, t.capabilities)
    && IdentitiesUnique(t.capabilities)
    && ProjectionsFit(t.capabilities, t.versions, t.connections, t.snapshots)
    && ConnectionsFit(t.connections, t.snapshots, t.nextId)
    && JobsFit(t.jobs, t.connections)
    && SnapshotsFit(t.snapshots, t.connections, t.versions)
    && SnapshotsUnique(t.snapshots)
  }

  // ---------- changes to one connection ----------

  lemma ConnectionsFrame(
    connections: Connections, snapshots: Snapshots, nextId: Id, id: Id, row: Connection, nextId': Id
  )
    requires ConnectionsFit(connections, snapshots, nextId) && nextId <= nextId'
    requires ConnectionFits(row, id, snapshots, nextId')
    ensures ConnectionsFit(connections[id := row], snapshots, nextId')
  {
    var changed := connections[id := row];
    forall c | c in changed ensures ConnectionFits(changed[c], c, snapshots, nextId') {
      if c != id { assert ConnectionFits(connections[c], c, snapshots, nextId); }
    }
  }

  lemma SnapshotsFrame(snapshots: Snapshots, connections: Connections, versions: Versions, id: Id, row: Connection)
    requires SnapshotsFit(snapshots, connections, versions)
    requires id in connections ==> row.snapshot == connections[id].snapshot && connections[id].generation <= row.generation
    requires row.allocatedEpoch.Some? ==>
               forall s | s in snapshots && snapshots[s].connection == id :: snapshots[s].generation < row.generation
    ensures SnapshotsFit(snapshots, connections[id := row], versions)
  {
    forall s | s in snapshots ensures SnapshotFits(snapshots[s], connections[id := row], snapshots, versions) {
      assert SnapshotFits(snapshots[s], connections, snapshots, versions);
    }
  }

  lemma ProjectionsFrame(
    capabilities: Capabilities, versions: Versions, connections: Connections, snapshots: Snapshots, id: Id, row: Connection
  )
    requires ProjectionsFit(capabilities, versions, connections, snapshots)
    requires row.snapshot == if id in connections then connections[id].snapshot else None
    ensures ProjectionsFit(capabilities, versions, connections[id := row], snapshots)
  {
    forall c | c in capabilities
      ensures Projected(capabilities[c], c, Members(connections[id := row], snapshots, capabilities[c].connection), versions)
    {
      assert Members(connections[id := row], snapshots, capabilities[c].connection)
          == Members(connections, snapshots, capabilities[c].connection);
    }
  }

  /** A connection row replaced without touching its snapshot or losing an allocation's jobs. */
  lemma ConnectionChangeKeeps(t: Tables, t': Tables, id: Id, row: Connection)
    requires Inv(t) && id in t.connections
    requires row.snapshot == t.connections[id].snapshot && t.connections[id].generation <= row.generation
    requires t' == t.(connections := t.connections[id := row], jobs := t'.jobs, nextId := t'.nextId)
    requires t.nextId <= t'.nextId && (forall j | j in t'.jobs :: j < t'.nextId)
    requires row.allocatedEpoch.Some? ==> forall s | s in t.snapshots && t.snapshots[s].connection == id ::
               t.snapshots[s].generation < row.generation
    requires ConnectionFits(row, id, t.snapshots, t'.nextId)
    requires JobsFit(t'.jobs, t'.connections)
    ensures Inv(t')
  {
    hide ProjectionsFit, SnapshotsFit, ConnectionsFit, JobsFit, ShapesFit, VersionsFit, IdentitiesUnique,
         SnapshotsUnique, ConnectionFits;
    assert t'.connections.Keys == t.connections.Keys;
    ConnectionsFrame(t.connections, t.snapshots, t.nextId, id, row, t'.nextId);
    SnapshotsFrame(t.snapshots, t.connections, t.versions, id, row);
    ProjectionsFrame(t.capabilities, t.versions, t.connections, t.snapshots, id, row);
  }

  lemma HasJobStays(jobs: Jobs, jobs': Jobs, connection: Id)
    requires HasJob(jobs, connection)
    requires forall id | id in jobs && jobs[id].connection == connection && jobs[id].Outstanding() ::
               id in jobs' && jobs'[id].connection == connection && jobs'[id].Outstanding()
    ensures HasJob(jobs', connection)
  {
  }

  lemma ObsoletedJobsFit(jobs: Jobs, connections: Connections, id: Id, row: Connection)
    requires JobsFit(jobs, connections) && id in connections
    requires row.allocatedEpoch.None? && row.generation == connections[id].generation
    ensures JobsFit(ObsoleteJobs(jobs, id), connections[id := row])
  {
    var jobs', connections' := ObsoleteJobs(jobs, id), connections[id := row];
    forall j | j in jobs' ensures JobFits(jobs'[j], connections') {
      assert JobFits(jobs[j], connections);
    }
    forall c | c in connections' && connections'[c].allocatedEpoch.Some? ensures HasJob(jobs', c) {
      HasJobStays(jobs, jobs', c);
    }
  }

  /** No job is outstanding for a connection without allocation, so its row may change freely. */
  lemma UnallocatedJobsFit(jobs: Jobs, connections: Connections, id: Id, row: Connection)
    requires JobsFit(jobs, connections) && (id in connections ==> connections[id].allocatedEpoch.None?)
    requires row.allocatedEpoch.None? && (id in connections ==> row.generation == connections[id].generation)
    ensures JobsFit(jobs, connections[id := row])
  {
    forall j | j in jobs ensures JobFits(jobs[j], connections[id := row]) {
      assert JobFits(jobs[j], connections);
    }
  }

  lemma CreateKeeps(t: Tables)
    requires Inv(t)
    ensures Inv(CreateConnection(t))
  {
    hide ProjectionsFit, SnapshotsFit, ConnectionsFit, JobsFit, VersionsFit, IdentitiesUnique, SnapshotsUnique, Shape;
    var row := CreateConnection(t).connections[t.nextId];
    NoSnapshotYet(t);
    ConnectionsFrame(t.connections, t.snapshots, t.nextId, t.nextId, row, t.nextId + 2);
    SnapshotsFrame(t.snapshots, t.connections, t.versions, t.nextId, row);
    ProjectionsFrame(t.capabilities, t.versions, t.connections, t.snapshots, t.nextId, row);
    UnallocatedJobsFit(t.jobs, t.connections, t.nextId, row);
  }

  lemma NoSnapshotYet(t: Tables)
    requires IdsUsed(t) && SnapshotsFit(t.snapshots, t.connections, t.versions)
    ensures t.nextId !in t.connections
  {
  }

  lemma AppendKeeps(t: Tables, id: Id)
    requires Inv(t) && AppendVersion(t, id).Ok?
    ensures Inv(AppendVersion(t, id).value)
  {
    hide ProjectionsFit, SnapshotsFit, JobsFit, ShapesFit, VersionsFit, IdentitiesUnique, SnapshotsUnique;
    var t' := AppendVersion(t, id).value;
    assert ConnectionFits(t.connections[id], id, t.snapshots, t.nextId);
    ObsoletedJobsFit(t.jobs, t.connections, id, t'.connections[id]);
    ConnectionChangeKeeps(t, t', id, t'.connections[id]);
  }

  lemma DisableKeeps(t: Tables, id: Id)
    requires Inv(t) && DisableConnection(t, id).Ok?
    ensures Inv(DisableConnection(t, id).value)
  {
    hide ProjectionsFit, SnapshotsFit, JobsFit, ShapesFit, VersionsFit, IdentitiesUnique, SnapshotsUnique;
    var t' := DisableConnection(t, id).value;
    assert ConnectionFits(t.connections[id], id, t.snapshots, t.nextId);
    ObsoletedJobsFit(t.jobs, t.connections, id, t'.connections[id]);
    ConnectionChangeKeeps(t, t', id, t'.connections[id]);
  }

  /** A retired connection has no allocation, so enabling it leaves no job behind. */
  lemma EnableKeeps(t: Tables, id: Id)
    requires Inv(t) && EnableConnection(t, id).Ok?
    ensures Inv(EnableConnection(t, id).value)
  {
    hide ProjectionsFit, SnapshotsFit, JobsFit, ShapesFit, VersionsFit, IdentitiesUnique, SnapshotsUnique;
    var t' := EnableConnection(t, id).value;
    assert ConnectionFits(t.connections[id], id, t.snapshots, t.nextId);
    UnallocatedJobsFit(t.jobs, t.connections, id, t'.connections[id]);
    ConnectionChangeKeeps(t, t', id, t'.connections[id]);
  }

  lemma EnqueuedJobsFit(jobs: Jobs, connections: Connections, id: Id, row: Connection, newId: Id, job: RefreshJob)
    requires JobsFit(jobs, connections) && id in connections && newId !in jobs
    requires row == Allocated(connections[id]) && row.Target().Some?
    requires job == RefreshJob(id, row.Target().value, row.generation, row.controlEpoch, RefreshQueued, None, 0, None)
    ensures JobsFit(ObsoleteJobs(jobs, id)[newId := job], connections[id := row])
  {
    var jobs', connections' := ObsoleteJobs(jobs, id)[newId := job], connections[id := row];
    forall j | j in jobs' ensures JobFits(jobs'[j], connections') {
      if j != newId { assert JobFits(jobs[j], connections); }
    }
    forall c | c in connections' && connections'[c].allocatedEpoch.Some? ensures HasJob(jobs', c) {
      if c == id { assert jobs'[newId].Outstanding(); } else { HasJobStays(jobs, jobs', c); }
    }
    forall a | a in jobs && jobs[a].connection == id ensures jobs[a].generation < row.generation {
      assert JobFits(jobs[a], connections);
    }
    assert JobsUnique(jobs');
  }

  lemma EnqueueKeeps(t: Tables, id: Id)
    requires Inv(t) && Enqueue(t, id).Ok?
    ensures Inv(Enqueue(t, id).value)
  {
    hide ProjectionsFit, JobsFit, ShapesFit, VersionsFit, IdentitiesUnique, SnapshotsUnique;
    var t' := Enqueue(t, id).value;
    assert ConnectionFits(t.connections[id], id, t.snapshots, t.nextId);
    forall s | s in t.snapshots && t.snapshots[s].connection == id
      ensures t.snapshots[s].generation < t'.connections[id].generation
    {
      assert SnapshotFits(t.snapshots[s], t.connections, t.snapshots, t.versions);
    }
    EnqueuedJobsFit(t.jobs, t.connections, id, t'.connections[id], t.nextId, t'.jobs[t.nextId]);
    ConnectionChangeKeeps(t, t', id, t'.connections[id]);
  }

  /** A job row changed without leaving or entering the outstanding ones. */
  lemma JobChangeKeeps(t: Tables, id: Id, job: RefreshJob)
    requires Inv(t) && id in t.jobs && t.jobs[id].Outstanding() && job.Outstanding()
    requires job.connection == t.jobs[id].connection && job.connectionVersion == t.jobs[id].connectionVersion
    requires job.generation == t.jobs[id].generation && job.controlEpoch == t.jobs[id].controlEpoch
    ensures Inv(t.(jobs := t.jobs[id := job]))
  {
    hide ProjectionsFit, SnapshotsFit, ConnectionsFit, ShapesFit, VersionsFit, IdentitiesUnique, SnapshotsUnique;
    var jobs' := t.jobs[id := job];
    forall j | j in jobs' ensures JobFits(jobs'[j], t.connections) {
      assert JobFits(t.jobs[j], t.connections);
    }
    forall c | c in t.connections && t.connections[c].allocatedEpoch.Some? ensures HasJob(jobs', c) {
      HasJobStays(t.jobs, jobs', c);
    }
  }

  lemma ClaimKeeps(t: Tables, id: Id, worker: Id, duration: int, now: Time)
    requires Inv(t) && ClaimRefresh(t, id, worker, duration, now).Ok?
    ensures Inv(ClaimRefresh(t, id, worker, duration, now).value.0)
  {
    hide Inv, LeaseEligible;
    JobChangeKeeps(t, id, ClaimRefresh(t, id, worker, duration, now).value.0.jobs[id]);
  }

  lemma RenewKeeps(t: Tables, lease: RefreshLease, duration: int, now: Time)
    requires Inv(t) && RenewRefresh(t, lease, duration, now).Ok?
    ensures Inv(RenewRefresh(t, lease, duration, now).value)
  {
    hide Inv, LeaseEligible;
    JobChangeKeeps(t, lease.job, RenewRefresh(t, lease, duration, now).value.jobs[lease.job]);
  }

  /** The connection's outstanding job ends and its allocation with it. */
  lemma ClosedJobFits(jobs: Jobs, connections: Connections, job: Id, status: RefreshStatus, row: Connection)
    requires JobsFit(jobs, connections) && job in jobs && jobs[job].Outstanding()
    requires !status.RefreshQueued? && !status.RefreshLeased?
    requires jobs[job].connection in connections && row.allocatedEpoch.None?
    requires row.generation == connections[jobs[job].connection].generation
    ensures JobsFit(jobs[job := Closed(jobs[job], status)], connections[jobs[job].connection := row])
  {
    var id := jobs[job].connection;
    var jobs', connections' := jobs[job := Closed(jobs[job], status)], connections[id := row];
    assert JobFits(jobs[job], connections);
    forall j | j in jobs' ensures JobFits(jobs'[j], connections') {
      assert JobFits(jobs[j], connections);
    }
    forall c | c in connections' && connections'[c].allocatedEpoch.Some? ensures HasJob(jobs', c) {
      HasJobStays(jobs, jobs', c);
    }
  }

  lemma FailureKeeps(t: Tables, lease: RefreshLease, now: Time)
    requires Inv(t) && PublishFailure(t, lease, now).Ok?
    ensures Inv(PublishFailure(t, lease, now).value)
  {
    hide ProjectionsFit, SnapshotsFit, JobsFit, ShapesFit, VersionsFit, IdentitiesUnique, SnapshotsUnique;
    var t' := PublishFailure(t, lease, now).value;
    assert ConnectionFits(t.connections[lease.connection], lease.connection, t.snapshots, t.nextId);
    ClosedJobFits(t.jobs, t.connections, lease.job, RefreshFailed, t'.connections[lease.connection]);
    ConnectionChangeKeeps(t, t', lease.connection, t'.connections[lease.connection]);
  }

  // ---------- operator decisions ----------

  lemma DecisionKeeps(t: Tables, id: Id, row: Capability)
    requires Inv(t) && id in t.capabilities
    requires row.connection == t.capabilities[id].connection && row.identity == t.capabilities[id].identity
    requires Shape(row, id, t.versions)
    requires Projected(row, id, Members(t.connections, t.snapshots, row.connection), t.versions)
    ensures Inv(t.(capabilities := t.capabilities[id := row]))
  {
    hide SnapshotsFit, ConnectionsFit, JobsFit, SnapshotsUnique, Shape, Projected, Members;
  }

  lemma EnableCapabilityKeeps(t: Tables, id: Id, expected: Id)
    requires Inv(t) && EnableCapability(t, id, expected).Ok?
    ensures Inv(EnableCapability(t, id, expected).value)
  {
    hide SnapshotsFit, ConnectionsFit, JobsFit, SnapshotsUnique, IdentitiesUnique, VersionsFit, ProjectionsFit, IdsUsed;
    assert Shape(t.capabilities[id], id, t.versions);
    DecisionKeeps(t, id, EnableCapability(t, id, expected).value.capabilities[id]);
  }

  lemma DisableCapabilityKeeps(t: Tables, id: Id, expected: Id)
    requires Inv(t) && DisableCapability(t, id, expected).Ok?
    ensures Inv(DisableCapability(t, id, expected).value)
  {
    hide SnapshotsFit, ConnectionsFit, JobsFit, SnapshotsUnique, IdentitiesUnique, VersionsFit, ProjectionsFit, IdsUsed;
    assert Shape(t.capabilities[id], id, t.versions);
    DecisionKeeps(t, id, DisableCapability(t, id, expected).value.capabilities[id]);
  }
}
