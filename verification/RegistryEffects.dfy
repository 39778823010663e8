/**
  What each registry transaction does, told in the fields of the rows: when it is accepted, which
  rows it changes, and what they hold afterwards.
*/
module RegistryEffects {
  import opened Common
  import opened Queries
  import opened RegistryTypes
  import opened Registry
  import opened RegistryInvariant
  import opened RegistryPublication
  import opened RegistryProtocol

  /** No row but this connection's differs, apart from refresh jobs and the supply of identifiers. */
  predicate OnlyConnection(t: Tables, after: Tables, id: Id) {
    && after.capabilities == t.capabilities && after.versions == t.versions && after.snapshots == t.snapshots
    && after.connections.Keys == t.connections.Keys
    && forall other | other in t.connections && other != id :: after.connections[other] == t.connections[other]
  }

  /** The connection's queued and leased jobs are obsolete and ownerless; all other jobs are as before. */
  predicate JobsObsoleted(before: Jobs, after: Jobs, connection: Id) {
    && (forall j | j in before :: j in after)
    && (forall j | j in before && before[j].connection == connection
                   && (before[j].status == RefreshQueued || before[j].status == RefreshLeased) ::
          after[j] == before[j].(status := RefreshObsolete, owner := None, expiresAt := None))
    && (forall j | j in before && !(before[j].connection == connection
                                    && (before[j].status == RefreshQueued || before[j].status == RefreshLeased)) ::
          after[j] == before[j])
  }

  // ---------- connections ----------

  lemma CreateEffect(t: Tables)
    requires Inv(t)
    ensures var after, id := CreateConnection(t), t.nextId;
      && id !in t.connections && after.nextId > t.nextId
      && after == t.(connections := t.connections[id := after.connections[id]], nextId := after.nextId)
      && var row := after.connections[id];
         && row.lifecycle == Verifying && row.pending.Some? && t.nextId < row.pending.value < after.nextId
         && row.verified.None? && row.controlEpoch == 0 && row.generation == 0
         && row.allocatedEpoch.None? && row.allocatedTarget.None? && row.snapshot.None?
  {
    hide Inv;
    assert IdsUsed(t) by { InvIds(t); }
  }

  lemma InvIds(t: Tables)
    requires Inv(t)
    ensures IdsUsed(t)
  {
  }

  /** A new version becomes pending under a raised epoch; verification starts over and all refresh work is dropped. */
  lemma AppendEffect(t: Tables, id: Id)
    ensures AppendVersion(t, id).Ok? <==> id in t.connections && t.connections[id].lifecycle != Retired
    ensures AppendVersion(t, id).Err? ==> AppendVersion(t, id).error == if id !in t.connections then NotFound else TransitionRejected
    ensures AppendVersion(t, id).Ok? ==>
      var after := AppendVersion(t, id).value;
      var before, row := t.connections[id], after.connections[id];
      && OnlyConnection(t, after, id) && after.nextId > t.nextId
      && after.jobs.Keys == t.jobs.Keys && JobsObsoleted(t.jobs, after.jobs, id)
      && row.lifecycle == Verifying && row.pending == Some(t.nextId) && row.verified == before.verified
      && row.controlEpoch == before.controlEpoch + 1 && row.generation == before.generation
      && row.allocatedEpoch.None? && row.allocatedTarget.None? && row.snapshot == before.snapshot
  {
  }

  lemma DisableEffect(t: Tables, id: Id)
    ensures DisableConnection(t, id).Ok? <==> id in t.connections && t.connections[id].lifecycle != Retired
    ensures DisableConnection(t, id).Err? ==> DisableConnection(t, id).error == if id !in t.connections then NotFound else TransitionRejected
    ensures DisableConnection(t, id).Ok? ==>
      var after := DisableConnection(t, id).value;
      var before, row := t.connections[id], after.connections[id];
      && OnlyConnection(t, after, id) && after.nextId == t.nextId
      && after.jobs.Keys == t.jobs.Keys && JobsObsoleted(t.jobs, after.jobs, id)
      && row.lifecycle == Retired && row.pending == before.pending && row.verified == before.verified
      && row.controlEpoch == before.controlEpoch + 1 && row.generation == before.generation
      && row.allocatedEpoch.None? && row.allocatedTarget.None? && row.snapshot == before.snapshot
  {
  }

  lemma EnableEffect(t: Tables, id: Id)
    ensures EnableConnection(t, id).Ok? <==> id in t.connections && t.connections[id].lifecycle == Retired
    ensures EnableConnection(t, id).Err? ==> EnableConnection(t, id).error == if id !in t.connections then NotFound else TransitionRejected
    ensures EnableConnection(t, id).Ok? ==>
      var after := EnableConnection(t, id).value;
      var before, row := t.connections[id], after.connections[id];
      && OnlyConnection(t, after, id) && after.nextId == t.nextId && after.jobs == t.jobs
      && row.lifecycle == Verifying && row.pending == before.pending && row.verified == before.verified
      && row.controlEpoch == before.controlEpoch + 1 && row.generation == before.generation
      && row.allocatedEpoch.None? && row.allocatedTarget.None? && row.snapshot == before.snapshot
  {
  }

  // ---------- refresh jobs ----------

  /**
    A refresh of any connection that is not disabled takes the next generation and one queued job
    that carries it; a degraded connection with a pending version goes back to verifying.
  */
  lemma RefreshEffect(t: Tables, id: Id)
    requires Inv(t)
    ensures Enqueue(t, id).Ok? <==> id in t.connections && t.connections[id].lifecycle != Retired
    ensures Enqueue(t, id).Err? ==> Enqueue(t, id).error == if id !in t.connections then NotFound else TransitionRejected
    ensures Enqueue(t, id).Ok? ==>
      var after, job := Enqueue(t, id).value, t.nextId;
      var before, row := t.connections[id], after.connections[id];
      && OnlyConnection(t, after, id) && after.nextId > t.nextId && job !in t.jobs
      && after.jobs.Keys == t.jobs.Keys + {job} && JobsObsoleted(t.jobs, after.jobs, id)
      && row.lifecycle == (if before.lifecycle == Degraded && before.pending.Some? then Verifying else before.lifecycle)
      && row.pending == before.pending && row.verified == before.verified && row.snapshot == before.snapshot
      && row.controlEpoch == before.controlEpoch && row.generation == before.generation + 1
      && row.allocatedEpoch == Some(before.controlEpoch)
      && row.allocatedTarget.Some? && row.allocatedTarget == (if before.pending.Some? then before.pending else before.verified)
      && var queued := after.jobs[job];
         && queued.connection == id && queued.connectionVersion == row.allocatedTarget.value
         && queued.generation == row.generation && queued.controlEpoch == row.controlEpoch
         && queued.status == RefreshQueued && queued.owner.None? && queued.leaseEpoch == 0 && queued.expiresAt.None?
  {
    hide ShapesFit, VersionsFit, IdentitiesUnique, ProjectionsFit, JobsFit, SnapshotsFit, SnapshotsUnique;
    if id in t.connections { assert ConnectionFits(t.connections[id], id, t.snapshots, t.nextId); }
  }

  /** Nothing but this refresh job differs. */
  predicate OnlyJob(t: Tables, after: Tables, id: Id) {
    && after == t.(jobs := after.jobs) && after.jobs.Keys == t.jobs.Keys
    && forall other | other in t.jobs && other != id :: after.jobs[other] == t.jobs[other]
  }

  /** In a state that keeps the invariant an outstanding job's allocation still stands. */
  lemma OutstandingIsEligible(t: Tables, id: Id)
    requires Inv(t) && id in t.jobs && t.jobs[id].Outstanding()
    ensures var job := t.jobs[id];
      job.connection in t.connections
      && Eligible(t.connections[job.connection], job.connectionVersion, job.controlEpoch, job.generation)
  {
    hide ShapesFit, VersionsFit, IdentitiesUnique, ProjectionsFit, SnapshotsFit, SnapshotsUnique;
    var job := t.jobs[id];
    assert JobFits(job, t.connections);
    assert ConnectionFits(t.connections[job.connection], job.connection, t.snapshots, t.nextId);
  }

  /** A refresh is claimed exactly when it is queued, or leased with a lease that has run out. */
  lemma ClaimRefreshEffect(t: Tables, id: Id, worker: Id, duration: int, now: Time)
    requires Inv(t)
    ensures ClaimRefresh(t, id, worker, duration, now).Ok? <==>
      && duration > 0 && id in t.jobs
      && (t.jobs[id].status == RefreshQueued
          || (t.jobs[id].status == RefreshLeased && t.jobs[id].expiresAt.Some? && t.jobs[id].expiresAt.value <= now))
    ensures ClaimRefresh(t, id, worker, duration, now).Ok? ==>
      var (after, lease) := ClaimRefresh(t, id, worker, duration, now).value;
      var before, job := t.jobs[id], after.jobs[id];
      && OnlyJob(t, after, id)
      && job == before.(status := RefreshLeased, owner := Some(worker), leaseEpoch := before.leaseEpoch + 1,
                        expiresAt := Some(now + duration))
      && lease == RefreshLease(id, worker, job.leaseEpoch, job.connection, job.connectionVersion, job.controlEpoch, job.generation)
  {
    hide Inv, Eligible;
    if id in t.jobs && t.jobs[id].Outstanding() { OutstandingIsEligible(t, id); }
  }

  /** The job is leased under exactly this lease, which has not run out. */
  predicate LiveRefresh(t: Tables, lease: RefreshLease, now: Time) {
    && lease.job in t.jobs
    && var job := t.jobs[lease.job];
       && job.status == RefreshLeased && job.owner == Some(lease.worker) && job.leaseEpoch == lease.leaseEpoch
       && job.connection == lease.connection && job.connectionVersion == lease.connectionVersion
       && job.controlEpoch == lease.controlEpoch && job.generation == lease.generation
       && job.expiresAt.Some? && job.expiresAt.value > now
  }

  /** In every state that keeps the invariant, contact is allowed exactly under a live lease. */
  lemma ContactEffect(t: Tables, lease: RefreshLease, now: Time)
    requires Inv(t)
    ensures ContactAllowed(t, lease, now) <==> LiveRefresh(t, lease, now)
    ensures ContactAllowed(t, lease, now) ==>
      lease.connection in t.connections && t.connections[lease.connection].allocatedEpoch.Some?
  {
    hide Inv;
    if LiveRefresh(t, lease, now) { OutstandingIsEligible(t, lease.job); }
  }

  lemma RenewEffect(t: Tables, lease: RefreshLease, duration: int, now: Time)
    requires Inv(t)
    ensures RenewRefresh(t, lease, duration, now).Ok? <==> duration > 0 && LiveRefresh(t, lease, now)
    ensures RenewRefresh(t, lease, duration, now).Ok? ==>
      var after := RenewRefresh(t, lease, duration, now).value;
      var before, job := t.jobs[lease.job], after.jobs[lease.job];
      && OnlyJob(t, after, lease.job)
      && job == before.(expiresAt := job.expiresAt)
      && job.expiresAt == Some(if before.expiresAt.value > now + duration then before.expiresAt.value else now + duration)
  {
    hide Inv, LeaseEligible;
    ContactEffect(t, lease, now);
  }

  /** Only this job differs among the jobs; it is closed and ownerless. */
  predicate JobClosed(before: Jobs, after: Jobs, id: Id, status: RefreshStatus) {
    && id in before && after.Keys == before.Keys
    && after[id] == before[id].(status := status, owner := None, expiresAt := None)
    && forall other | other in before && other != id :: after[other] == before[other]
  }

  /**
    A failed refresh is accepted exactly under a live lease; it degrades the connection, takes its
    allocation, fails the job, and touches nothing else.
  */
  lemma FailEffect(t: Tables, lease: RefreshLease, now: Time)
    requires Inv(t)
    ensures PublishFailure(t, lease, now).Ok? <==> LiveRefresh(t, lease, now)
    ensures PublishFailure(t, lease, now).Err? ==> PublishFailure(t, lease, now).error == TransitionRejected
    ensures PublishFailure(t, lease, now).Ok? ==>
      var after := PublishFailure(t, lease, now).value;
      && lease.connection in t.connections && OnlyConnection(t, after, lease.connection) && after.nextId == t.nextId
      && JobClosed(t.jobs, after.jobs, lease.job, RefreshFailed)
      && var before, row := t.connections[lease.connection], after.connections[lease.connection];
         && row.lifecycle == Degraded
         && row.allocatedEpoch.None? && row.allocatedTarget.None?
         && row.pending == before.pending && row.verified == before.verified && row.snapshot == before.snapshot
         && row.controlEpoch == before.controlEpoch && row.generation == before.generation
  {
    hide Inv, LeaseEligible;
    ContactEffect(t, lease, now);
    if LiveRefresh(t, lease, now) { OutstandingIsEligible(t, lease.job); }
  }

  // ---------- publication ----------

  /** The recorded version is what was observed of this tool, under the capability of its identity. */
  predicate Records(t: Tables, lease: RefreshLease, protocol: string, tool: Tool, v: Id) {
    && v in t.versions
    && var version := t.versions[v];
       && version.metadata == tool.metadata && version.supported == tool.supported && version.protocol == protocol
       && version.connection == lease.connection && version.connectionVersion == lease.connectionVersion
       && version.capability in t.capabilities
       && t.capabilities[version.capability].connection == lease.connection
       && t.capabilities[version.capability].identity == tool.identity
  }

  /** A version was recorded for the same connection version, protocol and description of this capability's tool. */
  predicate Same(version: ToolVersion, capability: Id, lease: RefreshLease, protocol: string, tool: Tool) {
    && version.capability == capability && version.connectionVersion == lease.connectionVersion && version.protocol == protocol
    && version.metadata == tool.metadata && version.supported == tool.supported
  }

  predicate Fits(t: Tables, v: Option<Id>, capability: Id, lease: RefreshLease, protocol: string, tool: Tool) {
    v.Some? && v.value in t.versions && Same(t.versions[v.value], capability, lease, protocol, tool)
  }

  /** Of the recorded versions that are the same, the enabled one is found, else the pending one, else the latest. */
  lemma MatchEffect(t: Tables, capability: Id, lease: RefreshLease, protocol: string, tool: Tool)
    requires capability in t.capabilities
    ensures var found := MatchingVersion(t, capability, lease.connectionVersion, protocol, tool);
      var row := t.capabilities[capability];
      if Fits(t, row.enabled, capability, lease, protocol, tool) then found == row.enabled
      else if Fits(t, row.pending, capability, lease, protocol, tool) then found == row.pending
      else if found.Some? then
        && Fits(t, found, capability, lease, protocol, tool)
        && forall v | v in t.versions && Same(t.versions[v], capability, lease, protocol, tool) ::
             t.versions[v].sequence <= t.versions[found.value].sequence
      else forall v | v in t.versions :: !Same(t.versions[v], capability, lease, protocol, tool)
  {
    hide Matches, Same;
    var matches := MatchingIds(t, capability, lease.connectionVersion, protocol, tool);
    forall v | v in t.versions ensures v in matches <==> Same(t.versions[v], capability, lease, protocol, tool) {
      SameMatches(t.versions[v], capability, lease, protocol, tool);
    }
    if matches != {} {
      var key, latest := LatestFirst(t.versions), First(matches, LatestFirst(t.versions));
      assert forall v | v in matches :: !Before(key, v, latest);
    }
  }

  lemma SameMatches(version: ToolVersion, capability: Id, lease: RefreshLease, protocol: string, tool: Tool)
    ensures Matches(version, capability, lease.connectionVersion, protocol, tool)
       <==> Same(version, capability, lease, protocol, tool)
  {
  }

  /** A capability whose tool was observed as version v: v is enabled as before or up for review, and a refusal stands. */
  predicate ReviewedAs(row: Capability, after: Capability, v: Id) {
    && after.connection == row.connection && after.identity == row.identity && after.enabled == row.enabled
    && after.pending == (if row.enabled == Some(v) then None else Some(v))
    && after.status == (if row.status == Disabled then Disabled else if row.enabled == Some(v) then Enabled else PendingReview)
    && after.statusEpoch == row.statusEpoch + (if after.pending == row.pending && after.status == row.status then 0 else 1)
  }

  /** The same for a capability that may be new: then it starts without an approval, up for review. */
  predicate Reviewed(before: Capabilities, after: Capabilities, lease: RefreshLease, tool: Tool, c: Id, v: Id) {
    && c in after
    && if c in before then ReviewedAs(before[c], after[c], v)
       else after[c] == Capability(lease.connection, tool.identity, Some(v), None, PendingReview, 1)
  }

  lemma ReconciledEffect(row: Capability, id: Id, versions: Versions, v: Id)
    requires Shape(row, id, versions)
    ensures ReviewedAs(row, Reconciled(row, v), v)
  {
  }

  /** The tool was observed under this connection version before. */
  predicate Known(t: Tables, lease: RefreshLease, protocol: string, tool: Tool) {
    exists v :: v in t.versions && IsKnown(t, lease, protocol, tool, v)
  }

  predicate IsKnown(t: Tables, lease: RefreshLease, protocol: string, tool: Tool, v: Id)
    requires v in t.versions
  {
    var c := t.versions[v].capability;
    && c in t.capabilities && t.capabilities[c].connection == lease.connection && t.capabilities[c].identity == tool.identity
    && Same(t.versions[v], c, lease, protocol, tool)
  }

  /** Recording a tool reuses the version that is the same, if there is one, and reviews the tool's capability. */
  lemma RecordReviews(t: Tables, lease: RefreshLease, protocol: string, tool: Tool)
    requires Structure(t) && RecordingAllowed(t, ObservationOf(lease, protocol))
    ensures Record(t, ObservationOf(lease, protocol), tool).Ok?
    ensures var (after, v) := Record(t, ObservationOf(lease, protocol), tool).value;
      && v in after.versions && after.versions == t.versions[v := after.versions[v]]
      && (v in t.versions <==> Known(t, lease, protocol, tool))
      && Reviewed(t.capabilities, after.capabilities, lease, tool, after.versions[v].capability, v)
  {
    hide IdentitiesUnique, IdsUsed, ShapesFit, VersionsFit, NextSequence, MatchingVersion, Reconciled, Same, ReviewedAs;
    match CapabilityOf(t, lease.connection, tool.identity)
    case None => NewIds(t);
    case Some(c) =>
      MatchEffect(t, c, lease, protocol, tool);
      KnownByCapability(t, lease, protocol, tool, c);
      NewIds(t);
      var found := MatchingVersion(t, c, lease.connectionVersion, protocol, tool);
      if found.Some? {
        OfCapability(t, found.value, c, lease, protocol, tool);
        ShapeOf(t, c);
        ReconciledEffect(t.capabilities[c], c, t.versions, found.value);
      } else {
        ShapeOf(t, c);
        ProposedEffect(t.capabilities[c], c, t.versions, t.nextId);
      }
  }

  lemma ProposedEffect(row: Capability, id: Id, versions: Versions, v: Id)
    requires Shape(row, id, versions) && v !in versions
    ensures ReviewedAs(row, Proposed(row, v), v)
  {
  }

  lemma ShapeOf(t: Tables, c: Id)
    requires ShapesFit(t.capabilities, t.versions, t.connections.Keys) && c in t.capabilities
    ensures Shape(t.capabilities[c], c, t.versions)
  {
  }

  lemma OfCapability(t: Tables, v: Id, c: Id, lease: RefreshLease, protocol: string, tool: Tool)
    requires v in t.versions && Same(t.versions[v], c, lease, protocol, tool)
    ensures t.versions[v].capability == c
  {
  }

  lemma KnownByCapability(t: Tables, lease: RefreshLease, protocol: string, tool: Tool, c: Id)
    requires IdentitiesUnique(t.capabilities) && c in t.capabilities
    requires t.capabilities[c].connection == lease.connection && t.capabilities[c].identity == tool.identity
    ensures Known(t, lease, protocol, tool) <==> exists v :: v in t.versions && Same(t.versions[v], c, lease, protocol, tool)
  {
    hide Same;
    OneCapability(t, lease, tool, c);
    if Known(t, lease, protocol, tool) {
      var v :| v in t.versions && IsKnown(t, lease, protocol, tool, v);
      assert Same(t.versions[v], c, lease, protocol, tool);
    }
    if v :| v in t.versions && Same(t.versions[v], c, lease, protocol, tool) {
      OfCapability(t, v, c, lease, protocol, tool);
      assert IsKnown(t, lease, protocol, tool, v);
    }
  }

  lemma NewIds(t: Tables)
    requires IdsUsed(t)
    ensures t.nextId !in t.versions && t.nextId + 1 !in t.versions && t.nextId !in t.capabilities
  {
  }

  lemma OneCapability(t: Tables, lease: RefreshLease, tool: Tool, c: Id)
    requires IdentitiesUnique(t.capabilities) && c in t.capabilities
    requires t.capabilities[c].connection == lease.connection && t.capabilities[c].identity == tool.identity
    ensures forall other | other in t.capabilities && t.capabilities[other].connection == lease.connection
              && t.capabilities[other].identity == tool.identity :: other == c
  {
  }

  lemma RecordEffect(t: Tables, lease: RefreshLease, protocol: string, tool: Tool)
    requires Structure(t) && RecordingAllowed(t, ObservationOf(lease, protocol))
    ensures var (after, v) := Record(t, ObservationOf(lease, protocol), tool).value;
      Record(t, ObservationOf(lease, protocol), tool).Ok? && Records(after, lease, protocol, tool, v)
  {
    hide IdsUsed, ShapesFit, IdentitiesUnique, NextSequence;
  }

  lemma RecordsStay(t: Tables, after: Tables, lease: RefreshLease, protocol: string, tool: Tool, v: Id)
    requires Records(t, lease, protocol, tool, v) && Extends(t, after)
    ensures Records(after, lease, protocol, tool, v)
  {
    assert Kept(t.capabilities[t.versions[v].capability], after.capabilities[t.versions[v].capability]);
  }

  predicate HasVersion(t: Tables, lease: RefreshLease, protocol: string, tool: Tool, members: set<Id>) {
    exists v :: v in members && Records(t, lease, protocol, tool, v)
  }

  predicate HasTool(t: Tables, lease: RefreshLease, protocol: string, tools: seq<Tool>, v: Id) {
    exists tool :: tool in tools && Records(t, lease, protocol, tool, v)
  }

  /** The members are one recorded version for each tool of the listing, and nothing else. */
  predicate Lists(t: Tables, lease: RefreshLease, protocol: string, tools: seq<Tool>, members: set<Id>) {
    && (forall tool | tool in tools :: HasVersion(t, lease, protocol, tool, members))
    && (forall v | v in members :: HasTool(t, lease, protocol, tools, v))
  }

  lemma HasVersionStays(
    t: Tables, after: Tables, lease: RefreshLease, protocol: string, tool: Tool, members: set<Id>, more: set<Id>
  )
    requires HasVersion(t, lease, protocol, tool, members) && Extends(t, after) && members <= more
    ensures HasVersion(after, lease, protocol, tool, more)
  {
    hide Records, Extends;
    var v :| v in members && Records(t, lease, protocol, tool, v);
    RecordsStay(t, after, lease, protocol, tool, v);
  }

  lemma HasToolStays(
    t: Tables, after: Tables, lease: RefreshLease, protocol: string, tools: seq<Tool>, more: seq<Tool>, v: Id
  )
    requires HasTool(t, lease, protocol, tools, v) && Extends(t, after) && forall tool | tool in tools :: tool in more
    ensures HasTool(after, lease, protocol, more, v)
  {
    hide Records, Extends;
    var tool :| tool in tools && Records(t, lease, protocol, tool, v);
    RecordsStay(t, after, lease, protocol, tool, v);
  }

  lemma ListsGrow(
    t: Tables, after: Tables, lease: RefreshLease, protocol: string, tools: seq<Tool>, members: set<Id>, v: Id
  )
    requires tools != [] && Lists(t, lease, protocol, tools[..|tools| - 1], members) && Extends(t, after)
    requires Records(after, lease, protocol, tools[|tools| - 1], v)
    ensures Lists(after, lease, protocol, tools, members + {v})
  {
    hide Records, Extends, HasVersion, HasTool;
    var init, last := tools[..|tools| - 1], tools[|tools| - 1];
    NewlyListed(after, lease, protocol, tools, members, v);
    forall tool | tool in tools ensures HasVersion(after, lease, protocol, tool, members + {v}) {
      if tool != last {
        assert tool in init;
        HasVersionStays(t, after, lease, protocol, tool, members, members + {v});
      }
    }
    forall w | w in members ensures HasTool(after, lease, protocol, tools, w) {
      HasToolStays(t, after, lease, protocol, init, tools, w);
    }
  }

  lemma NewlyListed(t: Tables, lease: RefreshLease, protocol: string, tools: seq<Tool>, members: set<Id>, v: Id)
    requires tools != [] && Records(t, lease, protocol, tools[|tools| - 1], v)
    ensures HasVersion(t, lease, protocol, tools[|tools| - 1], members + {v}) && HasTool(t, lease, protocol, tools, v)
  {
    hide Records;
    assert v in members + {v} && tools[|tools| - 1] in tools;
  }

  lemma {:induction false} RecordAllEffect(t: Tables, lease: RefreshLease, protocol: string, tools: seq<Tool>)
    requires Structure(t) && RecordingAllowed(t, ObservationOf(lease, protocol)) && DiscoveryResult(tools, "").WellFormed()
    ensures RecordAll(t, ObservationOf(lease, protocol), tools).Ok?
    ensures var (after, members) := RecordAll(t, ObservationOf(lease, protocol), tools).value;
      Lists(after, lease, protocol, tools, members)
    decreases |tools|
  {
    hide Structure, Record, Lists, Records, Extends, OnlyTouches, ObservedAs, Covered, RecordingAllowed;
    var o := ObservationOf(lease, protocol);
    RecordAllKeeps(t, o, tools);
    if tools == [] {
      NothingListed(t, lease, protocol);
    } else {
      var init := tools[..|tools| - 1];
      IdentitiesOfLast(tools);
      RecordAllEffect(t, lease, protocol, init);
      RecordAllKeeps(t, o, init);
      var (before, members) := RecordAll(t, o, init).value;
      RecordingStaysAllowed(t, before, o);
      RecordEffect(before, lease, protocol, tools[|tools| - 1]);
      RecordKeeps(before, o, tools[|tools| - 1]);
      var (after, v) := Record(before, o, tools[|tools| - 1]).value;
      ListsGrow(before, after, lease, protocol, tools, members, v);
    }
  }

  lemma NothingListed(t: Tables, lease: RefreshLease, protocol: string)
    ensures Lists(t, lease, protocol, [], {})
  {
  }

  lemma RecordingStaysAllowed(t: Tables, after: Tables, o: Observation)
    requires RecordingAllowed(t, o) && Extends(t, after)
    ensures RecordingAllowed(after, o)
  {
  }

  /**
    A publication is accepted exactly under a live lease; it verifies the allocated version, makes
    the connection active, takes its allocation, succeeds the job, and its new snapshot holds one
    version for each tool of the listing, recorded as observed.
  */
  lemma PublishEffect(t: Tables, lease: RefreshLease, listing: Listing, now: Time)
    requires Inv(t)
    ensures PublishSuccess(t, lease, listing, now).Ok? <==> LiveRefresh(t, lease, now)
    ensures PublishSuccess(t, lease, listing, now).Err? ==> PublishSuccess(t, lease, listing, now).error == TransitionRejected
    ensures PublishSuccess(t, lease, listing, now).Ok? ==>
      var after := PublishSuccess(t, lease, listing, now).value;
      && lease.connection in t.connections && after.connections.Keys == t.connections.Keys
      && JobClosed(t.jobs, after.jobs, lease.job, RefreshSucceeded)
      && (forall other | other in t.connections && other != lease.connection ::
            after.connections[other] == t.connections[other])
      && (forall c | c in after.capabilities && after.capabilities[c].connection != lease.connection ::
            c in t.capabilities && after.capabilities[c] == t.capabilities[c])
      && (forall v | v in t.versions :: v in after.versions && after.versions[v] == t.versions[v])
      && (forall s | s in t.snapshots :: s in after.snapshots && after.snapshots[s] == t.snapshots[s])
      && var before, row := t.connections[lease.connection], after.connections[lease.connection];
         && row.lifecycle == Active && row.pending.None? && row.verified == Some(lease.connectionVersion)
         && row.allocatedEpoch.None? && row.allocatedTarget.None?
         && row.controlEpoch == before.controlEpoch && row.generation == before.generation
         && row.snapshot == Some(t.nextId) && t.nextId !in t.snapshots && t.nextId in after.snapshots
         && var snapshot := after.snapshots[t.nextId];
            && snapshot.connection == lease.connection && snapshot.connectionVersion == lease.connectionVersion
            && snapshot.generation == lease.generation && snapshot.controlEpoch == lease.controlEpoch
            && Lists(after, lease, listing.protocol, listing.tools, snapshot.members)
  {
    hide Inv, Eligible, RecordAll, MarkMissing, Conclude, Lists, CapabilitiesExtend;
    ContactEffect(t, lease, now);
    if LiveRefresh(t, lease, now) {
      OutstandingIsEligible(t, lease.job);
      PublishKeeps(t, lease, listing, now);
      PublishedListing(t, lease, listing, now);
      InvIds(t);
    }
  }

  lemma PublishedListing(t: Tables, lease: RefreshLease, listing: Listing, now: Time)
    requires Inv(t) && PublishSuccess(t, lease, listing, now).Ok? && LeaseEligible(t, lease)
    ensures var after := PublishSuccess(t, lease, listing, now).value;
      t.nextId in after.snapshots
      && Lists(after, lease, listing.protocol, listing.tools, after.snapshots[t.nextId].members)
  {
    hide Inv, Eligible, RecordAll, MarkMissing, Lists, Structure, RecordingAllowed, Covered, OnlyTouches;
    var start, o := t.(nextId := t.nextId + 1), ObservationOf(lease, listing.protocol);
    Started(t, lease, listing.protocol);
    RecordAllKeeps(start, o, listing.tools);
    RecordAllEffect(start, lease, listing.protocol, listing.tools);
    var (recorded, members) := RecordAll(start, o, listing.tools).value;
    MarkKeeps(recorded, o.connection, Identities(listing.tools));
    var marked := MarkMissing(recorded, o.connection, Identities(listing.tools));
    var after := PublishSuccess(t, lease, listing, now).value;
    ListsStay(recorded, marked, after, lease, listing.protocol, listing.tools, members);
  }

  lemma ListsStay(
    t: Tables, marked: Tables, after: Tables, lease: RefreshLease, protocol: string, tools: seq<Tool>, members: set<Id>
  )
    requires Lists(t, lease, protocol, tools, members) && Extends(t, marked)
    requires after.capabilities == marked.capabilities && after.versions == marked.versions
    ensures Lists(after, lease, protocol, tools, members)
  {
    hide Extends, HasVersion, HasTool;
    forall tool | tool in tools ensures HasVersion(after, lease, protocol, tool, members) {
      HasVersionStays(t, marked, lease, protocol, tool, members, members);
      SameVersions(marked, after, lease, protocol, tool, members);
    }
    forall v | v in members ensures HasTool(after, lease, protocol, tools, v) {
      HasToolStays(t, marked, lease, protocol, tools, tools, v);
      SameTools(marked, after, lease, protocol, tools, v);
    }
  }

  lemma SameVersions(t: Tables, after: Tables, lease: RefreshLease, protocol: string, tool: Tool, members: set<Id>)
    requires after.capabilities == t.capabilities && after.versions == t.versions
    requires HasVersion(t, lease, protocol, tool, members)
    ensures HasVersion(after, lease, protocol, tool, members)
  {
    var v :| v in members && Records(t, lease, protocol, tool, v);
    assert Records(after, lease, protocol, tool, v);
  }

  lemma SameTools(t: Tables, after: Tables, lease: RefreshLease, protocol: string, tools: seq<Tool>, v: Id)
    requires after.capabilities == t.capabilities && after.versions == t.versions && HasTool(t, lease, protocol, tools, v)
    ensures HasTool(after, lease, protocol, tools, v)
  {
    var tool :| tool in tools && Records(t, lease, protocol, tool, v);
    assert Records(after, lease, protocol, tool, v);
  }

  // ---------- the capabilities after a publication ----------

  /** Some member is the version under which this tool's capability was reviewed. */
  predicate ReviewedIn(before: Capabilities, after: Tables, members: set<Id>, lease: RefreshLease, tool: Tool) {
    exists v :: v in members && ReviewedUnder(before, after, lease, tool, v)
  }

  predicate ReviewedUnder(before: Capabilities, after: Tables, lease: RefreshLease, tool: Tool, v: Id) {
    && v in after.versions
    && var c := after.versions[v].capability;
       && Reviewed(before, after.capabilities, lease, tool, c, v)
       && after.capabilities[c].connection == lease.connection && after.capabilities[c].identity == tool.identity
  }

  lemma RecordReviewsIn(t: Tables, lease: RefreshLease, protocol: string, tool: Tool)
    requires Structure(t) && RecordingAllowed(t, ObservationOf(lease, protocol))
    ensures Record(t, ObservationOf(lease, protocol), tool).Ok?
    ensures var (after, v) := Record(t, ObservationOf(lease, protocol), tool).value;
      ReviewedUnder(t.capabilities, after, lease, tool, v)
  {
    hide Structure, Record, RecordingAllowed, Reviewed, OnlyTouches, Extends, Known;
    RecordReviews(t, lease, protocol, tool);
    RecordKeeps(t, ObservationOf(lease, protocol), tool);
    var (after, v) := Record(t, ObservationOf(lease, protocol), tool).value;
    assert Reviewed(t.capabilities, after.capabilities, lease, tool, after.versions[v].capability, v);
    ReviewedRow(t.capabilities, after.capabilities, lease, tool, after.versions[v].capability, v);
  }

  lemma ReviewedRow(before: Capabilities, after: Capabilities, lease: RefreshLease, tool: Tool, c: Id, v: Id)
    requires Reviewed(before, after, lease, tool, c, v)
    ensures c in after
  {
  }

  /** Recording another tool afterwards leaves the review of this one alone. */
  lemma ReviewStays(
    before: Capabilities, t: Tables, after: Tables, lease: RefreshLease, tool: Tool, other: string, v: Id
  )
    requires ReviewedUnder(before, t, lease, tool, v) && Extends(t, after) && other != tool.identity
    requires OnlyTouches(t.capabilities, after.capabilities, lease.connection, {other})
    ensures ReviewedUnder(before, after, lease, tool, v)
  {
    hide ReviewedAs;
    var c := t.versions[v].capability;
    assert Kept(t.capabilities[c], after.capabilities[c]);
  }

  /** Recording other tools first does not matter for the review of this one. */
  lemma ReviewFromStart(
    before: Capabilities, t: Tables, after: Tables, lease: RefreshLease, tool: Tool, earlier: set<string>, v: Id
  )
    requires ReviewedUnder(t.capabilities, after, lease, tool, v) && tool.identity !in earlier
    requires CapabilitiesExtend(before, t.capabilities) && CapabilitiesExtend(t.capabilities, after.capabilities)
    requires OnlyTouches(before, t.capabilities, lease.connection, earlier)
    ensures ReviewedUnder(before, after, lease, tool, v)
  {
    hide ReviewedAs;
    var c := after.versions[v].capability;
    if c in t.capabilities { assert Kept(t.capabilities[c], after.capabilities[c]); }
  }

  lemma {:induction false} RecordAllReviews(t: Tables, lease: RefreshLease, protocol: string, tools: seq<Tool>)
    requires Structure(t) && RecordingAllowed(t, ObservationOf(lease, protocol)) && DiscoveryResult(tools, "").WellFormed()
    ensures RecordAll(t, ObservationOf(lease, protocol), tools).Ok?
    ensures var (after, members) := RecordAll(t, ObservationOf(lease, protocol), tools).value;
      forall tool | tool in tools :: ReviewedIn(t.capabilities, after, members, lease, tool)
    decreases |tools|
  {
    hide Structure, Record, Extends, OnlyTouches, ObservedAs, Covered, RecordingAllowed, ReviewedUnder;
    var o := ObservationOf(lease, protocol);
    RecordAllKeeps(t, o, tools);
    if tools != [] {
      var init, last := tools[..|tools| - 1], tools[|tools| - 1];
      IdentitiesOfLast(tools);
      RecordAllReviews(t, lease, protocol, init);
      RecordAllKeeps(t, o, init);
      var (before, members) := RecordAll(t, o, init).value;
      RecordingStaysAllowed(t, before, o);
      RecordReviewsIn(before, lease, protocol, last);
      RecordKeeps(before, o, last);
      var (after, v) := Record(before, o, last).value;
      CapabilitiesOfExtends(t, before);
      CapabilitiesOfExtends(before, after);
      ReviewFromStart(t.capabilities, before, after, lease, last, Identities(init), v);
      assert ReviewedIn(t.capabilities, after, members + {v}, lease, last);
      forall tool | tool in tools && tool != last ensures ReviewedIn(t.capabilities, after, members + {v}, lease, tool) {
        assert tool in init && tool.identity in Identities(init);
        var w :| w in members && ReviewedUnder(t.capabilities, before, lease, tool, w);
        ReviewStays(t.capabilities, before, after, lease, tool, last.identity, w);
      }
    }
  }

  lemma CapabilitiesOfExtends(t: Tables, after: Tables)
    requires Extends(t, after)
    ensures CapabilitiesExtend(t.capabilities, after.capabilities)
  {
  }

  /** A capability of the connection whose tool is not listed becomes unavailable, unless it already was or is refused. */
  predicate LeftOut(row: Capability, after: Capability, connection: Id) {
    after == if row.connection == connection && row.status in {Enabled, PendingReview}
             then row.(status := Unavailable, statusEpoch := row.statusEpoch + 1) else row
  }

  /**
    An accepted publication reviews the capability of each listed tool under its snapshot member,
    makes those of unlisted tools of the connection unavailable, and touches no other capability.
  */
  lemma PublishReviews(t: Tables, lease: RefreshLease, listing: Listing, now: Time)
    requires Inv(t) && PublishSuccess(t, lease, listing, now).Ok?
    ensures var after := PublishSuccess(t, lease, listing, now).value;
      && t.nextId in after.snapshots
      && (forall tool | tool in listing.tools ::
            ReviewedIn(t.capabilities, after, after.snapshots[t.nextId].members, lease, tool))
      && (forall c | c in after.capabilities && !Offers(listing.tools, after.capabilities[c].identity) ::
            c in t.capabilities && LeftOut(t.capabilities[c], after.capabilities[c], lease.connection))
  {
    hide Inv, Eligible, RecordAll, Structure, RecordingAllowed, Covered, ReviewedUnder, OnlyTouches, Identities, Offers, LeftOut;
    var start, o := t.(nextId := t.nextId + 1), ObservationOf(lease, listing.protocol);
    Started(t, lease, listing.protocol);
    RecordAllKeeps(start, o, listing.tools);
    RecordAllReviews(start, lease, listing.protocol, listing.tools);
    var (recorded, members) := RecordAll(start, o, listing.tools).value;
    var after := PublishSuccess(t, lease, listing, now).value;
    forall tool | tool in listing.tools ensures ReviewedIn(t.capabilities, after, members, lease, tool) {
      var v :| v in members && ReviewedUnder(start.capabilities, recorded, lease, tool, v);
      ListedIsObserved(listing.tools, tool);
      ReviewSurvivesMarking(t.capabilities, recorded, after, lease, tool, Identities(listing.tools), v);
    }
    UnlistedRows(t.capabilities, recorded, lease, listing.tools);
  }

  predicate Offers(tools: seq<Tool>, identity: string) {
    exists tool :: tool in tools && tool.identity == identity
  }

  lemma ListedIsObserved(tools: seq<Tool>, tool: Tool)
    requires tool in tools
    ensures tool.identity in Identities(tools)
  {
  }

  lemma OfferedIdentities(tools: seq<Tool>, identity: string)
    ensures identity in Identities(tools) <==> Offers(tools, identity)
  {
    if Offers(tools, identity) {
      var i :| 0 <= i < |tools| && tools[i].identity == identity;
    }
  }

  lemma ReviewSurvivesMarking(
    before: Capabilities, t: Tables, after: Tables, lease: RefreshLease, tool: Tool, observed: set<string>, v: Id
  )
    requires ReviewedUnder(before, t, lease, tool, v) && tool.identity in observed
    requires after.versions == t.versions && after.capabilities == MarkMissing(t, lease.connection, observed).capabilities
    ensures ReviewedUnder(before, after, lease, tool, v)
  {
  }

  lemma UnlistedRows(before: Capabilities, recorded: Tables, lease: RefreshLease, tools: seq<Tool>)
    requires OnlyTouches(before, recorded.capabilities, lease.connection, Identities(tools))
    ensures var after := MarkMissing(recorded, lease.connection, Identities(tools)).capabilities;
      forall c | c in after && !Offers(tools, after[c].identity) :: c in before && LeftOut(before[c], after[c], lease.connection)
  {
    hide Identities, Offers;
    forall c | c in recorded.capabilities
      ensures recorded.capabilities[c].identity in Identities(tools) <==> Offers(tools, recorded.capabilities[c].identity)
    {
      OfferedIdentities(tools, recorded.capabilities[c].identity);
    }
  }

  // ---------- operator decisions ----------

  /** Nothing but this capability differs. */
  predicate OnlyCapability(t: Tables, after: Tables, id: Id) {
    && after == t.(capabilities := after.capabilities) && after.capabilities.Keys == t.capabilities.Keys
    && forall other | other in t.capabilities && other != id :: after.capabilities[other] == t.capabilities[other]
  }

  /**
    Approval is accepted exactly for the version up for decision of a capability that is not enabled,
    while that version is supported, qualified, bound to the verified version of an active
    connection without a pending one, and in its current snapshot.
  */
  lemma ApproveEffect(t: Tables, id: Id, version: Id)
    requires Inv(t)
    ensures EnableCapability(t, id, version).Ok? <==>
      && id in t.capabilities && version in t.versions
      && var row, v := t.capabilities[id], t.versions[version];
         && row.status != Enabled
         && (if row.pending.Some? then row.pending.value == version else row.enabled == Some(version))
         && v.capability == id && v.supported && v.protocol == "2025-06-18"
         && row.connection in t.connections
         && var server := t.connections[row.connection];
            && server.lifecycle == Active && server.pending.None? && server.verified == Some(v.connectionVersion)
            && server.snapshot.Some? && server.snapshot.value in t.snapshots
            && version in t.snapshots[server.snapshot.value].members
    ensures EnableCapability(t, id, version).Err? ==> EnableCapability(t, id, version).error == if id !in t.capabilities then NotFound else TransitionRejected
    ensures EnableCapability(t, id, version).Ok? ==>
      var after := EnableCapability(t, id, version).value;
      && OnlyCapability(t, after, id)
      && after.capabilities[id] == t.capabilities[id].(enabled := Some(version), pending := None, status := Enabled,
           statusEpoch := t.capabilities[id].statusEpoch + 1)
  {
    hide IdsUsed, ShapesFit, VersionsFit, IdentitiesUnique, ProjectionsFit, JobsFit, SnapshotsFit, SnapshotsUnique;
    if id in t.capabilities && t.capabilities[id].connection in t.connections {
      var c := t.capabilities[id].connection;
      assert ConnectionFits(t.connections[c], c, t.snapshots, t.nextId);
    }
  }

  /** Refusal is accepted exactly for the version up for decision of a capability that is not disabled. */
  lemma RefuseEffect(t: Tables, id: Id, version: Id)
    ensures DisableCapability(t, id, version).Ok? <==>
      && id in t.capabilities && t.capabilities[id].status != Disabled
      && (if t.capabilities[id].pending.Some? then t.capabilities[id].pending.value == version
          else t.capabilities[id].enabled == Some(version))
    ensures DisableCapability(t, id, version).Err? ==> DisableCapability(t, id, version).error == if id !in t.capabilities then NotFound else TransitionRejected
    ensures DisableCapability(t, id, version).Ok? ==>
      var after := DisableCapability(t, id, version).value;
      && OnlyCapability(t, after, id)
      && after.capabilities[id] == t.capabilities[id].(status := Disabled, statusEpoch := t.capabilities[id].statusEpoch + 1)
  {
  }
}
