/**
  The registry as a transition system: operators, refresh workers with arbitrarily stale
  leases, and publications, in any interleaving. Each step is one transaction; a step that
  is refused changes nothing.
*/
module RegistryProtocol {
  import opened Common
  import opened RegistryTypes
  import opened Registry
  import opened RegistryInvariant
  import opened RegistryPublication

  /** A normalized listing: tool identities do not repeat. */
  type Listing = result: DiscoveryResult | result.WellFormed() witness DiscoveryResult([], "")

  datatype Step =
    | Create
    | Append(connection: Id)
    | DisableServer(connection: Id)
    | EnableServer(connection: Id)
    | Refresh(connection: Id)
    | Claim(job: Id, worker: Id, duration: int)
    | Renew(lease: RefreshLease, duration: int)
    | Publish(lease: RefreshLease, listing: Listing)
    | Fail(lease: RefreshLease)
    | Approve(capability: Id, version: Id)
    | Refuse(capability: Id, version: Id)

  /** A step together with the clock reading its transaction saw. */
  datatype Timed = Timed(step: Step, now: Time)

  function Reply(t: Tables, timed: Timed): Outcome<Tables, Rejection> {
    match timed.step
    case Create => Ok(CreateConnection(t))
    case Append(connection) => AppendVersion(t, connection)
    case DisableServer(connection) => DisableConnection(t, connection)
    case EnableServer(connection) => EnableConnection(t, connection)
    case Refresh(connection) => Enqueue(t, connection)
    case Claim(job, worker, duration) =>
      (match ClaimRefresh(t, job, worker, duration, timed.now)
       case Err(error) => Err(error)
       case Ok(claimed) => Ok(claimed.0))
    case Renew(lease, duration) => RenewRefresh(t, lease, duration, timed.now)
    case Publish(lease, listing) => PublishSuccess(t, lease, listing, timed.now)
    case Fail(lease) => PublishFailure(t, lease, timed.now)
    case Approve(capability, version) => EnableCapability(t, capability, version)
    case Refuse(capability, version) => DisableCapability(t, capability, version)
  }

  function Apply(t: Tables, timed: Timed): Tables {
    match Reply(t, timed)
    case Err(_) => t
    case Ok(after) => after
  }

  function Exec(t: Tables, steps: seq<Timed>): Tables
    decreases |steps|
  {
    if steps == [] then t else Apply(Exec(t, steps[..|steps| - 1]), steps[|steps| - 1])
  }

  const EMPTY := Tables(1, map[], map[], map[], map[], map[])

  /** The last decision an operator made on a capability in a run, if any was accepted. */
  function LastDecision(t: Tables, steps: seq<Timed>, capability: Id): Decision
    decreases |steps|
  {
    if steps == [] then Undecided
    else
      var before, last := steps[..|steps| - 1], steps[|steps| - 1];
      if Reply(Exec(t, before), last).Err? then LastDecision(t, before, capability)
      else
        match last.step
        case Approve(c, version) => if c == capability then Approved(version) else LastDecision(t, before, capability)
        case Refuse(c, _) => if c == capability then Refused else LastDecision(t, before, capability)
        case _ => LastDecision(t, before, capability)
  }

  // ---------- the invariant over every run ----------

  lemma StepKeepsInv(t: Tables, timed: Timed)
    requires Inv(t)
    ensures Inv(Apply(t, timed))
  {
    hide Inv, AppendVersion, DisableConnection, EnableConnection, CreateConnection, Enqueue, ClaimRefresh, RenewRefresh,
         PublishSuccess, PublishFailure, EnableCapability, DisableCapability;
    if Reply(t, timed).Ok? {
      match timed.step
      case Create => CreateKeeps(t);
      case Append(connection) => AppendKeeps(t, connection);
      case DisableServer(connection) => DisableKeeps(t, connection);
      case EnableServer(connection) => EnableKeeps(t, connection);
      case Refresh(connection) => EnqueueKeeps(t, connection);
      case Claim(job, worker, duration) => ClaimKeeps(t, job, worker, duration, timed.now);
      case Renew(lease, duration) => RenewKeeps(t, lease, duration, timed.now);
      case Publish(lease, listing) => PublicationKeeps(t, lease, listing, timed.now);
      case Fail(lease) => FailureKeeps(t, lease, timed.now);
      case Approve(capability, version) => EnableCapabilityKeeps(t, capability, version);
      case Refuse(capability, version) => DisableCapabilityKeeps(t, capability, version);
    }
  }

  lemma PublicationKeeps(t: Tables, lease: RefreshLease, listing: Listing, now: Time)
    requires Inv(t) && PublishSuccess(t, lease, listing, now).Ok?
    ensures JobActive(t, lease, now) && LeaseEligible(t, lease)
    ensures var after := PublishSuccess(t, lease, listing, now).value;
      Inv(after) && PublishedFrom(t, after, lease, listing)
  {
    hide Inv, PublishedFrom, RecordAll, MarkMissing, Conclude, Eligible;
    PublishKeeps(t, lease, listing, now);
  }

  lemma {:induction false} ExecKeepsInv(t: Tables, steps: seq<Timed>)
    requires Inv(t)
    ensures Inv(Exec(t, steps))
    decreases |steps|
  {
    hide Inv, Apply;
    if steps != [] {
      ExecKeepsInv(t, steps[..|steps| - 1]);
      StepKeepsInv(Exec(t, steps[..|steps| - 1]), steps[|steps| - 1]);
    }
  }

  lemma EmptyFits()
    ensures Inv(EMPTY) && EMPTY.capabilities == map[]
  {
  }

  /** Every state a registry reaches from nothing. */
  lemma ReachedFits(steps: seq<Timed>)
    ensures Inv(Exec(EMPTY, steps))
  {
    EmptyFits();
    ExecKeepsInv(EMPTY, steps);
  }

  lemma {:induction false} ExecConcat(t: Tables, first: seq<Timed>, second: seq<Timed>)
    ensures Exec(t, first + second) == Exec(Exec(t, first), second)
    decreases |second|
  {
    hide Apply;
    if second == [] {
      assert first + second == first;
    } else {
      var all := first + second;
      assert all[..|all| - 1] == first + second[..|second| - 1];
      ExecConcat(t, first, second[..|second| - 1]);
    }
  }

  // ---------- statuses agree with the current snapshot ----------

  /**
    In every reachable state the verified version is the one the current snapshot observed, an
    enabled or pending capability's decision version is in that snapshot, an unavailable one
    has no version in it, and an enabled version is bound to the verified connection version.
  */
  lemma StatusAgreesWithSnapshot(steps: seq<Timed>, c: Id)
    requires c in Exec(EMPTY, steps).capabilities
    ensures var t := Exec(EMPTY, steps);
      var row := t.capabilities[c];
      && row.connection in t.connections
      && var server := t.connections[row.connection];
         && (server.verified.Some? <==> server.snapshot.Some?)
         && (server.snapshot.Some? ==>
               && server.snapshot.value in t.snapshots
               && Some(t.snapshots[server.snapshot.value].connectionVersion) == server.verified)
         && (row.status == Enabled || row.status == PendingReview ==>
               && row.Decision().Some?
               && server.verified.Some?
               && View(t).Observed(row.connection, server.verified.value, row.Decision().value))
         && (row.status == Enabled ==>
               && row.enabled.Some? && row.enabled.value in t.versions
               && Some(t.versions[row.enabled.value].connectionVersion) == server.verified)
         && (row.status == Unavailable && server.snapshot.Some? ==>
               forall v | v in t.snapshots[server.snapshot.value].members ::
                 v in t.versions && t.versions[v].capability != c)
  {
    hide Exec, JobsFit, IdentitiesUnique, SnapshotsUnique, VersionsFit, IdsUsed;
    ReachedFits(steps);
    var t := Exec(EMPTY, steps);
    var row := t.capabilities[c];
    assert Shape(row, c, t.versions);
    assert Projected(row, c, Members(t.connections, t.snapshots, row.connection), t.versions);
    var server := t.connections[row.connection];
    assert ConnectionFits(server, row.connection, t.snapshots, t.nextId);
    if server.snapshot.Some? {
      assert SnapshotFits(t.snapshots[server.snapshot.value], t.connections, t.snapshots, t.versions);
    }
  }

  // ---------- approval is never inherited ----------

  /** A capability row and what its operators last decided. */
  predicate ApprovalFits(row: Capability, decision: Decision) {
    && (row.status == Disabled <==> decision == Refused)
    && (decision == Undecided ==> row.enabled.None?)
    && (decision.Approved? ==> row.enabled == Some(decision.version))
  }

  predicate Decides(step: Step, capability: Id) {
    (step.Approve? || step.Refuse?) && step.capability == capability
  }

  /** No discovery, refresh or connection step touches approval, refusal or identity. */
  lemma OtherStepsKeep(t: Tables, timed: Timed, c: Id)
    requires Inv(t) && !Decides(timed.step, c)
    ensures var after := Apply(t, timed);
      && (c in t.capabilities ==> c in after.capabilities && Kept(t.capabilities[c], after.capabilities[c]))
      && (c in after.capabilities && c !in t.capabilities ==> Unapproved(after.capabilities[c]))
  {
    hide Inv, PublishSuccess, Eligible, JobHeld, ObsoleteJobs;
    if Reply(t, timed).Ok? {
      match timed.step
      case Publish(lease, listing) => PublicationKeeps(t, lease, listing, timed.now);
      case _ =>
    }
  }

  lemma {:induction false} Approvals(t: Tables, steps: seq<Timed>, c: Id)
    requires Inv(t) && t.capabilities == map[]
    ensures c in Exec(t, steps).capabilities ==> ApprovalFits(Exec(t, steps).capabilities[c], LastDecision(t, steps, c))
    ensures c !in Exec(t, steps).capabilities ==> LastDecision(t, steps, c) == Undecided
    decreases |steps|
  {
    hide Inv, Reply;
    if steps != [] {
      var before, last := steps[..|steps| - 1], steps[|steps| - 1];
      Approvals(t, before, c);
      ExecKeepsInv(t, before);
      if Decides(last.step, c) {
        DecisionStep(Exec(t, before), last, c);
      } else {
        OtherStepsKeep(Exec(t, before), last, c);
      }
    }
  }

  /** An accepted decision is what the row then says. */
  lemma DecisionStep(t: Tables, timed: Timed, c: Id)
    requires Decides(timed.step, c)
    ensures Reply(t, timed).Err? ==> Apply(t, timed) == t
    ensures Reply(t, timed).Ok? ==>
      && c in t.capabilities && c in Apply(t, timed).capabilities
      && ApprovalFits(Apply(t, timed).capabilities[c], if timed.step.Approve? then Approved(timed.step.version) else Refused)
  {
  }

  /**
    A capability is enabled exactly when the last accepted operator decision approved its
    enabled version, nothing newer is pending, and the current snapshot holds that version; it
    is disabled exactly when that decision was a refusal; and one nobody decided on has no
    enabled version.
  */
  lemma ApprovalIsNeverInherited(steps: seq<Timed>, c: Id)
    requires c in Exec(EMPTY, steps).capabilities
    ensures var t := Exec(EMPTY, steps);
      var row, decision := t.capabilities[c], LastDecision(EMPTY, steps, c);
      && (row.status == Enabled <==>
            && decision.Approved? && row.enabled == Some(decision.version) && row.pending.None?
            && decision.version in Members(t.connections, t.snapshots, row.connection))
      && (row.status == Disabled <==> decision == Refused)
      && (decision == Undecided ==> row.enabled.None? && row.status in {PendingReview, Unavailable})
  {
    hide Exec, LastDecision, Members, JobsFit, SnapshotsFit, ConnectionsFit, IdentitiesUnique, SnapshotsUnique,
         VersionsFit, IdsUsed;
    EmptyFits();
    ReachedFits(steps);
    Approvals(EMPTY, steps, c);
    var t := Exec(EMPTY, steps);
    assert Shape(t.capabilities[c], c, t.versions);
    assert Projected(t.capabilities[c], c, Members(t.connections, t.snapshots, t.capabilities[c].connection), t.versions);
  }

  // ---------- refresh fencing ----------

  /**
    In every reachable state a connection has at most one queued or leased refresh job; it has
    one exactly when it holds an allocation; and the job's generation, control epoch and target
    are the connection's.
  */
  lemma OneOutstandingJob(steps: seq<Timed>, connection: Id)
    requires connection in Exec(EMPTY, steps).connections
    ensures var t := Exec(EMPTY, steps);
      var row := t.connections[connection];
      && (forall a, b | a in t.jobs && b in t.jobs && t.jobs[a].Outstanding() && t.jobs[b].Outstanding()
            && t.jobs[a].connection == connection && t.jobs[b].connection == connection :: a == b)
      && (row.allocatedEpoch.Some? <==> HasJob(t.jobs, connection))
      && (row.allocatedEpoch.Some? <==> row.allocatedTarget.Some?)
      && (forall j | j in t.jobs && t.jobs[j].connection == connection && t.jobs[j].Outstanding() ::
            && t.jobs[j].generation == row.generation
            && t.jobs[j].controlEpoch == row.controlEpoch
            && Some(t.jobs[j].connectionVersion) == row.Target())
  {
    hide Exec, ShapesFit, ProjectionsFit, SnapshotsFit, VersionsFit, IdentitiesUnique, SnapshotsUnique, IdsUsed;
    ReachedFits(steps);
    var t := Exec(EMPTY, steps);
    assert ConnectionFits(t.connections[connection], connection, t.snapshots, t.nextId);
    forall j | j in t.jobs && t.jobs[j].connection == connection && t.jobs[j].Outstanding()
      ensures t.jobs[j].generation == t.connections[connection].generation
      ensures t.jobs[j].controlEpoch == t.connections[connection].controlEpoch
      ensures Some(t.jobs[j].connectionVersion) == t.connections[connection].Target()
      ensures t.connections[connection].allocatedEpoch.Some?
    {
      assert JobFits(t.jobs[j], t.connections);
    }
  }

  /** A publication is accepted exactly when the lease and the connection pass the first checks. */
  lemma PublicationDecided(steps: seq<Timed>, lease: RefreshLease, listing: Listing, now: Time)
    ensures var t := Exec(EMPTY, steps);
      PublishSuccess(t, lease, listing, now).Ok? <==> ContactAllowed(t, lease, now)
  {
    hide Exec, Inv, PublishedFrom, RecordAll, MarkMissing, Conclude, Eligible;
    ReachedFits(steps);
    var t := Exec(EMPTY, steps);
    if ContactAllowed(t, lease, now) { PublishKeeps(t, lease, listing, now); }
  }

  /** The allocation or the job behind a lease is gone for good. */
  predicate Stale(t: Tables, lease: RefreshLease) {
    || (lease.connection in t.connections
        && (t.connections[lease.connection].controlEpoch > lease.controlEpoch
            || t.connections[lease.connection].generation > lease.generation
            || (t.connections[lease.connection].generation == lease.generation
                && t.connections[lease.connection].allocatedEpoch.None?)))
    || (lease.job in t.jobs && (t.jobs[lease.job].leaseEpoch > lease.leaseEpoch || !t.jobs[lease.job].Outstanding()))
  }

  /** Epochs and generations only grow, and a consumed allocation is only replaced by a newer one. */
  predicate ConnectionEvolves(before: Connection, after: Connection) {
    && before.controlEpoch <= after.controlEpoch
    && before.generation <= after.generation
    && (before.allocatedEpoch.None? && after.allocatedEpoch.Some? ==> before.generation < after.generation)
  }

  predicate JobEvolves(before: RefreshJob, after: RefreshJob) {
    && before.leaseEpoch <= after.leaseEpoch
    && (after.Outstanding() ==> before.Outstanding())
  }

  predicate Evolves(t: Tables, after: Tables) {
    && (forall c | c in t.connections :: c in after.connections && ConnectionEvolves(t.connections[c], after.connections[c]))
    && (forall j | j in t.jobs :: j in after.jobs && JobEvolves(t.jobs[j], after.jobs[j]))
  }

  lemma StepEvolves(t: Tables, timed: Timed)
    requires Inv(t)
    ensures Evolves(t, Apply(t, timed))
  {
    hide Inv, Evolves, AppendVersion, DisableConnection, EnableConnection, CreateConnection, Enqueue, ClaimRefresh, RenewRefresh,
         PublishSuccess, PublishFailure, EnableCapability, DisableCapability;
    Unchanged(t);
    if Reply(t, timed).Ok? {
      match timed.step
      case Publish(lease, listing) => PublishEvolves(t, lease, listing, timed.now);
      case Approve(c, v) => DecisionsEvolve(t, timed);
      case Refuse(c, v) => DecisionsEvolve(t, timed);
      case Claim(_, _, _) => JobStepsEvolve(t, timed);
      case Renew(_, _) => JobStepsEvolve(t, timed);
      case Fail(_) => JobStepsEvolve(t, timed);
      case _ => ConnectionStepsEvolve(t, timed);
    }
  }

  lemma Unchanged(t: Tables)
    ensures Evolves(t, t)
  {
  }

  lemma PublishEvolves(t: Tables, lease: RefreshLease, listing: Listing, now: Time)
    requires Inv(t) && PublishSuccess(t, lease, listing, now).Ok?
    ensures Evolves(t, PublishSuccess(t, lease, listing, now).value)
  {
    hide Inv, PublishSuccess, VersionsExtend, CapabilitiesExtend;
    PublicationKeeps(t, lease, listing, now);
  }

  lemma JobStepsEvolve(t: Tables, timed: Timed)
    requires timed.step.Claim? || timed.step.Renew? || timed.step.Fail?
    ensures Evolves(t, Apply(t, timed))
  {
  }

  lemma ConnectionStepsEvolve(t: Tables, timed: Timed)
    requires Inv(t)
    requires timed.step.Create? || timed.step.Append? || timed.step.DisableServer? || timed.step.EnableServer? || timed.step.Refresh?
    ensures Evolves(t, Apply(t, timed))
  {
    hide ShapesFit, ProjectionsFit, ConnectionsFit, SnapshotsFit, VersionsFit, IdentitiesUnique, SnapshotsUnique,
         JobsFit;
  }

  lemma DecisionsEvolve(t: Tables, timed: Timed)
    requires timed.step.Approve? || timed.step.Refuse?
    ensures Evolves(t, Apply(t, timed))
  {
    hide Evolves;
    Unchanged(t);
    var c, v := timed.step.capability, timed.step.version;
    DecisionsLeaveRefreshes(t, c, v);
    SameRowsEvolve(t, Apply(t, timed));
  }

  lemma SameRowsEvolve(t: Tables, after: Tables)
    requires after.connections == t.connections && after.jobs == t.jobs
    ensures Evolves(t, after)
  {
  }

  lemma DecisionsLeaveRefreshes(t: Tables, c: Id, v: Id)
    ensures EnableCapability(t, c, v).Ok? ==>
      EnableCapability(t, c, v).value.connections == t.connections && EnableCapability(t, c, v).value.jobs == t.jobs
    ensures DisableCapability(t, c, v).Ok? ==>
      DisableCapability(t, c, v).value.connections == t.connections && DisableCapability(t, c, v).value.jobs == t.jobs
  {
  }

  lemma {:induction false} StaysStale(t: Tables, later: seq<Timed>, lease: RefreshLease)
    requires Inv(t) && Stale(t, lease)
    ensures Stale(Exec(t, later), lease)
    decreases |later|
  {
    hide Inv, Apply;
    if later != [] {
      var before := later[..|later| - 1];
      StaysStale(t, before, lease);
      ExecKeepsInv(t, before);
      StepEvolves(Exec(t, before), later[|later| - 1]);
      assert lease.connection in Exec(t, before).connections || lease.job in Exec(t, before).jobs;
    }
  }

  lemma StaleIsRefused(t: Tables, lease: RefreshLease, listing: Listing, duration: int, now: Time)
    requires Stale(t, lease)
    ensures !ContactAllowed(t, lease, now)
    ensures RenewRefresh(t, lease, duration, now).Err?
    ensures PublishSuccess(t, lease, listing, now).Err?
    ensures PublishFailure(t, lease, now).Err?
  {
    hide RecordAll, MarkMissing, Conclude;
  }

  /** A lease that went stale never contacts the server, renews or publishes again, whatever happens later. */
  lemma StaleLeaseNeverActs(
    steps: seq<Timed>, later: seq<Timed>, lease: RefreshLease, listing: Listing, duration: int, now: Time
  )
    requires Stale(Exec(EMPTY, steps), lease)
    ensures var t := Exec(EMPTY, steps + later);
      && !ContactAllowed(t, lease, now)
      && RenewRefresh(t, lease, duration, now).Err?
      && PublishSuccess(t, lease, listing, now).Err?
      && PublishFailure(t, lease, now).Err?
  {
    hide Exec, Stale, Inv;
    ReachedFits(steps);
    ExecConcat(EMPTY, steps, later);
    StaysStale(Exec(EMPTY, steps), later, lease);
    StaleIsRefused(Exec(EMPTY, steps + later), lease, listing, duration, now);
  }

  /** Claiming, or anything that ends or replaces an allocation, makes the earlier leases stale. */
  lemma WhatMakesStale(t: Tables, timed: Timed, lease: RefreshLease)
    requires Inv(t) && JobHeld(t, lease) && LeaseEligible(t, lease) && Reply(t, timed).Ok?
    requires
      || (timed.step.Claim? && timed.step.job == lease.job)
      || ((timed.step.Append? || timed.step.DisableServer? || timed.step.Refresh?) && timed.step.connection == lease.connection)
      || ((timed.step.Publish? || timed.step.Fail?) && timed.step.lease.connection == lease.connection)
    ensures Stale(Apply(t, timed), lease)
  {
    hide ShapesFit, ProjectionsFit, ConnectionsFit, SnapshotsFit, VersionsFit, IdentitiesUnique, SnapshotsUnique, JobsFit,
         PublishSuccess, EnableCapability, DisableCapability, VersionsExtend, CapabilitiesExtend;
    if timed.step.Publish? { PublicationKeeps(t, timed.step.lease, timed.step.listing, timed.now); }
  }

  /** Of two publications of a connection in one run, the later has the greater generation. */
  lemma GenerationsIncrease(steps: seq<Timed>, i: nat, j: nat)
    requires i < j < |steps| && steps[i].step.Publish? && steps[j].step.Publish?
    requires steps[i].step.lease.connection == steps[j].step.lease.connection
    requires Reply(Exec(EMPTY, steps[..i]), steps[i]).Ok? && Reply(Exec(EMPTY, steps[..j]), steps[j]).Ok?
    ensures steps[i].step.lease.generation < steps[j].step.lease.generation
  {
    hide Inv, Exec, PublishSuccess;
    var first, second := steps[i].step.lease, steps[j].step.lease;
    ReachedFits(steps[..i]);
    ReachedFits(steps[..i + 1]);
    ReachedFits(steps[..j]);
    assert steps[..i + 1][..i] == steps[..i];
    ExecLast(EMPTY, steps[..i + 1]);
    PublicationKeeps(Exec(EMPTY, steps[..i]), first, steps[i].step.listing, steps[i].now);
    PublicationKeeps(Exec(EMPTY, steps[..j]), second, steps[j].step.listing, steps[j].now);
    assert steps[..j] == steps[..i + 1] + steps[i + 1..j];
    ExecConcat(EMPTY, steps[..i + 1], steps[i + 1..j]);
    ConnectionsEvolve(Exec(EMPTY, steps[..i + 1]), steps[i + 1..j], first.connection);
  }

  lemma ExecLast(t: Tables, steps: seq<Timed>)
    requires steps != []
    ensures Exec(t, steps) == Apply(Exec(t, steps[..|steps| - 1]), steps[|steps| - 1])
  {
  }

  lemma {:induction false} ConnectionsEvolve(t: Tables, steps: seq<Timed>, c: Id)
    requires Inv(t) && c in t.connections
    ensures c in Exec(t, steps).connections && ConnectionEvolves(t.connections[c], Exec(t, steps).connections[c])
    decreases |steps|
  {
    hide Inv, Apply;
    if steps != [] {
      var before := steps[..|steps| - 1];
      ConnectionsEvolve(t, before, c);
      ExecKeepsInv(t, before);
      StepEvolves(Exec(t, before), steps[|steps| - 1]);
    }
  }
}
