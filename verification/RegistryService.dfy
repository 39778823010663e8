/**
  The registry's transactions as they run: rows are updated field by field in one session,
  and a publication records tool after tool. Every transaction is proved to have exactly the
  effect specified for it.
*/
module RegistryService {
  import opened Common
  import opened Queries
  import opened RegistryTypes
  import opened Registry
  import opened RegistryInvariant
  import opened RegistryPublication
  import opened RegistryProtocol

  class RegistryService {
    var nextId: Id
    var connections: map<Id, Connection>
    var capabilities: map<Id, Capability>
    var versions: map<Id, ToolVersion>
    var snapshots: map<Id, Snapshot>
    var jobs: map<Id, RefreshJob>

    constructor ()
      ensures View() == EMPTY && Settled()
    {
      nextId := 1;
      connections, capabilities, versions, snapshots, jobs := map[], map[], map[], map[], map[];
    }

    ghost function View(): Tables
      reads this
    {
      Tables(nextId, connections, capabilities, versions, snapshots, jobs)
    }

    /** Between transactions. */
    ghost predicate Settled()
      reads this
    {
      Inv(View())
    }

    // ---------- connections ----------

    method CreateServer() returns (id: Id)
      modifies this`nextId, this`connections
      ensures View() == CreateConnection(old(View())) && id == old(nextId)
    {
      id := nextId;
      var version := nextId + 1;
      nextId := nextId + 2;
      connections := connections[id := Connection(Verifying, Some(version), None, 0, 0, None, None, None)];
    }

    method ObsoleteRefreshJobs(connection: Id)
      modifies this`jobs
      ensures jobs == ObsoleteJobs(old(jobs), connection)
    {
      hide ObsoleteJobs, ObsoleteSome, Sorted;
      var outstanding := set id | id in jobs && jobs[id].connection == connection && jobs[id].Outstanding();
      var ids := Sorted(outstanding, map id | id in jobs :: 0);
      SortedElements(outstanding, map id | id in jobs :: 0);
      ObsoleteEnds(jobs, connection);
      ghost var before := jobs;
      for i := 0 to |ids|
        invariant jobs == ObsoleteSome(before, Elements(ids[..i]))
      {
        assert ids[i] in Elements(ids);
        ObsoleteNext(before, ids, i);
        var job := jobs[ids[i]];
        job := job.(status := RefreshObsolete);
        job := job.(owner := None, expiresAt := None);
        jobs := jobs[ids[i] := job];
      }
      assert ids[..|ids|] == ids;
    }

    method AppendServerVersion(id: Id) returns (reply: Outcome<Id, Rejection>)
      modifies this`nextId, this`connections, this`jobs
      ensures match AppendVersion(old(View()), id)
              case Err(error) => reply == Err(error) && View() == old(View())
              case Ok(tables) => reply == Ok(old(nextId)) && View() == tables
    {
      if id !in connections { return Err(NotFound); }
      if connections[id].lifecycle == Retired { return Err(TransitionRejected); }
      var version := nextId;
      nextId := nextId + 1;
      var row := connections[id];
      row := row.(pending := Some(version));
      row := row.(lifecycle := Verifying);
      row := row.(controlEpoch := row.controlEpoch + 1);
      row := row.(allocatedEpoch := None);
      row := row.(allocatedTarget := None);
      connections := connections[id := row];
      ObsoleteRefreshJobs(id);
      return Ok(version);
    }

    method DisableServer(id: Id) returns (reply: Outcome<(), Rejection>)
      modifies this`connections, this`jobs
      ensures match DisableConnection(old(View()), id)
              case Err(error) => reply == Err(error) && View() == old(View())
              case Ok(tables) => reply == Ok(()) && View() == tables
    {
      if id !in connections { return Err(NotFound); }
      if connections[id].lifecycle == Retired { return Err(TransitionRejected); }
      var row := connections[id];
      row := row.(lifecycle := Retired);
      row := row.(controlEpoch := row.controlEpoch + 1);
      row := row.(allocatedEpoch := None);
      row := row.(allocatedTarget := None);
      connections := connections[id := row];
      ObsoleteRefreshJobs(id);
      return Ok(());
    }

    method EnableServer(id: Id) returns (reply: Outcome<(), Rejection>)
      modifies this`connections
      ensures match EnableConnection(old(View()), id)
              case Err(error) => reply == Err(error) && View() == old(View())
              case Ok(tables) => reply == Ok(()) && View() == tables
    {
      if id !in connections { return Err(NotFound); }
      if connections[id].lifecycle != Retired { return Err(TransitionRejected); }
      var row := connections[id];
      row := row.(lifecycle := Verifying);
      row := row.(controlEpoch := row.controlEpoch + 1);
      row := row.(allocatedEpoch := None);
      row := row.(allocatedTarget := None);
      connections := connections[id := row];
      return Ok(());
    }

    // ---------- refresh jobs ----------

    method AllocateRefreshGeneration(id: Id) returns (reply: Outcome<(nat, nat, Id), Rejection>)
      modifies this`connections
      ensures if id !in old(connections) then reply == Err(NotFound) && connections == old(connections)
              else
                var row := old(connections)[id];
                if row.lifecycle == Retired || row.Target().None?
                then reply == Err(TransitionRejected) && connections == old(connections)
                else
                  && connections == old(connections)[id := Allocated(row)]
                  && reply == Ok((row.generation + 1, row.controlEpoch, row.Target().value))
    {
      if id !in connections { return Err(NotFound); }
      var row := connections[id];
      if row.lifecycle == Retired { return Err(TransitionRejected); }
      var target := if row.pending.Some? then row.pending else row.verified;
      if target.None? { return Err(TransitionRejected); }
      if row.pending.Some? && row.lifecycle == Degraded {
        row := row.(lifecycle := Verifying);
      }
      row := row.(generation := row.generation + 1);
      row := row.(allocatedEpoch := Some(row.controlEpoch));
      row := row.(allocatedTarget := target);
      connections := connections[id := row];
      return Ok((row.generation, row.controlEpoch, target.value));
    }

    method EnqueueRefresh(id: Id) returns (reply: Outcome<Id, Rejection>)
      modifies this`nextId, this`connections, this`jobs
      ensures match Enqueue(old(View()), id)
              case Err(error) => reply == Err(error) && View() == old(View())
              case Ok(tables) => reply == Ok(old(nextId)) && View() == tables
    {
      var allocation := AllocateRefreshGeneration(id);
      if allocation.Err? { return Err(allocation.error); }
      var (generation, controlEpoch, version) := allocation.value;
      ObsoleteRefreshJobs(id);
      var job := nextId;
      nextId := nextId + 1;
      jobs := jobs[job := RefreshJob(id, version, generation, controlEpoch, RefreshQueued, None, 0, None)];
      return Ok(job);
    }

    method ClaimRefreshJob(
      id: Id, worker: Id, duration: int, now: Time
    ) returns (reply: Outcome<RefreshLease, Rejection>)
      modifies this`jobs
      ensures match ClaimRefresh(old(View()), id, worker, duration, now)
              case Err(error) => reply == Err(error) && View() == old(View())
              case Ok((tables, lease)) => reply == Ok(lease) && View() == tables
    {
      if duration <= 0 { return Err(TransitionRejected); }
      if id !in jobs { return Err(NotFound); }
      var job := jobs[id];
      var reclaimable := job.status.RefreshQueued?
        || (job.status.RefreshLeased? && job.expiresAt.Some? && job.expiresAt.value <= now);
      if !reclaimable { return Err(TransitionRejected); }
      if job.connection !in connections
         || !Eligible(connections[job.connection], job.connectionVersion, job.controlEpoch, job.generation)
      {
        return Err(TransitionRejected);
      }
      job := job.(status := RefreshLeased);
      job := job.(owner := Some(worker));
      job := job.(leaseEpoch := job.leaseEpoch + 1);
      job := job.(expiresAt := Some(now + duration));
      jobs := jobs[id := job];
      return Ok(RefreshLease(id, worker, job.leaseEpoch, job.connection, job.connectionVersion, job.controlEpoch, job.generation));
    }

    method RenewRefreshLease(lease: RefreshLease, duration: int, now: Time) returns (reply: Outcome<(), Rejection>)
      modifies this`jobs
      ensures match RenewRefresh(old(View()), lease, duration, now)
              case Err(error) => reply == Err(error) && View() == old(View())
              case Ok(tables) => reply == Ok(()) && View() == tables
    {
      if duration <= 0 { return Err(TransitionRejected); }
      var held := LockedJob(lease);
      if !held || jobs[lease.job].expiresAt.value <= now { return Err(TransitionRejected); }
      var eligible := LockEligibleConnection(lease);
      if !eligible { return Err(TransitionRejected); }
      var job := jobs[lease.job];
      jobs := jobs[lease.job := job.(expiresAt := Some(Max(job.expiresAt.value, now + duration)))];
      return Ok(());
    }

    method LockedJob(lease: RefreshLease) returns (held: bool)
      ensures held == JobHeld(View(), lease)
    {
      if lease.job !in jobs { return false; }
      var job := jobs[lease.job];
      return
        && job.status.RefreshLeased?
        && job.owner == Some(lease.worker)
        && job.leaseEpoch == lease.leaseEpoch
        && job.connection == lease.connection
        && job.connectionVersion == lease.connectionVersion
        && job.controlEpoch == lease.controlEpoch
        && job.generation == lease.generation
        && job.expiresAt.Some?;
    }

    method LockEligibleConnection(lease: RefreshLease) returns (eligible: bool)
      ensures eligible == LeaseEligible(View(), lease)
    {
      if lease.connection !in connections { return false; }
      var row := connections[lease.connection];
      var target := if row.pending.Some? then row.pending else row.verified;
      return
        && row.lifecycle in {Verifying, Active, Degraded}
        && target == Some(lease.connectionVersion)
        && row.controlEpoch == lease.controlEpoch
        && row.generation == lease.generation
        && row.allocatedEpoch == Some(lease.controlEpoch)
        && row.allocatedTarget == Some(lease.connectionVersion);
    }

    method ValidateForContact(lease: RefreshLease, now: Time) returns (allowed: bool)
      ensures allowed == ContactAllowed(View(), lease, now)
    {
      var held := LockedJob(lease);
      if !held || jobs[lease.job].expiresAt.value <= now { return false; }
      allowed := LockEligibleConnection(lease);
    }

    // ---------- recording one observed tool ----------

    /** Candidates in preference order: the enabled version, the pending one, then the newest first. */
    method MatchingCurrentVersion(capability: Id, connectionVersion: Id, protocol: string, tool: Tool)
      returns (found: Option<Id>)
      requires capability in capabilities
      ensures found == MatchingVersion(View(), capability, connectionVersion, protocol, tool)
    {
      hide MatchingVersion, SameBinding, MatchingIds, CurrentIds, LatestFirst;
      var current := CurrentIds(capabilities[capability]);
      var rows := SameBinding(versions, capability, connectionVersion, protocol, tool);
      var older := set id | id in rows && id !in current;
      var historical := Sorted(older, LatestFirst(versions));
      var candidates := current + historical;
      ghost var matches := MatchingIds(View(), capability, connectionVersion, protocol, tool);
      CandidatesCover(View(), capability, connectionVersion, protocol, tool, current, historical);
      for i := 0 to |candidates|
        invariant forall j | 0 <= j < i :: candidates[j] !in matches
      {
        var id := candidates[i];
        RowMatches(View(), capability, connectionVersion, protocol, tool, id);
        if id in rows && versions[id].metadata.details == tool.metadata.details
           && versions[id].metadata.digest == tool.metadata.digest && versions[id].supported == tool.supported
        {
          ChosenIsPreferred(View(), capability, connectionVersion, protocol, tool, historical, i);
          return Some(id);
        }
      }
      NoneMatches(View(), capability, connectionVersion, protocol, tool, candidates);
      return None;
    }

    method RecordVersion(o: Observation, tool: Tool) returns (reply: Outcome<Id, Rejection>)
      requires Structure(View())
      modifies this`nextId, this`capabilities, this`versions
      ensures Structure(View())
      ensures match Record(old(View()), o, tool)
              case Err(error) => reply == Err(error) && View() == old(View())
              case Ok((tables, version)) => reply == Ok(version) && View() == tables
    {
      hide MatchingVersion, CapabilityOf, NextSequence, Structure, Extends, OnlyTouches, ObservedAs, Reconciled;
      if o.connection !in connections { return Err(NotFound); }
      var row := connections[o.connection];
      var target := if row.pending.Some? then row.pending else row.verified;
      if
        || row.lifecycle == Retired
        || target != Some(o.connectionVersion)
        || row.controlEpoch != o.controlEpoch
        || row.generation != o.generation
        || row.allocatedEpoch != Some(o.controlEpoch)
        || row.allocatedTarget != Some(o.connectionVersion)
      {
        return Err(TransitionRejected);
      }
      RecordKeeps(View(), o, tool);
      var known := CapabilityOf(Tables(nextId, connections, capabilities, versions, snapshots, jobs), o.connection, tool.identity);
      var capability: Id;
      var sequence := 1;
      if known.Some? {
        capability := known.value;
        var existing := MatchingCurrentVersion(capability, o.connectionVersion, o.protocol, tool);
        if existing.Some? {
          Reconcile(capability, existing.value);
          return Ok(existing.value);
        }
        sequence := NextSequence(Tables(nextId, connections, capabilities, versions, snapshots, jobs), capability);
      } else {
        FirstSequence(View(), nextId);
        capability := nextId;
        nextId := nextId + 1;
        capabilities := capabilities[capability := Capability(o.connection, tool.identity, None, None, PendingReview, 0)];
      }
      var version := nextId;
      nextId := nextId + 1;
      versions := versions[version := ToolVersion(capability, sequence, o.connection, o.connectionVersion, o.protocol,
                                                  tool.supported, tool.metadata)];
      var changed := capabilities[capability];
      changed := changed.(pending := Some(version));
      if changed.status != Disabled {
        changed := changed.(status := PendingReview);
      }
      changed := changed.(statusEpoch := changed.statusEpoch + 1);
      capabilities := capabilities[capability := changed];
      assert View() == Record(old(View()), o, tool).value.0;
      return Ok(version);
    }

    /** Bring a capability back in line with an already recorded version. */
    method Reconcile(id: Id, existing: Id)
      requires id in capabilities
      modifies this`capabilities
      ensures capabilities == old(capabilities)[id := Reconciled(old(capabilities)[id], existing)]
    {
      var row := capabilities[id];
      if row.enabled == Some(existing) && row.pending.Some? {
        row := row.(pending := None);
        if row.status != Disabled {
          row := row.(status := Enabled);
        }
        row := row.(statusEpoch := row.statusEpoch + 1);
      } else if row.enabled == Some(existing) && row.status == Unavailable {
        row := row.(status := Enabled);
        row := row.(statusEpoch := row.statusEpoch + 1);
      } else if row.status == Unavailable && row.pending == Some(existing) {
        row := row.(status := PendingReview);
        row := row.(statusEpoch := row.statusEpoch + 1);
      } else if row.enabled != Some(existing) && row.pending != Some(existing) {
        row := row.(pending := Some(existing));
        if row.status != Disabled {
          row := row.(status := PendingReview);
        }
        row := row.(statusEpoch := row.statusEpoch + 1);
      }
      capabilities := capabilities[id := row];
    }

    // ---------- publication ----------

    method MarkMissingUnavailable(connection: Id, observed: set<string>)
      modifies this`capabilities
      ensures View() == MarkMissing(old(View()), connection, observed)
    {
      hide MarkMissing, MarkSome, Sorted;
      var known := set id | id in capabilities && capabilities[id].connection == connection;
      var ids := Sorted(known, map id | id in capabilities :: 0);
      SortedElements(known, map id | id in capabilities :: 0);
      MarkEnds(View(), connection, observed);
      ghost var before := capabilities;
      for i := 0 to |ids|
        invariant capabilities == MarkSome(before, connection, observed, Elements(ids[..i]))
      {
        assert ids[i] in Elements(ids);
        MarkNext(before, connection, observed, ids, i);
        var row := capabilities[ids[i]];
        if row.identity in observed || row.status == Unavailable || row.status == Disabled {
          continue;
        }
        row := row.(status := Unavailable);
        row := row.(statusEpoch := row.statusEpoch + 1);
        capabilities := capabilities[ids[i] := row];
      }
      assert ids[..|ids|] == ids;
    }

    method PromotePendingVersion(o: Observation) returns (reply: Outcome<(), Rejection>)
      modifies this`connections
      ensures match PromotePending(old(View()), o)
              case Err(error) => reply == Err(error) && View() == old(View())
              case Ok(tables) => reply == Ok(()) && View() == tables
    {
      if o.connection !in connections { return Err(NotFound); }
      var row := connections[o.connection];
      var target := if row.pending.Some? then row.pending else row.verified;
      if
        || row.lifecycle != Verifying
        || target != Some(o.connectionVersion)
        || row.controlEpoch != o.controlEpoch
        || row.generation != o.generation
        || row.allocatedEpoch != Some(o.controlEpoch)
        || row.allocatedTarget != Some(o.connectionVersion)
      {
        return Err(TransitionRejected);
      }
      row := row.(verified := Some(o.connectionVersion));
      row := row.(pending := None);
      row := row.(lifecycle := Active);
      row := row.(allocatedEpoch := None);
      row := row.(allocatedTarget := None);
      connections := connections[o.connection := row];
      return Ok(());
    }

    method CompleteOrdinaryRefresh(o: Observation) returns (reply: Outcome<(), Rejection>)
      modifies this`connections
      ensures match CompleteRefresh(old(View()), o)
              case Err(error) => reply == Err(error) && View() == old(View())
              case Ok(tables) => reply == Ok(()) && View() == tables
    {
      if o.connection !in connections { return Err(NotFound); }
      var row := connections[o.connection];
      if
        || row.lifecycle !in {Verifying, Active, Degraded}
        || row.pending.Some?
        || row.verified != Some(o.connectionVersion)
        || row.controlEpoch != o.controlEpoch
        || row.generation != o.generation
        || row.allocatedEpoch != Some(o.controlEpoch)
        || row.allocatedTarget != Some(o.connectionVersion)
      {
        return Err(TransitionRejected);
      }
      row := row.(lifecycle := Active);
      row := row.(allocatedEpoch := None);
      row := row.(allocatedTarget := None);
      connections := connections[o.connection := row];
      return Ok(());
    }

    method PublishListing(lease: RefreshLease, listing: Listing, now: Time) returns (reply: Outcome<Id, Rejection>)
      requires Settled()
      modifies this
      ensures Settled()
      ensures match PublishSuccess(old(View()), lease, listing, now)
              case Err(error) => reply == Err(error) && View() == old(View())
              case Ok(tables) => reply == Ok(old(nextId)) && View() == tables
    {
      hide Inv, PublishedFrom, Record, RecordAll, MarkMissing, PromotePending, CompleteRefresh, Eligible, Identities;
      var held := LockedJob(lease);
      if !held || jobs[lease.job].expiresAt.value <= now { return Err(TransitionRejected); }
      var eligible := LockEligibleConnection(lease);
      if !eligible { return Err(TransitionRejected); }
      PublishKeeps(View(), lease, listing, now);
      var snapshot := nextId;
      nextId := nextId + 1;
      var o := ObservationOf(lease, listing.protocol);
      Started(old(View()), lease, listing.protocol);
      var members := RecordTools(o, listing.tools);
      MarkMissingUnavailable(lease.connection, Identities(listing.tools));
      if connections[lease.connection].pending.Some? {
        var promoted := PromotePendingVersion(o);
      } else {
        var completed := CompleteOrdinaryRefresh(o);
      }
      connections := connections[lease.connection := connections[lease.connection].(snapshot := Some(snapshot))];
      snapshots := snapshots[snapshot := Snapshot(o.connection, o.connectionVersion, o.generation, o.controlEpoch, members)];
      var job := jobs[lease.job];
      job := job.(status := RefreshSucceeded);
      job := job.(owner := None, expiresAt := None);
      jobs := jobs[lease.job := job];
      return Ok(snapshot);
    }

    /** The loop over the listing; it stops at a rejection that the caller's checks rule out. */
    method RecordTools(o: Observation, tools: seq<Tool>) returns (members: set<Id>)
      requires Structure(View()) && RecordAll(View(), o, tools).Ok?
      modifies this`nextId, this`capabilities, this`versions
      ensures RecordAll(old(View()), o, tools) == Ok((View(), members))
    {
      hide Record, Structure;
      members := {};
      for i := 0 to |tools|
        invariant Structure(View())
        invariant RecordAll(old(View()), o, tools[..i]) == Ok((View(), members))
      {
        PrefixRecorded(old(View()), o, tools, i + 1);
        assert tools[..i + 1][..i] == tools[..i];
        var version := RecordVersion(o, tools[i]);
        members := members + {version.value};
      }
      assert tools[..|tools|] == tools;
    }

    method PublishRefreshFailure(lease: RefreshLease, now: Time) returns (reply: Outcome<(), Rejection>)
      modifies this`connections, this`jobs
      ensures match PublishFailure(old(View()), lease, now)
              case Err(error) => reply == Err(error) && View() == old(View())
              case Ok(tables) => reply == Ok(()) && View() == tables
    {
      var held := LockedJob(lease);
      if !held || jobs[lease.job].expiresAt.value <= now { return Err(TransitionRejected); }
      var eligible := LockEligibleConnection(lease);
      if !eligible { return Err(TransitionRejected); }
      var row := connections[lease.connection];
      row := row.(lifecycle := Degraded);
      row := row.(allocatedEpoch := None);
      row := row.(allocatedTarget := None);
      connections := connections[lease.connection := row];
      var job := jobs[lease.job];
      job := job.(status := RefreshFailed);
      job := job.(owner := None, expiresAt := None);
      jobs := jobs[lease.job := job];
      return Ok(());
    }

    // ---------- operator decisions ----------

    method Enable(id: Id, expected: Id) returns (reply: Outcome<(), Rejection>)
      modifies this`capabilities
      ensures match EnableCapability(old(View()), id, expected)
              case Err(error) => reply == Err(error) && View() == old(View())
              case Ok(tables) => reply == Ok(()) && View() == tables
    {
      if id !in capabilities { return Err(NotFound); }
      var row := capabilities[id];
      var decision := if row.pending.Some? then row.pending else row.enabled;
      if decision != Some(expected) || row.status == Enabled { return Err(TransitionRejected); }
      var bound := expected in versions && versions[expected].capability == id;
      var observed := false;
      if bound && row.connection in connections && connections[row.connection].snapshot.Some? {
        var snapshot := connections[row.connection].snapshot.value;
        observed := snapshot in snapshots
          && snapshots[snapshot].connection == row.connection
          && snapshots[snapshot].connectionVersion == versions[expected].connectionVersion
          && expected in snapshots[snapshot].members;
      }
      if
        || !bound
        || !versions[expected].supported
        || row.connection !in connections
        || !observed
        || versions[expected].protocol != QUALIFIED_PROTOCOL_REVISION
        || connections[row.connection].lifecycle != Active
        || connections[row.connection].pending.Some?
        || connections[row.connection].verified != Some(versions[expected].connectionVersion)
      {
        return Err(TransitionRejected);
      }
      row := row.(enabled := Some(expected));
      row := row.(pending := None);
      row := row.(status := Enabled);
      row := row.(statusEpoch := row.statusEpoch + 1);
      capabilities := capabilities[id := row];
      return Ok(());
    }

    method Disable(id: Id, expected: Id) returns (reply: Outcome<(), Rejection>)
      modifies this`capabilities
      ensures match DisableCapability(old(View()), id, expected)
              case Err(error) => reply == Err(error) && View() == old(View())
              case Ok(tables) => reply == Ok(()) && View() == tables
    {
      if id !in capabilities { return Err(NotFound); }
      var row := capabilities[id];
      var decision := if row.pending.Some? then row.pending else row.enabled;
      if row.status == Disabled || decision.None? || decision != Some(expected) { return Err(TransitionRejected); }
      row := row.(status := Disabled);
      row := row.(statusEpoch := row.statusEpoch + 1);
      capabilities := capabilities[id := row];
      return Ok(());
    }
  }

  // ---------- facts the loops need ----------

  function ObsoleteSome(jobs: map<Id, RefreshJob>, done: set<Id>): map<Id, RefreshJob> {
    map id | id in jobs :: if id in done then Obsoleted(jobs[id]) else jobs[id]
  }

  lemma ObsoleteEnds(jobs: map<Id, RefreshJob>, connection: Id)
    ensures ObsoleteSome(jobs, Elements([])) == jobs
    ensures ObsoleteSome(jobs, set id | id in jobs && jobs[id].connection == connection && jobs[id].Outstanding())
         == ObsoleteJobs(jobs, connection)
  {
  }

  lemma ObsoleteNext(jobs: map<Id, RefreshJob>, ids: seq<Id>, i: nat)
    requires i < |ids| && ids[i] in jobs && forall a, b | 0 <= a < b < |ids| :: ids[a] != ids[b]
    ensures ids[i] in ObsoleteSome(jobs, Elements(ids[..i])) && ObsoleteSome(jobs, Elements(ids[..i]))[ids[i]] == jobs[ids[i]]
    ensures ObsoleteSome(jobs, Elements(ids[..i]))[ids[i] := Obsoleted(jobs[ids[i]])]
         == ObsoleteSome(jobs, Elements(ids[..i + 1]))
  {
    assert Elements(ids[..i + 1]) == Elements(ids[..i]) + {ids[i]};
    assert ids[i] !in Elements(ids[..i]);
  }

  function MarkSome(
    capabilities: map<Id, Capability>, connection: Id, observed: set<string>, done: set<Id>
  ): map<Id, Capability>
  {
    map id | id in capabilities :: if id in done then Marked(capabilities[id], connection, observed) else capabilities[id]
  }

  lemma MarkEnds(t: Tables, connection: Id, observed: set<string>)
    ensures MarkSome(t.capabilities, connection, observed, Elements([])) == t.capabilities
    ensures t.(capabilities := MarkSome(t.capabilities, connection, observed,
                 set id | id in t.capabilities && t.capabilities[id].connection == connection))
         == MarkMissing(t, connection, observed)
  {
  }

  lemma MarkNext(capabilities: map<Id, Capability>, connection: Id, observed: set<string>, ids: seq<Id>, i: nat)
    requires i < |ids| && ids[i] in capabilities && forall a, b | 0 <= a < b < |ids| :: ids[a] != ids[b]
    ensures ids[i] in MarkSome(capabilities, connection, observed, Elements(ids[..i]))
    ensures MarkSome(capabilities, connection, observed, Elements(ids[..i]))[ids[i]] == capabilities[ids[i]]
    ensures var before, after := MarkSome(capabilities, connection, observed, Elements(ids[..i])),
                                 MarkSome(capabilities, connection, observed, Elements(ids[..i + 1]));
      && after == before[ids[i] := Marked(capabilities[ids[i]], connection, observed)]
      && (Marked(capabilities[ids[i]], connection, observed) == capabilities[ids[i]] ==> after == before)
  {
    assert Elements(ids[..i + 1]) == Elements(ids[..i]) + {ids[i]};
    assert ids[i] !in Elements(ids[..i]);
  }

  /** The versions an operator's decisions refer to, the enabled one first. */
  function CurrentIds(row: Capability): seq<Id> {
    (if row.enabled.Some? then [row.enabled.value] else []) + (if row.pending.Some? then [row.pending.value] else [])
  }

  /** Versions of the capability with this digest and this tool binding. */
  function SameBinding(
    versions: map<Id, ToolVersion>, capability: Id, connectionVersion: Id, protocol: string, tool: Tool
  ): (rows: set<Id>)
    ensures rows <= versions.Keys
  {
    set id | id in versions
      && versions[id].capability == capability
      && versions[id].metadata.digest == tool.metadata.digest
      && versions[id].connectionVersion == connectionVersion
      && versions[id].metadata.toolName == tool.metadata.toolName
      && versions[id].protocol == protocol
  }

  lemma RowMatches(t: Tables, capability: Id, connectionVersion: Id, protocol: string, tool: Tool, id: Id)
    ensures id in MatchingIds(t, capability, connectionVersion, protocol, tool) <==>
      && id in SameBinding(t.versions, capability, connectionVersion, protocol, tool)
      && t.versions[id].metadata.details == tool.metadata.details
      && t.versions[id].supported == tool.supported
    ensures id in SameBinding(t.versions, capability, connectionVersion, protocol, tool) ==>
      t.versions[id].metadata.digest == tool.metadata.digest
  {
  }

  lemma CandidatesCover(
    t: Tables, capability: Id, connectionVersion: Id, protocol: string, tool: Tool, current: seq<Id>, historical: seq<Id>
  )
    requires var older := set id | id in SameBinding(t.versions, capability, connectionVersion, protocol, tool) && id !in current;
      older <= LatestFirst(t.versions).Keys && historical == Sorted(older, LatestFirst(t.versions))
    ensures forall v | v in MatchingIds(t, capability, connectionVersion, protocol, tool) :: v in current || v in historical
    ensures forall a | 0 <= a < |historical| :: historical[a] in t.versions
    ensures forall a, b | 0 <= a < b < |historical| :: Before(LatestFirst(t.versions), historical[a], historical[b])
  {
    hide SameBinding, MatchingIds;
    var older := set id | id in SameBinding(t.versions, capability, connectionVersion, protocol, tool) && id !in current;
    SortedElements(older, LatestFirst(t.versions));
    SortedOrder(older, LatestFirst(t.versions));
    forall v | v in MatchingIds(t, capability, connectionVersion, protocol, tool) ensures v in current || v in historical {
      RowMatches(t, capability, connectionVersion, protocol, tool, v);
      if v !in current { assert v in Elements(historical); }
    }
    forall a | 0 <= a < |historical| ensures historical[a] in t.versions {
      assert historical[a] in Elements(historical);
    }
  }

  lemma NoneMatches(t: Tables, capability: Id, connectionVersion: Id, protocol: string, tool: Tool, candidates: seq<Id>)
    requires capability in t.capabilities
    requires var matches := MatchingIds(t, capability, connectionVersion, protocol, tool);
      && (forall v | v in matches :: v in candidates)
      && (forall j | 0 <= j < |candidates| :: candidates[j] !in matches)
    ensures MatchingVersion(t, capability, connectionVersion, protocol, tool) == None
  {
    hide MatchingIds;
  }

  /** The first match in preference order is the version the specification names. */
  lemma ChosenIsPreferred(
    t: Tables, capability: Id, connectionVersion: Id, protocol: string, tool: Tool, historical: seq<Id>, i: nat
  )
    requires capability in t.capabilities
    requires forall a | 0 <= a < |historical| :: historical[a] in t.versions
    requires forall a, b | 0 <= a < b < |historical| :: Before(LatestFirst(t.versions), historical[a], historical[b])
    requires var matches := MatchingIds(t, capability, connectionVersion, protocol, tool);
      var current := CurrentIds(t.capabilities[capability]);
      var candidates := current + historical;
      && (forall v | v in matches :: v in current || v in historical)
      && i < |candidates| && candidates[i] in matches
      && (forall j | 0 <= j < i :: candidates[j] !in matches)
    ensures MatchingVersion(t, capability, connectionVersion, protocol, tool)
         == Some((CurrentIds(t.capabilities[capability]) + historical)[i])
  {
    hide Matches;
    var matches := MatchingIds(t, capability, connectionVersion, protocol, tool);
    var current := CurrentIds(t.capabilities[capability]);
    var candidates := current + historical;
    if i < |current| {
      assert candidates[0] == current[0];
      assert i == 1 ==> candidates[1] == current[1];
    } else {
      var chosen := candidates[i];
      forall v | v in current ensures v !in matches {
        var j :| 0 <= j < |current| && current[j] == v;
        assert candidates[j] == v;
      }
      assert t.capabilities[capability].enabled.Some? ==> current[0] == t.capabilities[capability].enabled.value;
      assert t.capabilities[capability].pending.Some? ==> current[|current| - 1] == t.capabilities[capability].pending.value;
      assert chosen == historical[i - |current|];
      forall v | v in matches ensures !Before(LatestFirst(t.versions), v, chosen) {
        var j :| 0 <= j < |historical| && historical[j] == v;
        assert candidates[|current| + j] == v;
      }
      FirstIsUnique(matches, LatestFirst(t.versions), chosen);
    }
  }

  lemma FirstSequence(t: Tables, capability: Id)
    requires Structure(t) && capability == t.nextId
    ensures NextSequence(t, capability) == 1
  {
    assert VersionsOf(t, capability) == {};
  }

  lemma {:induction false} PrefixRecorded(t: Tables, o: Observation, tools: seq<Tool>, n: nat)
    requires n <= |tools| && RecordAll(t, o, tools).Ok?
    ensures RecordAll(t, o, tools[..n]).Ok?
    decreases |tools|
  {
    if n == |tools| {
      assert tools[..n] == tools;
    } else {
      assert tools[..|tools| - 1][..n] == tools[..n];
      PrefixRecorded(t, o, tools[..|tools| - 1], n);
    }
  }
}
