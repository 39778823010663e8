/** A publication keeps the registry invariant, and cannot fail once its lease is accepted. */
module RegistryPublication {
  import opened Common
  import opened RegistryTypes
  import opened Registry
  import opened RegistryInvariant

  /** The part of the invariant that holds between the records of one publication. */
  predicate Structure(t: Tables) {
    && IdsUsed(t)
    && ShapesFit(t.capabilities, t.versions, t.connections.Keys)
    && VersionsFit(t.versions, t.capabilities)
    && IdentitiesUnique(t.capabilities)
  }

  /** A row survives an observation with its approval and its refusal untouched. */
  predicate Kept(before: Capability, after: Capability) {
    && after.connection == before.connection
    && after.identity == before.identity
    && after.enabled == before.enabled
    && (after.status == Disabled <==> before.status == Disabled)
    && (after == before || after.statusEpoch > before.statusEpoch)
  }

  predicate Unapproved(row: Capability) {
    row.enabled.None? && row.status != Disabled
  }

  predicate CapabilitiesExtend(before: Capabilities, after: Capabilities) {
    && (forall c | c in before :: c in after && Kept(before[c], after[c]))
    && (forall c | c in after && c !in before :: Unapproved(after[c]))
  }

  predicate VersionsExtend(before: Versions, after: Versions) {
    forall v | v in before :: v in after && after[v] == before[v]
  }

  predicate Extends(before: Tables, after: Tables) {
    && after.connections == before.connections
    && after.snapshots == before.snapshots
    && after.jobs == before.jobs
    && before.nextId <= after.nextId
    && VersionsExtend(before.versions, after.versions)
    && CapabilitiesExtend(before.capabilities, after.capabilities)
  }

  /** Only rows of these identities of the connection are new or changed. */
  predicate OnlyTouches(before: Capabilities, after: Capabilities, connection: Id, identities: set<string>) {
    forall c | c in after && !(after[c].connection == connection && after[c].identity in identities) ::
      c in before && before[c] == after[c]
  }

  /** The version was observed for this identity, and the status of its capability says so. */
  predicate ObservedAs(capabilities: Capabilities, versions: Versions, o: Observation, identity: string, v: Id) {
    && v in versions
    && versions[v].connection == o.connection
    && versions[v].connectionVersion == o.connectionVersion
    && versions[v].capability in capabilities
    && var row := capabilities[versions[v].capability];
       && row.connection == o.connection
       && row.identity == identity
       && row.status != Unavailable
       && (row.status == Enabled ==> row.enabled == Some(v) && row.pending.None?)
       && (row.status == PendingReview ==> row.pending == Some(v))
  }

  // ---------- one record ----------

  /** All five reconciliation cases: the version becomes the decision of whatever is not disabled. */
  lemma ReconciledDecides(row: Capability, id: Id, versions: Versions, existing: Id)
    requires Shape(row, id, versions) && existing in versions && versions[existing].capability == id
    ensures var after := Reconciled(row, existing);
      && Shape(after, id, versions)
      && Kept(row, after)
      && after.status != Unavailable
      && (after.status == Enabled ==> after.enabled == Some(existing) && after.pending.None?)
      && (after.status == PendingReview ==> after.pending == Some(existing))
      && (row.status != Disabled ==> after.status == if row.enabled == Some(existing) then Enabled else PendingReview)
      && (row.status == Disabled && row.pending != Some(existing) ==> after.Decision() == Some(existing))
  {
  }

  /** One capability row written, with at most new versions of that capability. */
  lemma ChangeKeeps(t: Tables, t': Tables, c: Id, row: Capability)
    requires Structure(t)
    requires t' == t.(nextId := t'.nextId, capabilities := t.capabilities[c := row], versions := t'.versions)
    requires t.nextId <= t'.nextId && c < t'.nextId
    requires row.connection in t.connections
    requires VersionsExtend(t.versions, t'.versions)
    requires forall v | v in t'.versions && v !in t.versions ::
               v < t'.nextId && t'.versions[v].capability == c && t'.versions[v].connection == row.connection
    requires c in t.capabilities ==> row.connection == t.capabilities[c].connection && row.identity == t.capabilities[c].identity
    requires c !in t.capabilities ==> CapabilityOf(t, row.connection, row.identity).None?
    requires Shape(row, c, t'.versions)
    ensures Structure(t')
  {
    hide ShapesFit, VersionsFit, IdentitiesUnique, CapabilityOf;
    ChangedShapesFit(t, t', c, row);
    ChangedVersionsFit(t, t', c, row);
    ChangedIdentitiesUnique(t, c, row);
  }

  lemma ChangedShapesFit(t: Tables, t': Tables, c: Id, row: Capability)
    requires ShapesFit(t.capabilities, t.versions, t.connections.Keys)
    requires t'.connections == t.connections && t'.capabilities == t.capabilities[c := row]
    requires row.connection in t.connections && VersionsExtend(t.versions, t'.versions) && Shape(row, c, t'.versions)
    ensures ShapesFit(t'.capabilities, t'.versions, t'.connections.Keys)
  {
    forall a | a in t'.capabilities
      ensures t'.capabilities[a].connection in t'.connections && Shape(t'.capabilities[a], a, t'.versions)
    {
      if a != c { assert Shape(t.capabilities[a], a, t.versions); }
    }
  }

  lemma ChangedVersionsFit(t: Tables, t': Tables, c: Id, row: Capability)
    requires VersionsFit(t.versions, t.capabilities) && VersionsExtend(t.versions, t'.versions)
    requires t'.capabilities == t.capabilities[c := row]
    requires c in t.capabilities ==> row.connection == t.capabilities[c].connection
    requires forall v | v in t'.versions && v !in t.versions ::
               t'.versions[v].capability == c && t'.versions[v].connection == row.connection
    ensures VersionsFit(t'.versions, t'.capabilities)
  {
  }

  lemma ChangedIdentitiesUnique(t: Tables, c: Id, row: Capability)
    requires IdentitiesUnique(t.capabilities)
    requires c in t.capabilities ==> row.connection == t.capabilities[c].connection && row.identity == t.capabilities[c].identity
    requires c !in t.capabilities ==> CapabilityOf(t, row.connection, row.identity).None?
    ensures IdentitiesUnique(t.capabilities[c := row])
  {
  }

  lemma RecordKeeps(t: Tables, o: Observation, tool: Tool)
    requires Structure(t) && RecordingAllowed(t, o)
    ensures Record(t, o, tool).Ok?
    ensures var (after, v) := Record(t, o, tool).value;
      && Structure(after)
      && Extends(t, after)
      && OnlyTouches(t.capabilities, after.capabilities, o.connection, {tool.identity})
      && ObservedAs(after.capabilities, after.versions, o, tool.identity, v)
  {
    hide Structure, MatchingVersion, NextSequence;
    match CapabilityOf(t, o.connection, tool.identity)
    case None => InsertedKeeps(t, o, tool);
    case Some(c) =>
      match MatchingVersion(t, c, o.connectionVersion, o.protocol, tool)
      case Some(existing) => ReusedKeeps(t, o, tool, c, existing);
      case None => ProposedKeeps(t, o, tool, c);
  }

  lemma InsertedKeeps(t: Tables, o: Observation, tool: Tool)
    requires Structure(t) && RecordingAllowed(t, o) && CapabilityOf(t, o.connection, tool.identity).None?
    ensures var (after, v) := Record(t, o, tool).value;
      && Structure(after)
      && Extends(t, after)
      && OnlyTouches(t.capabilities, after.capabilities, o.connection, {tool.identity})
      && ObservedAs(after.capabilities, after.versions, o, tool.identity, v)
  {
    hide ShapesFit, VersionsFit, IdentitiesUnique, CapabilityOf, NextSequence;
    var after := Record(t, o, tool).value.0;
    ChangeKeeps(t, after, t.nextId, after.capabilities[t.nextId]);
  }

  lemma ReusedKeeps(t: Tables, o: Observation, tool: Tool, c: Id, existing: Id)
    requires Structure(t) && RecordingAllowed(t, o) && CapabilityOf(t, o.connection, tool.identity) == Some(c)
    requires MatchingVersion(t, c, o.connectionVersion, o.protocol, tool) == Some(existing)
    ensures var (after, v) := Record(t, o, tool).value;
      && Structure(after)
      && Extends(t, after)
      && OnlyTouches(t.capabilities, after.capabilities, o.connection, {tool.identity})
      && ObservedAs(after.capabilities, after.versions, o, tool.identity, v)
  {
    hide IdentitiesUnique, CapabilityOf, MatchingVersion, Reconciled, IdsUsed;
    var after := Record(t, o, tool).value.0;
    assert Shape(t.capabilities[c], c, t.versions);
    ReconciledDecides(t.capabilities[c], c, t.versions, existing);
    UsedId(t, c);
    ChangeKeeps(t, after, c, after.capabilities[c]);
  }

  lemma UsedId(t: Tables, c: Id)
    requires IdsUsed(t) && c in t.capabilities
    ensures c < t.nextId
  {
  }

  lemma ProposedKeeps(t: Tables, o: Observation, tool: Tool, c: Id)
    requires Structure(t) && RecordingAllowed(t, o) && CapabilityOf(t, o.connection, tool.identity) == Some(c)
    requires MatchingVersion(t, c, o.connectionVersion, o.protocol, tool) == None
    ensures var (after, v) := Record(t, o, tool).value;
      && Structure(after)
      && Extends(t, after)
      && OnlyTouches(t.capabilities, after.capabilities, o.connection, {tool.identity})
      && ObservedAs(after.capabilities, after.versions, o, tool.identity, v)
  {
    hide VersionsFit, IdentitiesUnique, CapabilityOf, MatchingVersion, NextSequence;
    var after := Record(t, o, tool).value.0;
    assert Shape(t.capabilities[c], c, t.versions);
    ChangeKeeps(t, after, c, after.capabilities[c]);
  }

  // ---------- all records of a publication ----------

  predicate Witnessed(t: Tables, o: Observation, identity: string, members: set<Id>) {
    exists v :: v in members && ObservedAs(t.capabilities, t.versions, o, identity, v)
  }

  predicate MemberOf(t: Tables, o: Observation, identities: set<string>, v: Id) {
    exists identity :: identity in identities && ObservedAs(t.capabilities, t.versions, o, identity, v)
  }

  /** The collected versions are exactly the observations of these identities. */
  predicate Covered(t: Tables, o: Observation, identities: set<string>, members: set<Id>) {
    && (forall identity | identity in identities :: Witnessed(t, o, identity, members))
    && (forall v | v in members :: MemberOf(t, o, identities, v))
  }

  lemma ExtendsTransitive(a: Tables, b: Tables, c: Tables)
    requires Extends(a, b) && Extends(b, c)
    ensures Extends(a, c)
  {
    forall x | x in a.capabilities ensures x in c.capabilities && Kept(a.capabilities[x], c.capabilities[x]) {
      assert Kept(a.capabilities[x], b.capabilities[x]) && Kept(b.capabilities[x], c.capabilities[x]);
    }
    forall x | x in c.capabilities && x !in a.capabilities ensures Unapproved(c.capabilities[x]) {
      if x in b.capabilities { assert Kept(b.capabilities[x], c.capabilities[x]); }
    }
  }

  lemma TouchesTransitive(
    a: Capabilities, b: Capabilities, c: Capabilities, connection: Id, first: set<string>, second: set<string>
  )
    requires OnlyTouches(a, b, connection, first) && OnlyTouches(b, c, connection, second)
    ensures OnlyTouches(a, c, connection, first + second)
  {
  }

  lemma ObservationStays(t: Tables, t': Tables, o: Observation, identity: string, v: Id, touched: string)
    requires Extends(t, t') && OnlyTouches(t.capabilities, t'.capabilities, o.connection, {touched})
    requires identity != touched
    requires ObservedAs(t.capabilities, t.versions, o, identity, v)
    ensures ObservedAs(t'.capabilities, t'.versions, o, identity, v)
  {
    var c := t.versions[v].capability;
    assert Kept(t.capabilities[c], t'.capabilities[c]);
  }

  lemma WitnessStays(t: Tables, t': Tables, o: Observation, identity: string, members: set<Id>, touched: string, v: Id)
    requires Extends(t, t') && OnlyTouches(t.capabilities, t'.capabilities, o.connection, {touched})
    requires identity != touched
    requires Witnessed(t, o, identity, members)
    ensures Witnessed(t', o, identity, members + {v})
  {
    hide Extends, OnlyTouches, ObservedAs;
    var w :| w in members && ObservedAs(t.capabilities, t.versions, o, identity, w);
    ObservationStays(t, t', o, identity, w, touched);
    assert w in members + {v};
  }

  lemma MemberStays(t: Tables, t': Tables, o: Observation, identities: set<string>, v: Id, touched: string)
    requires Extends(t, t') && OnlyTouches(t.capabilities, t'.capabilities, o.connection, {touched})
    requires touched !in identities
    requires MemberOf(t, o, identities, v)
    ensures MemberOf(t', o, identities + {touched}, v)
  {
    hide Extends, OnlyTouches, ObservedAs;
    var identity :| identity in identities && ObservedAs(t.capabilities, t.versions, o, identity, v);
    ObservationStays(t, t', o, identity, v, touched);
    assert identity in identities + {touched};
  }

  lemma CoverGrows(
    t: Tables, t': Tables, o: Observation, identities: set<string>, members: set<Id>, identity: string, v: Id
  )
    requires Covered(t, o, identities, members) && identity !in identities
    requires Extends(t, t') && OnlyTouches(t.capabilities, t'.capabilities, o.connection, {identity})
    requires ObservedAs(t'.capabilities, t'.versions, o, identity, v)
    ensures Covered(t', o, identities + {identity}, members + {v})
  {
    hide Extends, OnlyTouches, ObservedAs, Witnessed, MemberOf;
    NewlyCovered(t', o, identities, members, identity, v);
    forall i | i in identities ensures Witnessed(t', o, i, members + {v}) {
      WitnessStays(t, t', o, i, members, identity, v);
    }
    forall w | w in members ensures MemberOf(t', o, identities + {identity}, w) {
      MemberStays(t, t', o, identities, w, identity);
    }
  }

  lemma NewlyCovered(t: Tables, o: Observation, identities: set<string>, members: set<Id>, identity: string, v: Id)
    requires ObservedAs(t.capabilities, t.versions, o, identity, v)
    ensures Witnessed(t, o, identity, members + {v}) && MemberOf(t, o, identities + {identity}, v)
  {
    hide ObservedAs;
    assert v in members + {v} && identity in identities + {identity};
  }

  lemma IdentitiesOfLast(tools: seq<Tool>)
    requires tools != [] && DiscoveryResult(tools, "").WellFormed()
    ensures Identities(tools) == Identities(tools[..|tools| - 1]) + {tools[|tools| - 1].identity}
    ensures tools[|tools| - 1].identity !in Identities(tools[..|tools| - 1])
    ensures DiscoveryResult(tools[..|tools| - 1], "").WellFormed()
  {
    var last := |tools| - 1;
    forall i | 0 <= i < |tools|
      ensures tools[i].identity in Identities(tools[..last]) + {tools[last].identity}
    {
      if i < last { assert tools[..last][i] == tools[i]; }
    }
  }

  /** Recording a whole listing never fails and covers exactly its identities. */
  lemma {:induction false} RecordAllKeeps(t: Tables, o: Observation, tools: seq<Tool>)
    requires Structure(t) && RecordingAllowed(t, o) && DiscoveryResult(tools, "").WellFormed()
    ensures RecordAll(t, o, tools).Ok?
    ensures var (after, members) := RecordAll(t, o, tools).value;
      && Structure(after)
      && Extends(t, after)
      && OnlyTouches(t.capabilities, after.capabilities, o.connection, Identities(tools))
      && Covered(after, o, Identities(tools), members)
  {
    hide Structure, Covered, OnlyTouches, ObservedAs, Record, VersionsExtend, CapabilitiesExtend, Identities;
    if tools == [] {
      NothingRecorded(t, o);
    } else {
      var tool := tools[|tools| - 1];
      IdentitiesOfLast(tools);
      RecordAllKeeps(t, o, tools[..|tools| - 1]);
      var (before, members) := RecordAll(t, o, tools[..|tools| - 1]).value;
      RecordKeeps(before, o, tool);
      var (after, v) := Record(before, o, tool).value;
      ExtendsTransitive(t, before, after);
      TouchesTransitive(t.capabilities, before.capabilities, after.capabilities, o.connection,
                        Identities(tools[..|tools| - 1]), {tool.identity});
      CoverGrows(before, after, o, Identities(tools[..|tools| - 1]), members, tool.identity, v);
    }
  }

  lemma NothingRecorded(t: Tables, o: Observation)
    ensures Extends(t, t) && OnlyTouches(t.capabilities, t.capabilities, o.connection, Identities([]))
    ensures Covered(t, o, Identities([]), {})
  {
    assert Identities([]) == {};
  }

  // ---------- the publication ----------

  /** The versions and rows recorded for the snapshot decide every status once the rest is marked missing. */
  lemma MarkedProjections(t: Tables, o: Observation, identities: set<string>, members: set<Id>)
    requires Structure(t) && Covered(t, o, identities, members)
    ensures var after := MarkMissing(t, o.connection, identities);
      forall c | c in after.capabilities && after.capabilities[c].connection == o.connection ::
        Projected(after.capabilities[c], c, members, after.versions)
  {
    hide IdsUsed, VersionsFit, ShapesFit, Witnessed, MemberOf;
    var after := MarkMissing(t, o.connection, identities);
    forall c | c in after.capabilities && after.capabilities[c].connection == o.connection
      ensures Projected(after.capabilities[c], c, members, after.versions)
    {
      MarkedProjection(t, o, identities, members, c);
    }
  }

  lemma MarkedProjection(t: Tables, o: Observation, identities: set<string>, members: set<Id>, c: Id)
    requires Structure(t) && Covered(t, o, identities, members)
    requires c in t.capabilities && t.capabilities[c].connection == o.connection
    ensures var after := MarkMissing(t, o.connection, identities);
      Projected(after.capabilities[c], c, members, after.versions)
  {
    hide IdsUsed, VersionsFit, ShapesFit;
    var row := t.capabilities[c];
    if row.identity in identities {
      assert Witnessed(t, o, row.identity, members);
      var v :| v in members && ObservedAs(t.capabilities, t.versions, o, row.identity, v);
      assert t.versions[v].capability == c;
    }
    forall v | v in members ensures v in t.versions && (t.versions[v].capability == c ==> row.identity in identities && row.status != Unavailable) {
      assert MemberOf(t, o, identities, v);
    }
  }

  /** Marking changes statuses to unavailable and nothing else. */
  lemma MarkKeeps(t: Tables, connection: Id, observed: set<string>)
    requires Structure(t)
    ensures var after := MarkMissing(t, connection, observed);
      Structure(after) && Extends(t, after)
  {
    hide ShapesFit;
    MarkedShapesFit(t, connection, observed);
  }

  lemma MarkedShapesFit(t: Tables, connection: Id, observed: set<string>)
    requires ShapesFit(t.capabilities, t.versions, t.connections.Keys)
    ensures ShapesFit(MarkMissing(t, connection, observed).capabilities, t.versions, t.connections.Keys)
  {
    var after := MarkMissing(t, connection, observed);
    forall c | c in after.capabilities
      ensures after.capabilities[c].connection in after.connections && Shape(after.capabilities[c], c, after.versions)
    {
      assert Shape(t.capabilities[c], c, t.versions);
    }
  }

  lemma MarkTouches(before: Capabilities, t: Tables, connection: Id, observed: set<string>)
    requires OnlyTouches(before, t.capabilities, connection, observed)
    ensures forall c | c in t.capabilities && t.capabilities[c].connection != connection ::
              c in before && MarkMissing(t, connection, observed).capabilities[c] == before[c]
  {
  }

  /** Whether the connection was pending or merely refreshed, the guard that ends a publication holds. */
  lemma ConcludeSucceeds(t: Tables, o: Observation, job: Id, snapshot: Id, members: set<Id>)
    requires o.connection in t.connections && job in t.jobs
    requires ConnectionFits(t.connections[o.connection], o.connection, t.snapshots, t.nextId)
    requires Eligible(t.connections[o.connection], o.connectionVersion, o.controlEpoch, o.generation)
    ensures Conclude(t, o, job, snapshot, members).Ok?
    ensures Conclude(t, o, job, snapshot, members).value ==
      t.(connections := t.connections[o.connection := t.connections[o.connection].(
           verified := Some(o.connectionVersion), pending := None, lifecycle := Active,
           allocatedEpoch := None, allocatedTarget := None, snapshot := Some(snapshot))],
         snapshots := t.snapshots[snapshot := Snapshot(o.connection, o.connectionVersion, o.generation, o.controlEpoch, members)],
         jobs := t.jobs[job := Closed(t.jobs[job], RefreshSucceeded)])
  {
  }

  function Published(row: Connection, version: Id, snapshot: Id): Connection {
    row.(verified := Some(version), pending := None, lifecycle := Active,
         allocatedEpoch := None, allocatedTarget := None, snapshot := Some(snapshot))
  }

  lemma PublishedConnectionsFit(t: Tables, id: Id, s: Id, snapshot: Snapshot, nextId: Id)
    requires ConnectionsFit(t.connections, t.snapshots, t.nextId) && t.nextId <= nextId
    requires id in t.connections && snapshot.connection == id && s !in t.snapshots
    requires Some(snapshot.connectionVersion) == t.connections[id].Target()
    ensures ConnectionsFit(t.connections[id := Published(t.connections[id], snapshot.connectionVersion, s)],
                           t.snapshots[s := snapshot], nextId)
  {
    var after := t.connections[id := Published(t.connections[id], snapshot.connectionVersion, s)];
    forall c | c in after ensures ConnectionFits(after[c], c, t.snapshots[s := snapshot], nextId) {
      assert ConnectionFits(t.connections[c], c, t.snapshots, t.nextId);
    }
  }

  lemma PublishedSnapshotsFit(t: Tables, id: Id, s: Id, snapshot: Snapshot, versions: Versions)
    requires SnapshotsFit(t.snapshots, t.connections, t.versions)
    requires id in t.connections && snapshot.connection == id && s !in t.snapshots
    requires snapshot.generation == t.connections[id].generation && t.connections[id].allocatedEpoch.Some?
    requires VersionsExtend(t.versions, versions)
    requires forall v | v in snapshot.members ::
               v in versions && versions[v].connection == id && versions[v].connectionVersion == snapshot.connectionVersion
    ensures var connections := t.connections[id := Published(t.connections[id], snapshot.connectionVersion, s)];
      SnapshotsFit(t.snapshots[s := snapshot], connections, versions)
  {
    var connections := t.connections[id := Published(t.connections[id], snapshot.connectionVersion, s)];
    var snapshots := t.snapshots[s := snapshot];
    forall x | x in snapshots ensures SnapshotFits(snapshots[x], connections, snapshots, versions) {
      if x != s { assert SnapshotFits(t.snapshots[x], t.connections, t.snapshots, t.versions); }
    }
  }

  lemma PublishedSnapshotsUnique(t: Tables, id: Id, s: Id, snapshot: Snapshot)
    requires SnapshotsFit(t.snapshots, t.connections, t.versions) && SnapshotsUnique(t.snapshots)
    requires id in t.connections && snapshot.connection == id && s !in t.snapshots
    requires snapshot.generation == t.connections[id].generation && t.connections[id].allocatedEpoch.Some?
    ensures SnapshotsUnique(t.snapshots[s := snapshot])
  {
    forall x | x in t.snapshots && t.snapshots[x].connection == id
      ensures t.snapshots[x].generation < snapshot.generation
    {
      assert SnapshotFits(t.snapshots[x], t.connections, t.snapshots, t.versions);
    }
  }

  lemma PublishedProjectionsFit(t: Tables, after: Tables, id: Id, s: Id, snapshot: Snapshot)
    requires ProjectionsFit(t.capabilities, t.versions, t.connections, t.snapshots)
    requires ConnectionsFit(t.connections, t.snapshots, t.nextId)
    requires id in t.connections && s !in t.snapshots && VersionsExtend(t.versions, after.versions)
    requires after.connections == t.connections[id := Published(t.connections[id], snapshot.connectionVersion, s)]
    requires after.snapshots == t.snapshots[s := snapshot]
    requires forall c | c in after.capabilities && after.capabilities[c].connection == id ::
               Projected(after.capabilities[c], c, snapshot.members, after.versions)
    requires forall c | c in after.capabilities && after.capabilities[c].connection != id ::
               c in t.capabilities && after.capabilities[c] == t.capabilities[c]
    ensures ProjectionsFit(after.capabilities, after.versions, after.connections, after.snapshots)
  {
    forall c | c in after.capabilities
      ensures Projected(after.capabilities[c], c, Members(after.connections, after.snapshots, after.capabilities[c].connection), after.versions)
    {
      if after.capabilities[c].connection != id {
        assert Projected(t.capabilities[c], c, Members(t.connections, t.snapshots, t.capabilities[c].connection), t.versions);
        if t.capabilities[c].connection in t.connections {
          assert ConnectionFits(t.connections[t.capabilities[c].connection], t.capabilities[c].connection, t.snapshots, t.nextId);
        }
      }
    }
  }

  lemma MembersBound(t: Tables, o: Observation, identities: set<string>, members: set<Id>)
    requires Covered(t, o, identities, members)
    ensures forall v | v in members :: v in t.versions && t.versions[v].connection == o.connection
              && t.versions[v].connectionVersion == o.connectionVersion
  {
    forall v | v in members
      ensures v in t.versions && t.versions[v].connection == o.connection && t.versions[v].connectionVersion == o.connectionVersion
    {
      assert MemberOf(t, o, identities, v);
    }
  }

  /** What a publication leaves behind. */
  predicate PublishedFrom(t: Tables, after: Tables, lease: RefreshLease, result: DiscoveryResult)
    requires lease.connection in t.connections && lease.job in t.jobs
  {
    && t.nextId < after.nextId
    && VersionsExtend(t.versions, after.versions)
    && CapabilitiesExtend(t.capabilities, after.capabilities)
    && after.connections == t.connections[lease.connection := Published(t.connections[lease.connection], lease.connectionVersion, t.nextId)]
    && t.nextId in after.snapshots
    && after.snapshots == t.snapshots[t.nextId :=
         Snapshot(lease.connection, lease.connectionVersion, lease.generation, lease.controlEpoch, after.snapshots[t.nextId].members)]
    && after.jobs == t.jobs[lease.job := Closed(t.jobs[lease.job], RefreshSucceeded)]
    && (forall c | c in after.capabilities && after.capabilities[c].connection != lease.connection ::
          c in t.capabilities && after.capabilities[c] == t.capabilities[c])
  }

  lemma Started(t: Tables, lease: RefreshLease, protocol: string)
    requires Inv(t) && LeaseEligible(t, lease)
    ensures Structure(t.(nextId := t.nextId + 1)) && RecordingAllowed(t.(nextId := t.nextId + 1), ObservationOf(lease, protocol))
  {
    hide ShapesFit, VersionsFit, IdentitiesUnique, ProjectionsFit, ConnectionsFit, JobsFit, SnapshotsFit,
         SnapshotsUnique;
  }

  lemma MarkedFrom(start: Tables, recorded: Tables, o: Observation, identities: set<string>, members: set<Id>)
    requires Structure(recorded) && Extends(start, recorded) && Covered(recorded, o, identities, members)
    requires OnlyTouches(start.capabilities, recorded.capabilities, o.connection, identities)
    ensures var marked := MarkMissing(recorded, o.connection, identities);
      && Structure(marked)
      && Extends(start, marked)
      && (forall c | c in marked.capabilities && marked.capabilities[c].connection == o.connection ::
            Projected(marked.capabilities[c], c, members, marked.versions))
      && (forall c | c in marked.capabilities && marked.capabilities[c].connection != o.connection ::
            c in start.capabilities && marked.capabilities[c] == start.capabilities[c])
      && (forall v | v in members :: v in marked.versions && marked.versions[v].connection == o.connection
            && marked.versions[v].connectionVersion == o.connectionVersion)
  {
    hide Structure, Covered, OnlyTouches, VersionsExtend, CapabilitiesExtend;
    MarkKeeps(recorded, o.connection, identities);
    ExtendsTransitive(start, recorded, MarkMissing(recorded, o.connection, identities));
    MarkedProjections(recorded, o, identities, members);
    MarkTouches(start.capabilities, recorded, o.connection, identities);
    MembersBound(recorded, o, identities, members);
  }

  /**
    Once the lease and the connection pass their checks, no later step of the publication can be
    refused, and the new snapshot, statuses and allocation agree with each other.
  */
  lemma PublishKeeps(t: Tables, lease: RefreshLease, result: DiscoveryResult, now: Time)
    requires Inv(t) && result.WellFormed() && JobActive(t, lease, now) && LeaseEligible(t, lease)
    ensures PublishSuccess(t, lease, result, now).Ok?
    ensures var after := PublishSuccess(t, lease, result, now).value;
      Inv(after) && PublishedFrom(t, after, lease, result)
  {
    hide IdsUsed, ShapesFit, VersionsFit, IdentitiesUnique, ProjectionsFit, ConnectionsFit, JobsFit, SnapshotsFit, SnapshotsUnique,
         Covered, OnlyTouches, VersionsExtend, CapabilitiesExtend, RecordAll, Identities, MarkMissing, Projected, Conclude, ConnectionFits,
         RecordingAllowed;
    var o := ObservationOf(lease, result.protocol);
    var start := t.(nextId := t.nextId + 1);
    Started(t, lease, result.protocol);
    RecordAllKeeps(start, o, result.tools);
    var (recorded, members) := RecordAll(start, o, result.tools).value;
    var identities := Identities(result.tools);
    MarkedFrom(start, recorded, o, identities, members);
    var marked := MarkMissing(recorded, o.connection, identities);
    ConnectionFitsIn(t, lease.connection, marked.nextId);
    ConcludeSucceeds(marked, o, lease.job, t.nextId, members);
    var after := PublishSuccess(t, lease, result, now).value;
    PublishedInv(t, marked, after, lease, members);
  }

  lemma ConnectionFitsIn(t: Tables, id: Id, nextId: Id)
    requires ConnectionsFit(t.connections, t.snapshots, t.nextId) && id in t.connections && t.nextId <= nextId
    ensures ConnectionFits(t.connections[id], id, t.snapshots, nextId)
  {
  }

  lemma PublishedInv(t: Tables, marked: Tables, after: Tables, lease: RefreshLease, members: set<Id>)
    requires Inv(t) && LeaseEligible(t, lease) && JobHeld(t, lease)
    requires Structure(marked) && Extends(t.(nextId := t.nextId + 1), marked)
    requires forall c | c in marked.capabilities && marked.capabilities[c].connection == lease.connection ::
               Projected(marked.capabilities[c], c, members, marked.versions)
    requires forall c | c in marked.capabilities && marked.capabilities[c].connection != lease.connection ::
               c in t.capabilities && marked.capabilities[c] == t.capabilities[c]
    requires forall v | v in members :: v in marked.versions && marked.versions[v].connection == lease.connection
               && marked.versions[v].connectionVersion == lease.connectionVersion
    requires after == marked.(
      connections := t.connections[lease.connection := Published(t.connections[lease.connection], lease.connectionVersion, t.nextId)],
      snapshots := t.snapshots[t.nextId := Snapshot(lease.connection, lease.connectionVersion, lease.generation, lease.controlEpoch, members)],
      jobs := t.jobs[lease.job := Closed(t.jobs[lease.job], RefreshSucceeded)])
    ensures Inv(after)
  {
    hide ShapesFit, VersionsFit, IdentitiesUnique, ProjectionsFit, ConnectionsFit, JobsFit, SnapshotsFit, SnapshotsUnique,
         VersionsExtend, CapabilitiesExtend, Projected;
    var id, snapshot := lease.connection, after.snapshots[t.nextId];
    assert after.connections.Keys == t.connections.Keys;
    PublishedConnectionsFit(t, id, t.nextId, snapshot, after.nextId);
    PublishedSnapshotsFit(t, id, t.nextId, snapshot, after.versions);
    PublishedSnapshotsUnique(t, id, t.nextId, snapshot);
    PublishedProjectionsFit(t, after, id, t.nextId, snapshot);
    ClosedJobFits(t.jobs, t.connections, lease.job, RefreshSucceeded, after.connections[id]);
  }
}
