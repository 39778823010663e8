/** In every reachable registry the versions of a capability are numbered from 1 without a gap, and no two record the same observation. */
module RegistryVersions {
  import opened Common
  import opened Queries
  import opened RegistryTypes
  import opened Registry
  import opened RegistryInvariant
  import opened RegistryPublication
  import opened RegistryProtocol

  predicate HasNumber(versions: Versions, capability: Id, n: nat) {
    exists v :: v in versions && versions[v].capability == capability && versions[v].sequence == n
  }

  predicate SameObservation(a: ToolVersion, b: ToolVersion) {
    && a.capability == b.capability && a.connectionVersion == b.connectionVersion && a.protocol == b.protocol
    && a.metadata == b.metadata && a.supported == b.supported
  }

  /** The version is the first of its capability, or follows the one numbered just before. */
  predicate Follows(versions: Versions, version: ToolVersion) {
    version.sequence == 1 || (version.sequence > 1 && HasNumber(versions, version.capability, version.sequence - 1))
  }

  predicate Apart(a: ToolVersion, b: ToolVersion) {
    a.capability == b.capability ==> a.sequence != b.sequence && !SameObservation(a, b)
  }

  predicate Numbered(versions: Versions) {
    && (forall v | v in versions :: Follows(versions, versions[v]))
    && (forall a, b | a in versions && b in versions && a != b :: Apart(versions[a], versions[b]))
  }

  /** The next number is one above some version's, or 1 for a capability without versions. */
  lemma NextIsFree(t: Tables, capability: Id)
    ensures forall v | v in t.versions && t.versions[v].capability == capability :: t.versions[v].sequence < NextSequence(t, capability)
    ensures NextSequence(t, capability) >= 1
    ensures NextSequence(t, capability) > 1 ==> HasNumber(t.versions, capability, NextSequence(t, capability) - 1)
  {
    var ids := VersionsOf(t, capability);
    forall v | v in t.versions && t.versions[v].capability == capability ensures v in ids {}
    if ids != {} {
      var last := First(ids, LatestFirst(t.versions));
      assert last in t.versions && t.versions[last].sequence == NextSequence(t, capability) - 1;
    }
  }

  lemma AddedNumbered(versions: Versions, v: Id, row: ToolVersion)
    requires Numbered(versions) && v !in versions && Follows(versions, row)
    requires forall other | other in versions :: Apart(versions[other], row)
    ensures Numbered(versions[v := row])
  {
    hide Follows, Apart;
    var after := versions[v := row];
    forall w | w in after ensures Follows(after, after[w]) { StillFollows(versions, v, row, after[w]); }
    forall other | other in versions ensures Apart(row, versions[other]) { ApartBothWays(versions[other], row); }
  }

  lemma StillFollows(versions: Versions, v: Id, row: ToolVersion, version: ToolVersion)
    requires Follows(versions, version) && v !in versions
    ensures Follows(versions[v := row], version)
  {
    if version.sequence > 1 {
      var w :| w in versions && versions[w].capability == version.capability && versions[w].sequence == version.sequence - 1;
      assert versions[v := row][w] == versions[w];
    }
  }

  lemma ApartBothWays(a: ToolVersion, b: ToolVersion)
    requires Apart(a, b)
    ensures Apart(b, a)
  {
  }

  lemma RecordNumbers(t: Tables, o: Observation, tool: Tool)
    requires Structure(t) && Numbered(t.versions) && Record(t, o, tool).Ok?
    ensures Numbered(Record(t, o, tool).value.0.versions)
  {
    hide Numbered, ShapesFit, IdentitiesUnique, NextSequence, Reconciled, Follows, Apart;
    match CapabilityOf(t, o.connection, tool.identity)
    case None =>
      NewIsNumbered(t, t.nextId, o, tool);
      AddedNumbered(t.versions, t.nextId + 1, NewVersion(t, t.nextId, o, tool));
    case Some(capability) =>
      if MatchingVersion(t, capability, o.connectionVersion, o.protocol, tool).None? {
        NewIsNumbered(t, capability, o, tool);
        AddedNumbered(t.versions, t.nextId, NewVersion(t, capability, o, tool));
      }
  }

  /** A version recorded for an observation that nothing matches. */
  lemma NewIsNumbered(t: Tables, capability: Id, o: Observation, tool: Tool)
    requires capability !in t.capabilities ==> forall v | v in t.versions :: t.versions[v].capability != capability
    requires capability in t.capabilities ==> MatchingIds(t, capability, o.connectionVersion, o.protocol, tool) == {}
    ensures Follows(t.versions, NewVersion(t, capability, o, tool))
    ensures forall v | v in t.versions :: Apart(t.versions[v], NewVersion(t, capability, o, tool))
  {
    hide NextSequence, HasNumber;
    NextIsFree(t, capability);
    forall v | v in t.versions ensures Apart(t.versions[v], NewVersion(t, capability, o, tool)) {
      assert v !in MatchingIds(t, capability, o.connectionVersion, o.protocol, tool);
    }
  }

  lemma {:induction false} RecordAllNumbers(t: Tables, o: Observation, tools: seq<Tool>)
    requires Structure(t) && RecordingAllowed(t, o) && DiscoveryResult(tools, "").WellFormed() && Numbered(t.versions)
    ensures RecordAll(t, o, tools).Ok? && Numbered(RecordAll(t, o, tools).value.0.versions)
    decreases |tools|
  {
    hide Structure, Record, Extends, OnlyTouches, Covered, RecordingAllowed, Numbered;
    RecordAllKeeps(t, o, tools);
    if tools != [] {
      var init := tools[..|tools| - 1];
      IdentitiesOfLast(tools);
      RecordAllNumbers(t, o, init);
      RecordAllKeeps(t, o, init);
      RecordNumbers(RecordAll(t, o, init).value.0, o, tools[|tools| - 1]);
    }
  }

  lemma PublicationNumbers(t: Tables, lease: RefreshLease, listing: Listing, now: Time)
    requires Inv(t) && Numbered(t.versions) && PublishSuccess(t, lease, listing, now).Ok?
    ensures Numbered(PublishSuccess(t, lease, listing, now).value.versions)
  {
    hide Inv, Eligible, RecordAll, Structure, RecordingAllowed, Numbered;
    Started(t, lease, listing.protocol);
    RecordAllNumbers(t.(nextId := t.nextId + 1), ObservationOf(lease, listing.protocol), listing.tools);
  }

  /** Nothing but a publication adds or changes a version. */
  lemma OthersKeepVersions(t: Tables, timed: Timed)
    requires !timed.step.Publish?
    ensures Apply(t, timed).versions == t.versions
  {
    hide LeaseEligible, JobActive, ObsoleteJobs, Allocated, PublishSuccess;
  }

  lemma {:induction false} VersionsAreNumbered(steps: seq<Timed>)
    ensures Numbered(Exec(EMPTY, steps).versions)
    decreases |steps|
  {
    hide Inv, Numbered, PublishSuccess;
    if steps == [] {
      NoneNumbered();
    } else {
      var before, last := Exec(EMPTY, steps[..|steps| - 1]), steps[|steps| - 1];
      VersionsAreNumbered(steps[..|steps| - 1]);
      ReachedFits(steps[..|steps| - 1]);
      if !last.step.Publish? {
        OthersKeepVersions(before, last);
      } else if Reply(before, last).Ok? {
        PublicationNumbers(before, last.step.lease, last.step.listing, last.now);
      }
    }
  }

  lemma NoneNumbered()
    ensures Numbered(map[])
  {
  }
}
