/**
  One complete history from two empty services: a server is registered and discovered, its
  tool approved, a run confirmed, admitted, claimed and fenced, and the tool called. What is
  proved of every history is therefore not proved of none.
*/
module Walkthrough {
  import opened Common
  import opened Queries
  import opened RegistryTypes
  import opened ExecutionTypes
  import opened RunRows
  import opened Admission
  import Ledger
  import Protocol
  import Registry
  import RegistryProtocol
  import opened PinnedAuthority

  const LIMITS := Limits(60, 300, 7, 30, 4, 100, 10)

  // ---------- the registry ----------

  const TOOL := Registry.Tool("search", Metadata("search", "d0", ""), true)

  const LEASE := Registry.RefreshLease(3, 8, 1, 1, 2, 0, 1)

  const LISTING: RegistryProtocol.Listing := Registry.DiscoveryResult([TOOL], QUALIFIED_PROTOCOL_REVISION)

  function Registration(): seq<RegistryProtocol.Step> {
    [RegistryProtocol.Create, RegistryProtocol.Refresh(1), RegistryProtocol.Claim(3, 8, 10),
     RegistryProtocol.Publish(LEASE, LISTING), RegistryProtocol.Approve(5, 6)]
  }

  function Registered(k: nat): Registry.Tables
    requires k <= 5
  {
    var connection :=
      if k == 1 then Connection(Verifying, Some(2), None, 0, 0, None, None, None)
      else if k <= 3 then Connection(Verifying, Some(2), None, 0, 1, Some(0), Some(2), None)
      else Connection(Active, None, Some(2), 0, 1, None, None, Some(4));
    var job :=
      if k == 2 then Registry.RefreshJob(1, 2, 1, 0, RefreshQueued, None, 0, None)
      else if k == 3 then Registry.RefreshJob(1, 2, 1, 0, RefreshLeased, Some(8), 1, Some(10))
      else Registry.RefreshJob(1, 2, 1, 0, RefreshSucceeded, None, 1, None);
    var capability :=
      if k == 4 then Capability(1, "search", Some(6), None, PendingReview, 1)
      else Capability(1, "search", None, Some(6), Enabled, 2);
    var version := ToolVersion(5, 1, 1, 2, QUALIFIED_PROTOCOL_REVISION, true, TOOL.metadata);
    if k == 0 then RegistryProtocol.EMPTY
    else
      Registry.Tables(
        if k == 1 then 3 else if k <= 3 then 4 else 7,
        map[1 := connection],
        if k <= 3 then map[] else map[5 := capability],
        if k <= 3 then map[] else map[6 := version],
        if k <= 3 then map[] else map[4 := Snapshot(1, 2, 1, 0, {6})],
        if k == 1 then map[] else map[3 := job])
  }

  lemma RegistrationStep(k: nat)
    requires k < 5
    ensures RegistryProtocol.Reply(Registered(k), RegistryProtocol.Timed(Registration()[k], 0)) == Ok(Registered(k + 1))
  {
    if k == 3 { Publication(); } else { Enrolment(k); }
  }

  lemma Enrolment(k: nat)
    requires k < 5 && k != 3
    ensures RegistryProtocol.Reply(Registered(k), RegistryProtocol.Timed(Registration()[k], 0)) == Ok(Registered(k + 1))
  {
    var after, expected := RegistryProtocol.Apply(Registered(k), RegistryProtocol.Timed(Registration()[k], 0)), Registered(k + 1);
    assert after.connections == expected.connections;
    assert after.capabilities == expected.capabilities;
    assert after.jobs == expected.jobs;
  }

  lemma Publication()
    ensures RegistryProtocol.Reply(Registered(3), RegistryProtocol.Timed(Registration()[3], 0)) == Ok(Registered(4))
  {
    hide Registry.RecordAll, Registry.MarkMissing, Registry.Identities;
    PublicationRecords();
    var after, expected := RegistryProtocol.Apply(Registered(3), RegistryProtocol.Timed(Registration()[3], 0)), Registered(4);
    assert after.connections == expected.connections;
    assert after.snapshots == expected.snapshots;
    assert after.jobs == expected.jobs;
  }

  lemma PublicationRecords()
    ensures var start := Registered(3).(nextId := 5);
      var o := Registry.ObservationOf(LEASE, QUALIFIED_PROTOCOL_REVISION);
      var recorded := start.(nextId := 7, capabilities := Registered(4).capabilities, versions := Registered(4).versions);
      && Registry.RecordAll(start, o, [TOOL]) == Ok((recorded, {6}))
      && Registry.MarkMissing(recorded, 1, Registry.Identities([TOOL])) == recorded
  {
    var start := Registered(3).(nextId := 5);
    var o := Registry.ObservationOf(LEASE, QUALIFIED_PROTOCOL_REVISION);
    assert [TOOL][..0] == [];
    assert Registry.RecordAll(start, o, []) == Ok((start, {}));
    assert Registry.CapabilityOf(start, 1, "search").None?;
    assert Registry.VersionsOf(start, 5) == {};
    assert [TOOL][0].identity in Registry.Identities([TOOL]);
    assert {} + {6} == {6};
  }

  // ---------- the run ----------

  const KEYRINGS := Keyrings([1], [1])

  const CLAIMS := Claims(1, 2, 6, 5, 1, 2, 7, 9, 1, 0, 60 * SECOND)

  const REQUEST := CreateRequest(1, 2, 6, 7, None, "key", CLAIMS)

  const OPERATORS: set<(Id, Id)> := {(1, 2)}

  function Authorized(): Authority { Registry.View(Registered(5)).(operators := OPERATORS) }

  function Invocation(): seq<Protocol.Step> {
    [Protocol.MintToken(CLAIMS),
     Protocol.BeginCreate(0, REQUEST, KEYRINGS),
     Protocol.FinishCreate(0, Authorized(), true, 20, 0, 0),
     Protocol.ClaimJob(0, Authorized(), 8, 10, Ledger.Skips({}, {}, {}), 0, 0),
     Protocol.BeforeSession(0, Authorized(), None, 0),
     Protocol.BeforeDispatch(0, Authorized()),
     Protocol.CallTool(0)]
  }

  function NewlyAdmitted(): Run {
    NewRun(REQUEST, Pins(5, 6, 1, 2, 0, 2, QUALIFIED_PROTOCOL_REVISION), 1, LIMITS, 300 * SECOND, 0)
  }

  function RunAt(k: nat): Run
    requires 3 <= k <= 7
  {
    var claimed := StartAttempt(NewlyAdmitted(), 8, 10, 0);
    if k == 3 then NewlyAdmitted()
    else if k == 4 then claimed
    else
      var inSession := claimed.(status := SessionFenced, attempts := [claimed.attempts[0].(status := SessionFenced)],
                             events := claimed.events + [Event(3, SessionFence, SessionFenced, None, 0)]);
      if k == 5 then inSession
      else
        inSession.(status := DispatchFenced, attempts := [inSession.attempts[0].(status := DispatchFenced)],
                events := inSession.events + [Event(4, DispatchFence, DispatchFenced, None, 0)])
  }

  function TablesAt(k: nat): Ledger.Tables
    requires k <= 7
  {
    if k < 3 then Ledger.Tables(1, false, map[], map[], map[])
    else
      Ledger.Tables(1, false, map[20 := RunAt(k)], map[20 := NewRecord(REQUEST, [1])],
                    map[9 := Ledger.NonceRow(20, 1, CLAIMS.expiresAt)])
  }

  function ServiceAt(k: nat): Protocol.System
    requires k <= 7
  {
    Protocol.System(
      LIMITS, 0, TablesAt(k),
      if k == 0 then map[] else map[9 := CLAIMS],
      if k < 3 then {} else {20},
      if k == 2 then map[0 := Protocol.Creator(REQUEST, KEYRINGS, StateRead(1, false))] else map[],
      if k < 4 then map[]
      else map[0 := Protocol.Worker(Lease(20, 8, 1, 1),
                      if k == 4 then Protocol.Started else if k == 5 then Protocol.SessionOpen
                      else if k == 6 then Protocol.Licensed else Protocol.CallMade)],
      (if k < 3 then [] else [Protocol.RunCreated(20, 9)])
      + (if k < 6 then [] else [Protocol.DispatchLicensed(20, 0)])
      + (if k < 7 then [] else [Protocol.ToolCalled(20, 0)]))
  }

  lemma InvocationStep(k: nat)
    requires k < 7
    ensures Protocol.Apply(ServiceAt(k), Invocation()[k]) == ServiceAt(k + 1)
  {
    hide ServiceAt, Invocation, Protocol.Apply;
    if k == 0 { TokenIsMinted(); }
    else if k == 1 { CreationBegins(); }
    else if k == 2 { RunIsCreated(); }
    else if k == 3 { JobIsClaimed(); }
    else if k == 4 { SessionIsFenced(); }
    else if k == 5 { DispatchIsFenced(); }
    else { ToolIsCalled(); }
  }

  lemma TokenIsMinted()
    ensures Protocol.Apply(ServiceAt(0), Invocation()[0]) == ServiceAt(1)
  {
  }

  lemma CreationBegins()
    ensures Protocol.Apply(ServiceAt(1), Invocation()[1]) == ServiceAt(2)
  {
    assert MatchingRecords(TablesAt(1), 1, 2, "key", [1]) == {};
  }

  lemma RunIsCreated()
    ensures Protocol.Apply(ServiceAt(2), Invocation()[2]) == ServiceAt(3)
  {
    assert MatchingRecords(TablesAt(2), 1, 2, "key", [1]) == {};
    assert ActiveIn(TablesAt(2).runs, 1) == {};
    Authorizes();
  }

  lemma Authorizes()
    ensures AdmissionTarget(Authorized(), 6) == Some(Pins(5, 6, 1, 2, 0, 2, QUALIFIED_PROTOCOL_REVISION))
    ensures forall k | 3 <= k <= 7 :: TargetIsCurrent(Authorized(), RunAt(k))
  {
    forall k | 3 <= k <= 7 ensures TargetIsCurrent(Authorized(), RunAt(k)) {
      assert RunAt(k).pins == NewlyAdmitted().pins;
    }
  }

  lemma LatestIsLive(k: nat)
    requires 4 <= k <= 6
    ensures |RunAt(k).attempts| == 1 && LatestLive(RunAt(k).attempts) == 0
  {
    assert RunAt(k).attempts[0].status.Live();
  }

  lemma JobIsClaimed()
    ensures Protocol.Apply(ServiceAt(3), Invocation()[3]) == ServiceAt(4)
  {
    hide TargetIsCurrent, Authorized, Ledger.SweepBatch, Ledger.Candidate, LatestLive;
    NothingIsDue(TablesAt(3).runs);
    OnlyCandidate();
    Authorizes();
  }

  lemma SessionIsFenced()
    ensures Protocol.Apply(ServiceAt(4), Invocation()[4]) == ServiceAt(5)
  {
    hide TargetIsCurrent, LatestLive, Authorized;
    Authorizes();
    LatestIsLive(4);
    assert RunAt(5) == FenceRow(RunAt(4), ForSession, 0);
  }

  lemma DispatchIsFenced()
    ensures Protocol.Apply(ServiceAt(5), Invocation()[5]) == ServiceAt(6)
  {
    hide TargetIsCurrent, LatestLive, Authorized;
    Authorizes();
    LatestIsLive(5);
    assert RunAt(6) == FenceRow(RunAt(5), ForDispatch, 0);
  }

  lemma ToolIsCalled()
    ensures Protocol.Apply(ServiceAt(6), Invocation()[6]) == ServiceAt(7)
  {
  }

  lemma NothingIsDue(runs: map<Id, Run>)
    requires runs == map[20 := NewlyAdmitted()]
    ensures Ledger.SweepBatch(PastDeadline, runs, {}, 100, 0) == runs
    ensures Ledger.SweepBatch(AbandonedDispatch, runs, {}, 100, 0) == runs
  {
    assert Ledger.DueIds(PastDeadline, runs, {}, 0) == {};
    assert Ledger.DueIds(AbandonedDispatch, runs, {}, 0) == {};
  }

  lemma OnlyCandidate()
    ensures Ledger.Candidate(TablesAt(3).runs, 1, {}, 0) == Some(20)
  {
    assert Ledger.Claimable(TablesAt(3).runs[20], 1, 0);
  }

  // ---------- both together ----------

  function History(): seq<Act> {
    seq(12, k requires 0 <= k < 12 =>
      if k < 5 then Administration(RegistryProtocol.Timed(Registration()[k], 0)) else Execution(Invocation()[k - 5], OPERATORS))
  }

  function WorldAt(k: nat): World
    requires k <= 12
  {
    World(ServiceAt(if k < 5 then 0 else k - 5), Registered(if k < 5 then k else 5))
  }

  lemma NextWorld(k: nat)
    requires k < 12
    ensures Next(WorldAt(k), History()[k]) == WorldAt(k + 1)
  {
    hide Protocol.Apply, RegistryProtocol.Reply, ServiceAt, Registered, Registration, Invocation;
    if k < 5 {
      RegistrationStep(k);
    } else {
      InvocationStep(k - 5);
      StepsSeeTheRegistry(k - 5);
    }
  }

  lemma StepsSeeTheRegistry(k: nat)
    requires k < 7
    ensures Grounded(Invocation()[k], Registry.View(Registered(5)).(operators := OPERATORS)) == Invocation()[k]
  {
    hide Registered;
  }

  lemma {:induction false} HistoryRuns(k: nat)
    requires k <= 12
    ensures Reach(Empty(LIMITS, 0), History()[..k]) == WorldAt(k)
  {
    hide Next, Protocol.Apply, RegistryProtocol.Apply;
    if k == 0 {
      assert History()[..0] == [];
    } else {
      HistoryRuns(k - 1);
      NextWorld(k - 1);
      RunNext(Empty(LIMITS, 0), History(), k - 1);
    }
  }

  /** Histories in which a run is admitted, passes both fences and has its tool called do exist. */
  lemma ARunCanBeCarriedOut()
    ensures LIMITS.Valid() && |History()| == 12
    ensures Admits(Reach(Empty(LIMITS, 0), History()[..7]), History()[7], 20)
    ensures PassesFence(Reach(Empty(LIMITS, 0), History()[..9]), History()[9], 20)
    ensures PassesFence(Reach(Empty(LIMITS, 0), History()[..10]), History()[10], 20)
    ensures Protocol.ToolCalled(20, 0) in Reach(Empty(LIMITS, 0), History()).service.history
  {
    hide Reach, Next, Protocol.Apply, RegistryProtocol.Apply, Registered;
    HistoryRuns(7);
    HistoryRuns(9);
    HistoryRuns(10);
    HistoryRuns(12);
    NextWorld(7);
    FencePassed(9);
    FencePassed(10);
    assert History()[..12] == History();
  }

  lemma FencePassed(k: nat)
    requires 9 <= k <= 10
    ensures PassesFence(WorldAt(k), History()[k], 20)
  {
    hide Next, Registered, Authorized, RunAt;
    NextWorld(k);
    assert Invocation()[4] == Protocol.BeforeSession(0, Authorized(), None, 0);
    assert Invocation()[5] == Protocol.BeforeDispatch(0, Authorized());
  }
}
