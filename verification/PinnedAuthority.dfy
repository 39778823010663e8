/**
  The execution service and the registry running together: every admission, claim and fence
  reads the registry of that moment. A run that passes a fence still has the authority it was
  admitted with, and had it all the time in between.
*/
module PinnedAuthority {
  import opened Common
  import opened RegistryTypes
  import opened ExecutionTypes
  import opened RunRows
  import Admission
  import Ledger
  import Protocol
  import ProtocolInvariant
  import ProtocolAdmission
  import ProtocolTheorems
  import Registry
  import RegistryInvariant
  import RegistryPublication
  import RegistryProtocol

  datatype World = World(service: Protocol.System, registry: Registry.Tables)

  datatype Act =
    | Execution(step: Protocol.Step, operators: set<(Id, Id)>)
    | Administration(timed: RegistryProtocol.Timed)

  /** The registry rows as a transaction reads them, with the members that may operate then. */
  function Current(w: World, operators: set<(Id, Id)>): Authority {
    Registry.View(w.registry).(operators := operators)
  }

  /** The step as it runs now: it sees the current registry and no other. */
  function Grounded(step: Protocol.Step, authority: Authority): Protocol.Step {
    if step.FinishCreate? || step.ClaimJob? || step.BeforeSession? || step.BeforeDispatch?
    then step.(authority := authority)
    else step
  }

  function Next(w: World, act: Act): World {
    match act
    case Execution(step, operators) => w.(service := Protocol.Apply(w.service, Grounded(step, Current(w, operators))))
    case Administration(timed) => w.(registry := RegistryProtocol.Apply(w.registry, timed))
  }

  function Reach(w: World, acts: seq<Act>): World
    decreases |acts|
  {
    if acts == [] then w else Next(Reach(w, acts[..|acts| - 1]), acts[|acts| - 1])
  }

  function Empty(limits: Limits, now: Time): World {
    World(Protocol.Init(limits, now), RegistryProtocol.EMPTY)
  }

  ghost predicate Fits(w: World) {
    ProtocolInvariant.Inv(w.service) && RegistryInvariant.Inv(w.registry)
  }

  lemma NextFits(w: World, act: Act)
    requires Fits(w)
    ensures Fits(Next(w, act))
  {
    hide ProtocolInvariant.Inv, RegistryInvariant.Inv, Protocol.Apply, RegistryProtocol.Apply;
    match act
    case Execution(step, operators) => ProtocolTheorems.StepKeepsInv(w.service, Grounded(step, Current(w, operators)));
    case Administration(timed) => RegistryProtocol.StepKeepsInv(w.registry, timed);
  }

  lemma {:induction false} RunFits(limits: Limits, start: Time, acts: seq<Act>)
    requires limits.Valid()
    ensures Fits(Reach(Empty(limits, start), acts))
    decreases |acts|
  {
    hide ProtocolInvariant.Inv, RegistryInvariant.Inv, Next;
    if acts == [] {
      ProtocolTheorems.InitFits(limits, start);
      RegistryProtocol.EmptyFits();
    } else {
      RunFits(limits, start, acts[..|acts| - 1]);
      NextFits(Reach(Empty(limits, start), acts[..|acts| - 1]), acts[|acts| - 1]);
    }
  }

  // ---------- the registry only moves forward ----------

  predicate RowEvolves(before: Capability, after: Capability) {
    after == before || after.statusEpoch > before.statusEpoch
  }

  predicate Grows(before: Registry.Tables, after: Registry.Tables) {
    && (forall c | c in before.capabilities :: c in after.capabilities && RowEvolves(before.capabilities[c], after.capabilities[c]))
    && (forall c | c in before.connections ::
          c in after.connections && before.connections[c].controlEpoch <= after.connections[c].controlEpoch)
  }

  lemma {:induction false} GrowsSelf(t: Registry.Tables)
    ensures Grows(t, t)
  {
  }

  lemma GrowsTransitive(a: Registry.Tables, b: Registry.Tables, c: Registry.Tables)
    requires Grows(a, b) && Grows(b, c)
    ensures Grows(a, c)
  {
    forall x | x in a.capabilities ensures x in c.capabilities && RowEvolves(a.capabilities[x], c.capabilities[x]) {
      assert RowEvolves(a.capabilities[x], b.capabilities[x]) && RowEvolves(b.capabilities[x], c.capabilities[x]);
    }
  }

  lemma DecisionRaises(t: Registry.Tables, timed: RegistryProtocol.Timed, c: Id)
    requires RegistryProtocol.Decides(timed.step, c) && RegistryProtocol.Reply(t, timed).Ok?
    ensures c in t.capabilities && c in RegistryProtocol.Apply(t, timed).capabilities
    ensures RegistryProtocol.Apply(t, timed).capabilities[c].statusEpoch > t.capabilities[c].statusEpoch
  {
  }

  lemma RowStep(t: Registry.Tables, timed: RegistryProtocol.Timed, c: Id)
    requires RegistryInvariant.Inv(t) && c in t.capabilities
    ensures c in RegistryProtocol.Apply(t, timed).capabilities
    ensures RowEvolves(t.capabilities[c], RegistryProtocol.Apply(t, timed).capabilities[c])
  {
    hide RegistryInvariant.Inv, RegistryProtocol.Reply;
    if RegistryProtocol.Decides(timed.step, c) {
      if RegistryProtocol.Reply(t, timed).Ok? { DecisionRaises(t, timed, c); }
    } else {
      RegistryProtocol.OtherStepsKeep(t, timed, c);
    }
  }

  lemma RegistryGrows(t: Registry.Tables, timed: RegistryProtocol.Timed)
    requires RegistryInvariant.Inv(t)
    ensures Grows(t, RegistryProtocol.Apply(t, timed))
  {
    hide RegistryInvariant.Inv, RegistryProtocol.Apply, RowEvolves;
    RegistryProtocol.StepEvolves(t, timed);
    forall c | c in t.capabilities
      ensures c in RegistryProtocol.Apply(t, timed).capabilities
      ensures RowEvolves(t.capabilities[c], RegistryProtocol.Apply(t, timed).capabilities[c])
    {
      RowStep(t, timed, c);
    }
  }

  /** Appending a version, disabling or enabling: the changes that invalidate a connection's authority. */
  predicate Reconfigures(step: RegistryProtocol.Step, connection: Id) {
    (step.Append? || step.DisableServer? || step.EnableServer?) && step.connection == connection
  }

  lemma ReconfiguringRaises(t: Registry.Tables, timed: RegistryProtocol.Timed, c: Id)
    requires Reconfigures(timed.step, c) && RegistryProtocol.Reply(t, timed).Ok?
    ensures c in t.connections && c in RegistryProtocol.Apply(t, timed).connections
    ensures RegistryProtocol.Apply(t, timed).connections[c].controlEpoch > t.connections[c].controlEpoch
  {
  }

  // ---------- admission pins what a fence checks ----------

  /** The act brings the run into existence. */
  predicate Admits(w: World, act: Act, id: Id) {
    id !in w.service.tables.runs && id in Next(w, act).service.tables.runs
  }

  predicate Pinned(registry: Registry.Tables, pins: Pins) {
    && pins.capability in registry.capabilities
    && registry.capabilities[pins.capability].statusEpoch == pins.statusEpoch
    && registry.capabilities[pins.capability].status == Enabled
    && registry.capabilities[pins.capability].enabled == Some(pins.capabilityVersion)
    && pins.connection in registry.connections
    && registry.connections[pins.connection].controlEpoch == pins.controlEpoch
  }

  lemma AdmissionPins(w: World, act: Act, id: Id)
    requires Fits(w) && Admits(w, act, id)
    ensures id in Next(w, act).service.issued && Next(w, act).registry == w.registry
    ensures Pinned(w.registry, Next(w, act).service.tables.runs[id].pins)
  {
    hide ProtocolInvariant.Inv, RegistryInvariant.Inv, Protocol.Apply;
    var step := Grounded(act.step, Current(w, act.operators));
    if id in w.service.issued { ProtocolTheorems.StepEvolves(w.service, step, id); }
    ProtocolTheorems.StepKeepsInv(w.service, step);
    ProtocolTheorems.IssuedRuns(Protocol.Apply(w.service, step));
    ProtocolTheorems.RunsAreIssued(w.service, step);
    CreationPins(w.service, step, id);
  }

  lemma CreationPins(s: Protocol.System, step: Protocol.Step, id: Id)
    requires step.FinishCreate? && id == step.run && id !in s.tables.runs
    requires id in Protocol.Apply(s, step).tables.runs
    ensures Pinned(Registry.Tables(0, step.authority.connections, step.authority.capabilities, map[], map[], map[]),
                   Protocol.Apply(s, step).tables.runs[id].pins)
  {
    hide Admission.Admit, Admission.FindRecord, Admission.HistoryError, Sound, Fenced,
         Admission.IdempotencyHistoryComplete, Admission.ActiveIn;
    var lockedAt := s.now + step.wait;
    var now := lockedAt + step.check;
    var creator := s.creators[step.creator];
    var reply := Admission.Admit(s.tables, creator.request, creator.keyrings, step.authority, creator.state,
                                 s.limits, step.argumentsValid, id, lockedAt, now);
    if reply.value.Created? {
      var run := ProtocolAdmission.AdmittedFacts(s, creator, step.authority, step.argumentsValid, id, lockedAt, now);
    } else {
      ProtocolAdmission.ExistingTables(s, step);
      ProtocolAdmission.ReplayShape(s.tables, creator.request, reply.value.run);
    }
  }

  /** The worker went through the session fence or the dispatch fence for this run. */
  predicate PassesFence(w: World, act: Act, id: Id) {
    && act.Execution?
    && (act.step.BeforeSession? || act.step.BeforeDispatch?)
    && act.step.task in w.service.workers
    && w.service.workers[act.step.task].lease.run == id
    && act.step.task in Next(w, act).service.workers
    && var before, after := w.service.workers[act.step.task].pc, Next(w, act).service.workers[act.step.task].pc;
       before != after && after == if act.step.BeforeSession? then Protocol.SessionOpen else Protocol.Licensed
  }

  lemma FenceSees(w: World, act: Act, id: Id)
    requires PassesFence(w, act, id)
    ensures act.Execution?
    ensures id in w.service.tables.runs
    ensures TargetIsCurrent(Current(w, act.operators), w.service.tables.runs[id])
  {
    hide Sound, Fenced;
  }

  lemma CurrentPins(w: World, operators: set<(Id, Id)>, id: Id)
    requires id in w.service.tables.runs && TargetIsCurrent(Current(w, operators), w.service.tables.runs[id])
    ensures Pinned(w.registry, w.service.tables.runs[id].pins)
  {
  }

  // ---------- nothing moved in between ----------

  /** A change that invalidates the authority a run was admitted with. */
  predicate Withdraws(step: RegistryProtocol.Step, pins: Pins) {
    Reconfigures(step, pins.connection) || RegistryProtocol.Decides(step, pins.capability)
  }

  lemma {:induction false} RunGrows(w: World, acts: seq<Act>, m: nat, n: nat)
    requires m <= n <= |acts| && Fits(Reach(w, acts[..m]))
    ensures Fits(Reach(w, acts[..n]))
    ensures Grows(Reach(w, acts[..m]).registry, Reach(w, acts[..n]).registry)
    decreases n
  {
    hide Fits, Grows, RegistryProtocol.Apply, Protocol.Apply;
    if m == n {
      GrowsSelf(Reach(w, acts[..m]).registry);
    } else {
      RunGrows(w, acts, m, n - 1);
      RunNext(w, acts, n - 1);
      var before, act := Reach(w, acts[..n - 1]), acts[n - 1];
      NextFits(before, act);
      NextGrows(before, act);
      GrowsTransitive(Reach(w, acts[..m]).registry, before.registry, Next(before, act).registry);
    }
  }

  lemma RunNext(w: World, acts: seq<Act>, k: nat)
    requires k < |acts|
    ensures Reach(w, acts[..k + 1]) == Next(Reach(w, acts[..k]), acts[k])
  {
    assert acts[..k + 1][..k] == acts[..k];
  }

  lemma NextGrows(w: World, act: Act)
    requires Fits(w)
    ensures Grows(w.registry, Next(w, act).registry)
  {
    hide ProtocolInvariant.Inv, RegistryInvariant.Inv, Grows, RegistryProtocol.Apply, Protocol.Apply;
    GrowsSelf(w.registry);
    if act.Administration? { RegistryGrows(w.registry, act.timed); }
  }

  /** An admitted run keeps its pins for as long as it is retained. */
  lemma {:induction false} PinsStay(w: World, acts: seq<Act>, m: nat, n: nat, id: Id)
    requires m <= n <= |acts| && Fits(Reach(w, acts[..m])) && id in Reach(w, acts[..m]).service.issued
    requires id in Reach(w, acts[..n]).service.tables.runs
    ensures id in Reach(w, acts[..m]).service.tables.runs
    ensures Reach(w, acts[..n]).service.tables.runs[id].pins == Reach(w, acts[..m]).service.tables.runs[id].pins
    decreases n
  {
    hide ProtocolInvariant.Inv, RegistryInvariant.Inv, RegistryProtocol.Apply, Protocol.Apply;
    if m < n {
      RunGrows(w, acts, m, n - 1);
      IssuedStay(w, acts, m, n - 1, id);
      RunNext(w, acts, n - 1);
      var before, act := Reach(w, acts[..n - 1]), acts[n - 1];
      if act.Execution? {
        ProtocolTheorems.StepEvolves(before.service, Grounded(act.step, Current(before, act.operators)), id);
      }
      PinsStay(w, acts, m, n - 1, id);
    }
  }

  lemma {:induction false} IssuedStay(w: World, acts: seq<Act>, m: nat, n: nat, id: Id)
    requires m <= n <= |acts| && id in Reach(w, acts[..m]).service.issued
    ensures id in Reach(w, acts[..n]).service.issued
    decreases n
  {
    hide RegistryProtocol.Apply, Protocol.Apply;
    if m < n {
      IssuedStay(w, acts, m, n - 1, id);
      RunNext(w, acts, n - 1);
      var before, act := Reach(w, acts[..n - 1]), acts[n - 1];
      if act.Execution? {
        ProtocolTheorems.StepIssued(before.service, Grounded(act.step, Current(before, act.operators)));
      }
    }
  }

  /** Equal epochs at both ends leave no room for a change in the middle. */
  lemma Sandwich(a: Registry.Tables, b: Registry.Tables, c: Registry.Tables, pins: Pins)
    requires Grows(a, b) && Grows(b, c) && Pinned(a, pins) && Pinned(c, pins)
    ensures Pinned(b, pins)
    ensures b.capabilities[pins.capability] == a.capabilities[pins.capability]
  {
    assert RowEvolves(a.capabilities[pins.capability], b.capabilities[pins.capability]);
    assert RowEvolves(b.capabilities[pins.capability], c.capabilities[pins.capability]);
  }

  /**
    A run admitted at act i passes a session or dispatch fence at act j. Then at every moment in
    between its capability row was exactly the one it was admitted with, its connection was at
    the same control epoch, and no operator decision on the capability and no new version,
    disabling or enabling of the connection was accepted: authority that was withdrawn and
    granted again does not pass.
  */
  lemma FencedRunsKeptTheirAuthority(limits: Limits, start: Time, acts: seq<Act>, i: nat, j: nat, k: nat, id: Id)
    requires limits.Valid() && i <= k <= j < |acts|
    requires Admits(Reach(Empty(limits, start), acts[..i]), acts[i], id)
    requires i < j && PassesFence(Reach(Empty(limits, start), acts[..j]), acts[j], id)
    ensures var admitted, between := Reach(Empty(limits, start), acts[..i]).registry, Reach(Empty(limits, start), acts[..k]).registry;
      var pins := Next(Reach(Empty(limits, start), acts[..i]), acts[i]).service.tables.runs[id].pins;
      && Pinned(admitted, pins) && Pinned(between, pins)
      && between.capabilities[pins.capability] == admitted.capabilities[pins.capability]
      && (k < j && acts[k].Administration? && Withdraws(acts[k].timed.step, pins) ==>
            RegistryProtocol.Reply(between, acts[k].timed).Err?)
  {
    hide Fits, Pinned, Admits, PassesFence, Withdraws, Reach, Next, RegistryProtocol.Reply;
    var w := Empty(limits, start);
    var pins := PinsAtFence(limits, start, acts, i, j, id);
    Between(w, acts, i, k, j, pins);
    if k < j && acts[k].Administration? {
      Between(w, acts, i, k + 1, j, pins);
      NoAcceptedChange(w, acts, k, pins);
    }
  }

  lemma Between(w: World, acts: seq<Act>, i: nat, k: nat, j: nat, pins: Pins)
    requires i <= k <= j <= |acts| && Fits(Reach(w, acts[..i]))
    requires Pinned(Reach(w, acts[..i]).registry, pins) && Pinned(Reach(w, acts[..j]).registry, pins)
    ensures Pinned(Reach(w, acts[..k]).registry, pins)
    ensures pins.capability in Reach(w, acts[..k]).registry.capabilities
    ensures pins.capability in Reach(w, acts[..i]).registry.capabilities
    ensures Reach(w, acts[..k]).registry.capabilities[pins.capability] == Reach(w, acts[..i]).registry.capabilities[pins.capability]
  {
    hide Fits, Grows, Reach;
    RunGrows(w, acts, i, k);
    RunGrows(w, acts, k, j);
    Sandwich(Reach(w, acts[..i]).registry, Reach(w, acts[..k]).registry, Reach(w, acts[..j]).registry, pins);
  }

  lemma NoAcceptedChange(w: World, acts: seq<Act>, k: nat, pins: Pins)
    requires k < |acts| && acts[k].Administration?
    requires Pinned(Reach(w, acts[..k]).registry, pins) && Pinned(Reach(w, acts[..k + 1]).registry, pins)
    ensures Withdraws(acts[k].timed.step, pins) ==>
              RegistryProtocol.Reply(Reach(w, acts[..k]).registry, acts[k].timed).Err?
  {
    hide RegistryProtocol.Apply, RegistryProtocol.Reply, Reconfigures, RegistryProtocol.Decides;
    RunNext(w, acts, k);
    var t, timed := Reach(w, acts[..k]).registry, acts[k].timed;
    if RegistryProtocol.Reply(t, timed).Ok? {
      if Reconfigures(timed.step, pins.connection) { ReconfiguringRaises(t, timed, pins.connection); }
      if RegistryProtocol.Decides(timed.step, pins.capability) { DecisionRaises(t, timed, pins.capability); }
    }
  }

  lemma PinsAtFence(limits: Limits, start: Time, acts: seq<Act>, i: nat, j: nat, id: Id) returns (pins: Pins)
    requires limits.Valid() && i < j < |acts|
    requires Admits(Reach(Empty(limits, start), acts[..i]), acts[i], id)
    requires PassesFence(Reach(Empty(limits, start), acts[..j]), acts[j], id)
    ensures var w := Empty(limits, start);
      && Fits(Reach(w, acts[..i]))
      && pins == Next(Reach(w, acts[..i]), acts[i]).service.tables.runs[id].pins
      && Pinned(Reach(w, acts[..i]).registry, pins)
      && Pinned(Reach(w, acts[..j]).registry, pins)
  {
    hide ProtocolInvariant.Inv, RegistryInvariant.Inv, Next, PassesFence, Pinned, TargetIsCurrent;
    var w := Empty(limits, start);
    RunFits(limits, start, acts[..i]);
    RunFits(limits, start, acts[..i + 1]);
    RunNext(w, acts, i);
    AdmissionPins(Reach(w, acts[..i]), acts[i], id);
    FenceSees(Reach(w, acts[..j]), acts[j], id);
    PinsStay(w, acts, i + 1, j, id);
    CurrentPins(Reach(w, acts[..j]), acts[j].operators, id);
    pins := Reach(w, acts[..i + 1]).service.tables.runs[id].pins;
  }
}
