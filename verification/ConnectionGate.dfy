/** A connection carries runs from an accepted publication until the next change that closes it, and at no other time. */
module ConnectionGate {
  import opened Common
  import opened RegistryTypes
  import opened ExecutionTypes
  import opened PinnedAuthority
  import Admission
  import AdmissionEffects
  import Ledger
  import LedgerEffects
  import Protocol
  import ProtocolAdmission
  import ProtocolInvariant
  import ProtocolTheorems
  import Registry
  import RegistryEffects
  import RegistryInvariant
  import RegistryProtocol
  import RunRows

  predicate Serving(t: Registry.Tables, c: Id) {
    c in t.connections && t.connections[c].lifecycle == Active
  }

  /** An accepted publication of a refresh of this connection. */
  predicate Opens(t: Registry.Tables, timed: RegistryProtocol.Timed, c: Id) {
    timed.step.Publish? && timed.step.lease.connection == c && RegistryProtocol.Reply(t, timed).Ok?
  }

  /** An accepted new version, disabling, enabling or failed refresh of this connection. */
  predicate Closes(t: Registry.Tables, timed: RegistryProtocol.Timed, c: Id) {
    && RegistryProtocol.Reply(t, timed).Ok?
    && match timed.step
       case Append(connection) => connection == c
       case DisableServer(connection) => connection == c
       case EnableServer(connection) => connection == c
       case Fail(lease) => lease.connection == c
       case _ => false
  }

  /** One registry transaction: only a publication opens a connection, and only these changes close it. */
  lemma ServingStep(t: Registry.Tables, timed: RegistryProtocol.Timed, c: Id)
    requires RegistryInvariant.Inv(t)
    ensures Serving(RegistryProtocol.Apply(t, timed), c) <==> Opens(t, timed, c) || (Serving(t, c) && !Closes(t, timed, c))
  {
    hide RegistryInvariant.Inv, Registry.AppendVersion, Registry.DisableConnection, Registry.EnableConnection,
         Registry.CreateConnection, Registry.Enqueue, Registry.ClaimRefresh, Registry.RenewRefresh, Registry.PublishSuccess,
         Registry.PublishFailure, Registry.EnableCapability, Registry.DisableCapability, RegistryEffects.JobsObsoleted,
         RegistryEffects.JobClosed, RegistryEffects.LiveRefresh, RegistryEffects.Lists;
    match timed.step
    case Create => RegistryEffects.CreateEffect(t);
    case Append(connection) => RegistryEffects.AppendEffect(t, connection);
    case DisableServer(connection) => RegistryEffects.DisableEffect(t, connection);
    case EnableServer(connection) => RegistryEffects.EnableEffect(t, connection);
    case Refresh(connection) => RegistryEffects.RefreshEffect(t, connection);
    case Claim(job, worker, duration) => RegistryEffects.ClaimRefreshEffect(t, job, worker, duration, timed.now);
    case Renew(lease, duration) => RegistryEffects.RenewEffect(t, lease, duration, timed.now);
    case Publish(lease, listing) => RegistryEffects.PublishEffect(t, lease, listing, timed.now);
    case Fail(lease) => RegistryEffects.FailEffect(t, lease, timed.now);
    case Approve(capability, version) => RegistryEffects.ApproveEffect(t, capability, version);
    case Refuse(capability, version) => RegistryEffects.RefuseEffect(t, capability, version);
  }

  // ---------- over whole histories ----------

  predicate OpensAt(w: World, act: Act, c: Id) { act.Administration? && Opens(w.registry, act.timed, c) }

  predicate ClosesAt(w: World, act: Act, c: Id) { act.Administration? && Closes(w.registry, act.timed, c) }

  /** Act j published a refresh of the connection, and nothing before act k closed it again. */
  predicate OpenSince(w: World, acts: seq<Act>, j: nat, k: nat, c: Id)
    requires k <= |acts|
  {
    && j < k && OpensAt(Reach(w, acts[..j]), acts[j], c)
    && forall m | j < m < k :: !ClosesAt(Reach(w, acts[..m]), acts[m], c)
  }

  lemma ServingAct(w: World, act: Act, c: Id)
    requires Fits(w)
    ensures Serving(Next(w, act).registry, c) <==> OpensAt(w, act, c) || (Serving(w.registry, c) && !ClosesAt(w, act, c))
  {
    hide ProtocolInvariant.Inv, RegistryInvariant.Inv, Opens, Closes, Serving, Protocol.Apply, RegistryProtocol.Apply;
    if act.Administration? { ServingStep(w.registry, act.timed, c); }
  }

  /** A connection is active exactly since some accepted publication after which nothing closed it. */
  lemma {:induction false} ServingSincePublication(limits: Limits, start: Time, acts: seq<Act>, k: nat, c: Id)
    requires limits.Valid() && k <= |acts|
    ensures Serving(Reach(Empty(limits, start), acts[..k]).registry, c) <==>
              exists j: nat :: OpenSince(Empty(limits, start), acts, j, k, c)
    decreases k
  {
    hide Fits, OpensAt, ClosesAt, Serving, Next;
    var w := Empty(limits, start);
    if k == 0 {
      assert !Serving(w.registry, c) by { NothingServesAtFirst(limits, start, c); }
    } else {
      var before, act := Reach(w, acts[..k - 1]), acts[k - 1];
      RunFits(limits, start, acts[..k - 1]);
      RunNext(w, acts, k - 1);
      ServingAct(before, act, c);
      ServingSincePublication(limits, start, acts, k - 1, c);
      if OpensAt(before, act, c) {
        assert OpenSince(w, acts, k - 1, k, c);
      } else if Serving(before.registry, c) && !ClosesAt(before, act, c) {
        var j: nat :| OpenSince(w, acts, j, k - 1, c);
        assert OpenSince(w, acts, j, k, c);
      }
      forall j: nat | OpenSince(w, acts, j, k, c)
        ensures OpensAt(before, act, c) || (OpenSince(w, acts, j, k - 1, c) && !ClosesAt(before, act, c))
      {
      }
    }
  }

  lemma NothingServesAtFirst(limits: Limits, start: Time, c: Id)
    ensures !Serving(Empty(limits, start).registry, c)
  {
  }

  // ---------- what needs an active connection ----------

  /** The act hands out a lease of this run. */
  predicate LeasesOut(w: World, act: Act, id: Id) {
    && act.Execution? && act.step.ClaimJob?
    && act.step.task !in w.service.workers && act.step.task in Next(w, act).service.workers
    && Next(w, act).service.workers[act.step.task].lease.run == id
  }

  /** The act admits, leases or fences this run, which is bound to this connection. */
  predicate Carries(w: World, act: Act, id: Id, c: Id) {
    && (Admits(w, act, id) || LeasesOut(w, act, id) || PassesFence(w, act, id))
    && id in Next(w, act).service.tables.runs && Next(w, act).service.tables.runs[id].pins.connection == c
  }

  lemma AdmissionNeedsServing(w: World, act: Act, id: Id)
    requires Fits(w) && Admits(w, act, id)
    ensures Serving(w.registry, Next(w, act).service.tables.runs[id].pins.connection)
  {
    hide ProtocolInvariant.Inv, RegistryInvariant.Inv, Protocol.Apply, Pinned;
    AdmissionPins(w, act, id);
    var step := Grounded(act.step, Current(w, act.operators));
    if id in w.service.issued { ProtocolTheorems.StepEvolves(w.service, step, id); }
    ProtocolTheorems.RunsAreIssued(w.service, step);
    CreationNeedsServing(w.service, step, id);
  }

  lemma CreationNeedsServing(s: Protocol.System, step: Protocol.Step, id: Id)
    requires step.FinishCreate? && id == step.run && id !in s.tables.runs
    requires id in Protocol.Apply(s, step).tables.runs
    ensures var c := Protocol.Apply(s, step).tables.runs[id].pins.connection;
      c in step.authority.connections && step.authority.connections[c].lifecycle == Active
  {
    hide Admission.Admit, AdmissionEffects.KeyTaken, AdmissionEffects.KeysKnown, AdmissionEffects.InTime;
    var lockedAt := s.now + step.wait;
    var now := lockedAt + step.check;
    var creator := s.creators[step.creator];
    var reply := Admission.Admit(s.tables, creator.request, creator.keyrings, step.authority, creator.state,
                                 s.limits, step.argumentsValid, id, lockedAt, now);
    AdmissionEffects.AdmitEffect(s.tables, creator.request, creator.keyrings, step.authority, creator.state,
                                 s.limits, step.argumentsValid, id, lockedAt, now);
    if reply.value.Existing? {
      ProtocolAdmission.ExistingTables(s, step);
      ProtocolAdmission.ReplayShape(s.tables, creator.request, reply.value.run);
    }
  }

  lemma FenceNeedsServing(w: World, act: Act, id: Id)
    requires PassesFence(w, act, id)
    ensures id in w.service.tables.runs && Serving(w.registry, w.service.tables.runs[id].pins.connection)
  {
    hide PassesFence, RunRows.TargetIsCurrent;
    FenceSees(w, act, id);
    LedgerEffects.EntitledIsCurrent(Current(w, act.operators), w.service.tables.runs[id]);
  }

  lemma LeaseNeedsServing(w: World, act: Act, id: Id)
    requires Fits(w) && LeasesOut(w, act, id)
    ensures id in w.service.tables.runs && Serving(w.registry, w.service.tables.runs[id].pins.connection)
  {
    hide RegistryInvariant.Inv, RunRows.Sound, Ledger.Claim, LedgerEffects.ReapedAs, LedgerEffects.LeasedAs, LedgerEffects.EndsAs,
         LedgerEffects.Waiting, ProtocolInvariant.HistoryFits, ProtocolInvariant.LeasesFit, ProtocolInvariant.TokensFit;
    var s, step := w.service, Grounded(act.step, Current(w, act.operators));
    var times := Ledger.ClaimTimes(s.now, s.now + step.select, s.now + step.select + step.check);
    LedgerEffects.ClaimEffect(s.tables, step.authority, step.worker, step.duration, s.limits.reconciliationBatch, step.skips, times);
  }

  /** A run's connection never changes in one act. */
  lemma ConnectionStays(w: World, act: Act, id: Id)
    requires Fits(w) && id in w.service.tables.runs && id in Next(w, act).service.tables.runs
    ensures Next(w, act).service.tables.runs[id].pins == w.service.tables.runs[id].pins
  {
    hide ProtocolInvariant.Inv, RegistryInvariant.Inv, Protocol.Apply, RegistryProtocol.Apply;
    ProtocolTheorems.IssuedRuns(w.service);
    if act.Execution? { ProtocolTheorems.StepEvolves(w.service, Grounded(act.step, Current(w, act.operators)), id); }
  }

  lemma CarryingNeedsServing(w: World, act: Act, id: Id, c: Id)
    requires Fits(w) && Carries(w, act, id, c)
    ensures Serving(w.registry, c)
  {
    hide Fits, Admits, LeasesOut, PassesFence, Serving, Next;
    if Admits(w, act, id) {
      AdmissionNeedsServing(w, act, id);
    } else {
      if LeasesOut(w, act, id) { LeaseNeedsServing(w, act, id); } else { FenceNeedsServing(w, act, id); }
      ConnectionStays(w, act, id);
    }
  }

  /**
    Whenever a run is admitted, leased or fenced, a publication for its connection was accepted
    before, and since then no new version, disabling, enabling or failed refresh of it.
  */
  lemma CarriedSincePublication(limits: Limits, start: Time, acts: seq<Act>, k: nat, id: Id, c: Id)
    requires limits.Valid() && k < |acts| && Carries(Reach(Empty(limits, start), acts[..k]), acts[k], id, c)
    ensures exists j: nat :: OpenSince(Empty(limits, start), acts, j, k, c)
  {
    hide Fits, Carries, OpenSince, Serving, Reach;
    RunFits(limits, start, acts[..k]);
    CarryingNeedsServing(Reach(Empty(limits, start), acts[..k]), acts[k], id, c);
    ServingSincePublication(limits, start, acts, k, c);
  }

  /**
    Once a refresh of a connection has failed, no run on it is admitted or leased and none passes a
    fence until a later publication for it is accepted.
  */
  lemma FailureClosesConnection(
    limits: Limits, start: Time, acts: seq<Act>, i: nat, k: nat, lease: Registry.RefreshLease, now: Time, id: Id
  )
    requires limits.Valid() && i < k < |acts|
    requires acts[i] == Administration(RegistryProtocol.Timed(RegistryProtocol.Fail(lease), now))
    requires RegistryProtocol.Reply(Reach(Empty(limits, start), acts[..i]).registry, acts[i].timed).Ok?
    requires forall j | i < j < k :: !OpensAt(Reach(Empty(limits, start), acts[..j]), acts[j], lease.connection)
    ensures !Carries(Reach(Empty(limits, start), acts[..k]), acts[k], id, lease.connection)
  {
    hide Carries, Reach, Next, RegistryProtocol.Reply;
    var w, c := Empty(limits, start), lease.connection;
    assert ClosesAt(Reach(w, acts[..i]), acts[i], c);
    assert forall j: nat :: !OpenSince(w, acts, j, k, c);
    if Carries(Reach(w, acts[..k]), acts[k], id, c) {
      CarriedSincePublication(limits, start, acts, k, id, c);
      assert false;
    }
  }
}
