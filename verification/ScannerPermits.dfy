/**
  The process-wide permits for scanner processes: a counter, a queue of waiters from any
  event loop, and hand-over of a permit from its releaser to the longest waiter.
*/
module ScannerPermits {
  import opened Common

  type Id = nat

  const SCANNER_PROCESS_LIMIT: nat := 4

  datatype Waiter = Waiter(granted: bool, cancelled: bool)

  /** What the lock protects, with the order of arrival and of grants as history. */
  datatype Permits = Permits(
    available: nat,
    queue: seq<Id>,
    waiters: map<Id, Waiter>,
    tickets: map<Id, nat>,
    nextTicket: nat,
    grants: seq<Id>)

  datatype PermitError = ReleasedWithoutAcquisition

  // ---------- the critical sections ----------

  /** Take a free permit, or join the queue. */
  function Acquire(p: Permits, id: Id): Permits {
    if p.available > 0 then p.(available := p.available - 1)
    else
      p.(queue := p.queue + [id], waiters := p.waiters[id := Waiter(false, false)],
         tickets := p.tickets[id := p.nextTicket], nextTicket := p.nextTicket + 1)
  }

  /** Hand the permit to the first waiter that has not given up, else put it back. */
  function Release(p: Permits): Outcome<Permits, PermitError>
    requires forall id | id in p.queue :: id in p.waiters
    decreases |p.queue|
  {
    if p.queue == [] then
      if p.available >= SCANNER_PROCESS_LIMIT then Err(ReleasedWithoutAcquisition)
      else Ok(p.(available := p.available + 1))
    else
      var first, rest := p.queue[0], p.(queue := p.queue[1..]);
      if p.waiters[first].cancelled then Release(rest)
      else
        Ok(rest.(waiters := p.waiters[first := p.waiters[first].(granted := true)], grants := p.grants + [first]))
  }

  /** An interrupted waiter either owes the permit it was granted, or leaves a cancelled entry behind. */
  function GiveUp(p: Permits, id: Id): (Permits, bool)
    requires id in p.waiters
  {
    if p.waiters[id].granted then (p, true)
    else (p.(waiters := p.waiters[id := p.waiters[id].(cancelled := true)]), false)
  }

  class ScannerProcessPermits {
    var available: nat
    var queue: seq<Id>
    var waiters: map<Id, Waiter>
    ghost var tickets: map<Id, nat>
    ghost var nextTicket: nat
    ghost var grants: seq<Id>

    constructor ()
      ensures View() == Permits(SCANNER_PROCESS_LIMIT, [], map[], map[], 0, [])
    {
      available, queue, waiters := SCANNER_PROCESS_LIMIT, [], map[];
      tickets, nextTicket, grants := map[], 0, [];
    }

    ghost function View(): Permits
      reads this
    {
      Permits(available, queue, waiters, tickets, nextTicket, grants)
    }

    method BeginAcquire(id: Id) returns (immediate: bool)
      modifies this
      ensures View() == Acquire(old(View()), id)
      ensures immediate == (old(available) > 0)
    {
      if available > 0 {
        available := available - 1;
        return true;
      }
      waiters := waiters[id := Waiter(false, false)];
      queue := queue + [id];
      tickets, nextTicket := tickets[id := nextTicket], nextTicket + 1;
      return false;
    }

    method ReleasePermit() returns (reply: Outcome<(), PermitError>)
      requires forall id | id in queue :: id in waiters
      modifies this
      ensures match Release(old(View()))
              case Ok(after) => reply == Ok(()) && View() == after
              case Err(error) => reply == Err(error)
    {
      while queue != []
        invariant forall id | id in queue :: id in waiters
        invariant Release(View()) == Release(old(View()))
        decreases |queue|
      {
        var first := queue[0];
        queue := queue[1..];
        if waiters[first].cancelled {
          continue;
        }
        waiters := waiters[first := waiters[first].(granted := true)];
        grants := grants + [first];
        return Ok(());
      }
      if available >= SCANNER_PROCESS_LIMIT {
        return Err(ReleasedWithoutAcquisition);
      }
      available := available + 1;
      return Ok(());
    }

    method Interrupted(id: Id) returns (releaseGrant: bool)
      requires id in waiters
      modifies this`waiters
      ensures (View(), releaseGrant) == GiveUp(old(View()), id)
    {
      releaseGrant := false;
      if waiters[id].granted {
        releaseGrant := true;
      } else {
        waiters := waiters[id := waiters[id].(cancelled := true)];
      }
    }
  }

  // ---------- scans, interleaved ----------

  /** Where one scan stands; a scan acquires and releases at most once. */
  datatype Scan =
    | Waiting(delivered: bool, interrupted: bool)
    | Holding
    | OwesRelease
    | Done

  datatype System = System(permits: Permits, scans: map<Id, Scan>)

  datatype Step =
    | Start(scan: Id)
    | Deliver(scan: Id)
    | Interrupt(scan: Id)
    | Resume(scan: Id)
    | Unwind(scan: Id)
    | Finish(scan: Id)

  const START := System(Permits(SCANNER_PROCESS_LIMIT, [], map[], map[], 0, []), map[])

  predicate Enabled(s: System, step: Step) {
    match step
    case Start(id) => id !in s.scans
    case Deliver(id) => id in s.scans && s.scans[id].Waiting? && id in s.permits.waiters && s.permits.waiters[id].granted
    case Interrupt(id) => id in s.scans && s.scans[id].Waiting?
    case Resume(id) => id in s.scans && s.scans[id].Waiting? && s.scans[id].delivered && !s.scans[id].interrupted
    case Unwind(id) => id in s.scans && s.scans[id].Waiting? && s.scans[id].interrupted && id in s.permits.waiters
    case Finish(id) => id in s.scans && (s.scans[id].Holding? || s.scans[id].OwesRelease?)
  }

  /** A completed future stays as it is: delivery after an interruption changes nothing. */
  function Apply(s: System, step: Step): System
    requires forall id | id in s.permits.queue :: id in s.permits.waiters
  {
    if !Enabled(s, step) then s
    else
      match step
      case Start(id) =>
        System(Acquire(s.permits, id), s.scans[id := if s.permits.available > 0 then Holding else Waiting(false, false)])
      case Deliver(id) =>
        if s.scans[id].interrupted then s else s.(scans := s.scans[id := s.scans[id].(delivered := true)])
      case Interrupt(id) => s.(scans := s.scans[id := s.scans[id].(interrupted := true)])
      case Resume(id) => s.(scans := s.scans[id := Holding])
      case Unwind(id) =>
        var (permits, owes) := GiveUp(s.permits, id);
        System(permits, s.scans[id := if owes then OwesRelease else Done])
      case Finish(id) =>
        match Release(s.permits)
        case Err(_) => s
        case Ok(permits) => System(permits, s.scans[id := Done])
  }

  // ---------- the invariant ----------

  /** Scans that have a permit, are about to return one, or have one on the way. */
  function Spending(s: System): set<Id> {
    set id | id in s.scans
      && (s.scans[id].Holding? || s.scans[id].OwesRelease?
          || (s.scans[id].Waiting? && id in s.permits.waiters && s.permits.waiters[id].granted))
  }

  predicate ScanFits(scan: Scan, p: Permits, id: Id) {
    scan.Waiting? ==>
      && id in p.waiters && !p.waiters[id].cancelled
      && (p.waiters[id].granted || id in p.queue)
      && (scan.delivered ==> p.waiters[id].granted)
  }

  predicate QueueFits(p: Permits, scans: map<Id, Scan>) {
    && (forall i | 0 <= i < |p.queue| ::
          && p.queue[i] in p.waiters && p.queue[i] in p.tickets && p.queue[i] in scans
          && !p.waiters[p.queue[i]].granted
          && (if p.waiters[p.queue[i]].cancelled then scans[p.queue[i]].Done? else scans[p.queue[i]].Waiting?)
          && p.tickets[p.queue[i]] < p.nextTicket)
    && (forall i, j | 0 <= i < j < |p.queue| :: p.tickets[p.queue[i]] < p.tickets[p.queue[j]])
  }

  predicate GrantsFit(p: Permits) {
    && (forall i | 0 <= i < |p.grants| :: p.grants[i] in p.tickets && p.tickets[p.grants[i]] < p.nextTicket)
    && (forall i, j | 0 <= i < j < |p.grants| :: p.tickets[p.grants[i]] < p.tickets[p.grants[j]])
    && (forall i, j | 0 <= i < |p.grants| && 0 <= j < |p.queue| && p.queue[j] in p.tickets ::
          p.tickets[p.grants[i]] < p.tickets[p.queue[j]])
  }

  predicate Inv(s: System) {
    && s.permits.available + |Spending(s)| == SCANNER_PROCESS_LIMIT
    && (s.permits.available > 0 ==> s.permits.queue == [])
    && s.permits.waiters.Keys == s.permits.tickets.Keys <= s.scans.Keys
    && (forall id | id in s.scans :: ScanFits(s.scans[id], s.permits, id))
    && QueueFits(s.permits, s.scans)
    && GrantsFit(s.permits)
  }

  /** Without the scan that is returning its permit. */
  predicate Returning(p: Permits, scans: map<Id, Scan>) {
    && p.available < SCANNER_PROCESS_LIMIT
    && (p.available > 0 ==> p.queue == [])
    && p.waiters.Keys == p.tickets.Keys <= scans.Keys
    && QueueFits(p, scans)
    && GrantsFit(p)
  }

  /** Among the waiters that have not given up, the one that has waited longest. */
  predicate LongestWaiting(p: Permits, scans: map<Id, Scan>, id: Id) {
    && id in p.queue && id in scans && scans[id].Waiting?
    && id in p.tickets
    && forall other | other in p.queue && other in scans && scans[other].Waiting? && other in p.tickets ::
         p.tickets[id] <= p.tickets[other]
  }

  /** What a release does, seen from outside its loop. */
  predicate Handed(p: Permits, after: Permits, scans: map<Id, Scan>, granted: Id) {
    && LongestWaiting(p, scans, granted)
    && granted in p.waiters
    && after.available == p.available
    && after.grants == p.grants + [granted]
    && after.waiters == p.waiters[granted := p.waiters[granted].(granted := true)]
    && granted !in after.queue
    && (forall id | id in p.queue && id != granted && id in scans && scans[id].Waiting? :: id in after.queue)
  }

  predicate PutBack(p: Permits, after: Permits, scans: map<Id, Scan>) {
    && after == p.(available := p.available + 1, queue := [])
    && forall id | id in p.queue && id in scans :: !scans[id].Waiting?
  }

  /**
    A paired release never raises: it grants the permit to the longest-waiting scan still
    interested, and puts it back only when there is none.
  */
  lemma {:induction false} ReleaseGrantsLongestWaiting(p: Permits, scans: map<Id, Scan>)
    requires Returning(p, scans)
    ensures Release(p).Ok?
    ensures var after := Release(p).value;
      && after.tickets == p.tickets && after.nextTicket == p.nextTicket
      && QueueFits(after, scans) && GrantsFit(after)
      && (forall id | id in after.queue :: id in p.queue)
      && if after.grants == p.grants then PutBack(p, after, scans)
         else |after.grants| == |p.grants| + 1 && Handed(p, after, scans, after.grants[|p.grants|])
    decreases |p.queue|
  {
    if p.queue != [] {
      var first, rest := p.queue[0], p.(queue := p.queue[1..]);
      assert forall id | id in p.queue :: id == first || id in rest.queue;
      if p.waiters[first].cancelled {
        SkippedKeeps(p, scans);
        ReleaseGrantsLongestWaiting(rest, scans);
      } else {
        FirstIsLongest(p, scans);
        GrantKeeps(p, scans);
      }
    }
  }

  lemma SkippedKeeps(p: Permits, scans: map<Id, Scan>)
    requires Returning(p, scans) && p.queue != []
    ensures Returning(p.(queue := p.queue[1..]), scans)
  {
    var rest := p.queue[1..];
    assert forall i | 0 <= i < |rest| :: rest[i] == p.queue[i + 1];
  }

  lemma FirstIsLongest(p: Permits, scans: map<Id, Scan>)
    requires QueueFits(p, scans) && p.queue != [] && !p.waiters[p.queue[0]].cancelled
    ensures LongestWaiting(p, scans, p.queue[0]) && p.queue[0] !in p.queue[1..]
  {
    forall other | other in p.queue ensures p.tickets[p.queue[0]] <= p.tickets[other] {
      var i :| 0 <= i < |p.queue| && p.queue[i] == other;
    }
    assert forall i | 0 <= i < |p.queue[1..]| :: p.queue[1..][i] == p.queue[i + 1];
  }

  lemma GrantKeeps(p: Permits, scans: map<Id, Scan>)
    requires Returning(p, scans) && p.queue != [] && !p.waiters[p.queue[0]].cancelled
    ensures QueueFits(Release(p).value, scans) && GrantsFit(Release(p).value)
  {
    var after := Release(p).value;
    FirstIsLongest(p, scans);
    assert forall i | 0 <= i < |after.queue| :: after.queue[i] == p.queue[i + 1];
  }

  // ---------- every step ----------

  lemma StartKeeps(s: System, id: Id)
    requires Inv(s) && id !in s.scans
    ensures Inv(Apply(s, Start(id)))
  {
    var s' := Apply(s, Start(id));
    forall other | other in s'.scans ensures ScanFits(s'.scans[other], s'.permits, other) {
      if other != id { assert ScanFits(s.scans[other], s.permits, other); }
    }
    if s.permits.available > 0 {
      assert Spending(s') == Spending(s) + {id};
    } else {
      assert Spending(s') == Spending(s);
    }
  }

  /** A scan moves on without touching the permits. */
  lemma ScanMoves(s: System, id: Id, scan: Scan)
    requires Inv(s) && id in s.scans && s.scans[id].Waiting? && ScanFits(scan, s.permits, id)
    requires scan.Waiting? || (scan.Holding? && id in s.permits.waiters && s.permits.waiters[id].granted)
    ensures Inv(s.(scans := s.scans[id := scan]))
  {
    var s' := s.(scans := s.scans[id := scan]);
    assert Spending(s') == Spending(s);
    assert s.scans.Keys == s'.scans.Keys;
  }

  lemma UnwindKeeps(s: System, id: Id)
    requires Inv(s) && Enabled(s, Unwind(id))
    ensures Inv(Apply(s, Unwind(id)))
  {
    var s' := Apply(s, Unwind(id));
    assert ScanFits(s.scans[id], s.permits, id);
    forall other | other in s'.scans ensures ScanFits(s'.scans[other], s'.permits, other) {
      assert ScanFits(s.scans[other], s.permits, other);
    }
    assert Spending(s') == Spending(s);
  }

  lemma FinishKeeps(s: System, id: Id)
    requires Inv(s) && Enabled(s, Finish(id))
    ensures Inv(Apply(s, Finish(id)))
  {
    hide QueueFits, GrantsFit, Release;
    assert id in Spending(s);
    ReturningFits(s, id);
    ReleaseGrantsLongestWaiting(s.permits, s.scans);
    var after := Release(s.permits).value;
    FinishCounts(s, id, after);
    FinishScans(s, id, after);
    DoneStaysOut(s, id, after);
  }

  lemma ReturningFits(s: System, id: Id)
    requires Inv(s) && id in Spending(s)
    ensures Returning(s.permits, s.scans)
    ensures forall other | other in s.permits.queue :: other in s.permits.waiters
  {
    hide GrantsFit;
    assert |Spending(s)| > 0;
  }

  lemma FinishCounts(s: System, id: Id, after: Permits)
    requires Inv(s) && id in s.scans && (s.scans[id].Holding? || s.scans[id].OwesRelease?)
    requires if after.grants == s.permits.grants then PutBack(s.permits, after, s.scans)
             else |after.grants| == |s.permits.grants| + 1 && Handed(s.permits, after, s.scans, after.grants[|s.permits.grants|])
    ensures after.available + |Spending(System(after, s.scans[id := Done]))| == SCANNER_PROCESS_LIMIT
  {
    hide GrantsFit;
    var s' := System(after, s.scans[id := Done]);
    if after.grants == s.permits.grants {
      assert Spending(s') == Spending(s) - {id};
    } else {
      var granted := after.grants[|s.permits.grants|];
      assert granted in s.permits.queue && !s.permits.waiters[granted].granted;
      assert Spending(s') == Spending(s) - {id} + {granted};
    }
  }

  lemma FinishScans(s: System, id: Id, after: Permits)
    requires Inv(s) && id in s.scans && (s.scans[id].Holding? || s.scans[id].OwesRelease?)
    requires if after.grants == s.permits.grants then PutBack(s.permits, after, s.scans)
             else |after.grants| == |s.permits.grants| + 1 && Handed(s.permits, after, s.scans, after.grants[|s.permits.grants|])
    ensures var scans := s.scans[id := Done];
      forall other | other in scans :: ScanFits(scans[other], after, other)
  {
    hide GrantsFit, QueueFits;
    forall other | other in s.scans ensures other != id ==> ScanFits(s.scans[other], after, other) {
      assert ScanFits(s.scans[other], s.permits, other);
    }
  }

  lemma DoneStaysOut(s: System, id: Id, after: Permits)
    requires Inv(s) && id in s.scans && (s.scans[id].Holding? || s.scans[id].OwesRelease?)
    requires QueueFits(after, s.scans)
    ensures QueueFits(after, s.scans[id := Done])
  {
  }

  lemma StepKeeps(s: System, step: Step)
    requires Inv(s)
    ensures forall id | id in s.permits.queue :: id in s.permits.waiters
    ensures Inv(Apply(s, step))
  {
    if Enabled(s, step) {
      match step
      case Start(id) => StartKeeps(s, id);
      case Deliver(id) => if !s.scans[id].interrupted { ScanMoves(s, id, s.scans[id].(delivered := true)); }
      case Interrupt(id) => ScanMoves(s, id, s.scans[id].(interrupted := true));
      case Resume(id) => assert ScanFits(s.scans[id], s.permits, id); ScanMoves(s, id, Holding);
      case Unwind(id) => UnwindKeeps(s, id);
      case Finish(id) => FinishKeeps(s, id);
    }
  }

  /** The state after any steps, from the module's initial state. */
  function Exec(steps: seq<Step>): (s: System)
    ensures Inv(s)
    decreases |steps|
  {
    if steps == [] then START
    else
      var before := Exec(steps[..|steps| - 1]);
      StepKeeps(before, steps[|steps| - 1]);
      Apply(before, steps[|steps| - 1])
  }

  // ---------- the promises ----------

  /**
    Whatever the interleaving of arrivals, releases, deliveries and cancellations: free permits,
    held ones and ones on their way always add up to the limit, a free permit means nobody is
    queued, and a scan that returns its permit is never told it had none.
  */
  lemma PermitsAreConserved(steps: seq<Step>)
    ensures var s := Exec(steps);
      && s.permits.available + |Spending(s)| == 4
      && (s.permits.available > 0 ==> s.permits.queue == [])
      && (forall id | id in s.scans && (s.scans[id].Holding? || s.scans[id].OwesRelease?) ::
            (forall other | other in s.permits.queue :: other in s.permits.waiters) && Release(s.permits).Ok?)
  {
    var s := Exec(steps);
    forall id | id in s.scans && (s.scans[id].Holding? || s.scans[id].OwesRelease?) ensures Release(s.permits).Ok? {
      ReturningFits(s, id);
      ReleaseGrantsLongestWaiting(s.permits, s.scans);
    }
  }

  /** Grants are made strictly in the order of arrival. */
  lemma GrantsFollowArrivals(steps: seq<Step>, i: nat, j: nat)
    requires i < j < |Exec(steps).permits.grants|
    ensures var p := Exec(steps).permits;
      p.grants[i] in p.tickets && p.grants[j] in p.tickets && p.tickets[p.grants[i]] < p.tickets[p.grants[j]]
  {
    hide Exec;
    assert GrantsFit(Exec(steps).permits);
  }

  /** No permit is lost: once every scan is done all of them are free again. */
  lemma NoPermitIsLost(steps: seq<Step>)
    requires forall id | id in Exec(steps).scans :: Exec(steps).scans[id].Done?
    ensures Exec(steps).permits.available == SCANNER_PROCESS_LIMIT
  {
    hide Exec;
    assert Spending(Exec(steps)) == {};
  }

  /** Nobody waits while a permit is free, and a scan still waiting has not been forgotten. */
  lemma WaitersAreServed(steps: seq<Step>, id: Id)
    requires id in Exec(steps).scans && Exec(steps).scans[id].Waiting?
    ensures var p := Exec(steps).permits;
      id in p.waiters && !p.waiters[id].cancelled && (p.waiters[id].granted || (id in p.queue && p.available == 0))
  {
    hide Exec;
    assert ScanFits(Exec(steps).scans[id], Exec(steps).permits, id);
  }
}
