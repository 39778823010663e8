/** Rebuilding a run's status from its event log alone. */
module Projection {
  import opened Common
  import opened RegistryTypes
  import opened ExecutionTypes
  import opened RunRows
  import opened Ledger
  import opened Protocol
  import opened ProtocolInvariant
  import opened ProtocolTheorems

  datatype ProjectionError = EmptyHistory | NotContiguous

  predicate Ordered(events: seq<Event>) {
    forall i, j | 0 <= i < j < |events| :: events[i].sequence <= events[j].sequence
  }

  function Insert(event: Event, events: seq<Event>): (inserted: seq<Event>)
    requires Ordered(events)
    ensures Ordered(inserted) && multiset(inserted) == multiset(events) + multiset{event}
    ensures |inserted| == |events| + 1
    ensures inserted[0] == event || (events != [] && inserted[0] == events[0])
  {
    if events == [] || event.sequence <= events[0].sequence then [event] + events
    else
      assert events == [events[0]] + events[1..];
      [events[0]] + Insert(event, events[1..])
  }

  /** The log sorted by sequence number. */
  function SortBySequence(events: seq<Event>): (sorted: seq<Event>)
    ensures Ordered(sorted) && multiset(sorted) == multiset(events) && |sorted| == |events|
  {
    if events == [] then []
    else
      assert events == [events[0]] + events[1..];
      Insert(events[0], SortBySequence(events[1..]))
  }

  method ReplayProjection(events: seq<Event>) returns (projection: Outcome<RunStatus, ProjectionError>)
    ensures projection == Err(EmptyHistory) <==> events == []
    ensures projection.Ok? <==> events != [] && Numbered(SortBySequence(events))
    ensures projection.Ok? ==> projection.value == SortBySequence(events)[|events| - 1].status
  {
    hide SortBySequence, Ordered;
    if events == [] {
      return Err(EmptyHistory);
    }
    var sorted := SortBySequence(events);
    var expected := 1;
    var current := Queued;
    for i := 0 to |sorted|
      invariant expected == i + 1
      invariant forall k | 0 <= k < i :: sorted[k].sequence == k + 1
      invariant i > 0 ==> current == sorted[i - 1].status
    {
      if sorted[i].sequence != expected {
        return Err(NotContiguous);
      }
      current := sorted[i].status;
      expected := expected + 1;
    }
    return Ok(current);
  }

  lemma LastAgrees(sorted: seq<Event>, log: seq<Event>)
    requires Ordered(sorted) && Numbered(log) && multiset(sorted) == multiset(log) && |sorted| == |log| > 0
    ensures sorted[|log| - 1] == log[|log| - 1]
  {
    var n := |log|;
    assert log[n - 1] in multiset(sorted);
    var k :| 0 <= k < n && sorted[k] == log[n - 1];
    assert sorted[n - 1] in multiset(log);
    var m :| 0 <= m < n && log[m] == sorted[n - 1];
    assert n == sorted[k].sequence <= sorted[n - 1].sequence == m + 1;
  }

  lemma DropLast(events: seq<Event>)
    requires events != []
    ensures multiset(events[..|events| - 1]) == multiset(events) - multiset{events[|events| - 1]}
  {
    assert events == events[..|events| - 1] + [events[|events| - 1]];
  }

  /** However the rows of a contiguous log are returned, sorting restores the log. */
  lemma {:induction false} SortRestores(sorted: seq<Event>, log: seq<Event>)
    requires Ordered(sorted) && Numbered(log) && multiset(sorted) == multiset(log)
    ensures sorted == log
    decreases |log|
  {
    assert |multiset(sorted)| == |multiset(log)|;
    if log != [] {
      LastAgrees(sorted, log);
      DropLast(sorted);
      DropLast(log);
      SortRestores(sorted[..|log| - 1], log[..|log| - 1]);
    }
  }

  /** What the lockstep invariant says of a run and its rows read back in any order. */
  ghost predicate InLockstep(run: Run, rows: seq<Event>) {
    && SortBySequence(rows) == run.events && rows != []
    && Numbered(SortBySequence(rows))
    && SortBySequence(rows)[|rows| - 1].status == run.status
    && |run.attempts| == run.job.leaseEpoch
    && (forall i | 0 <= i < |run.attempts| ::
          run.attempts[i].sequence == run.attempts[i].leaseEpoch == i + 1)
    && (forall i | 0 <= i < |run.attempts| && run.attempts[i].status.Live() ::
          i == |run.attempts| - 1 && run.attempts[i].status == run.status)
    && (run.status.Terminal() <==> run.job.status == JobDone(run.status))
    && run.job.completedAt == run.terminalAt
  }

  lemma SoundIsInLockstep(run: Run, rows: seq<Event>)
    requires Sound(run) && multiset(rows) == multiset(run.events)
    ensures InLockstep(run, rows)
  {
    hide SortBySequence, Fenced, FencedOnce;
    SortRestores(SortBySequence(rows), run.events);
  }

  /**
    In every reachable state a retained run's log, read back in any order, replays to the
    run's status; attempts are numbered by lease epoch, only the last can be live and then
    it has the run's status, and job and run end together with the same outcome.
  */
  lemma LogReplaysToStatus(limits: Limits, start: Time, steps: seq<Step>, id: Id, rows: seq<Event>)
    requires limits.Valid()
    requires id in Reached(limits, start, steps).tables.runs
    requires multiset(rows) == multiset(Reached(limits, start, steps).tables.runs[id].events)
    ensures InLockstep(Reached(limits, start, steps).tables.runs[id], rows)
  {
    hide InLockstep, Apply, Sound, HistoryFits, LeasesFit, TokensFit;
    ReachedFits(limits, start, steps);
    SoundIsInLockstep(Reached(limits, start, steps).tables.runs[id], rows);
  }
}
