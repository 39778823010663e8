/**
  A fixed-window request counter per peer that remembers only the most recently seen peers,
  against the counter that remembers all of them.
*/
module RateLimiter {
  import opened Common

  type Peer = string

  datatype Window = Window(minute: int, count: nat)

  datatype Entry = Entry(peer: Peer, window: Window)

  /** The window after one more request, and whether that request is allowed. */
  function Count(previous: Option<Window>, minute: int, limit: nat): (bool, Window) {
    var count := if previous.Some? && previous.value.minute == minute then previous.value.count else 0;
    var allowed := count < limit;
    (allowed, Window(minute, if allowed then count + 1 else count))
  }

  // ---------- the bounded limiter ----------

  function Lookup(windows: seq<Entry>, peer: Peer): (found: Option<Window>)
    ensures found.None? <==> forall e | e in windows :: e.peer != peer
  {
    if windows == [] then None
    else if windows[0].peer == peer then Some(windows[0].window)
    else Lookup(windows[1..], peer)
  }

  function Without(windows: seq<Entry>, peer: Peer): (rest: seq<Entry>)
    ensures |rest| <= |windows|
    ensures forall e | e in rest :: e in windows && e.peer != peer
    ensures forall e | e in windows && e.peer != peer :: e in rest
  {
    if windows == [] then []
    else if windows[0].peer == peer then Without(windows[1..], peer)
    else [windows[0]] + Without(windows[1..], peer)
  }

  /** Evict the longest unseen until at most `maxPeers` remain. */
  function Trim(windows: seq<Entry>, maxPeers: nat): seq<Entry> {
    if |windows| <= maxPeers then windows else windows[|windows| - maxPeers..]
  }

  function Allow(windows: seq<Entry>, peer: Peer, minute: int, limit: nat, maxPeers: nat): (bool, seq<Entry>) {
    var (allowed, window) := Count(Lookup(windows, peer), minute, limit);
    (allowed, Trim(Without(windows, peer) + [Entry(peer, window)], maxPeers))
  }

  function MinuteOf(now: real): int { (now / 60.0).Floor }

  lemma TrimFirst(windows: seq<Entry>, maxPeers: nat)
    requires |windows| > maxPeers
    ensures Trim(windows[1..], maxPeers) == Trim(windows, maxPeers)
  {
  }

  lemma TrimEnds(windows: seq<Entry>, maxPeers: nat)
    ensures |windows| <= maxPeers ==> Trim(windows, maxPeers) == windows
  {
  }

  class FixedWindowRateLimiter {
    const limit: nat
    const maxPeers: nat
    var windows: seq<Entry>

    constructor (requestsPerMinute: nat, maxPeers: nat)
      requires requestsPerMinute >= 1 && maxPeers >= 1
      ensures limit == requestsPerMinute && this.maxPeers == maxPeers && windows == []
    {
      limit, this.maxPeers, windows := requestsPerMinute, maxPeers, [];
    }

    method AllowRequest(peer: Peer, now: real) returns (allowed: bool)
      modifies this`windows
      ensures (allowed, windows) == Allow(old(windows), peer, MinuteOf(now), limit, maxPeers)
      ensures |windows| <= maxPeers
    {
      hide MinuteOf, Trim, Without, Lookup;
      var minute := MinuteOf(now);
      var previous := Lookup(windows, peer);
      windows := Without(windows, peer);
      var (previousMinute, count) := if previous.Some? then (previous.value.minute, previous.value.count) else (minute, 0);
      if previousMinute != minute {
        count := 0;
      }
      allowed := count < limit;
      windows := windows + [Entry(peer, Window(minute, if allowed then count + 1 else count))];
      ghost var full := windows;
      while |windows| > maxPeers
        invariant Trim(windows, maxPeers) == Trim(full, maxPeers)
        decreases |windows|
      {
        TrimFirst(windows, maxPeers);
        windows := windows[1..];
      }
      TrimEnds(windows, maxPeers);
    }
  }

  // ---------- both counters on one trace ----------

  datatype Call = Call(peer: Peer, minute: int)

  function Bounded(trace: seq<Call>, limit: nat, maxPeers: nat): seq<Entry>
    decreases |trace|
  {
    if trace == [] then []
    else
      var last := trace[|trace| - 1];
      Allow(Bounded(trace[..|trace| - 1], limit, maxPeers), last.peer, last.minute, limit, maxPeers).1
  }

  function Unbounded(trace: seq<Call>, limit: nat): map<Peer, Window>
    decreases |trace|
  {
    if trace == [] then map[]
    else
      var before, last := Unbounded(trace[..|trace| - 1], limit), trace[|trace| - 1];
      before[last.peer := Count(Remembered(before, last.peer), last.minute, limit).1]
  }

  function Remembered(windows: map<Peer, Window>, peer: Peer): Option<Window> {
    if peer in windows then Some(windows[peer]) else None
  }

  /** The answers to the k-th call. */
  predicate BoundedAllows(trace: seq<Call>, k: nat, limit: nat, maxPeers: nat)
    requires k < |trace|
  {
    Count(Lookup(Bounded(trace[..k], limit, maxPeers), trace[k].peer), trace[k].minute, limit).0
  }

  predicate UnboundedAllows(trace: seq<Call>, k: nat, limit: nat)
    requires k < |trace|
  {
    Count(Remembered(Unbounded(trace[..k], limit), trace[k].peer), trace[k].minute, limit).0
  }

  // ---------- never more than the bound ----------

  lemma StaysBounded(trace: seq<Call>, limit: nat, maxPeers: nat)
    ensures |Bounded(trace, limit, maxPeers)| <= maxPeers
  {
  }

  // ---------- forgetting only makes it more generous ----------

  predicate Within(window: Window, limit: nat) { window.count <= limit }

  /** A remembered window is for the same minute as the full record's and counts no more. */
  predicate Below(windows: seq<Entry>, all: map<Peer, Window>, limit: nat) {
    && (forall e | e in windows ::
          e.peer in all && e.window.minute == all[e.peer].minute && e.window.count <= all[e.peer].count)
    && (forall peer | peer in all :: Within(all[peer], limit))
  }

  lemma {:induction false} LookupIsEntry(windows: seq<Entry>, peer: Peer)
    ensures Lookup(windows, peer).Some? ==> Entry(peer, Lookup(windows, peer).value) in windows
  {
    if windows != [] && windows[0].peer != peer { LookupIsEntry(windows[1..], peer); }
  }

  lemma AllowedEntries(windows: seq<Entry>, peer: Peer, minute: int, limit: nat, maxPeers: nat)
    ensures forall e | e in Allow(windows, peer, minute, limit, maxPeers).1 ::
              e == Entry(peer, Count(Lookup(windows, peer), minute, limit).1) || (e in windows && e.peer != peer)
  {
    hide Lookup, Count;
    var added := Entry(peer, Count(Lookup(windows, peer), minute, limit).1);
    forall e | e in Allow(windows, peer, minute, limit, maxPeers).1 ensures e == added || (e in windows && e.peer != peer) {
      assert e in Without(windows, peer) + [added];
    }
  }

  /** Knowing less of a peer's window never counts more. */
  lemma CountsNoMore(partial: Option<Window>, full: Option<Window>, minute: int, limit: nat)
    requires partial.Some? ==> full.Some? && partial.value.minute == full.value.minute && partial.value.count <= full.value.count
    requires full.Some? ==> Within(full.value, limit)
    ensures var less, more := Count(partial, minute, limit), Count(full, minute, limit);
      && (more.0 ==> less.0)
      && less.1.minute == more.1.minute && less.1.count <= more.1.count
      && Within(more.1, limit)
  {
  }

  lemma {:induction false} StaysBelow(trace: seq<Call>, limit: nat, maxPeers: nat)
    ensures Below(Bounded(trace, limit, maxPeers), Unbounded(trace, limit), limit)
    decreases |trace|
  {
    hide Allow, Count, Lookup, Within;
    if trace != [] {
      var init, last := trace[..|trace| - 1], trace[|trace| - 1];
      StaysBelow(init, limit, maxPeers);
      var windows, all := Bounded(init, limit, maxPeers), Unbounded(init, limit);
      LookupIsEntry(windows, last.peer);
      CountsNoMore(Lookup(windows, last.peer), Remembered(all, last.peer), last.minute, limit);
      AllowedEntries(windows, last.peer, last.minute, limit, maxPeers);
    }
  }

  /** On every trace, whatever the full counter allows the bounded one allows too. */
  lemma AllowsAtLeastAsMuch(trace: seq<Call>, k: nat, limit: nat, maxPeers: nat)
    requires k < |trace|
    ensures UnboundedAllows(trace, k, limit) ==> BoundedAllows(trace, k, limit, maxPeers)
  {
    hide Bounded, Unbounded, Lookup, Count, Within;
    var windows, all := Bounded(trace[..k], limit, maxPeers), Unbounded(trace[..k], limit);
    StaysBelow(trace[..k], limit, maxPeers);
    LookupIsEntry(windows, trace[k].peer);
    CountsNoMore(Lookup(windows, trace[k].peer), Remembered(all, trace[k].peer), trace[k].minute, limit);
  }

  // ---------- what the counter that never forgets allows ----------

  /** How many calls in a row the peer has made in this minute, up to its last one in another. */
  function Streak(trace: seq<Call>, peer: Peer, minute: int): nat {
    if trace == [] then 0
    else
      var init, last := trace[..|trace| - 1], trace[|trace| - 1];
      if last.peer != peer then Streak(init, peer, minute)
      else if last.minute != minute then 0
      else Streak(init, peer, minute) + 1
  }

  /** The window counts the streak of its own minute up to the limit; no other minute has one. */
  lemma {:induction false} WindowCountsStreak(trace: seq<Call>, peer: Peer, minute: int, limit: nat)
    ensures var window := Remembered(Unbounded(trace, limit), peer);
      if window.Some? && window.value.minute == minute
      then window.value.count == if Streak(trace, peer, minute) < limit then Streak(trace, peer, minute) else limit
      else Streak(trace, peer, minute) == 0
    decreases |trace|
  {
    hide Unbounded, Remembered;
    if trace == [] {
      NeverCalled(peer, limit, 1);
    } else {
      var init, last := trace[..|trace| - 1], trace[|trace| - 1];
      WindowCountsStreak(init, peer, minute, limit);
      UnboundedNext(init, last, peer, limit);
      assert trace == init + [last];
    }
  }

  /** A call is allowed exactly while the peer has made fewer than the limit in its minute. */
  lemma AllowedWithinLimit(trace: seq<Call>, k: nat, limit: nat)
    requires k < |trace|
    ensures UnboundedAllows(trace, k, limit) <==> Streak(trace[..k], trace[k].peer, trace[k].minute) < limit
  {
    hide Unbounded, Remembered, Streak;
    WindowCountsStreak(trace[..k], trace[k].peer, trace[k].minute, limit);
  }

  /** A clock reading belongs to the minute it falls into. */
  lemma MinuteBounds(now: real)
    ensures MinuteOf(now) as real * 60.0 <= now < (MinuteOf(now) + 1) as real * 60.0
  {
    var minutes := now / 60.0;
    assert minutes.Floor as real <= minutes < minutes.Floor as real + 1.0;
  }

  // ---------- a peer that comes back soon enough is counted exactly ----------

  predicate Called(trace: seq<Call>, peer: Peer) {
    exists i | 0 <= i < |trace| :: trace[i].peer == peer
  }

  /** The other peers that called since the last call of this one. */
  function Since(trace: seq<Call>, peer: Peer): set<Peer> {
    if trace == [] || trace[|trace| - 1].peer == peer then {}
    else Since(trace[..|trace| - 1], peer) + {trace[|trace| - 1].peer}
  }

  /** Between two calls of the peer fewer than `maxPeers` others call. */
  predicate ComesBackSoon(trace: seq<Call>, peer: Peer, maxPeers: nat) {
    forall k | 0 <= k < |trace| && trace[k].peer == peer && Called(trace[..k], peer) :: |Since(trace[..k], peer)| < maxPeers
  }

  predicate Has(windows: seq<Entry>, peer: Peer) { Lookup(windows, peer).Some? }

  predicate Distinct(windows: seq<Entry>) {
    forall i, j | 0 <= i < j < |windows| :: windows[i].peer != windows[j].peer
  }

  function Peers(windows: seq<Entry>): set<Peer> { set e | e in windows :: e.peer }

  /** The peers remembered after this one. */
  function After(windows: seq<Entry>, peer: Peer): set<Peer> {
    if windows == [] then {}
    else if windows[0].peer == peer then Peers(windows[1..])
    else After(windows[1..], peer)
  }

  /** Those remembered after a peer are those that called since; a forgotten peer has seen at least the bound. */
  ghost predicate InRecencyOrder(windows: seq<Entry>, trace: seq<Call>, maxPeers: nat) {
    && Distinct(windows)
    && (forall peer | Has(windows, peer) :: Called(trace, peer) && After(windows, peer) == Since(trace, peer))
    && (forall peer | Called(trace, peer) && !Has(windows, peer) :: |Since(trace, peer)| >= maxPeers)
  }

  lemma {:induction false} WithoutLookup(windows: seq<Entry>, peer: Peer, other: Peer)
    requires other != peer
    ensures Lookup(Without(windows, peer), other) == Lookup(windows, other)
  {
    if windows != [] {
      WithoutLookup(windows[1..], peer, other);
      var rest := Without(windows[1..], peer);
      assert ([windows[0]] + rest)[1..] == rest;
    }
  }

  lemma {:induction false} WithoutDistinct(windows: seq<Entry>, peer: Peer)
    requires Distinct(windows)
    ensures Distinct(Without(windows, peer))
  {
    if windows != [] {
      WithoutDistinct(windows[1..], peer);
      var rest := Without(windows[1..], peer);
      assert forall e | e in rest :: e in windows[1..];
      assert forall e | e in windows[1..] :: e.peer != windows[0].peer;
    }
  }

  lemma PeersOf(windows: seq<Entry>)
    ensures Peers([]) == {}
    ensures windows != [] ==> Peers(windows) == {windows[0].peer} + Peers(windows[1..])
  {
    if windows != [] { assert windows == [windows[0]] + windows[1..]; }
  }

  lemma {:induction false} WithoutPeers(windows: seq<Entry>, peer: Peer)
    ensures Peers(Without(windows, peer)) == Peers(windows) - {peer}
  {
    hide Peers;
    PeersOf(windows);
    if windows != [] {
      WithoutPeers(windows[1..], peer);
      var rest := Without(windows[1..], peer);
      PeersOf([windows[0]] + rest);
      assert ([windows[0]] + rest)[1..] == rest;
    }
  }

  lemma PeersAppend(windows: seq<Entry>, added: Entry)
    ensures Peers(windows + [added]) == Peers(windows) + {added.peer}
  {
  }

  lemma {:induction false} LookupAppend(windows: seq<Entry>, added: Entry, peer: Peer)
    ensures Lookup(windows + [added], peer)
         == if Has(windows, peer) then Lookup(windows, peer) else if added.peer == peer then Some(added.window) else None
  {
    if windows != [] {
      LookupAppend(windows[1..], added, peer);
      assert (windows + [added])[1..] == windows[1..] + [added];
    }
  }

  /** Moving a peer to the end puts it after every other, and changes nothing else. */
  lemma {:induction false} MovedAfter(windows: seq<Entry>, added: Entry, peer: Peer)
    requires Has(windows, peer) && peer != added.peer
    ensures After(Without(windows, added.peer) + [added], peer) == After(windows, peer) + {added.peer}
  {
    hide Peers;
    var rest := Without(windows[1..], added.peer);
    var moved := Without(windows, added.peer) + [added];
    if windows[0].peer == added.peer {
      MovedAfter(windows[1..], added, peer);
    } else {
      assert moved == [windows[0]] + (rest + [added]);
      assert moved[1..] == rest + [added];
      if windows[0].peer == peer {
        WithoutPeers(windows[1..], added.peer);
        PeersAppend(rest, added);
      } else {
        MovedAfter(windows[1..], added, peer);
      }
    }
  }

  lemma {:induction false} LastHasNoneAfter(windows: seq<Entry>, added: Entry)
    requires !Has(windows, added.peer)
    ensures After(windows + [added], added.peer) == {}
  {
    if windows != [] {
      LastHasNoneAfter(windows[1..], added);
      assert (windows + [added])[1..] == windows[1..] + [added];
    } else {
      assert [added][1..] == [];
    }
  }

  /** Moving the caller to the end keeps the order of recency. */
  lemma MovedInOrder(windows: seq<Entry>, init: seq<Call>, call: Call, added: Entry, maxPeers: nat)
    requires InRecencyOrder(windows, init, maxPeers) && added.peer == call.peer
    ensures InRecencyOrder(Without(windows, call.peer) + [added], init + [call], maxPeers)
  {
    hide Lookup, Without, After, Since;
    var kept, trace := Without(windows, call.peer), init + [call];
    var moved := kept + [added];
    WithoutDistinct(windows, call.peer);
    GoneFromWithout(windows, call.peer);
    LastHasNoneAfter(kept, added);
    forall i, j | 0 <= i < j < |moved| ensures moved[i].peer != moved[j].peer {
      if j == |kept| { assert moved[i] in kept; }
    }
    forall peer
      ensures Since(trace, peer) == if peer == call.peer then {} else Since(init, peer) + {call.peer}
      ensures Called(trace, peer) <==> Called(init, peer) || peer == call.peer
      ensures Has(moved, peer) <==> Has(windows, peer) || peer == call.peer
      ensures Has(windows, peer) && peer != call.peer ==> After(moved, peer) == After(windows, peer) + {call.peer}
    {
      SinceNext(init, call, peer);
      CalledNext(init, call, peer);
      LookupAppend(kept, added, peer);
      if peer != call.peer { WithoutLookup(windows, call.peer, peer); }
      if Has(windows, peer) && peer != call.peer { MovedAfter(windows, added, peer); }
    }
    forall peer | Called(trace, peer) && !Has(moved, peer) ensures |Since(trace, peer)| >= maxPeers {
      MoreIsMore(Since(init, peer), call.peer);
    }
  }

  lemma GoneFromWithout(windows: seq<Entry>, peer: Peer)
    ensures !Has(Without(windows, peer), peer)
  {
  }

  lemma MoreIsMore(peers: set<Peer>, peer: Peer)
    ensures |peers + {peer}| >= |peers|
  {
    if peer in peers { assert peers + {peer} == peers; }
  }

  lemma SinceNext(init: seq<Call>, call: Call, peer: Peer)
    ensures Since(init + [call], peer) == if peer == call.peer then {} else Since(init, peer) + {call.peer}
  {
    var trace := init + [call];
    assert trace[..|trace| - 1] == init;
  }

  lemma CalledNext(init: seq<Call>, call: Call, peer: Peer)
    ensures Called(init + [call], peer) <==> Called(init, peer) || peer == call.peer
  {
    var trace := init + [call];
    assert trace[|init|] == call;
    if Called(init, peer) {
      var i :| 0 <= i < |init| && init[i].peer == peer;
      assert trace[i].peer == peer;
    }
  }

  lemma {:induction false} DistinctPeers(windows: seq<Entry>)
    requires Distinct(windows)
    ensures |Peers(windows)| == |windows|
  {
    if windows != [] {
      DistinctPeers(windows[1..]);
      assert windows == [windows[0]] + windows[1..];
      assert Peers(windows) == {windows[0].peer} + Peers(windows[1..]);
      assert windows[0].peer !in Peers(windows[1..]);
    }
  }

  /** Evicting the first of `maxPeers + 1` entries keeps the order of recency. */
  lemma TrimmedInOrder(moved: seq<Entry>, trace: seq<Call>, maxPeers: nat)
    requires InRecencyOrder(moved, trace, maxPeers) && |moved| <= maxPeers + 1
    ensures InRecencyOrder(Trim(moved, maxPeers), trace, maxPeers)
  {
    if |moved| == maxPeers + 1 {
      hide Since, Called, Peers;
      var first, rest := moved[0].peer, moved[1..];
      assert Distinct(rest);
      DistinctPeers(rest);
      assert After(moved, first) == Peers(rest) && Has(moved, first);
      assert forall e | e in rest :: e.peer != first;
      assert forall peer | peer != first :: Lookup(moved, peer) == Lookup(rest, peer) && After(moved, peer) == After(rest, peer);
    }
  }

  lemma {:induction false} StaysInOrder(trace: seq<Call>, limit: nat, maxPeers: nat)
    ensures InRecencyOrder(Bounded(trace, limit, maxPeers), trace, maxPeers)
    decreases |trace|
  {
    hide InRecencyOrder, Without, Lookup;
    if trace == [] {
      NothingRemembered(maxPeers);
    } else {
      var init, last := trace[..|trace| - 1], trace[|trace| - 1];
      StaysInOrder(init, limit, maxPeers);
      StaysBounded(init, limit, maxPeers);
      var windows := Bounded(init, limit, maxPeers);
      var added := Entry(last.peer, Count(Lookup(windows, last.peer), last.minute, limit).1);
      MovedInOrder(windows, init, last, added, maxPeers);
      assert trace == init + [last];
      TrimmedInOrder(Without(windows, last.peer) + [added], trace, maxPeers);
    }
  }

  lemma NothingRemembered(maxPeers: nat)
    ensures InRecencyOrder([], [], maxPeers)
  {
  }

  lemma {:induction false} TrimLookup(moved: seq<Entry>, maxPeers: nat, peer: Peer)
    requires Distinct(moved) && |moved| <= maxPeers + 1
    ensures Has(Trim(moved, maxPeers), peer) ==> Lookup(Trim(moved, maxPeers), peer) == Lookup(moved, peer)
  {
    if |moved| == maxPeers + 1 {
      assert forall e | e in moved[1..] :: e.peer != moved[0].peer;
    }
  }

  /** One more call, as the bounded limiter remembers it. */
  lemma BoundedNext(init: seq<Call>, call: Call, peer: Peer, limit: nat, maxPeers: nat)
    ensures var before, after := Bounded(init, limit, maxPeers), Bounded(init + [call], limit, maxPeers);
      Has(after, peer) ==>
        Lookup(after, peer) == if call.peer == peer then Some(Count(Lookup(before, peer), call.minute, limit).1) else Lookup(before, peer)
  {
    hide Lookup, Without, Trim, Count, After, Since, Called, Distinct;
    var windows := Bounded(init, limit, maxPeers);
    var added := Entry(call.peer, Count(Lookup(windows, call.peer), call.minute, limit).1);
    var kept := Without(windows, call.peer);
    assert (init + [call])[..|init|] == init;
    StaysInOrder(init, limit, maxPeers);
    StaysBounded(init, limit, maxPeers);
    MovedInOrder(windows, init, call, added, maxPeers);
    TrimLookup(kept + [added], maxPeers, peer);
    LookupAppend(kept, added, peer);
    if call.peer == peer { GoneFromWithout(windows, peer); } else { WithoutLookup(windows, call.peer, peer); }
  }

  lemma UnboundedNext(init: seq<Call>, call: Call, peer: Peer, limit: nat)
    ensures var before, after := Unbounded(init, limit), Unbounded(init + [call], limit);
      Remembered(after, peer) == if call.peer == peer then Some(Count(Remembered(before, peer), call.minute, limit).1)
                                 else Remembered(before, peer)
  {
    assert (init + [call])[..|init|] == init;
  }

  /** What is remembered of the peer is what the full counter knows of it. */
  lemma {:induction false} ExactlyRemembered(trace: seq<Call>, peer: Peer, limit: nat, maxPeers: nat)
    requires ComesBackSoon(trace, peer, maxPeers)
    ensures Has(Bounded(trace, limit, maxPeers), peer) ==>
              Remembered(Unbounded(trace, limit), peer) == Lookup(Bounded(trace, limit, maxPeers), peer)
    ensures Called(trace, peer) <==> Remembered(Unbounded(trace, limit), peer).Some?
    decreases |trace|
  {
    hide Lookup, Called, Bounded, Unbounded, Count, ComesBackSoon, Remembered;
    if trace == [] {
      NeverCalled(peer, limit, maxPeers);
    } else {
      var init, last := trace[..|trace| - 1], trace[|trace| - 1];
      SoonPrefix(trace, peer, maxPeers, |trace| - 1);
      ExactlyRemembered(init, peer, limit, maxPeers);
      assert trace == init + [last];
      CalledNext(init, last, peer);
      BoundedNext(init, last, peer, limit, maxPeers);
      UnboundedNext(init, last, peer, limit);
      if last.peer == peer { KnownAlike(trace, peer, limit, maxPeers, |trace| - 1); }
    }
  }

  lemma NeverCalled(peer: Peer, limit: nat, maxPeers: nat)
    ensures !Has(Bounded([], limit, maxPeers), peer) && !Called([], peer) && Remembered(Unbounded([], limit), peer).None?
  {
  }

  lemma SoonPrefix(trace: seq<Call>, peer: Peer, maxPeers: nat, k: nat)
    requires ComesBackSoon(trace, peer, maxPeers) && k <= |trace|
    ensures ComesBackSoon(trace[..k], peer, maxPeers)
  {
    forall i | 0 <= i < k && trace[..k][i].peer == peer && Called(trace[..k][..i], peer)
      ensures |Since(trace[..k][..i], peer)| < maxPeers
    {
      assert trace[..k][..i] == trace[..i];
    }
  }

  /** When the peer calls, both counters know the same of it. */
  lemma KnownAlike(trace: seq<Call>, peer: Peer, limit: nat, maxPeers: nat, k: nat)
    requires ComesBackSoon(trace, peer, maxPeers) && k < |trace| && trace[k].peer == peer
    requires Has(Bounded(trace[..k], limit, maxPeers), peer) ==>
               Remembered(Unbounded(trace[..k], limit), peer) == Lookup(Bounded(trace[..k], limit, maxPeers), peer)
    requires Called(trace[..k], peer) <==> Remembered(Unbounded(trace[..k], limit), peer).Some?
    ensures Lookup(Bounded(trace[..k], limit, maxPeers), peer) == Remembered(Unbounded(trace[..k], limit), peer)
  {
    hide Lookup, After, Since, Bounded, Unbounded, Distinct, Called, Remembered;
    StaysInOrder(trace[..k], limit, maxPeers);
  }

  /**
    A peer between whose calls fewer than `maxPeers` others come gets from the bounded limiter
    the very answers of the one that never forgets.
  */
  lemma SameAnswers(trace: seq<Call>, peer: Peer, limit: nat, maxPeers: nat, k: nat)
    requires ComesBackSoon(trace, peer, maxPeers) && k < |trace| && trace[k].peer == peer
    ensures BoundedAllows(trace, k, limit, maxPeers) == UnboundedAllows(trace, k, limit)
  {
    hide ComesBackSoon, Lookup, Bounded, Unbounded, Count, Called, Remembered;
    SoonPrefix(trace, peer, maxPeers, k);
    ExactlyRemembered(trace[..k], peer, limit, maxPeers);
    KnownAlike(trace, peer, limit, maxPeers, k);
  }
}
