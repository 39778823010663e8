/**
  Matching fixed byte strings in a stream that arrives in chunks, with one prefix table and
  one automaton state per pattern.
*/
module ByteMatcher {
  type Byte = x: int | 0 <= x < 256

  // ---------- what the states and tables mean ----------

  predicate At(s: seq<Byte>, p: seq<Byte>, i: int) {
    0 <= i <= |s| - |p| && s[i..i + |p|] == p
  }

  predicate Contains(s: seq<Byte>, p: seq<Byte>) {
    exists i | 0 <= i <= |s| :: At(s, p, i)
  }

  predicate AnyIn(patterns: seq<seq<Byte>>, s: seq<Byte>) {
    exists i | 0 <= i < |patterns| :: Contains(s, patterns[i])
  }

  /** The first k bytes of the pattern end the stream. */
  predicate Ends(p: seq<Byte>, k: nat, s: seq<Byte>) {
    k <= |p| && k <= |s| && p[..k] == s[|s| - k..]
  }

  /** k is the length of the longest prefix of the pattern that ends the stream. */
  predicate Longest(p: seq<Byte>, s: seq<Byte>, k: nat) {
    Ends(p, k, s) && forall j | k < j <= |p| :: !Ends(p, j, s)
  }

  /** Entry i is the longest proper border of the first i + 1 bytes. */
  predicate IsTable(p: seq<Byte>, table: seq<nat>, n: nat) {
    n <= |p| && n <= |table| && forall i | 0 <= i < n :: table[i] <= i && Longest(p, p[1..i + 1], table[i])
  }

  // ---------- one byte ----------

  lemma EndsNext(p: seq<Byte>, s: seq<Byte>, b: Byte, k: nat)
    requires k < |p|
    ensures Ends(p, k + 1, s + [b]) <==> Ends(p, k, s) && p[k] == b
  {
    var next := s + [b];
    if k <= |s| {
      assert next[|next| - (k + 1)..] == s[|s| - k..] + [b];
      assert p[..k + 1] == p[..k] + [p[k]];
      if p[..k + 1] == next[|next| - (k + 1)..] {
        assert p[..k + 1][..k] == p[..k] && next[|next| - (k + 1)..][..k] == s[|s| - k..];
      }
    }
  }

  /** A shorter prefix that ends the stream is a proper border of a longer one. */
  lemma ShorterIsBorder(p: seq<Byte>, s: seq<Byte>, m: nat, j: nat)
    requires Ends(p, m, s) && Ends(p, j, s) && j < m
    ensures Ends(p, j, p[1..m])
  {
    assert p[1..m] == p[..m][1..];
    assert p[1..m][|p[1..m]| - j..] == s[|s| - m..][m - j..];
    assert s[|s| - m..][m - j..] == s[|s| - j..];
  }

  lemma BorderEnds(p: seq<Byte>, s: seq<Byte>, m: nat, j: nat)
    requires Ends(p, m, s) && 0 < m && Ends(p, j, p[1..m])
    ensures Ends(p, j, s)
  {
    assert p[1..m] == p[..m][1..];
    assert s[|s| - m..][m - j..] == s[|s| - j..];
  }

  /** No prefix longer than m can be extended by this byte. */
  predicate Exhausted(p: seq<Byte>, s: seq<Byte>, b: Byte, m: nat) {
    forall j | m < j < |p| :: !(Ends(p, j, s) && p[j] == b)
  }

  /** Falling back along the table skips only prefixes that cannot be extended. */
  lemma FallBack(p: seq<Byte>, table: seq<nat>, s: seq<Byte>, b: Byte, m: nat)
    requires 0 < m < |p| && Ends(p, m, s) && Exhausted(p, s, b, m) && p[m] != b
    requires m <= |table| && table[m - 1] < m && Longest(p, p[1..m], table[m - 1])
    ensures Ends(p, table[m - 1], s) && Exhausted(p, s, b, table[m - 1])
  {
    BorderEnds(p, s, m, table[m - 1]);
    forall j | table[m - 1] < j < |p| ensures !(Ends(p, j, s) && p[j] == b) {
      if j < m && Ends(p, j, s) { ShorterIsBorder(p, s, m, j); }
    }
  }

  /** Where the fall-back stops decides the next state. */
  lemma Extended(p: seq<Byte>, s: seq<Byte>, b: Byte, m: nat)
    requires m < |p| && Ends(p, m, s) && Exhausted(p, s, b, m) && (m == 0 || p[m] == b)
    ensures Longest(p, s + [b], if p[m] == b then m + 1 else 0)
  {
    EndsNext(p, s, b, m);
    forall j | 0 < j <= |p| && (p[m] == b ==> m + 1 < j) ensures !Ends(p, j, s + [b]) {
      EndsNext(p, s, b, j - 1);
    }
  }

  lemma ContainsNext(p: seq<Byte>, s: seq<Byte>, b: Byte)
    requires p != []
    ensures Contains(s + [b], p) <==> Contains(s, p) || Ends(p, |p|, s + [b])
  {
    var next := s + [b];
    if Contains(s, p) {
      var i :| 0 <= i <= |s| && At(s, p, i);
      assert next[i..i + |p|] == s[i..i + |p|];
      assert At(next, p, i);
    }
    if Ends(p, |p|, next) {
      assert p[..|p|] == p && next[|next| - |p|..|next|] == next[|next| - |p|..];
      assert At(next, p, |next| - |p|);
    }
    if i :| 0 <= i <= |next| && At(next, p, i) {
      if i + |p| <= |s| {
        assert next[i..i + |p|] == s[i..i + |p|];
        assert At(s, p, i);
      } else {
        assert next[i..] == next[i..i + |p|] && p[..|p|] == p;
      }
    }
  }

  // ---------- the prefix table ----------

  lemma TableNext(p: seq<Byte>, table: seq<nat>, i: nat, k: nat)
    requires i < |p| && i < |table| && IsTable(p, table, i)
    requires k <= i && Longest(p, p[1..i + 1], k)
    ensures IsTable(p, table[i := k], i + 1)
  {
  }

  method PrefixTable(pattern: seq<Byte>) returns (table: seq<nat>)
    ensures |table| == |pattern| && IsTable(pattern, table, |pattern|)
  {
    hide IsTable, Longest, Ends, Exhausted;
    var prefix := new nat[|pattern|](_ => 0);
    EmptyBorder(pattern);
    if |pattern| > 0 {
      var matched: nat := 0;
      for index := 1 to |pattern|
        invariant 0 <= matched < index
        invariant IsTable(pattern, prefix[..], index)
        invariant Longest(pattern, pattern[1..index], matched)
      {
        var byte := pattern[index];
        ghost var before := prefix[..];
        LongestStarts(pattern, pattern[1..index], byte, matched);
        while matched > 0 && pattern[index] != pattern[matched]
          invariant 0 <= matched < index && prefix[..] == before
          invariant Ends(pattern, matched, pattern[1..index]) && Exhausted(pattern, pattern[1..index], byte, matched)
        {
          TableEntry(pattern, before, index, matched - 1);
          FallBack(pattern, before, pattern[1..index], byte, matched);
          matched := prefix[matched - 1];
        }
        Extended(pattern, pattern[1..index], byte, matched);
        assert pattern[1..index] + [byte] == pattern[1..index + 1];
        if pattern[index] == pattern[matched] {
          matched := matched + 1;
        }
        prefix[index] := matched;
        TableNext(pattern, before, index, matched);
        assert prefix[..] == before[index := matched];
      }
    }
    return prefix[..];
  }

  lemma EmptyBorder(p: seq<Byte>)
    ensures p == [] ==> IsTable(p, [], 0)
    ensures p != [] ==> Longest(p, p[1..1], 0)
    ensures forall table: seq<nat> | p != [] && table != [] && table[0] == 0 :: IsTable(p, table, 1)
  {
  }

  lemma TableEntry(p: seq<Byte>, table: seq<nat>, n: nat, i: nat)
    requires IsTable(p, table, n) && i < n
    ensures n <= |table| && table[i] <= i && Longest(p, p[1..i + 1], table[i])
  {
  }

  lemma LongestStarts(p: seq<Byte>, s: seq<Byte>, b: Byte, m: nat)
    requires Longest(p, s, m)
    ensures Ends(p, m, s) && Exhausted(p, s, b, m)
  {
  }

  // ---------- the matcher ----------

  function NonEmpty(patterns: seq<seq<Byte>>): (kept: seq<seq<Byte>>)
    ensures forall i | 0 <= i < |kept| :: kept[i] != [] && kept[i] in patterns
    ensures forall p | p in patterns && p != [] :: p in kept
  {
    if patterns == [] then []
    else if patterns[0] == [] then NonEmpty(patterns[1..])
    else [patterns[0]] + NonEmpty(patterns[1..])
  }

  /** Every pattern's state is in range, and exact for the bytes fed. */
  ghost predicate InStep(patterns: seq<seq<Byte>>, states: seq<nat>, s: seq<Byte>) {
    |states| == |patterns| && forall i | 0 <= i < |patterns| :: Longest(patterns[i], s, states[i]) && !Contains(s, patterns[i])
  }

  class IncrementalByteMatcher {
    const patterns: seq<seq<Byte>>
    const prefixes: seq<seq<nat>>
    const states: array<nat>
    /** All bytes fed so far. */
    ghost var fed: seq<Byte>
    /** A pattern has been found, after which the states are only kept in range. */
    ghost var found: bool

    ghost predicate Valid()
      reads this, states
    {
      && |prefixes| == |patterns| == states.Length
      && (forall i | 0 <= i < |patterns| ::
            patterns[i] != [] && |prefixes[i]| == |patterns[i]| && IsTable(patterns[i], prefixes[i], |patterns[i]|))
      && (forall i | 0 <= i < |patterns| :: states[i] < |patterns[i]|)
      && (found <==> AnyIn(patterns, fed))
      && (!found ==> InStep(patterns, states[..], fed))
    }

    constructor (patterns: seq<seq<Byte>>)
      ensures Valid() && fresh(states)
      ensures this.patterns == NonEmpty(patterns) && fed == [] && !found
    {
      var kept := NonEmpty(patterns);
      var tables: seq<seq<nat>> := [];
      for i := 0 to |kept|
        invariant |tables| == i
        invariant forall j | 0 <= j < i :: |tables[j]| == |kept[j]| && IsTable(kept[j], tables[j], |kept[j]|)
      {
        var table := PrefixTable(kept[i]);
        tables := tables + [table];
      }
      this.patterns := kept;
      prefixes := tables;
      states := new nat[|kept|](_ => 0);
      fed, found := [], false;
      new;
      NothingFed(this.patterns, states[..]);
    }

    /**
      True exactly in the call whose chunk completes the first occurrence of any pattern in
      everything fed; the cut into chunks does not matter.
    */
    method Feed(value: seq<Byte>) returns (hit: bool)
      requires Valid()
      modifies this, states
      ensures Valid() && fed == old(fed) + value
      ensures found <==> AnyIn(patterns, fed)
      ensures hit || old(found) ==> found
      ensures !old(found) ==> (hit <==> found)
    {
      ghost var before := fed;
      hit := false;
      for k := 0 to |value|
        invariant Valid() && fed == before + value[..k] && found == old(found)
      {
        hit := FeedByte(value[k]);
        assert before + value[..k + 1] == before + value[..k] + [value[k]];
        if hit {
          fed := before + value;
          found := true;
          if !old(found) { StillFound(patterns, before + value[..k + 1], value[k + 1..]); }
          else { StillFound(patterns, before, value); }
          assert before + value == before + value[..k + 1] + value[k + 1..];
          return;
        }
        fed := before + value[..k + 1];
        if old(found) { StillFound(patterns, before, value[..k + 1]); }
      }
      assert value[..|value|] == value;
    }

    /** Advance every pattern by one byte, stopping at the first that completes. */
    method FeedByte(byte: Byte) returns (hit: bool)
      requires Valid()
      modifies states
      ensures forall i | 0 <= i < |patterns| :: states[i] < |patterns[i]|
      ensures !found ==> (hit <==> AnyIn(patterns, fed + [byte]))
      ensures !found && !hit ==> InStep(patterns, states[..], fed + [byte])
    {
      hide IsTable, Contains, Longest;
      for index := 0 to |patterns|
        invariant forall i | 0 <= i < |patterns| :: states[i] < |patterns[i]|
        invariant !found ==> forall i | index <= i < |patterns| :: Longest(patterns[i], fed, states[i])
        invariant !found ==> forall i | 0 <= i < index ::
          Longest(patterns[i], fed + [byte], states[i]) && !Contains(fed + [byte], patterns[i])
      {
        var matched := Advance(index, byte);
        ContainsNext(patterns[index], fed, byte);
        if matched == |patterns[index]| {
          LongestEnds(patterns[index], fed + [byte], matched, !found);
          return true;
        }
        LongestEnds(patterns[index], fed + [byte], matched, !found);
        states[index] := matched;
      }
      return false;
    }

    method Advance(index: nat, byte: Byte) returns (matched: nat)
      requires index < |patterns| && index < |prefixes| && index < states.Length
      requires patterns[index] != [] && states[index] < |patterns[index]|
      requires |prefixes[index]| == |patterns[index]| && IsTable(patterns[index], prefixes[index], |patterns[index]|)
      ensures matched <= |patterns[index]|
      ensures Longest(patterns[index], fed, states[index]) ==> Longest(patterns[index], fed + [byte], matched)
    {
      var pattern := patterns[index];
      ghost var exact := Longest(pattern, fed, states[index]);
      matched := states[index];
      while matched > 0 && byte != pattern[matched]
        invariant matched < |pattern|
        invariant exact ==> Ends(pattern, matched, fed) && Exhausted(pattern, fed, byte, matched)
      {
        if exact { FallBack(pattern, prefixes[index], fed, byte, matched); }
        matched := prefixes[index][matched - 1];
      }
      if exact { Extended(pattern, fed, byte, matched); }
      if byte == pattern[matched] {
        matched := matched + 1;
      }
    }
  }

  lemma NothingFed(patterns: seq<seq<Byte>>, states: seq<nat>)
    requires |states| == |patterns| && forall i | 0 <= i < |patterns| :: patterns[i] != [] && states[i] == 0
    ensures InStep(patterns, states, []) && !AnyIn(patterns, [])
  {
  }

  lemma StillFound(patterns: seq<seq<Byte>>, s: seq<Byte>, more: seq<Byte>)
    requires AnyIn(patterns, s)
    ensures AnyIn(patterns, s + more)
  {
    var i :| 0 <= i < |patterns| && Contains(s, patterns[i]);
    var at :| 0 <= at <= |s| && At(s, patterns[i], at);
    assert (s + more)[at..at + |patterns[i]|] == s[at..at + |patterns[i]|];
    assert At(s + more, patterns[i], at);
    assert Contains(s + more, patterns[i]);
  }

  lemma LongestEnds(p: seq<Byte>, s: seq<Byte>, k: nat, exact: bool)
    requires k <= |p| && (exact ==> Longest(p, s, k))
    ensures exact ==> (k == |p| <==> Ends(p, |p|, s))
  {
  }
}
