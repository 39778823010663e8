/**
  What the services rely on from their bounded, ordered queries: a total order on
  (key, id) and the first rows in that order.
*/
module Queries {
  type Id = nat

  /** `ORDER BY key, id`: a comes strictly before b. */
  predicate Before(key: map<Id, int>, a: Id, b: Id)
    requires a in key && b in key
  {
    key[a] < key[b] || (key[a] == key[b] && a < b)
  }

  predicate IsFirst(ids: set<Id>, key: map<Id, int>, first: Id)
    requires ids <= key.Keys
  {
    first in ids && forall id | id in ids :: !Before(key, id, first)
  }

  lemma FirstExists(ids: set<Id>, key: map<Id, int>)
    requires ids != {} && ids <= key.Keys
    ensures exists first :: IsFirst(ids, key, first)
  {
    var some :| some in ids;
    var rest := ids - {some};
    assert ids == rest + {some};
    if rest == {} {
      assert IsFirst(ids, key, some);
    } else {
      FirstExists(rest, key);
      var best :| IsFirst(rest, key, best);
      var first := if Before(key, some, best) then some else best;
      forall id | id in ids ensures !Before(key, id, first) {
        assert id == some || id in rest;
      }
      assert IsFirst(ids, key, first);
    }
  }

  /** `ORDER BY key, id LIMIT 1` over a non-empty selection. */
  function First(ids: set<Id>, key: map<Id, int>): (first: Id)
    requires ids != {} && ids <= key.Keys
    ensures IsFirst(ids, key, first)
  {
    FirstExists(ids, key);
    var first :| IsFirst(ids, key, first);
    first
  }

  /** `ORDER BY key, id LIMIT n`. */
  function TakeFirst(ids: set<Id>, key: map<Id, int>, n: nat): (taken: seq<Id>)
    requires ids <= key.Keys
    ensures |taken| == if n <= |ids| then n else |ids|
    ensures forall i | 0 <= i < |taken| :: taken[i] in ids
    ensures forall i, j | 0 <= i < j < |taken| :: taken[i] != taken[j]
    decreases n
  {
    if n == 0 || ids == {} then []
    else
      var first := First(ids, key);
      assert |ids - {first}| == |ids| - 1;
      [first] + TakeFirst(ids - {first}, key, n - 1)
  }

  function Elements(ids: seq<Id>): set<Id> { set id | id in ids }

  /** A duplicate-free sequence has as many elements as positions. */
  lemma {:induction false} ElementsCount(ids: seq<Id>)
    requires forall i, j | 0 <= i < j < |ids| :: ids[i] != ids[j]
    ensures |Elements(ids)| == |ids|
  {
    if ids != [] {
      var init := ids[..|ids| - 1];
      ElementsCount(init);
      assert Elements(ids) == Elements(init) + {ids[|ids| - 1]};
    }
  }

  /** Every selected row, in query order. */
  function Sorted(ids: set<Id>, key: map<Id, int>): (sorted: seq<Id>)
    requires ids <= key.Keys
    ensures forall i, j | 0 <= i < j < |sorted| :: sorted[i] != sorted[j]
  {
    TakeFirst(ids, key, |ids|)
  }

  lemma {:induction false} SortedElements(ids: set<Id>, key: map<Id, int>)
    requires ids <= key.Keys
    ensures Elements(Sorted(ids, key)) == ids
  {
    if ids != {} {
      var first := First(ids, key);
      assert |ids - {first}| == |ids| - 1;
      SortedElements(ids - {first}, key);
      assert Sorted(ids, key) == [first] + Sorted(ids - {first}, key);
      assert Elements([first] + Sorted(ids - {first}, key)) == {first} + Elements(Sorted(ids - {first}, key));
    }
  }

  lemma {:induction false} SortedOrder(ids: set<Id>, key: map<Id, int>)
    requires ids <= key.Keys
    ensures forall i, j | 0 <= i < j < |Sorted(ids, key)| :: Before(key, Sorted(ids, key)[i], Sorted(ids, key)[j])
  {
    if ids != {} {
      var first := First(ids, key);
      var rest := ids - {first};
      assert |rest| == |ids| - 1;
      SortedOrder(rest, key);
      SortedElements(rest, key);
      var sorted := Sorted(rest, key);
      assert Sorted(ids, key) == [first] + sorted;
      forall j | 0 <= j < |sorted| ensures Before(key, first, sorted[j]) {
        assert sorted[j] in Elements(sorted);
      }
    }
  }

  lemma FirstIsUnique(ids: set<Id>, key: map<Id, int>, a: Id)
    requires ids <= key.Keys && IsFirst(ids, key, a)
    ensures a == First(ids, key)
  {
    var b := First(ids, key);
    assert !Before(key, a, b) && !Before(key, b, a);
  }

  /** What a limited query leaves behind comes after everything it took; without need of the limit nothing is left. */
  lemma {:induction false} TakenFirst(ids: set<Id>, key: map<Id, int>, n: nat)
    requires ids <= key.Keys
    ensures var taken := Elements(TakeFirst(ids, key, n));
      && taken <= ids
      && (|ids| <= n ==> taken == ids)
      && forall a, b | a in taken && b in ids && b !in taken :: Before(key, a, b)
    decreases n
  {
    hide Before, Elements;
    if n == 0 || ids == {} {
      NoElements();
    } else {
      var first := First(ids, key);
      var rest := ids - {first};
      assert |rest| == |ids| - 1;
      TakenFirst(rest, key, n - 1);
      var tail := TakeFirst(rest, key, n - 1);
      assert TakeFirst(ids, key, n) == [first] + tail;
      ElementsOfPrepended(first, tail);
      forall b | b in rest ensures Before(key, first, b) { FirstIsBefore(ids, key, b); }
    }
  }

  lemma NoElements()
    ensures Elements([]) == {}
  {
  }

  lemma ElementsOfPrepended(first: Id, tail: seq<Id>)
    ensures Elements([first] + tail) == {first} + Elements(tail)
  {
  }

  lemma FirstIsBefore(ids: set<Id>, key: map<Id, int>, b: Id)
    requires ids <= key.Keys && b in ids && b != First(ids, key)
    ensures Before(key, First(ids, key), b)
  {
    assert !Before(key, b, First(ids, key));
  }
}
