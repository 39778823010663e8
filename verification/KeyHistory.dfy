/**
  Deciding, with a bounded number of indexed successor probes, whether every HMAC key
  version still referenced by a table is configured.
*/
module KeyHistory {
  import opened Common

  /** The versions of a keyring. */
  function Versions(ring: seq<int>): set<int> { set v | v in ring }

  predicate Above(version: int, previous: Option<int>) {
    previous.None? || version > previous.value
  }

  predicate IsLeast(versions: set<int>, least: int) {
    least in versions && forall v | v in versions :: least <= v
  }

  lemma LeastExists(versions: set<int>, some: int)
    requires some in versions
    ensures exists least :: IsLeast(versions, least)
    decreases versions
  {
    if v :| v in versions && v < some {
      LeastExists(versions - {some}, v);
      var least :| IsLeast(versions - {some}, least);
      forall other | other in versions ensures least <= other {
        assert other == some || other in versions - {some};
      }
      assert IsLeast(versions, least);
    } else {
      assert IsLeast(versions, some);
    }
  }

  /** `SELECT version WHERE version > previous ORDER BY version LIMIT 1`. */
  function Successor(versions: set<int>, previous: Option<int>): (next: Option<int>)
    ensures next.None? <==> forall v | v in versions :: !Above(v, previous)
    ensures next.Some? ==> next.value in versions && Above(next.value, previous)
    ensures next.Some? ==> forall v | v in versions && Above(v, previous) :: next.value <= v
  {
    var above := set v | v in versions && Above(v, previous);
    assert forall v | v in versions && Above(v, previous) :: v in above;
    if v :| v in above then
      LeastExists(above, v);
      var least :| IsLeast(above, least);
      Some(least)
    else None
  }

  /**
    The probe loop over one key-version column: it reports nothing missing exactly when
    every version is configured and there are at most `maxKeys` of them.
  */
  method FindUnconfiguredKeyVersion(versions: set<int>, configured: set<int>, maxKeys: nat)
    returns (missing: Option<int>)
    ensures missing.None? <==> versions <= configured && |versions| <= maxKeys
    ensures missing.Some? ==> missing.value in versions
    ensures missing.Some? && |versions * configured| <= maxKeys ==> missing.value !in configured
  {
    var previous: Option<int> := None;
    ghost var seen: set<int> := {};
    for probes := 0 to maxKeys + 1
      invariant seen == set v | v in versions && !Above(v, previous)
      invariant seen <= configured
      invariant |seen| == probes
      invariant probes > 0 ==> previous.Some? && previous.value in versions
    {
      var observed := Successor(versions, previous);
      if observed.None? {
        assert seen == versions;
        return None;
      }
      if observed.value !in configured {
        return observed;
      }
      seen := seen + {observed.value};
      previous := observed;
    }
    SubsetSize(seen, versions * configured);
    SubsetSize(versions * configured, versions);
    return previous;
  }

  /** With a keyring no larger than the bound, the probe loop decides exactly inclusion. */
  lemma BoundedKeyringDecides(versions: set<int>, configured: set<int>, maxKeys: nat)
    requires |configured| <= maxKeys
    ensures (versions <= configured && |versions| <= maxKeys) <==> versions <= configured
  {
    if versions <= configured { SubsetSize(versions, configured); }
  }

  /** The API variant: one probe more than the keyring has versions, then it gives up. */
  method KeyHistoryComplete(versions: set<int>, configured: set<int>) returns (complete: bool)
    ensures complete <==> versions <= configured && |versions| <= |configured|
  {
    var previous: Option<int> := None;
    ghost var seen: set<int> := {};
    for probes := 0 to |configured| + 1
      invariant seen == set v | v in versions && !Above(v, previous)
      invariant seen <= configured
      invariant |seen| == probes
    {
      var observed := Successor(versions, previous);
      if observed.None? {
        assert seen == versions;
        return true;
      }
      if observed.value !in configured {
        return false;
      }
      seen := seen + {observed.value};
      previous := observed;
    }
    SubsetSize(seen, versions);
    return false;
  }
}
