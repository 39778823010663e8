/**
  Screening a response body for forbidden values while it streams: the raw bytes and the
  bytes with their JSON escapes undone go through one matcher each.
*/
module ResponseScreen {
  import opened ByteMatcher
  import opened EscapeDecoder

  class LimitedByteStream {
    const forbiddenMatcher: IncrementalByteMatcher
    const decodedMatcher: IncrementalByteMatcher
    const decoder: IncrementalJsonEscapeDecoder
    var pendingSensitiveResponse: bool
    /** The body so far. */
    ghost var received: seq<Byte>
    /** The heuristics for secret-shaped text fired at some point. */
    ghost var suspected: bool

    ghost function Footprint(): set<object>
      reads this
    {
      {this, forbiddenMatcher, forbiddenMatcher.states, decodedMatcher, decodedMatcher.states, decoder}
    }

    ghost predicate Valid()
      reads Footprint()
    {
      && forbiddenMatcher != decodedMatcher
      && forbiddenMatcher.states != decodedMatcher.states
      && forbiddenMatcher.Valid() && decodedMatcher.Valid() && decoder.Valid()
      && forbiddenMatcher.patterns == decodedMatcher.patterns
      && decoder.fed == received
      && (forbiddenMatcher.found || decodedMatcher.found || suspected <==> pendingSensitiveResponse)
      && (pendingSensitiveResponse <==> Flagged(forbiddenMatcher.patterns, received, Decode([], received).1, suspected))
      && (!pendingSensitiveResponse ==> forbiddenMatcher.fed == received && decodedMatcher.fed == Decode([], received).1)
    }

    constructor (forbidden: seq<seq<Byte>>)
      ensures Valid() && fresh(Footprint())
      ensures forbiddenMatcher.patterns == NonEmpty(forbidden)
      ensures received == [] && !suspected && !pendingSensitiveResponse
    {
      forbiddenMatcher := new IncrementalByteMatcher(forbidden);
      decodedMatcher := new IncrementalByteMatcher(forbidden);
      decoder := new IncrementalJsonEscapeDecoder();
      pendingSensitiveResponse, received, suspected := false, [], false;
      new;
      NothingDecoded();
    }

    /**
      One chunk of the body. `obvious` is what the secret-text heuristics say of the window that
      ends with it; they are consulted only when neither matcher fires.
    */
    method Screen(chunk: seq<Byte>, obvious: bool)
      requires Valid()
      modifies Footprint()
      ensures Valid() && received == old(received) + chunk
      ensures old(suspected) ==> suspected
      ensures suspected ==> old(suspected) || obvious
      ensures pendingSensitiveResponse <==>
        Flagged(forbiddenMatcher.patterns, received, Decode([], received).1, suspected)
      ensures obvious ==> pendingSensitiveResponse
    {
      hide Decode, AnyIn, InStep, IsTable;
      var decodedChunk := decoder.Feed(chunk);
      ghost var patterns := forbiddenMatcher.patterns;
      StaysFlagged(patterns, received, chunk, Decode([], received).1, decodedChunk, suspected);
      var sensitive := forbiddenMatcher.Feed(chunk);
      if !sensitive {
        sensitive := decodedMatcher.Feed(decodedChunk);
        if !sensitive && obvious {
          sensitive := true;
          suspected := true;
        }
      }
      received := received + chunk;
      if sensitive {
        pendingSensitiveResponse := true;
      }
    }

    /** The end of the body: an escape left open is screened as it stands. */
    method Finish()
      requires Valid()
      modifies Footprint()
      ensures received == old(received) && suspected == old(suspected)
      ensures pendingSensitiveResponse <==>
        Flagged(forbiddenMatcher.patterns, received, Decoded(received), suspected)
    {
      hide Decode, AnyIn, InStep, IsTable, Decoded;
      var tail := decoder.Finish();
      StaysFlagged(forbiddenMatcher.patterns, received, [], Decode([], received).1, tail, suspected);
      assert received + [] == received;
      var sensitive := decodedMatcher.Feed(tail);
      if sensitive {
        pendingSensitiveResponse := true;
      }
    }
  }

  /** A forbidden value is in the text, in the text with its escapes undone, or the heuristics fired. */
  predicate Flagged(patterns: seq<seq<Byte>>, text: seq<Byte>, decoded: seq<Byte>, suspected: bool) {
    AnyIn(patterns, text) || AnyIn(patterns, decoded) || suspected
  }

  lemma StaysFlagged(
    patterns: seq<seq<Byte>>, text: seq<Byte>, chunk: seq<Byte>, decoded: seq<Byte>, more: seq<Byte>, suspected: bool
  )
    ensures Flagged(patterns, text, decoded, suspected) ==> Flagged(patterns, text + chunk, decoded + more, suspected)
  {
    if AnyIn(patterns, text) { StillFound(patterns, text, chunk); }
    if AnyIn(patterns, decoded) { StillFound(patterns, decoded, more); }
  }

  /** However a forbidden value is escaped, a screened body that spells it out is flagged. */
  lemma EscapedForbiddenValueIsFlagged(
    forbidden: seq<seq<Byte>>, before: seq<Byte>, spellings: seq<seq<Byte>>, value: seq<Byte>, suspected: bool
  )
    requires value in forbidden && value != [] && SpellsAll(spellings, value)
    requires Decode([], before).0 == []
    ensures var body := before + Join(spellings);
      Flagged(NonEmpty(forbidden), body, Decode([], body).1, suspected)
  {
    hide Decode, Contains;
    EscapedValueAppears(before, spellings, value);
    var i :| 0 <= i < |NonEmpty(forbidden)| && NonEmpty(forbidden)[i] == value;
    assert Contains(Decode([], before + Join(spellings)).1, NonEmpty(forbidden)[i]);
  }
}
