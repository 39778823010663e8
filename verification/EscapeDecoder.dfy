/** Undoing visible JSON string escapes (section 7 of RFC 8259) in a stream that arrives in chunks. */
module EscapeDecoder {
  import opened Common
  import opened ByteMatcher

  const BACKSLASH: Byte := 0x5C
  const LOWER_U: Byte := 0x75
  const ZERO: Byte := 0x30

  function ShortEscape(b: Byte): Option<Byte> {
    if b == 0x22 || b == 0x5C || b == 0x2F then Some(b)
    else if b == 0x62 then Some(8)
    else if b == 0x66 then Some(12)
    else if b == 0x6E then Some(10)
    else if b == 0x72 then Some(13)
    else if b == 0x74 then Some(9)
    else None
  }

  function HexDigit(b: Byte): Option<int> {
    if 0x30 <= b <= 0x39 then Some(b - 0x30)
    else if 0x61 <= b <= 0x66 then Some(b - 0x61 + 10)
    else if 0x41 <= b <= 0x46 then Some(b - 0x41 + 10)
    else None
  }

  predicate Space(b: Byte) { b == 0x20 || 0x09 <= b <= 0x0D }

  /** Two bytes as the base-16 integer conversion reads them: it also takes a sign or a space and one digit. */
  function HexPair(a: Byte, b: Byte): Option<int> {
    if HexDigit(a).Some? && HexDigit(b).Some? then Some(16 * HexDigit(a).value + HexDigit(b).value)
    else if HexDigit(b).Some? && (a == 0x2B || Space(a)) then HexDigit(b)
    else if HexDigit(b).Some? && a == 0x2D then Some(0 - HexDigit(b).value)
    else if HexDigit(a).Some? && Space(b) then HexDigit(a)
    else None
  }

  /** A complete six-byte escape: its character when it is a visible ASCII one, else as it stands. */
  function LongEscape(escape: seq<Byte>): seq<Byte>
    requires |escape| == 6
  {
    var character := HexPair(escape[4], escape[5]);
    if escape[2] == ZERO && escape[3] == ZERO && character.Some? && 0 <= character.value <= 127
    then [character.value] else escape
  }

  // ---------- the transducer ----------

  /** One byte: the bytes still pending afterwards and the bytes put out. */
  function Step(pending: seq<Byte>, byte: Byte): (seq<Byte>, seq<Byte>)
    requires |pending| < 6
  {
    if pending == [] then
      if byte == BACKSLASH then ([byte], []) else ([], [byte])
    else
      var now := pending + [byte];
      if |now| == 2 then
        if ShortEscape(byte).Some? then ([], [ShortEscape(byte).value])
        else if byte != LOWER_U then ([], now)
        else (now, [])
      else if |now| == 6 then ([], LongEscape(now))
      else (now, [])
  }

  /** An unfinished escape. */
  predicate Pending(pending: seq<Byte>) {
    && |pending| < 6
    && (|pending| >= 1 ==> pending[0] == BACKSLASH)
    && (|pending| >= 2 ==> pending[1] == LOWER_U)
  }

  /** All bytes of a chunk, from the last one backwards. */
  function Decode(pending: seq<Byte>, value: seq<Byte>): (result: (seq<Byte>, seq<Byte>))
    requires Pending(pending)
    ensures Pending(result.0)
    decreases |value|
  {
    if value == [] then (pending, [])
    else
      var before := Decode(pending, value[..|value| - 1]);
      var last := Step(before.0, value[|value| - 1]);
      (last.0, before.1 + last.1)
  }

  /** Where the stream is cut makes no difference. */
  lemma {:induction false} ChunksDoNotMatter(pending: seq<Byte>, a: seq<Byte>, b: seq<Byte>)
    requires Pending(pending)
    ensures Decode(pending, a + b).0 == Decode(Decode(pending, a).0, b).0
    ensures Decode(pending, a + b).1 == Decode(pending, a).1 + Decode(Decode(pending, a).0, b).1
    decreases |b|
  {
    hide Step;
    if b == [] {
      assert a + b == a;
    } else {
      var all, init := a + b, b[..|b| - 1];
      assert all[..|all| - 1] == a + init;
      ChunksDoNotMatter(pending, a, init);
    }
  }

  // ---------- an independent reading of the whole text ----------

  /** The same decoding read off the whole text from the left. */
  function Decoded(text: seq<Byte>): seq<Byte> {
    if text == [] then []
    else if text[0] != BACKSLASH then [text[0]] + Decoded(text[1..])
    else if |text| < 2 then text
    else if ShortEscape(text[1]).Some? then [ShortEscape(text[1]).value] + Decoded(text[2..])
    else if text[1] != LOWER_U then text[..2] + Decoded(text[2..])
    else if |text| < 6 then text
    else LongEscape(text[..6]) + Decoded(text[6..])
  }

  lemma DecodeOne(pending: seq<Byte>, byte: Byte)
    requires Pending(pending)
    ensures Decode(pending, [byte]) == Step(pending, byte)
  {
    var value := [byte];
    assert value[..|value| - 1] == [];
    assert Decode(pending, []) == (pending, []);
    assert [] + Step(pending, byte).1 == Step(pending, byte).1;
  }

  lemma StepPends(pending: seq<Byte>, byte: Byte)
    requires Pending(pending + [byte])
    ensures Pending(pending) && Step(pending, byte) == (pending + [byte], [])
  {
    var now := pending + [byte];
    assert now[..|pending|] == pending;
    assert |pending| == 1 ==> now[1] == byte;
  }

  /** An unfinished escape of at most five bytes is all pending. */
  lemma {:induction false} StaysPending(text: seq<Byte>)
    requires Pending(text)
    ensures Decode([], text) == (text, [])
    decreases |text|
  {
    hide Step, Decode;
    if text == [] {
      NothingDecoded();
    } else {
      var init, last := text[..|text| - 1], text[|text| - 1];
      assert text == init + [last];
      StepPends(init, last);
      StaysPending(init);
      DecodeOne(init, last);
      ChunksDoNotMatter([], init, [last]);
    }
  }

  /** The first unit of the text: one byte, a short escape, an unknown escape or a long one. */
  function UnitLength(text: seq<Byte>): (n: nat)
    requires text != []
    ensures 0 < n <= |text|
  {
    if text[0] != BACKSLASH then 1
    else if |text| < 2 then |text|
    else if text[1] != LOWER_U then 2
    else if |text| < 6 then |text|
    else 6
  }

  /** The bytes the first unit decodes to. */
  function Unit(text: seq<Byte>): seq<Byte>
    requires text != []
  {
    if text[0] != BACKSLASH || |text| < 2 then text[..1]
    else if ShortEscape(text[1]).Some? then [ShortEscape(text[1]).value]
    else if text[1] != LOWER_U then text[..2]
    else if |text| < 6 then text
    else LongEscape(text[..6])
  }

  lemma FirstUnit(text: seq<Byte>)
    requires text != []
    ensures Decoded(text) == Unit(text) + Decoded(text[UnitLength(text)..])
  {
    hide LongEscape;
    if UnitLength(text) == |text| { assert text[|text|..] == []; }
  }

  /** Decoding the first unit leaves nothing pending, unless the text ends inside it. */
  lemma UnitDecodes(text: seq<Byte>)
    requires text != []
    ensures var n := UnitLength(text);
      var first := Decode([], text[..n]);
      && first.1 + first.0 == Unit(text)
      && (first.0 == [] || n == |text|)
  {
    hide Decode, LongEscape;
    var n := UnitLength(text);
    if n == 1 {
      DecodeOne([], text[0]);
      assert text[..1] == [text[0]];
    } else if n == 2 {
      TwoBytes(text);
    } else if |text| < 6 {
      assert text[..n] == text;
      StaysPending(text);
    } else {
      SixBytes(text);
    }
  }

  lemma SixBytes(text: seq<Byte>)
    requires |text| >= 6 && text[0] == BACKSLASH && text[1] == LOWER_U
    ensures Decode([], text[..6]) == ([], LongEscape(text[..6]))
  {
    StaysPending(text[..5]);
    DecodeOne(text[..5], text[5]);
    assert text[..6] == text[..5] + [text[5]];
    ChunksDoNotMatter([], text[..5], [text[5]]);
  }

  lemma TwoBytes(text: seq<Byte>)
    requires |text| >= 2 && text[0] == BACKSLASH
    ensures Decode([], text[..2]) == Step([BACKSLASH], text[1])
  {
    DecodeOne([], text[0]);
    DecodeOne([BACKSLASH], text[1]);
    assert text[..2] == [text[0]] + [text[1]];
    ChunksDoNotMatter([], [text[0]], [text[1]]);
  }

  /** Feeding the text in any chunks and then finishing yields its decoding. */
  lemma {:induction false} DecodesWholeText(text: seq<Byte>)
    ensures Decode([], text).1 + Decode([], text).0 == Decoded(text)
    decreases |text|
  {
    hide Decode, Step, Unit;
    if text == [] {
      NothingDecoded();
    } else {
      var n := UnitLength(text);
      FirstUnit(text);
      UnitDecodes(text);
      DecodesWholeText(text[n..]);
      assert text == text[..n] + text[n..];
      ChunksDoNotMatter([], text[..n], text[n..]);
      if n == |text| { NothingMore(Decode([], text[..n]).0); assert text[n..] == []; }
    }
  }

  lemma NothingDecoded()
    ensures Decode([], []) == ([], [])
  {
  }

  lemma NothingMore(pending: seq<Byte>)
    requires Pending(pending)
    ensures Decode(pending, []) == (pending, [])
  {
  }

  // ---------- every escaped spelling of a value decodes to it ----------

  /** One byte of a JSON string spelt out: as itself, by a short escape, or as \u00XX. */
  predicate Spells(spelling: seq<Byte>, byte: Byte) {
    || (|spelling| == 1 && spelling[0] == byte && byte != BACKSLASH)
    || (|spelling| == 2 && spelling[0] == BACKSLASH && ShortEscape(spelling[1]) == Some(byte))
    || (|spelling| == 6 && byte <= 127
        && spelling[0] == BACKSLASH && spelling[1] == LOWER_U && spelling[2] == ZERO && spelling[3] == ZERO
        && HexDigit(spelling[4]).Some? && HexDigit(spelling[5]).Some?
        && 16 * HexDigit(spelling[4]).value + HexDigit(spelling[5]).value == byte)
  }

  function Join(spellings: seq<seq<Byte>>): seq<Byte> {
    if spellings == [] then [] else spellings[0] + Join(spellings[1..])
  }

  predicate SpellsAll(spellings: seq<seq<Byte>>, value: seq<Byte>) {
    |spellings| == |value| && forall i | 0 <= i < |value| :: Spells(spellings[i], value[i])
  }

  lemma SpellingDecodes(spelling: seq<Byte>, byte: Byte)
    requires Spells(spelling, byte)
    ensures Decode([], spelling) == ([], [byte])
  {
    if |spelling| == 1 {
      DecodeOne([], byte);
      assert spelling == [byte];
    } else if |spelling| == 2 {
      TwoBytes(spelling);
      assert spelling[..2] == spelling;
    } else {
      SixBytes(spelling);
      assert spelling[..6] == spelling;
    }
  }

  lemma {:induction false} SpellingsDecode(spellings: seq<seq<Byte>>, value: seq<Byte>)
    requires SpellsAll(spellings, value)
    ensures Decode([], Join(spellings)) == ([], value)
    decreases |value|
  {
    hide Decode, Spells;
    if value == [] {
      NothingDecoded();
    } else {
      SpellingDecodes(spellings[0], value[0]);
      SpellingsDecode(spellings[1..], value[1..]);
      ChunksDoNotMatter([], spellings[0], Join(spellings[1..]));
      assert [value[0]] + value[1..] == value;
    }
  }

  /**
    A value spelt with any mixture of escapes, starting where no escape is open, appears in the
    decoded stream as soon as its last byte has been fed.
  */
  lemma EscapedValueAppears(before: seq<Byte>, spellings: seq<seq<Byte>>, value: seq<Byte>)
    requires Decode([], before).0 == [] && SpellsAll(spellings, value)
    ensures Contains(Decode([], before + Join(spellings)).1, value)
    ensures Decode([], before + Join(spellings)).0 == []
  {
    hide Decode, SpellsAll, Join;
    SpellingsDecode(spellings, value);
    ChunksDoNotMatter([], before, Join(spellings));
    var earlier := Decode([], before).1;
    assert (earlier + value)[|earlier|..|earlier| + |value|] == value;
    assert At(earlier + value, value, |earlier|);
  }

  // ---------- the decoder ----------

  class IncrementalJsonEscapeDecoder {
    var pending: seq<Byte>
    ghost var fed: seq<Byte>

    ghost predicate Valid()
      reads this
    {
      Pending(pending) && pending == Decode([], fed).0
    }

    constructor ()
      ensures Valid() && fed == []
    {
      pending, fed := [], [];
    }

    method Feed(value: seq<Byte>) returns (decoded: seq<Byte>)
      requires Valid()
      modifies this
      ensures Valid() && fed == old(fed) + value
      ensures Decode([], fed).1 == Decode([], old(fed)).1 + decoded
    {
      hide Decode, LongEscape, ShortEscape;
      decoded := [];
      ghost var before := fed;
      NothingMore(pending);
      for i := 0 to |value|
        invariant Pending(pending) && Pending(old(pending)) && fed == before
        invariant (pending, decoded) == Decode(old(pending), value[..i])
      {
        var byte := value[i];
        DecodeNext(old(pending), value, i);
        assert decoded + [] == decoded && [] + [byte] == [byte];
        if pending == [] {
          if byte == BACKSLASH {
            pending := pending + [byte];
          } else {
            decoded := decoded + [byte];
          }
          continue;
        }
        pending := pending + [byte];
        if |pending| == 2 {
          var escaped := pending[1];
          if ShortEscape(escaped).Some? {
            decoded := decoded + [ShortEscape(escaped).value];
            pending := [];
          } else if escaped != LOWER_U {
            decoded := decoded + pending;
            pending := [];
          }
          continue;
        }
        if |pending| == 6 {
          decoded := decoded + LongEscape(pending);
          pending := [];
        }
      }
      assert value[..|value|] == value;
      ChunksDoNotMatter([], fed, value);
      fed := fed + value;
    }

    /** The end of the stream: whatever is pending is put out as it stands. */
    method Finish() returns (tail: seq<Byte>)
      requires Valid()
      modifies this`pending
      ensures tail == old(pending) && pending == []
      ensures Decode([], fed).1 + tail == Decoded(fed)
    {
      tail := pending;
      pending := [];
      DecodesWholeText(fed);
    }
  }

  lemma DecodeNext(pending: seq<Byte>, value: seq<Byte>, i: nat)
    requires Pending(pending) && i < |value|
    ensures var before := Decode(pending, value[..i]);
      var last := Step(before.0, value[i]);
      Decode(pending, value[..i + 1]) == (last.0, before.1 + last.1)
  {
    assert value[..i + 1][..i] == value[..i];
  }
}
