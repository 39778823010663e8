/**
  The opaque page cursors: a fixed-width binary key in URL-safe base64 (section 5 of RFC 4648)
  for rows ordered by time, and a decimal number in unpadded base64 for event logs.
*/
module Cursors {
  import opened Common
  import opened ByteMatcher

  // ---------- base64 ----------

  /** The 64 symbols of the URL-safe alphabet. */
  function Symbol(i: int): char
    requires 0 <= i < 64
  {
    if i < 26 then (i + 65) as char
    else if i < 52 then (i - 26 + 97) as char
    else if i < 62 then (i - 52 + 48) as char
    else if i == 62 then '-'
    else '_'
  }

  /** The decoder takes the two symbols of the standard alphabet as well. */
  function Value(c: char): Option<int> {
    if 'A' <= c <= 'Z' then Some(c as int - 65)
    else if 'a' <= c <= 'z' then Some(c as int - 97 + 26)
    else if '0' <= c <= '9' then Some(c as int - 48 + 52)
    else if c == '-' || c == '+' then Some(62)
    else if c == '_' || c == '/' then Some(63)
    else None
  }

  function Canonical(c: char): char {
    if c == '+' then '-' else if c == '/' then '_' else c
  }

  lemma SymbolsAreValues(c: char)
    ensures Value(c).Some? ==> 0 <= Value(c).value < 64 && Symbol(Value(c).value) == Canonical(c)
    ensures forall i | 0 <= i < 64 :: Value(Symbol(i)) == Some(i)
  {
  }

  type Sextet = x: int | 0 <= x < 64

  function Sextet0(a: Byte): Sextet { a / 4 }

  function Sextet1(a: Byte, b: Byte): Sextet { a % 4 * 16 + b / 16 }

  function Sextet2(b: Byte, c: Byte): Sextet { b % 16 * 4 + c / 64 }

  function Sextet3(c: Byte): Sextet { c % 64 }

  function Byte0(p: Sextet, q: Sextet): Byte { p * 4 + q / 16 }

  function Byte1(q: Sextet, r: Sextet): Byte { q % 16 * 16 + r / 4 }

  function Byte2(r: Sextet, s: Sextet): Byte { r % 4 * 64 + s }

  lemma BytesComeBack(a: Byte, b: Byte, c: Byte)
    ensures Byte0(Sextet0(a), Sextet1(a, b)) == a
    ensures Byte1(Sextet1(a, b), Sextet2(b, c)) == b
    ensures Byte2(Sextet2(b, c), Sextet3(c)) == c
  {
  }

  lemma SextetsComeBack(p: Sextet, q: Sextet, r: Sextet, s: Sextet)
    ensures Sextet0(Byte0(p, q)) == p
    ensures Sextet1(Byte0(p, q), Byte1(q, r)) == q
    ensures Sextet2(Byte1(q, r), Byte2(r, s)) == r
    ensures Sextet3(Byte2(r, s)) == s
  {
  }

  /** Groups of three bytes as four six-bit values; a shorter last group without padding. */
  function Sextets(bytes: seq<Byte>): seq<Sextet> {
    if |bytes| == 0 then []
    else if |bytes| == 1 then [Sextet0(bytes[0]), Sextet1(bytes[0], 0)]
    else if |bytes| == 2 then [Sextet0(bytes[0]), Sextet1(bytes[0], bytes[1]), Sextet2(bytes[1], 0)]
    else
      [Sextet0(bytes[0]), Sextet1(bytes[0], bytes[1]), Sextet2(bytes[1], bytes[2]), Sextet3(bytes[2])] + Sextets(bytes[3..])
  }

  /** One value left over is an error, spare bits at the end are not. */
  function Bytes(values: seq<Sextet>): Option<seq<Byte>> {
    if |values| == 0 then Some([])
    else if |values| == 1 then None
    else if |values| == 2 then Some([Byte0(values[0], values[1])])
    else if |values| == 3 then Some([Byte0(values[0], values[1]), Byte1(values[1], values[2])])
    else
      match Bytes(values[4..])
      case None => None
      case Some(rest) =>
        Some([Byte0(values[0], values[1]), Byte1(values[1], values[2]), Byte2(values[2], values[3])] + rest)
  }

  lemma {:induction false} SextetCount(bytes: seq<Byte>)
    ensures |Sextets(bytes)| == |bytes| / 3 * 4 + (if |bytes| % 3 == 0 then 0 else |bytes| % 3 + 1)
  {
    if |bytes| >= 3 { SextetCount(bytes[3..]); }
  }

  lemma {:induction false} BytesOfSextets(bytes: seq<Byte>)
    ensures Bytes(Sextets(bytes)) == Some(bytes)
  {
    hide Sextet0, Sextet1, Sextet2, Sextet3, Byte0, Byte1, Byte2;
    if |bytes| >= 3 {
      BytesComeBack(bytes[0], bytes[1], bytes[2]);
      BytesOfSextets(bytes[3..]);
      assert Sextets(bytes)[4..] == Sextets(bytes[3..]);
      assert bytes == [bytes[0], bytes[1], bytes[2]] + bytes[3..];
    } else if |bytes| == 2 {
      BytesComeBack(bytes[0], bytes[1], 0);
      assert bytes == [bytes[0], bytes[1]];
    } else if |bytes| == 1 {
      BytesComeBack(bytes[0], 0, 0);
      assert bytes == [bytes[0]];
    }
  }

  lemma {:induction false} SextetsOfBytes(values: seq<Sextet>)
    requires |values| % 4 == 0
    ensures Bytes(values).Some? && Sextets(Bytes(values).value) == values
    ensures |Bytes(values).value| == |values| / 4 * 3
  {
    hide Sextet0, Sextet1, Sextet2, Sextet3, Byte0, Byte1, Byte2;
    if |values| > 0 {
      SextetsComeBack(values[0], values[1], values[2], values[3]);
      SextetsOfBytes(values[4..]);
      assert Bytes(values).value[3..] == Bytes(values[4..]).value;
      assert values == [values[0], values[1], values[2], values[3]] + values[4..];
    }
  }

  predicate AllSymbols(text: string) {
    forall i | 0 <= i < |text| :: Value(text[i]).Some?
  }

  function SymbolValue(c: char): Sextet
    requires Value(c).Some?
  {
    SymbolsAreValues(c);
    Value(c).value
  }

  function Values(text: string): seq<Sextet>
    requires AllSymbols(text)
  {
    seq(|text|, i requires 0 <= i < |text| => SymbolValue(text[i]))
  }

  function Symbols(values: seq<Sextet>): string {
    seq(|values|, i requires 0 <= i < |values| => Symbol(values[i]))
  }

  function CanonicalText(text: string): string {
    seq(|text|, i requires 0 <= i < |text| => Canonical(text[i]))
  }

  function Encode(bytes: seq<Byte>): string { Symbols(Sextets(bytes)) }

  function Decode(text: string): Option<seq<Byte>> {
    if AllSymbols(text) then Bytes(Values(text)) else None
  }

  /** Every byte string survives, whatever its length. */
  lemma DecodeEncode(bytes: seq<Byte>)
    ensures Decode(Encode(bytes)) == Some(bytes)
  {
    hide Value, Symbol, Sextets, Bytes;
    var values := Sextets(bytes);
    SymbolsAreValues('A');
    assert AllSymbols(Symbols(values)) && Values(Symbols(values)) == values;
    BytesOfSextets(bytes);
  }

  lemma EncodedLength(bytes: seq<Byte>)
    ensures |Encode(bytes)| == |bytes| / 3 * 4 + (if |bytes| % 3 == 0 then 0 else |bytes| % 3 + 1)
  {
    SextetCount(bytes);
  }

  /** Text of whole groups is the encoding of what it decodes to, up to the alternative symbols. */
  lemma EncodeDecode(text: string)
    requires |text| % 4 == 0 && AllSymbols(text)
    ensures Decode(text).Some? && Encode(Decode(text).value) == CanonicalText(text)
    ensures |Decode(text).value| == |text| / 4 * 3
  {
    hide Value, Symbol, Canonical, Sextets, Bytes;
    SextetsOfBytes(Values(text));
    forall i | 0 <= i < |text| ensures Symbol(Values(text)[i]) == Canonical(text[i]) { SymbolsAreValues(text[i]); }
  }

  /** The alphabet is A to Z, a to z, 0 to 9, minus and underscore, in this order. */
  lemma SymbolsAreTheAlphabet()
    ensures Symbol(0) == 'A' && Symbol(25) == 'Z' && Symbol(26) == 'a' && Symbol(51) == 'z'
    ensures Symbol(52) == '0' && Symbol(61) == '9' && Symbol(62) == '-' && Symbol(63) == '_'
    ensures forall i | 0 <= i < 61 && i != 25 && i != 51 :: Symbol(i + 1) as int == Symbol(i) as int + 1
  {
  }

  /** The digits read from the left as one number. */
  function Number(base: nat, start: nat, digits: seq<nat>): nat
    decreases |digits|
  {
    if digits == [] then start else Number(base, start * base + digits[0], digits[1..])
  }

  /** What fills the last group up to a multiple of six bits. */
  function Filler(length: nat): nat {
    if length % 3 == 0 then 1 else if length % 3 == 1 then 16 else 4
  }

  /** The sextets are the digits to the base 64 of the number whose digits to the base 256 are the bytes, shifted to fill the last one. */
  lemma {:induction false} SextetsAreDigits(bytes: seq<Byte>, start: nat)
    ensures Number(64, start, Sextets(bytes)) == Number(256, start, bytes) * Filler(|bytes|)
  {
    hide Number, Sextet0, Sextet1, Sextet2, Sextet3;
    if |bytes| >= 3 {
      var a, b, c, rest := bytes[0], bytes[1], bytes[2], bytes[3..];
      assert bytes == [a, b, c] + rest;
      NextThree(256, start, a, b, c, rest);
      NextFour(start, Sextet0(a), Sextet1(a, b), Sextet2(b, c), Sextet3(c), Sextets(rest));
      SextetsWeigh(start, a, b, c);
      SextetsAreDigits(rest, ((start * 256 + a) * 256 + b) * 256 + c);
    } else if |bytes| == 2 {
      TwoBytesLeft(start, bytes[0], bytes[1]);
      assert bytes == [bytes[0], bytes[1]];
    } else if |bytes| == 1 {
      OneByteLeft(start, bytes[0]);
      assert bytes == [bytes[0]];
    } else {
      NoMore();
    }
  }

  lemma TwoBytesLeft(start: nat, a: Byte, b: Byte)
    ensures Number(64, start, [Sextet0(a), Sextet1(a, b), Sextet2(b, 0)]) == Number(256, start, [a, b]) * 4
  {
    hide Number, Sextet0, Sextet1, Sextet2;
    var p, q, r := Sextet0(a), Sextet1(a, b), Sextet2(b, 0);
    assert [p, q, r] + [] == [p, q, r] && [a, b] + [] == [a, b];
    NextTwo(256, start, a, b, []);
    NextThree(64, start, p, q, r, []);
    SextetsWeigh(start, a, b, 0);
    NoMore();
  }

  lemma OneByteLeft(start: nat, a: Byte)
    ensures Number(64, start, [Sextet0(a), Sextet1(a, 0)]) == Number(256, start, [a]) * 16
  {
    hide Number, Sextet0, Sextet1;
    var p, q := Sextet0(a), Sextet1(a, 0);
    assert [p, q] + [] == [p, q] && [a] + [] == [a];
    NextDigit(256, start, a, []);
    NextTwo(64, start, p, q, []);
    SextetsWeigh(start, a, 0, 0);
    NoMore();
  }

  lemma SextetsWeigh(start: nat, a: Byte, b: Byte, c: Byte)
    ensures (((start * 64 + Sextet0(a)) * 64 + Sextet1(a, b)) * 64 + Sextet2(b, c)) * 64 + Sextet3(c)
         == ((start * 256 + a) * 256 + b) * 256 + c
    ensures ((start * 64 + Sextet0(a)) * 64 + Sextet1(a, b)) * 64 + Sextet2(b, 0) == ((start * 256 + a) * 256 + b) * 4
    ensures (start * 64 + Sextet0(a)) * 64 + Sextet1(a, 0) == (start * 256 + a) * 16
  {
  }

  lemma NoMore()
    ensures forall base: nat, start: nat :: Number(base, start, []) == start
  {
  }

  lemma NextDigit(base: nat, start: nat, a: nat, rest: seq<nat>)
    ensures Number(base, start, [a] + rest) == Number(base, start * base + a, rest)
  {
    assert ([a] + rest)[1..] == rest;
  }

  lemma NextTwo(base: nat, start: nat, a: nat, b: nat, rest: seq<nat>)
    ensures Number(base, start, [a, b] + rest) == Number(base, (start * base + a) * base + b, rest)
  {
    hide Number;
    assert [a, b] + rest == [a] + ([b] + rest);
    NextDigit(base, start, a, [b] + rest);
    NextDigit(base, start * base + a, b, rest);
  }

  lemma NextThree(base: nat, start: nat, a: nat, b: nat, c: nat, rest: seq<nat>)
    ensures Number(base, start, [a, b, c] + rest) == Number(base, ((start * base + a) * base + b) * base + c, rest)
  {
    hide Number;
    assert [a, b, c] + rest == [a] + ([b, c] + rest);
    NextDigit(base, start, a, [b, c] + rest);
    NextTwo(base, start * base + a, b, c, rest);
  }

  lemma NextFour(start: nat, a: nat, b: nat, c: nat, d: nat, rest: seq<nat>)
    ensures Number(64, start, [a, b, c, d] + rest) == Number(64, (((start * 64 + a) * 64 + b) * 64 + c) * 64 + d, rest)
  {
    hide Number;
    assert [a, b, c, d] + rest == [a] + ([b, c, d] + rest);
    NextDigit(64, start, a, [b, c, d] + rest);
    NextThree(64, start * 64 + a, b, c, d, rest);
  }

  // ---------- fixed-width integers ----------

  function Pow256(n: nat): nat { if n == 0 then 1 else 256 * Pow256(n - 1) }

  /** The n low-order base-256 digits, most significant first. */
  function ToBytes(v: nat, n: nat): (bytes: seq<Byte>)
    ensures |bytes| == n
  {
    if n == 0 then [] else ToBytes(v / 256, n - 1) + [v % 256]
  }

  function FromBytes(bytes: seq<Byte>): nat {
    if bytes == [] then 0 else FromBytes(bytes[..|bytes| - 1]) * 256 + bytes[|bytes| - 1]
  }

  lemma {:induction false} FromToBytes(v: nat, n: nat)
    requires v < Pow256(n)
    ensures FromBytes(ToBytes(v, n)) == v
  {
    if n > 0 {
      FromToBytes(v / 256, n - 1);
      assert ToBytes(v, n)[..n - 1] == ToBytes(v / 256, n - 1);
    }
  }

  lemma {:induction false} ToFromBytes(bytes: seq<Byte>)
    ensures FromBytes(bytes) < Pow256(|bytes|) && ToBytes(FromBytes(bytes), |bytes|) == bytes
  {
    if bytes != [] {
      ToFromBytes(bytes[..|bytes| - 1]);
      assert bytes == bytes[..|bytes| - 1] + [bytes[|bytes| - 1]];
    }
  }

  const TWO_63: int := 0x8000_0000_0000_0000
  const TWO_64: int := 0x1_0000_0000_0000_0000

  lemma Pow256Of8()
    ensures Pow256(8) == TWO_64
  {
    assert Pow256(2) == 0x1_0000;
    assert Pow256(4) == 0x1_0000_0000;
    assert Pow256(6) == 0x1_0000_0000_0000;
  }

  /** Two's complement in eight bytes. */
  function SignedToBytes(v: int): seq<Byte>
    requires -TWO_63 <= v < TWO_63
  {
    ToBytes(if v < 0 then v + TWO_64 else v, 8)
  }

  function SignedFromBytes(bytes: seq<Byte>): int
    requires |bytes| == 8
  {
    var v := FromBytes(bytes);
    if v >= TWO_63 then v - TWO_64 else v
  }

  lemma SignedRoundTrip(v: int)
    requires -TWO_63 <= v < TWO_63
    ensures SignedFromBytes(SignedToBytes(v)) == v
  {
    Pow256Of8();
    FromToBytes(if v < 0 then v + TWO_64 else v, 8);
  }

  lemma BytesRoundTrip(bytes: seq<Byte>)
    requires |bytes| == 8
    ensures -TWO_63 <= SignedFromBytes(bytes) < TWO_63
    ensures SignedToBytes(SignedFromBytes(bytes)) == bytes
  {
    Pow256Of8();
    ToFromBytes(bytes);
  }

  // ---------- instants ----------

  const DAY_MICROSECONDS: int := 86_400_000_000
  const SECOND_MICROSECONDS: int := 1_000_000

  /** Days, seconds and microseconds since 1970-01-01, normalized as a time difference is. */
  datatype Instant = Instant(days: int, seconds: int, microseconds: int)
  {
    /** The calendar runs from year 1 to year 9999. */
    predicate Valid() {
      && -719162 <= days <= 2932896
      && 0 <= seconds < 86_400
      && 0 <= microseconds < SECOND_MICROSECONDS
    }

    function Microseconds(): int {
      days * DAY_MICROSECONDS + seconds * SECOND_MICROSECONDS + microseconds
    }
  }

  /** The instant so many microseconds after the epoch. */
  function Since(microseconds: int): Instant {
    var rest := microseconds % DAY_MICROSECONDS;
    Instant(microseconds / DAY_MICROSECONDS, rest / SECOND_MICROSECONDS, rest % SECOND_MICROSECONDS)
  }

  lemma InstantRoundTrip(at: Instant)
    requires at.Valid()
    ensures -TWO_63 <= at.Microseconds() < TWO_63 && Since(at.Microseconds()) == at
  {
    var rest := at.seconds * SECOND_MICROSECONDS + at.microseconds;
    assert 0 <= rest < DAY_MICROSECONDS;
    assert at.Microseconds() % DAY_MICROSECONDS == rest;
  }

  lemma SinceRoundTrip(microseconds: int)
    ensures Since(microseconds).Microseconds() == microseconds
  {
  }

  // ---------- cursors over (time, id) ----------

  datatype CursorError = InvalidCursor

  const TWO_128: nat := 0x1_0000_0000_0000_0000_0000_0000_0000_0000

  lemma Pow256Of16()
    ensures Pow256(16) == TWO_128
  {
    Pow256Of8();
    assert Pow256(10) == TWO_64 * 0x1_0000;
    assert Pow256(12) == TWO_64 * 0x1_0000_0000;
    assert Pow256(14) == TWO_64 * 0x1_0000_0000_0000;
  }

  function AuditPayload(at: Instant, id: nat): seq<Byte>
    requires at.Valid()
  {
    InstantRoundTrip(at);
    SignedToBytes(at.Microseconds()) + ToBytes(id, 16)
  }

  function EncodeAudit(at: Instant, id: nat): string
    requires at.Valid()
  {
    Encode(AuditPayload(at, id))
  }

  function DecodeAudit(text: string): Outcome<(Instant, nat), CursorError> {
    if |text| != 32 then Err(InvalidCursor)
    else
      match Decode(text)
      case None => Err(InvalidCursor)
      case Some(payload) =>
        if |payload| != 24 then Err(InvalidCursor)
        else
          var at := Since(SignedFromBytes(payload[..8]));
          if at.Valid() then Ok((at, FromBytes(payload[8..]))) else Err(InvalidCursor)
  }

  /** Every instant of the calendar and every identifier comes back exactly. */
  lemma AuditRoundTrip(at: Instant, id: nat)
    requires at.Valid() && id < TWO_128
    ensures |EncodeAudit(at, id)| == 32 && DecodeAudit(EncodeAudit(at, id)) == Ok((at, id))
  {
    hide Encode, Decode, ToBytes, FromBytes, SignedToBytes, SignedFromBytes, Since;
    InstantRoundTrip(at);
    Pow256Of16();
    FromToBytes(id, 16);
    SignedWidth(at.Microseconds());
    SignedRoundTrip(at.Microseconds());
    var payload := AuditPayload(at, id);
    DecodeEncode(payload);
    EncodedLength(payload);
    assert payload[..8] == SignedToBytes(at.Microseconds()) && payload[8..] == ToBytes(id, 16);
  }

  lemma SignedWidth(v: int)
    requires -TWO_63 <= v < TWO_63
    ensures |SignedToBytes(v)| == 8
  {
  }

  /** A cursor that decodes is the one its row would get, up to the alternative symbols. */
  lemma AuditDecodeIsFaithful(text: string)
    requires DecodeAudit(text).Ok?
    ensures var (at, id) := DecodeAudit(text).value;
      at.Valid() && id < TWO_128 && EncodeAudit(at, id) == CanonicalText(text)
  {
    hide Encode, Bytes, ToBytes, FromBytes, SignedToBytes, SignedFromBytes, Since, CanonicalText;
    EncodeDecode(text);
    var payload := Decode(text).value;
    BytesRoundTrip(payload[..8]);
    SinceRoundTrip(SignedFromBytes(payload[..8]));
    Pow256Of16();
    ToFromBytes(payload[8..]);
    assert payload == payload[..8] + payload[8..];
  }

  lemma {:induction false} NumberOfConcat(base: nat, start: nat, a: seq<nat>, b: seq<nat>)
    ensures Number(base, start, a + b) == Number(base, Number(base, start, a), b)
    decreases |a|
  {
    if a == [] {
      assert a + b == b;
    } else {
      NumberOfConcat(base, start * base + a[0], a[1..], b);
      assert (a + b)[1..] == a[1..] + b;
    }
  }

  lemma {:induction false} NumberIsFromBytes(start: nat, bytes: seq<Byte>)
    ensures Number(256, start, bytes) == start * Pow256(|bytes|) + FromBytes(bytes)
    decreases |bytes|
  {
    if bytes != [] {
      var init, last := bytes[..|bytes| - 1], bytes[|bytes| - 1];
      NumberIsFromBytes(start, init);
      NumberOfConcat(256, start, init, [last]);
      assert bytes == init + [last];
      assert Number(256, Number(256, start, init), [last]) == Number(256, start, init) * 256 + last by { assert [last][1..] == []; }
    }
  }

  /**
    Read as a number to the base 64, an audit cursor is the instant's microseconds, modulo 2^64,
    times 2^128 plus the identifier.
  */
  lemma AuditCursorIsANumber(at: Instant, id: nat)
    requires at.Valid() && id < TWO_128
    ensures Symbols(Sextets(AuditPayload(at, id))) == EncodeAudit(at, id)
    ensures Number(64, 0, Sextets(AuditPayload(at, id)))
         == (if at.Microseconds() < 0 then at.Microseconds() + TWO_64 else at.Microseconds()) * TWO_128 + id
  {
    hide Sextets, ToBytes, FromBytes, Since, Pow256, Number, SignedToBytes;
    InstantRoundTrip(at);
    var unsigned := if at.Microseconds() < 0 then at.Microseconds() + TWO_64 else at.Microseconds();
    SignedIsUnsigned(at.Microseconds());
    PayloadIsANumber(unsigned, id);
    SextetsAreDigits(AuditPayload(at, id), 0);
  }

  lemma SignedIsUnsigned(v: int)
    requires -TWO_63 <= v < TWO_63
    ensures SignedToBytes(v) == ToBytes(if v < 0 then v + TWO_64 else v, 8)
  {
  }

  lemma PayloadIsANumber(high: nat, low: nat)
    requires high < TWO_64 && low < TWO_128
    ensures Number(256, 0, ToBytes(high, 8) + ToBytes(low, 16)) == high * TWO_128 + low
  {
    hide ToBytes, FromBytes, Pow256, Number;
    Pow256Of8();
    Pow256Of16();
    FromToBytes(high, 8);
    FromToBytes(low, 16);
    NumberOfConcat(256, 0, ToBytes(high, 8), ToBytes(low, 16));
    NumberIsFromBytes(0, ToBytes(high, 8));
    NumberIsFromBytes(high, ToBytes(low, 16));
  }

  // ---------- cursors over sequence numbers ----------

  function Digits(n: nat): (digits: seq<Byte>)
    ensures |digits| >= 1 && forall i | 0 <= i < |digits| :: 48 <= digits[i] <= 57
  {
    if n < 10 then [48 + n] else Digits(n / 10) + [48 + n % 10]
  }

  predicate AllDigits(digits: seq<Byte>) {
    digits != [] && forall i | 0 <= i < |digits| :: 48 <= digits[i] <= 57
  }

  function Parse(digits: seq<Byte>): nat
    requires forall i | 0 <= i < |digits| :: 48 <= digits[i] <= 57
  {
    if digits == [] then 0 else Parse(digits[..|digits| - 1]) * 10 + (digits[|digits| - 1] - 48)
  }

  lemma {:induction false} ParseDigits(n: nat)
    ensures Parse(Digits(n)) == n
  {
    if n >= 10 {
      ParseDigits(n / 10);
      assert Digits(n)[..|Digits(n)| - 1] == Digits(n / 10);
    } else {
      assert Digits(n)[..0] == [];
    }
  }

  function Pow10(n: nat): nat { if n == 0 then 1 else 10 * Pow10(n - 1) }

  /** A number has at most k digits exactly when it is below 10^k. */
  lemma {:induction false} DigitCount(n: nat, k: nat)
    requires k >= 1
    ensures |Digits(n)| <= k <==> n < Pow10(k)
  {
    if n >= 10 {
      if k >= 2 { DigitCount(n / 10, k - 1); } else { assert Pow10(1) == 10; }
    } else {
      PowerAtLeastTen(k);
    }
  }

  lemma {:induction false} PowerAtLeastTen(k: nat)
    requires k >= 1
    ensures Pow10(k) >= 10
  {
    if k == 1 { assert Pow10(0) == 1; } else { PowerAtLeastTen(k - 1); }
  }

  function EncodeSequence(n: nat): string { Encode(Digits(n)) }

  function DecodeSequence(text: string): Outcome<nat, CursorError> {
    if !(1 <= |text| <= 16) then Err(InvalidCursor)
    else
      match Decode(text)
      case None => Err(InvalidCursor)
      case Some(digits) =>
        if !AllDigits(digits) then Err(InvalidCursor)
        else if Parse(digits) < 1 then Err(InvalidCursor)
        else Ok(Parse(digits))
  }

  /** Sequence cursors come back exactly for 1 <= n < 10^12; any other number's cursor is refused. */
  lemma SequenceRoundTrip(n: nat)
    ensures DecodeSequence(EncodeSequence(n)) == (if 1 <= n < 1_000_000_000_000 then Ok(n) else Err(InvalidCursor))
  {
    hide Encode, Decode, Digits, Parse;
    TwelveDigits();
    DecodeEncode(Digits(n));
    EncodedLength(Digits(n));
    ParseDigits(n);
    DigitCount(n, 12);
  }

  lemma TwelveDigits()
    ensures Pow10(12) == 1_000_000_000_000
  {
    assert Pow10(3) == 1000;
    assert Pow10(6) == 1_000_000;
    assert Pow10(9) == 1_000_000_000;
  }
}
