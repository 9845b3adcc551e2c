/**
  Segments: numeric, alphanumeric, byte and ECI data as bit strings, and parsing them back.
*/
module Segments {
  import opened Outcomes
  import opened Bits
  import opened Tables

  const INT_MAX := 0x7FFF_FFFF

  type UInt8 = b: int | 0 <= b < 256

  /** The characters before the terminating NUL of a C string. */
  type CString = s: seq<UInt8> | 0 !in s

  datatype Mode = Numeric | Alphanumeric | ByteMode | Kanji | Eci

  function ModeBits(mode: Mode): (bits: nat)
    ensures 0 < bits < 16
  {
    match mode
    case Numeric => 1
    case Alphanumeric => 2
    case ByteMode => 4
    case Kanji => 8
    case Eci => 7
  }

  /** The width of the character count field. */
  function CharCountBits(mode: Mode, ver: Version): (width: nat)
    ensures width <= 16
  {
    var range := (ver + 7) / 17;
    match mode
    case Numeric => if range == 0 then 10 else if range == 1 then 12 else 14
    case Alphanumeric => if range == 0 then 9 else if range == 1 then 11 else 13
    case ByteMode => if range == 0 then 8 else 16
    case Kanji => if range == 0 then 8 else if range == 1 then 10 else 12
    case Eci => 0
  }

  datatype Segment = Segment(mode: Mode, numChars: nat, data: seq<bool>)

  // ----- Payload bits -----

  predicate IsDigit(c: int) {
    48 <= c <= 57
  }

  function Digit(c: int): int {
    c - 48
  }

  /** The index of c in "0123456789ABCDEFGHIJKLMNOPQRSTUVWXYZ $%*+-./:", or -1. */
  function CharsetIndex(c: int): (i: int)
    ensures -1 <= i < 45
  {
    if 48 <= c <= 57 then c - 48
    else if 65 <= c <= 90 then c - 55
    else if c == 32 then 36
    else if c == 36 then 37
    else if c == 37 then 38
    else if c == 42 then 39
    else if c == 43 then 40
    else if c == 45 then 41
    else if c == 46 then 42
    else if c == 47 then 43
    else if c == 58 then 44
    else -1
  }

  function CharsetChar(i: int): (c: UInt8)
    requires 0 <= i < 45
    ensures CharsetIndex(c) == i
  {
    if i < 10 then i + 48
    else if i < 36 then i + 55
    else [32, 36, 37, 42, 43, 45, 46, 47, 58][i - 36]
  }

  const ALPHANUMERIC_CHARSET := "0123456789" + "ABCDEFGHIJKLM" + "NOPQRSTUVWXYZ" + " $%*+-./:"

  lemma {:induction false} CharsetAt(i: nat)
    requires i < 45
    ensures |ALPHANUMERIC_CHARSET| == 45 && ALPHANUMERIC_CHARSET[i] as int == CharsetChar(i)
  {
    hide CharsetIndex;
    if i < 10 {
      assert "0123456789"[i] as int == i + 48;
    } else if i < 23 {
      assert "ABCDEFGHIJKLM"[i - 10] as int == i + 55;
    } else if i < 36 {
      assert "NOPQRSTUVWXYZ"[i - 23] as int == i + 55;
    } else {
      assert " $%*+-./:"[i - 36] as int == [32, 36, 37, 42, 43, 45, 46, 47, 58][i - 36];
    }
  }

  /** The index of a character is its place in the charset, which holds it once; all others have none. */
  lemma CharsetPlace(c: UInt8, i: nat)
    requires i < 45
    ensures |ALPHANUMERIC_CHARSET| == 45
    ensures ALPHANUMERIC_CHARSET[i] as int == c <==> CharsetIndex(c) == i
  {
    CharsetAt(i);
    if CharsetIndex(c) == i {
      CharsetRoundTrip(c);
    }
    hide CharsetIndex, CharsetChar;
  }

  /** The mode indicators, and the widths of the count field for versions 1 to 9, 10 to 26 and 27 to 40. */
  lemma CountWidths(ver: Version)
    ensures ModeBits(Numeric) == 0x1 && ModeBits(Alphanumeric) == 0x2 && ModeBits(ByteMode) == 0x4
    ensures ModeBits(Kanji) == 0x8 && ModeBits(Eci) == 0x7
    ensures var widths := seq(5, m requires 0 <= m < 5 => CharCountBits([Numeric, Alphanumeric, ByteMode, Kanji, Eci][m], ver));
            widths == if ver <= 9 then [10, 9, 8, 8, 0] else if ver <= 26 then [12, 11, 16, 10, 0] else [14, 13, 16, 12, 0]
  {
  }

  lemma CharsetRoundTrip(c: UInt8)
    requires CharsetIndex(c) >= 0
    ensures CharsetChar(CharsetIndex(c)) == c
  {
  }

  predicate AllDigits(text: seq<UInt8>) {
    forall i :: 0 <= i < |text| ==> IsDigit(text[i])
  }

  predicate AllAlphanumeric(text: seq<UInt8>) {
    forall i :: 0 <= i < |text| ==> CharsetIndex(text[i]) >= 0
  }

  /** Three digits to ten bits, two to seven, one to four. */
  function NumericBits(text: seq<UInt8>): seq<bool>
    requires AllDigits(text)
  {
    if text == [] then []
    else if |text| == 1 then BinaryBits(Digit(text[0]), 4)
    else if |text| == 2 then BinaryBits(10 * Digit(text[0]) + Digit(text[1]), 7)
    else BinaryBits(100 * Digit(text[0]) + 10 * Digit(text[1]) + Digit(text[2]), 10) + NumericBits(text[3..])
  }

  /** Two characters to eleven bits, one to six. */
  function AlphanumericBits(text: seq<UInt8>): seq<bool>
    requires AllAlphanumeric(text)
  {
    if text == [] then []
    else if |text| == 1 then BinaryBits(CharsetIndex(text[0]), 6)
    else BinaryBits(45 * CharsetIndex(text[0]) + CharsetIndex(text[1]), 11) + AlphanumericBits(text[2..])
  }

  function ByteModeBits(data: seq<UInt8>): seq<bool> {
    if data == [] then [] else ByteModeBits(data[..|data| - 1]) + BinaryBits(data[|data| - 1], 8)
  }

  /** An ECI designator takes 8, 16 or 24 bits. */
  function EciBits(value: nat): seq<bool>
    requires value < 1000000
  {
    if value < 128 then BinaryBits(value, 8)
    else if value < 16384 then [true, false] + BinaryBits(value, 14)
    else [true, true, false] + BinaryBits(value, 21)
  }

  // ----- Factories -----

  /** makeBytes. */
  method MakeBytes(data: seq<UInt8>) returns (r: Outcome<Segment>)
    ensures r == if |data| > INT_MAX then Failure(LengthError) else Success(Segment(ByteMode, |data|, ByteModeBits(data)))
  {
    if |data| > INT_MAX {
      return Failure(LengthError);
    }
    PowersOfTwo();
    var bb := new BitBuffer();
    var i := 0;
    while i < |data|
      invariant 0 <= i <= |data| && bb.bits == ByteModeBits(data[..i])
    {
      var ok := bb.AppendBits(data[i], 8);
      assert data[..i + 1][..i] == data[..i];
      i := i + 1;
    }
    assert data[..|data|] == data;
    return Success(Segment(ByteMode, |data|, bb.bits));
  }

  lemma {:induction false} NumericBitsConcat(a: seq<UInt8>, b: seq<UInt8>)
    requires AllDigits(a) && AllDigits(b) && |a| % 3 == 0
    ensures NumericBits(a + b) == NumericBits(a) + NumericBits(b)
  {
    hide BinaryBits;
    if a == [] {
      assert a + b == b;
    } else {
      NumericBitsConcat(a[3..], b);
      assert (a + b)[3..] == a[3..] + b;
    }
  }

  /** The state of makeNumeric after k characters: complete groups are written, accum holds the rest. */
  ghost predicate NumericState(text: seq<UInt8>, k: int, accumData: int, accumCount: int, bits: seq<bool>) {
    && 0 <= accumCount <= 2 && accumCount == k % 3 && accumCount <= k <= |text|
    && AllDigits(text[..k])
    && bits == NumericBits(text[..k - accumCount])
    && accumData == (if accumCount == 0 then 0
                     else if accumCount == 1 then Digit(text[k - 1])
                     else 10 * Digit(text[k - 2]) + Digit(text[k - 1]))
  }

  lemma NumericGroup(text: seq<UInt8>, k: nat)
    requires k % 3 == 0 && k + 3 <= |text| && AllDigits(text[..k + 3])
    ensures NumericBits(text[..k + 3]) ==
            NumericBits(text[..k]) + BinaryBits(100 * Digit(text[k]) + 10 * Digit(text[k + 1]) + Digit(text[k + 2]), 10)
  {
    hide BinaryBits;
    var group := text[k..k + 3];
    assert text[..k + 3] == text[..k] + group;
    assert forall i :: 0 <= i < 3 ==> group[i] == text[..k + 3][k + i];
    NumericBitsConcat(text[..k], group);
    assert NumericBits(group[3..]) == [];
  }

  lemma NumericEnd(text: seq<UInt8>, accumData: int, accumCount: int, bits: seq<bool>)
    requires NumericState(text, |text|, accumData, accumCount, bits)
    ensures AllDigits(text)
    ensures accumCount == 0 ==> bits == NumericBits(text)
    ensures accumCount > 0 ==> 0 <= accumData < 100 && (accumCount == 1 ==> accumData < 10)
    ensures accumCount > 0 ==> NumericBits(text) == bits + BinaryBits(accumData, accumCount * 3 + 1)
  {
    hide BinaryBits;
    var k := |text| - accumCount;
    assert text[..|text|] == text;
    assert text == text[..k] + text[k..];
    NumericBitsConcat(text[..k], text[k..]);
  }

  /** makeNumeric: refused when a character is not a digit. */
  method MakeNumeric(text: CString) returns (r: Outcome<Segment>)
    ensures r == if AllDigits(text) then Success(Segment(Numeric, |text|, NumericBits(text))) else Failure(DomainError)
  {
    hide BinaryBits, NumericBits;
    PowersOfTwo();
    var bb := new BitBuffer();
    var accumData, accumCount, charCount := 0, 0, 0;
    NumericNothing();
    while charCount < |text|
      invariant 0 <= charCount <= |text|
      invariant NumericState(text, charCount, accumData, accumCount, bb.bits)
    {
      var c := text[charCount];
      if c < 48 || c > 57 {
        assert !IsDigit(text[charCount]);
        return Failure(DomainError);
      }
      assert AllDigits(text[..charCount + 1]);
      accumData := accumData * 10 + Digit(c);
      accumCount := accumCount + 1;
      if accumCount == 3 {
        NumericGroup(text, charCount - 2);
        var ok := bb.AppendBits(accumData, 10);
        accumData, accumCount := 0, 0;
      }
      charCount := charCount + 1;
    }
    NumericEnd(text, accumData, accumCount, bb.bits);
    if accumCount > 0 {
      var ok := bb.AppendBits(accumData, accumCount * 3 + 1);
    }
    return Success(Segment(Numeric, charCount, bb.bits));
  }

  lemma NumericNothing()
    ensures NumericBits([]) == [] && AlphanumericBits([]) == []
  {
  }

  lemma {:induction false} AlphanumericBitsConcat(a: seq<UInt8>, b: seq<UInt8>)
    requires AllAlphanumeric(a) && AllAlphanumeric(b) && |a| % 2 == 0
    ensures AlphanumericBits(a + b) == AlphanumericBits(a) + AlphanumericBits(b)
  {
    hide BinaryBits, CharsetIndex;
    if a == [] {
      assert a + b == b;
    } else {
      AlphanumericBitsConcat(a[2..], b);
      assert (a + b)[2..] == a[2..] + b;
    }
  }

  /** The state of makeAlphanumeric after k characters. */
  ghost predicate AlphanumericState(text: seq<UInt8>, k: int, accumData: int, accumCount: int, bits: seq<bool>) {
    && 0 <= accumCount <= 1 && accumCount == k % 2 && accumCount <= k <= |text|
    && AllAlphanumeric(text[..k])
    && bits == AlphanumericBits(text[..k - accumCount])
    && accumData == (if accumCount == 0 then 0 else CharsetIndex(text[k - 1]))
  }

  lemma AlphanumericGroup(text: seq<UInt8>, k: nat)
    requires k % 2 == 0 && k + 2 <= |text| && AllAlphanumeric(text[..k + 2])
    ensures AlphanumericBits(text[..k + 2]) ==
            AlphanumericBits(text[..k]) + BinaryBits(45 * CharsetIndex(text[k]) + CharsetIndex(text[k + 1]), 11)
  {
    hide BinaryBits, CharsetIndex;
    var group := text[k..k + 2];
    assert text[..k + 2] == text[..k] + group;
    assert forall i :: 0 <= i < 2 ==> group[i] == text[..k + 2][k + i];
    AlphanumericBitsConcat(text[..k], group);
    assert AlphanumericBits(group[2..]) == [];
  }

  lemma {:induction false} AlphanumericEnd(text: seq<UInt8>, accumData: int, accumCount: int, bits: seq<bool>)
    requires AlphanumericState(text, |text|, accumData, accumCount, bits)
    ensures AllAlphanumeric(text)
    ensures accumCount == 0 ==> bits == AlphanumericBits(text)
    ensures accumCount > 0 ==> 0 <= accumData < 45 && AlphanumericBits(text) == bits + BinaryBits(accumData, 6)
  {
    hide BinaryBits, CharsetIndex, AlphanumericBits;
    assert text[..|text|] == text;
    if accumCount == 1 {
      var k := |text| - 1;
      assert text == text[..k] + [text[k]];
      AlphanumericBitsConcat(text[..k], [text[k]]);
      LastChar(text[k]);
    }
  }

  lemma LastChar(c: UInt8)
    requires CharsetIndex(c) >= 0
    ensures AlphanumericBits([c]) == BinaryBits(CharsetIndex(c), 6)
  {
    hide BinaryBits, CharsetIndex;
  }

  /** makeAlphanumeric: refused when a character is outside the charset. */
  method MakeAlphanumeric(text: CString) returns (r: Outcome<Segment>)
    ensures r == if AllAlphanumeric(text) then Success(Segment(Alphanumeric, |text|, AlphanumericBits(text))) else Failure(DomainError)
  {
    hide BinaryBits, AlphanumericBits, CharsetIndex;
    PowersOfTwo();
    var bb := new BitBuffer();
    var accumData, accumCount, charCount := 0, 0, 0;
    NumericNothing();
    while charCount < |text|
      invariant 0 <= charCount <= |text|
      invariant AlphanumericState(text, charCount, accumData, accumCount, bb.bits)
    {
      var index := CharsetIndex(text[charCount]);
      if index < 0 {
        return Failure(DomainError);
      }
      assert AllAlphanumeric(text[..charCount + 1]);
      accumData := accumData * 45 + index;
      accumCount := accumCount + 1;
      if accumCount == 2 {
        AlphanumericGroup(text, charCount - 1);
        var ok := bb.AppendBits(accumData, 11);
        accumData, accumCount := 0, 0;
      }
      charCount := charCount + 1;
    }
    AlphanumericEnd(text, accumData, accumCount, bb.bits);
    if accumCount > 0 {
      var ok := bb.AppendBits(accumData, 6);
    }
    return Success(Segment(Alphanumeric, charCount, bb.bits));
  }

  /** makeEci: assignment values from 0 to 999999. */
  method MakeEci(value: int) returns (r: Outcome<Segment>)
    ensures r == if 0 <= value < 1000000 then Success(Segment(Eci, 0, EciBits(value))) else Failure(DomainError)
  {
    PowersOfTwo();
    EciPrefixes();
    hide BinaryBits;
    var bb := new BitBuffer();
    var ok;
    if value < 0 {
      return Failure(DomainError);
    } else if value < 128 {
      ok := bb.AppendBits(value, 8);
    } else if value < 16384 {
      ok := bb.AppendBits(2, 2);
      ok := bb.AppendBits(value, 14);
    } else if value < 1000000 {
      ok := bb.AppendBits(6, 3);
      ok := bb.AppendBits(value, 21);
    } else {
      return Failure(DomainError);
    }
    assert bb.bits == EciBits(value);
    return Success(Segment(Eci, 0, bb.bits));
  }

  lemma EciPrefixes()
    ensures Pow2(2) == 4 && Pow2(3) == 8
    ensures BinaryBits(2, 2) == [true, false] && BinaryBits(6, 3) == [true, true, false]
  {
    assert BinaryBits(1, 1) == [true];
    assert BinaryBits(3, 2) == [true, true];
  }

  // ----- Contents, and parsing them back -----

  /** What a segment stands for. */
  datatype Content =
    | Digits(digits: seq<UInt8>)
    | Chars(chars: seq<UInt8>)
    | Bytes(bytes: seq<UInt8>)
    | Designator(value: nat)

  predicate ValidContent(c: Content) {
    match c
    case Digits(t) => AllDigits(t)
    case Chars(t) => AllAlphanumeric(t)
    case Bytes(_) => true
    case Designator(v) => v < 1000000
  }

  /** The segment the factories make for a content. */
  function SegmentOf(c: Content): Segment
    requires ValidContent(c)
  {
    match c
    case Digits(t) => Segment(Numeric, |t|, NumericBits(t))
    case Chars(t) => Segment(Alphanumeric, |t|, AlphanumericBits(t))
    case Bytes(b) => Segment(ByteMode, |b|, ByteModeBits(b))
    case Designator(v) => Segment(Eci, 0, EciBits(v))
  }

  /** The first len bits, as a number. */
  function Field(bits: seq<bool>, len: nat): nat
    requires len <= |bits|
  {
    Number(bits[..len])
  }

  /** A parsed value and the bits that follow it. */
  datatype Parsed<T> = Parsed(value: T, rest: seq<bool>)

  function DigitChar(d: int): UInt8 {
    if 0 <= d <= 9 then 48 + d else 48
  }

  /** Parses n digits. */
  function ParseDigits(bits: seq<bool>, n: nat): (r: Option<Parsed<seq<UInt8>>>)
    ensures r.Some? ==> |r.value.rest| <= |bits|
    decreases n
  {
    if n == 0 then Some(Parsed([], bits))
    else if n == 1 then
      if |bits| < 4 then None else Some(Parsed([DigitChar(Field(bits, 4))], bits[4..]))
    else if n == 2 then
      if |bits| < 7 then None
      else
        var v := Field(bits, 7);
        Some(Parsed([DigitChar(v / 10), DigitChar(v % 10)], bits[7..]))
    else if |bits| < 10 then None
    else
      var v := Field(bits, 10);
      var tail := ParseDigits(bits[10..], n - 3);
      if tail.None? then None
      else Some(Parsed([DigitChar(v / 100), DigitChar(v / 10 % 10), DigitChar(v % 10)] + tail.value.value, tail.value.rest))
  }

  function CharOf(i: int): UInt8 {
    if 0 <= i < 45 then CharsetChar(i) else 48
  }

  /** Parses n alphanumeric characters. */
  function ParseChars(bits: seq<bool>, n: nat): (r: Option<Parsed<seq<UInt8>>>)
    ensures r.Some? ==> |r.value.rest| <= |bits|
    decreases n
  {
    if n == 0 then Some(Parsed([], bits))
    else if n == 1 then
      if |bits| < 6 then None else Some(Parsed([CharOf(Field(bits, 6))], bits[6..]))
    else if |bits| < 11 then None
    else
      var v := Field(bits, 11);
      var tail := ParseChars(bits[11..], n - 2);
      if tail.None? then None
      else Some(Parsed([CharOf(v / 45), CharOf(v % 45)] + tail.value.value, tail.value.rest))
  }

  /** Parses n bytes. */
  function ParseBytes(bits: seq<bool>, n: nat): (r: Option<Parsed<seq<UInt8>>>)
    ensures r.Some? ==> |r.value.rest| <= |bits|
    decreases n
  {
    if n == 0 then Some(Parsed([], bits))
    else if |bits| < 8 then None
    else
      var tail := ParseBytes(bits[8..], n - 1);
      if tail.None? then None
      else Some(Parsed([Field(bits, 8) % 256] + tail.value.value, tail.value.rest))
  }

  function ParseDesignator(bits: seq<bool>): (r: Option<Parsed<nat>>)
    ensures r.Some? ==> |r.value.rest| <= |bits|
  {
    if |bits| < 8 then None
    else if !bits[0] then Some(Parsed(Field(bits, 8), bits[8..]))
    else if |bits| < 16 then None
    else if !bits[1] then Some(Parsed(Field(bits[2..], 14), bits[16..]))
    else if |bits| < 24 then None
    else Some(Parsed(Field(bits[3..], 21), bits[24..]))
  }

  lemma FieldOfBits(v: nat, len: nat, tail: seq<bool>)
    requires v < Pow2(len)
    ensures Field(BinaryBits(v, len) + tail, len) == v
    ensures (BinaryBits(v, len) + tail)[len..] == tail
  {
    NumberOfBits(v, len);
    assert (BinaryBits(v, len) + tail)[..len] == BinaryBits(v, len);
  }

  lemma DecimalDigits(a: UInt8, b: UInt8, c: UInt8)
    requires IsDigit(a) && IsDigit(b) && IsDigit(c)
    ensures 0 <= Digit(c) < 10 && DigitChar(Digit(c)) == c
    ensures var v := 10 * Digit(b) + Digit(c); 0 <= v < 100 && DigitChar(v / 10) == b && DigitChar(v % 10) == c
    ensures var v := 100 * Digit(a) + 10 * Digit(b) + Digit(c);
            0 <= v < 1000 && DigitChar(v / 100) == a && DigitChar(v / 10 % 10) == b && DigitChar(v % 10) == c
  {
    var v := 100 * Digit(a) + 10 * Digit(b) + Digit(c);
    assert v / 10 == 10 * Digit(a) + Digit(b);
  }

  lemma {:induction false} ParseNumericGroup(text: seq<UInt8>, tail: seq<bool>)
    requires AllDigits(text) && |text| >= 3
    requires ParseDigits(NumericBits(text[3..]) + tail, |text| - 3) == Some(Parsed(text[3..], tail))
    ensures ParseDigits(NumericBits(text) + tail, |text|) == Some(Parsed(text, tail))
  {
    hide BinaryBits, Field, Digit, DigitChar, Pow2;
    PowersOfTwo();
    var v := 100 * Digit(text[0]) + 10 * Digit(text[1]) + Digit(text[2]);
    DecimalDigits(text[0], text[1], text[2]);
    var rest := NumericBits(text[3..]) + tail;
    FieldOfBits(v, 10, rest);
    assert NumericBits(text) + tail == BinaryBits(v, 10) + rest;
    assert text == [text[0], text[1], text[2]] + text[3..];
  }

  lemma {:induction false} ParseNumericBits(text: seq<UInt8>, tail: seq<bool>)
    requires AllDigits(text)
    ensures ParseDigits(NumericBits(text) + tail, |text|) == Some(Parsed(text, tail))
  {
    hide BinaryBits, Field, Digit, DigitChar, Pow2;
    PowersOfTwo();
    if text == [] {
      assert [] + tail == tail;
    } else if |text| == 1 {
      DecimalDigits(text[0], text[0], text[0]);
      FieldOfBits(Digit(text[0]), 4, tail);
      assert text == [text[0]];
    } else if |text| == 2 {
      DecimalDigits(text[0], text[0], text[1]);
      FieldOfBits(10 * Digit(text[0]) + Digit(text[1]), 7, tail);
      assert text == [text[0], text[1]];
    } else {
      ParseNumericBits(text[3..], tail);
      ParseNumericGroup(text, tail);
    }
  }

  lemma {:induction false} ParseCharPair(text: seq<UInt8>, tail: seq<bool>)
    requires AllAlphanumeric(text) && |text| >= 2
    requires ParseChars(AlphanumericBits(text[2..]) + tail, |text| - 2) == Some(Parsed(text[2..], tail))
    ensures ParseChars(AlphanumericBits(text) + tail, |text|) == Some(Parsed(text, tail))
  {
    hide BinaryBits, Field, CharsetIndex, CharsetChar, Pow2;
    PowersOfTwo();
    var a, b := CharsetIndex(text[0]), CharsetIndex(text[1]);
    var rest := AlphanumericBits(text[2..]) + tail;
    FieldOfBits(45 * a + b, 11, rest);
    assert AlphanumericBits(text) + tail == BinaryBits(45 * a + b, 11) + rest;
    CharsetRoundTrip(text[0]);
    CharsetRoundTrip(text[1]);
    assert text == [text[0], text[1]] + text[2..];
  }

  lemma {:induction false} ParseAlphanumericBits(text: seq<UInt8>, tail: seq<bool>)
    requires AllAlphanumeric(text)
    ensures ParseChars(AlphanumericBits(text) + tail, |text|) == Some(Parsed(text, tail))
  {
    hide BinaryBits, Field, CharsetIndex, CharsetChar, Pow2;
    PowersOfTwo();
    if text == [] {
      assert [] + tail == tail;
    } else if |text| == 1 {
      FieldOfBits(CharsetIndex(text[0]), 6, tail);
      assert text == [text[0]];
      CharsetRoundTrip(text[0]);
    } else {
      ParseAlphanumericBits(text[2..], tail);
      ParseCharPair(text, tail);
    }
  }

  lemma {:induction false} ByteBitsCons(data: seq<UInt8>)
    requires data != []
    ensures ByteModeBits(data) == BinaryBits(data[0], 8) + ByteModeBits(data[1..])
  {
    hide BinaryBits;
    var n := |data| - 1;
    if n > 0 {
      ByteBitsCons(data[..n]);
      assert data[..n][1..] == data[1..][..n - 1];
    } else {
      assert data[..n] == [];
    }
  }

  lemma {:induction false} ParseOneByte(b: UInt8, others: seq<UInt8>, rest: seq<bool>, tail: seq<bool>)
    requires ParseBytes(rest, |others|) == Some(Parsed(others, tail))
    ensures ParseBytes(BinaryBits(b, 8) + rest, |others| + 1) == Some(Parsed([b] + others, tail))
  {
    hide BinaryBits, Field, Pow2;
    PowersOfTwo();
    FieldOfBits(b, 8, rest);
  }

  lemma ParseNoBytes(tail: seq<bool>)
    ensures ParseBytes(ByteModeBits([]) + tail, 0) == Some(Parsed([], tail))
  {
    assert [] + tail == tail;
  }

  lemma {:induction false} ParseByteModeBits(data: seq<UInt8>, tail: seq<bool>)
    ensures ParseBytes(ByteModeBits(data) + tail, |data|) == Some(Parsed(data, tail))
  {
    hide BinaryBits, ByteModeBits, ParseBytes;
    if data == [] {
      ParseNoBytes(tail);
    } else {
      ParseByteModeBits(data[1..], tail);
      ByteBitsCons(data);
      ParseOneByte(data[0], data[1..], ByteModeBits(data[1..]) + tail, tail);
      assert ByteModeBits(data) + tail == BinaryBits(data[0], 8) + (ByteModeBits(data[1..]) + tail);
      assert data == [data[0]] + data[1..];
    }
  }

  lemma {:induction false} LeadingBit(v: nat, len: nat)
    requires len > 0 && v < Pow2(len)
    ensures BinaryBits(v, len)[0] <==> v >= Pow2(len - 1)
  {
    if len > 1 {
      LeadingBit(v / 2, len - 1);
    }
  }

  lemma {:induction false} PrefixedField(prefix: seq<bool>, value: nat, len: nat, tail: seq<bool>)
    requires value < Pow2(len)
    ensures var bits := prefix + BinaryBits(value, len) + tail;
            && |bits| >= |prefix| + len && Field(bits[|prefix|..], len) == value && bits[|prefix| + len..] == tail
            && forall i :: 0 <= i < |prefix| ==> bits[i] == prefix[i]
  {
    hide BinaryBits, Field, Pow2;
    var bits, n := prefix + BinaryBits(value, len) + tail, |prefix|;
    FieldOfBits(value, len, tail);
    assert bits[n..] == BinaryBits(value, len) + tail;
    assert bits[n + len..] == bits[n..][len..];
  }

  lemma {:induction false} ParseEciBits(value: nat, tail: seq<bool>)
    requires value < 1000000
    ensures ParseDesignator(EciBits(value) + tail) == Some(Parsed(value, tail))
  {
    hide BinaryBits, Field, Pow2;
    PowersOfTwo();
    if value < 128 {
      LeadingBit(value, 8);
      FieldOfBits(value, 8, tail);
    } else if value < 16384 {
      PrefixedField([true, false], value, 14, tail);
    } else {
      PrefixedField([true, true, false], value, 21, tail);
    }
  }
}
