/**
  The data bit stream of a symbol: segments with their headers, terminator, padding, and the parser
  that finds the segments again.
*/
module Streams {
  import opened Outcomes
  import opened Bits
  import opened Tables
  import opened Segments

  // ----- Building the stream -----

  function SegmentStream(seg: Segment, ver: Version): seq<bool> {
    BinaryBits(ModeBits(seg.mode), 4) + BinaryBits(seg.numChars, CharCountBits(seg.mode, ver)) + seg.data
  }

  /** All segments, one after the other. */
  function Stream(segs: seq<Segment>, ver: Version): seq<bool> {
    if segs == [] then [] else Stream(segs[..|segs| - 1], ver) + SegmentStream(segs[|segs| - 1], ver)
  }

  lemma {:induction false} StreamCons(segs: seq<Segment>, ver: Version)
    requires segs != []
    ensures Stream(segs, ver) == SegmentStream(segs[0], ver) + Stream(segs[1..], ver)
  {
    hide SegmentStream;
    var n := |segs| - 1;
    if n > 0 {
      StreamCons(segs[..n], ver);
      assert segs[..n][1..] == segs[1..][..n - 1];
    } else {
      assert segs[..n] == [];
    }
  }

  /** The length of the stream. */
  function BitLength(segs: seq<Segment>, ver: Version): nat {
    if segs == [] then 0
    else BitLength(segs[..|segs| - 1], ver) + 4 + CharCountBits(segs[|segs| - 1].mode, ver) + |segs[|segs| - 1].data|
  }

  lemma {:induction false} StreamLength(segs: seq<Segment>, ver: Version)
    ensures |Stream(segs, ver)| == BitLength(segs, ver)
  {
    if segs != [] {
      StreamLength(segs[..|segs| - 1], ver);
    }
  }

  /** Every character count fits its field. */
  predicate CountsFit(segs: seq<Segment>, ver: Version) {
    forall i :: 0 <= i < |segs| ==> segs[i].numChars < Pow2(CharCountBits(segs[i].mode, ver))
  }

  /** The stream length, or -1 if a count does not fit or the length exceeds INT_MAX. */
  function TotalBits(segs: seq<Segment>, ver: Version): int {
    if CountsFit(segs, ver) && BitLength(segs, ver) <= INT_MAX then BitLength(segs, ver) else -1
  }

  lemma {:induction false} BitLengthGrows(segs: seq<Segment>, ver: Version, k: nat)
    requires k <= |segs|
    ensures BitLength(segs[..k], ver) <= BitLength(segs, ver)
    decreases |segs| - k
  {
    hide CharCountBits;
    if k == |segs| {
      assert segs[..k] == segs;
    } else {
      BitLengthGrows(segs, ver, k + 1);
      assert segs[..k + 1][..k] == segs[..k];
    }
  }

  /** getTotalBits. */
  method GetTotalBits(segs: seq<Segment>, ver: Version) returns (result: int)
    ensures result == TotalBits(segs, ver)
  {
    hide CharCountBits;
    result := 0;
    var i := 0;
    while i < |segs|
      invariant 0 <= i <= |segs|
      invariant 0 <= result == BitLength(segs[..i], ver) <= INT_MAX
      invariant forall k :: 0 <= k < i ==> segs[k].numChars < Pow2(CharCountBits(segs[k].mode, ver))
    {
      var seg := segs[i];
      var ccbits := CharCountBits(seg.mode, ver);
      assert segs[..i + 1][..i] == segs[..i];
      BitLengthGrows(segs, ver, i + 1);
      if seg.numChars >= Pow2(ccbits) {
        return -1;
      }
      if 4 + ccbits > INT_MAX - result {
        return -1;
      }
      result := result + 4 + ccbits;
      if |seg.data| > INT_MAX - result {
        return -1;
      }
      result := result + |seg.data|;
      i := i + 1;
    }
    assert segs[..|segs|] == segs;
  }

  // ----- Parsing -----

  /** The content that follows the mode indicator, for a mode number read from the stream. */
  function ParseContent(mode: nat, bits: seq<bool>, ver: Version): (r: Option<Parsed<Content>>)
    ensures r.Some? ==> |r.value.rest| <= |bits|
  {
    if mode == 7 then
      var p := ParseDesignator(bits);
      if p.None? then None else Some(Parsed(Designator(p.value.value), p.value.rest))
    else if mode == 1 then
      var w := CharCountBits(Numeric, ver);
      if |bits| < w then None
      else
        var p := ParseDigits(bits[w..], Field(bits, w));
        if p.None? then None else Some(Parsed(Digits(p.value.value), p.value.rest))
    else if mode == 2 then
      var w := CharCountBits(Alphanumeric, ver);
      if |bits| < w then None
      else
        var p := ParseChars(bits[w..], Field(bits, w));
        if p.None? then None else Some(Parsed(Chars(p.value.value), p.value.rest))
    else if mode == 4 then
      var w := CharCountBits(ByteMode, ver);
      if |bits| < w then None
      else
        var p := ParseBytes(bits[w..], Field(bits, w));
        if p.None? then None else Some(Parsed(Bytes(p.value.value), p.value.rest))
    else None
  }

  /** Parses segments until the terminator or until fewer than four bits are left. */
  function Parse(bits: seq<bool>, ver: Version): Option<seq<Content>>
    decreases |bits|
  {
    if |bits| < 4 || Field(bits, 4) == 0 then Some([])
    else
      var p := ParseContent(Field(bits, 4), bits[4..], ver);
      if p.None? then None
      else
        var tail := Parse(p.value.rest, ver);
        if tail.None? then None else Some([p.value.value] + tail.value)
  }

  /** The stream ends here: a terminator, or not even room for one. */
  predicate IsEnd(bits: seq<bool>) {
    |bits| < 4 || Field(bits, 4) == 0
  }

  function SegmentsOf(contents: seq<Content>): (segs: seq<Segment>)
    requires forall i :: 0 <= i < |contents| ==> ValidContent(contents[i])
    ensures |segs| == |contents|
  {
    seq(|contents|, i requires 0 <= i < |contents| => SegmentOf(contents[i]))
  }

  lemma ParseOneContent(c: Content, ver: Version, tail: seq<bool>)
    requires ValidContent(c) && SegmentOf(c).numChars < Pow2(CharCountBits(SegmentOf(c).mode, ver))
    ensures var seg := SegmentOf(c);
            ParseContent(ModeBits(seg.mode), BinaryBits(seg.numChars, CharCountBits(seg.mode, ver)) + seg.data + tail, ver)
            == Some(Parsed(c, tail))
  {
    hide BinaryBits, Field, CharCountBits, Pow2, NumericBits, AlphanumericBits, ByteModeBits, EciBits;
    hide ParseDigits, ParseChars, ParseBytes, ParseDesignator;
    var seg := SegmentOf(c);
    var w := CharCountBits(seg.mode, ver);
    var bits := BinaryBits(seg.numChars, w) + seg.data + tail;
    assert bits == BinaryBits(seg.numChars, w) + (seg.data + tail);
    FieldOfBits(seg.numChars, w, seg.data + tail);
    match c
    case Digits(t) => ParseNumericBits(t, tail);
    case Chars(t) => ParseAlphanumericBits(t, tail);
    case Bytes(b) => ParseByteModeBits(b, tail);
    case Designator(v) =>
      EciHasNoCount(ver);
      assert bits == EciBits(v) + tail;
      ParseEciBits(v, tail);
  }

  lemma EciHasNoCount(ver: Version)
    ensures CharCountBits(Eci, ver) == 0 && BinaryBits(0, 0) == []
  {
  }

  lemma {:induction false} ParseFirst(c: Content, ver: Version, rest: seq<bool>, others: seq<Content>)
    requires ValidContent(c) && SegmentOf(c).numChars < Pow2(CharCountBits(SegmentOf(c).mode, ver))
    requires Parse(rest, ver) == Some(others)
    ensures Parse(SegmentStream(SegmentOf(c), ver) + rest, ver) == Some([c] + others)
  {
    hide BinaryBits, Field, CharCountBits, ModeBits, ParseContent, SegmentOf, Pow2;
    var seg := SegmentOf(c);
    var body := BinaryBits(seg.numChars, CharCountBits(seg.mode, ver)) + seg.data + rest;
    var bits := SegmentStream(seg, ver) + rest;
    assert bits == BinaryBits(ModeBits(seg.mode), 4) + body;
    ModeFits(seg.mode);
    FieldOfBits(ModeBits(seg.mode), 4, body);
    ParseOneContent(c, ver, rest);
  }

  /** Segments parse back to their contents, whatever follows the terminator. */
  lemma {:induction false} ParseStream(contents: seq<Content>, ver: Version, tail: seq<bool>)
    requires forall i :: 0 <= i < |contents| ==> ValidContent(contents[i])
    requires CountsFit(SegmentsOf(contents), ver) && IsEnd(tail)
    ensures Parse(Stream(SegmentsOf(contents), ver) + tail, ver) == Some(contents)
  {
    hide SegmentStream, Field, CharCountBits, ParseContent, SegmentOf, Pow2;
    var segs := SegmentsOf(contents);
    if contents == [] {
      assert Stream(segs, ver) + tail == tail;
    } else {
      var c, seg := contents[0], segs[0];
      var rest := Stream(segs[1..], ver) + tail;
      assert segs[1..] == SegmentsOf(contents[1..]);
      ParseStream(contents[1..], ver, tail);
      StreamCons(segs, ver);
      assert Stream(segs, ver) + tail == SegmentStream(seg, ver) + rest;
      ParseFirst(c, ver, rest, contents[1..]);
      assert contents == [c] + contents[1..];
    }
  }

  lemma ModeFits(mode: Mode)
    ensures 0 < ModeBits(mode) < Pow2(4)
  {
    PowersOfTwo();
  }
}
