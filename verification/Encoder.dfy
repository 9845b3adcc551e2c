/**
  encodeSegments and the factories above it: choosing version and error correction level, filling
  the data codewords, and the round trip from text to symbol and back.
*/
module Encoder {
  import opened Outcomes
  import opened Bits
  import opened GaloisField
  import opened Grids
  import opened Tables
  import opened Segments
  import opened Streams
  import opened Zigzag
  import opened FunctionPatterns
  import opened Masking
  import opened QrCodes

  // ----- Version and level -----

  function Capacity(ver: Version, ecl: Ecc): int {
    8 * NumDataCodewords(ver, ecl)
  }

  /** The segments fit into a symbol of this version and level. */
  predicate SegmentsFit(segs: seq<Segment>, ver: Version, ecl: Ecc) {
    TotalBits(segs, ver) != -1 && TotalBits(segs, ver) <= Capacity(ver, ecl)
  }

  /** The version search of encodeSegments: the smallest version in range that fits. */
  method ChooseVersion(segs: seq<Segment>, ecl: Ecc, minVersion: Version, maxVersion: Version) returns (r: Outcome<Version>, used: int)
    requires minVersion <= maxVersion
    ensures r.Success? ==> minVersion <= r.value <= maxVersion && SegmentsFit(segs, r.value, ecl) && used == TotalBits(segs, r.value)
    ensures r.Success? ==> forall v: Version :: minVersion <= v < r.value ==> !SegmentsFit(segs, v, ecl)
    ensures r.Failure? ==> r == Failure(DataTooLong) && forall v: Version :: minVersion <= v <= maxVersion ==> !SegmentsFit(segs, v, ecl)
  {
    hide TotalBits, NumDataCodewords;
    var version: Version := minVersion;
    while true
      invariant minVersion <= version <= maxVersion
      invariant forall v: Version :: minVersion <= v < version ==> !SegmentsFit(segs, v, ecl)
      decreases maxVersion - version
    {
      var dataCapacityBits := NumDataCodewords(version, ecl) * 8;
      used := GetTotalBits(segs, version);
      if used != -1 && used <= dataCapacityBits {
        return Success(version), used;
      }
      assert !SegmentsFit(segs, version, ecl);
      if version >= maxVersion {
        return Failure(DataTooLong), used;
      }
      version := version + 1;
    }
  }

  /** The boosting loop: MEDIUM, QUARTILE, HIGH in turn, also when ecl is above them. */
  method BoostEcl(ver: Version, ecl: Ecc, used: int, boost: bool) returns (level: Ecc)
    requires used <= Capacity(ver, ecl)
    ensures used <= Capacity(ver, level)
    ensures Level(level) >= Level(ecl)
    ensures !boost ==> level == ecl
    ensures boost ==> forall e: Ecc :: used <= Capacity(ver, e) ==> Level(e) <= Level(level)
  {
    hide NumDataCodewords;
    level := ecl;
    var levels := [Medium, Quartile, High];
    var i := 0;
    while i < 3
      invariant 0 <= i <= 3
      invariant used <= Capacity(ver, level)
      invariant !boost ==> level == ecl
      invariant level == ecl || Level(level) <= i
      invariant boost ==> forall e: Ecc :: 0 < Level(e) <= i && used <= Capacity(ver, e) ==> Level(e) <= Level(level)
      invariant boost && Level(ecl) <= i ==> Level(level) >= Level(ecl)
    {
      var newEcl := levels[i];
      assert Level(newEcl) == i + 1;
      if boost && used <= NumDataCodewords(ver, newEcl) * 8 {
        level := newEcl;
      }
      i := i + 1;
    }
  }

  // ----- Data codewords -----

  function Zeroes(k: nat): (bits: seq<bool>)
    ensures |bits| == k
  {
    seq(k, _ => false)
  }

  /** k bytes, 0xEC and 0x11 in turn. */
  function PadBits(k: nat): (bits: seq<bool>)
    ensures |bits| == 8 * k
  {
    if k == 0 then [] else PadBits(k - 1) + BinaryBits(if k % 2 == 1 then 0xEC else 0x11, 8)
  }

  function Terminated(stream: seq<bool>, capacity: nat): (bits: seq<bool>)
    requires |stream| <= capacity
    ensures |stream| <= |bits| <= capacity
  {
    stream + Zeroes(if capacity - |stream| < 4 then capacity - |stream| else 4)
  }

  function Aligned(stream: seq<bool>, capacity: nat): (bits: seq<bool>)
    requires |stream| <= capacity && capacity % 8 == 0
    ensures |bits| <= capacity && |bits| % 8 == 0
  {
    var t := Terminated(stream, capacity);
    t + Zeroes((8 - |t| % 8) % 8)
  }

  lemma WholeBytes(m: int, n: int)
    requires m % 8 == 0 && n % 8 == 0 && n <= m
    ensures (m - n) / 8 * 8 == m - n
  {
  }

  /** The stream with terminator, byte alignment and pad bytes. */
  function Padded(stream: seq<bool>, capacity: nat): (bits: seq<bool>)
    requires |stream| <= capacity && capacity % 8 == 0
    ensures |bits| == capacity
  {
    var a := Aligned(stream, capacity);
    WholeBytes(capacity, |a|);
    a + PadBits((capacity - |a|) / 8)
  }

  /** What follows the segments starts with a terminator, unless there is no room for one. */
  lemma PaddedEnds(stream: seq<bool>, capacity: nat)
    requires |stream| <= capacity && capacity % 8 == 0
    ensures stream <= Padded(stream, capacity)
    ensures IsEnd(Padded(stream, capacity)[|stream|..])
  {
    var t, a, p := Terminated(stream, capacity), Aligned(stream, capacity), Padded(stream, capacity);
    assert t == a[..|t|] && a == p[..|a|] && t == p[..|t|];
    var tail := p[|stream|..];
    if capacity - |stream| >= 4 {
      assert tail[..4] == Zeroes(4);
      ZeroBits(4);
    }
  }

  lemma {:induction false} PadByteAt(k: nat, m: nat)
    requires m < k
    ensures PadBits(k)[8 * m..8 * m + 8] == BinaryBits(if m % 2 == 0 then 0xEC else 0x11, 8)
  {
    hide BinaryBits;
    if m < k - 1 {
      PadByteAt(k - 1, m);
      assert PadBits(k)[8 * m..8 * m + 8] == PadBits(k - 1)[8 * m..8 * m + 8];
    } else {
      assert PadBits(k)[8 * m..8 * m + 8] == PadBits(k)[|PadBits(k - 1)|..];
    }
  }

  /** The number of bytes that the stream and its terminator of four bits, or as many as there is room for, begin. */
  function BytesBegun(length: nat, n: nat): nat
    requires length <= 8 * n
  {
    ((if length + 4 <= 8 * n then length + 4 else 8 * n) + 7) / 8
  }

  lemma AlignedLength(stream: seq<bool>, n: nat)
    requires |stream| <= 8 * n
    ensures |Aligned(stream, 8 * n)| == 8 * BytesBegun(|stream|, n)
    ensures Aligned(stream, 8 * n) == stream + Zeroes(8 * BytesBegun(|stream|, n) - |stream|)
  {
  }

  /** The stream comes first; zeros fill the last byte it or its terminator begins; then 0xEC and 0x11 alternate. */
  lemma {:induction false} PadCodewords(stream: seq<bool>, n: nat, j: nat)
    requires |stream| <= 8 * n && j < n
    ensures var first, bits := BytesBegun(|stream|, n), BitsOf(Packed(stream, n));
            && |stream| <= 8 * first <= 8 * n && bits[..|stream|] == stream
            && (forall i :: |stream| <= i < 8 * first ==> !bits[i])
            && (j >= first ==> Number(Packed(stream, n)[j]) == if (j - first) % 2 == 0 then 0xEC else 0x11)
  {
    hide BinaryBits, PadBits, Aligned, Pow2, BitsOf;
    var first, p := BytesBegun(|stream|, n), Padded(stream, 8 * n);
    AlignedLength(stream, n);
    UnpackPacked(p);
    WholeBytes(8 * n, 8 * first);
    var pads := PadBits((8 * n - 8 * first) / 8);
    assert p == Aligned(stream, 8 * n) + pads;
    if j >= first {
      var m := j - first;
      PadByteAt(n - first, m);
      assert p[8 * j..8 * j + 8] == pads[8 * m..8 * m + 8];
      PowersOfTwo();
      NumberOfBits(if m % 2 == 0 then 0xEC else 0x11, 8);
    }
  }

  /** The data codewords of a list of segments that fits. */
  function DataCodewords(segs: seq<Segment>, ver: Version, ecl: Ecc): (data: seq<Byte>)
    requires SegmentsFit(segs, ver, ecl)
    ensures |data| == NumDataCodewords(ver, ecl)
  {
    StreamLength(segs, ver);
    Packed(Stream(segs, ver), NumDataCodewords(ver, ecl))
  }

  function Packed(stream: seq<bool>, n: nat): (data: seq<Byte>)
    requires |stream| <= 8 * n
    ensures |data| == n
  {
    PackBits(Padded(stream, 8 * n))
  }

  lemma UnpackPacked(bits: seq<bool>)
    requires |bits| % 8 == 0
    ensures BitsOf(PackBits(bits)) == bits
  {
    var packed := PackBits(bits);
    forall i | 0 <= i < |bits|
      ensures BitsOf(packed)[i] == bits[i]
    {
      assert packed[i / 8] == bits[8 * (i / 8)..8 * (i / 8) + 8];
      assert 8 * (i / 8) + i % 8 == i;
    }
  }

  method AppendSegment(bb: BitBuffer, seg: Segment, ver: Version)
    requires seg.numChars < Pow2(CharCountBits(seg.mode, ver))
    modifies bb
    ensures bb.bits == old(bb.bits) + SegmentStream(seg, ver)
  {
    hide BinaryBits, CharCountBits, ModeBits, Pow2;
    ModeFits(seg.mode);
    var ok := bb.AppendBits(ModeBits(seg.mode), 4);
    ok := bb.AppendBits(seg.numChars, CharCountBits(seg.mode, ver));
    bb.bits := bb.bits + seg.data;
  }

  /** The concatenation loop of encodeSegments. */
  method AppendSegments(bb: BitBuffer, segs: seq<Segment>, ver: Version)
    requires bb.bits == [] && CountsFit(segs, ver)
    modifies bb
    ensures bb.bits == Stream(segs, ver)
  {
    hide SegmentStream, CharCountBits;
    var i := 0;
    while i < |segs|
      invariant 0 <= i <= |segs| && bb.bits == Stream(segs[..i], ver)
    {
      AppendSegment(bb, segs[i], ver);
      assert segs[..i + 1][..i] == segs[..i];
      i := i + 1;
    }
    assert segs[..|segs|] == segs;
  }

  /** Terminator, alignment and pad bytes; the checks of the source cannot fail. */
  method PadBuffer(bb: BitBuffer, capacity: nat)
    requires |bb.bits| <= capacity && capacity % 8 == 0
    modifies bb
    ensures bb.bits == Padded(old(bb.bits), capacity)
  {
    hide BinaryBits, PadBits, Pow2;
    ghost var stream := bb.bits;
    var room := if capacity - |bb.bits| < 4 then capacity - |bb.bits| else 4;
    ZeroBits(room);
    PositivePower(room);
    var ok := bb.AppendBits(0, room);
    assert bb.bits == Terminated(stream, capacity);
    var gap := (8 - |bb.bits| % 8) % 8;
    ZeroBits(gap);
    PositivePower(gap);
    ok := bb.AppendBits(0, gap);
    assert bb.bits == Aligned(stream, capacity);
    hide Aligned;
    AppendPadBytes(bb, capacity);
  }

  lemma PositivePower(n: nat)
    ensures 0 < Pow2(n)
  {
  }

  lemma PadNone()
    ensures PadBits(0) == []
  {
  }

  lemma PadOneMore(k: nat)
    ensures PadBits(k + 1) == PadBits(k) + BinaryBits(if k % 2 == 0 then 0xEC else 0x11, 8)
  {
    hide BinaryBits;
  }

  method AppendPadBytes(bb: BitBuffer, capacity: nat)
    requires |bb.bits| <= capacity && capacity % 8 == 0 && |bb.bits| % 8 == 0
    modifies bb
    ensures bb.bits == old(bb.bits) + PadBits((capacity - |old(bb.bits)|) / 8)
  {
    hide BinaryBits, Pow2, PadBits;
    PowersOfTwo();
    var padByte := 0xEC;
    ghost var k, total := 0, (capacity - |bb.bits|) / 8;
    WholeBytes(capacity, |bb.bits|);
    PadNone();
    while |bb.bits| < capacity
      invariant k <= total && capacity == |old(bb.bits)| + 8 * total
      invariant |bb.bits| == |old(bb.bits)| + 8 * k
      invariant bb.bits == old(bb.bits) + PadBits(k) && padByte == (if k % 2 == 0 then 0xEC else 0x11)
      decreases capacity - |bb.bits|
    {
      var ok := bb.AppendBits(padByte, 8);
      PadOneMore(k);
      padByte := if padByte == 0xEC then 0x11 else 0xEC;
      k := k + 1;
    }
  }

  /** The packing loop: bit i goes to bit 7 - i % 8 of byte i / 8. */
  method PackBuffer(bits: seq<bool>) returns (data: seq<Byte>)
    requires |bits| % 8 == 0
    ensures data == PackBits(bits)
  {
    data := seq(|bits| / 8, _ => ZERO);
    var i := 0;
    while i < |bits|
      invariant 0 <= i <= |bits| && |data| == |bits| / 8
      invariant forall k :: 0 <= k < i ==> data[k / 8][k % 8] == bits[k]
    {
      var byte := data[i / 8];
      data := data[i / 8 := byte[i % 8 := bits[i]]];
      i := i + 1;
    }
    forall j | 0 <= j < |data|
      ensures data[j] == bits[8 * j..8 * j + 8]
    {
      forall k | 0 <= k < 8 ensures data[j][k] == bits[8 * j + k] {
        assert (8 * j + k) / 8 == j && (8 * j + k) % 8 == k;
      }
    }
  }

  method FillCodewords(segs: seq<Segment>, ver: Version, ecl: Ecc) returns (data: seq<Byte>)
    requires SegmentsFit(segs, ver, ecl)
    ensures data == DataCodewords(segs, ver, ecl)
  {
    hide NumDataCodewords, Padded, PackBits, Stream, BitLength;
    StreamLength(segs, ver);
    var bb := new BitBuffer();
    AppendSegments(bb, segs, ver);
    PadBuffer(bb, NumDataCodewords(ver, ecl) * 8);
    data := PackBuffer(bb.bits);
  }

  // ----- encodeSegments -----

  /** The version and level encodeSegments settles on. */
  ghost predicate Chosen(segs: seq<Segment>, ecl: Ecc, minVersion: int, maxVersion: int, boost: bool, ver: Version, level: Ecc) {
    // the smallest version that fits
    && minVersion <= ver <= maxVersion && SegmentsFit(segs, ver, ecl)
    && (forall v: Version :: minVersion <= v < ver ==> !SegmentsFit(segs, v, ecl))
    // the level asked for, or with boosting the highest that fits
    && SegmentsFit(segs, ver, level) && Level(level) >= Level(ecl) && (!boost ==> level == ecl)
    && (boost ==> forall e: Ecc :: SegmentsFit(segs, ver, e) ==> Level(e) <= Level(level))
  }

  /** The modules are those of the symbol for the data, under the mask asked for or else the best one. */
  ghost predicate ShowsData(qr: QrCode, data: seq<Byte>, msk: int)
    requires |data| == NumDataCodewords(qr.version, qr.errorCorrectionLevel)
    reads qr, qr.modules
  {
    var ver, level := qr.version, qr.errorCorrectionLevel;
    && qr.size == Size(ver) && qr.modules.Length0 == qr.modules.Length1 == Size(ver)
    && 0 <= qr.mask <= 7 && (msk >= 0 ==> qr.mask == msk)
    && Value(qr.modules) == Symbol(ver, level, data, qr.mask)
    && (msk == -1 ==> BestOf(Unmasked(ver, level, data), FunctionGrid(ver), Size(ver), level, qr.mask, 8))
  }

  /** qr is the symbol encodeSegments promises for the segments, levels, versions and mask asked for. */
  ghost predicate IsEncoding(qr: QrCode, segs: seq<Segment>, ecl: Ecc, minVersion: int, maxVersion: int, msk: int, boost: bool)
    reads qr, qr.modules
  {
    && Chosen(segs, ecl, minVersion, maxVersion, boost, qr.version, qr.errorCorrectionLevel)
    && ShowsData(qr, DataCodewords(segs, qr.version, qr.errorCorrectionLevel), msk)
  }

  /** encodeSegments. */
  method EncodeSegments(segs: seq<Segment>, ecl: Ecc, minVersion: int, maxVersion: int, msk: int, boost: bool) returns (r: Outcome<QrCode>)
    ensures r == Failure(InvalidArgument) <==> !(1 <= minVersion <= maxVersion <= 40) || msk < -1 || msk > 7
    ensures r == Failure(DataTooLong) <==>
            (1 <= minVersion <= maxVersion <= 40 && -1 <= msk <= 7
             && forall v: Version :: minVersion <= v <= maxVersion ==> !SegmentsFit(segs, v, ecl))
    ensures r.Failure? ==> r.error == InvalidArgument || r.error == DataTooLong
    ensures r.Success? ==> fresh(r.value) && fresh(r.value.modules)
    ensures r.Success? ==> IsEncoding(r.value, segs, ecl, minVersion, maxVersion, msk, boost)
  {
    hide TotalBits, NumDataCodewords, Symbol, DataCodewords, BestOf, Unmasked, FunctionGrid, Value;
    if !(1 <= minVersion <= maxVersion <= 40) || msk < -1 || msk > 7 {
      return Failure(InvalidArgument);
    }
    var version, used := ChooseVersion(segs, ecl, minVersion, maxVersion);
    if version.Failure? {
      return Failure(DataTooLong);
    }
    var level := BoostEcl(version.value, ecl, used, boost);
    var data := FillCodewords(segs, version.value, level);
    var qr := new QrCode(version.value, level, data, msk);
    return Success(qr);
  }

  // ----- Text and bytes -----

  /** What makeSegments puts into the symbol for a text. */
  function ContentsOf(text: CString): (contents: seq<Content>)
    ensures forall i :: 0 <= i < |contents| ==> ValidContent(contents[i])
  {
    if text == [] then []
    else if AllDigits(text) then [Digits(text)]
    else if AllAlphanumeric(text) then [Chars(text)]
    else [Bytes(text)]
  }

  /** The text that a list of contents stands for. */
  function TextOf(contents: seq<Content>): seq<UInt8> {
    if contents == [] then []
    else
      (match contents[0]
       case Digits(t) => t
       case Chars(t) => t
       case Bytes(b) => b
       case Designator(_) => []) + TextOf(contents[1..])
  }

  method IsNumeric(text: CString) returns (yes: bool)
    ensures yes == AllDigits(text)
  {
    var i := 0;
    while i < |text|
      invariant 0 <= i <= |text| && AllDigits(text[..i])
    {
      if text[i] < 48 || text[i] > 57 {
        assert !IsDigit(text[i]);
        return false;
      }
      i := i + 1;
    }
    assert text[..|text|] == text;
    return true;
  }

  method IsAlphanumeric(text: CString) returns (yes: bool)
    ensures yes == AllAlphanumeric(text)
  {
    hide CharsetIndex;
    var i := 0;
    while i < |text|
      invariant 0 <= i <= |text| && AllAlphanumeric(text[..i])
    {
      if CharsetIndex(text[i]) < 0 {
        return false;
      }
      i := i + 1;
    }
    assert text[..|text|] == text;
    return true;
  }

  /** makeSegments. */
  method MakeSegments(text: CString) returns (r: Outcome<seq<Segment>>)
    ensures r == if |text| > INT_MAX && !AllDigits(text) && !AllAlphanumeric(text) then Failure(LengthError)
                 else Success(SegmentsOf(ContentsOf(text)))
  {
    hide NumericBits, AlphanumericBits, ByteModeBits, CharsetIndex, IsDigit;
    if text == [] {
      assert SegmentsOf([]) == [];
      return Success([]);
    }
    var numeric := IsNumeric(text);
    var seg: Outcome<Segment>;
    if numeric {
      seg := MakeNumeric(text);
    } else {
      var alphanumeric := IsAlphanumeric(text);
      if alphanumeric {
        seg := MakeAlphanumeric(text);
      } else {
        seg := MakeBytes(text);
        if seg.Failure? {
          return Failure(LengthError);
        }
      }
    }
    assert [seg.value] == SegmentsOf(ContentsOf(text));
    return Success([seg.value]);
  }

  /** The contents read from a finished symbol, using nothing but its modules. */
  function ReadContents(g: Grid): Option<seq<Content>>
    requires IsSymbolGrid(g)
  {
    var reading := ReadSymbol(g);
    Parse(BitsOf(reading.data), reading.version)
  }

  function ReadText(g: Grid): Option<seq<UInt8>>
    requires IsSymbolGrid(g)
  {
    var contents := ReadContents(g);
    if contents.None? then None else Some(TextOf(contents.value))
  }

  /** The data codewords of valid contents that fit parse back to these contents, whatever padding follows. */
  lemma CodewordsParseBack(contents: seq<Content>, ver: Version, ecl: Ecc)
    requires forall i :: 0 <= i < |contents| ==> ValidContent(contents[i])
    requires SegmentsFit(SegmentsOf(contents), ver, ecl)
    ensures Parse(BitsOf(DataCodewords(SegmentsOf(contents), ver, ecl)), ver) == Some(contents)
  {
    hide NumDataCodewords, Padded, PackBits, BitsOf, Stream, BitLength, IsEnd, SegmentsOf;
    var segs := SegmentsOf(contents);
    var stream, capacity := Stream(segs, ver), Capacity(ver, ecl);
    StreamLength(segs, ver);
    var bits := Padded(stream, capacity);
    UnpackPacked(bits);
    PaddedEnds(stream, capacity);
    assert bits == stream + bits[|stream|..];
    ParseStream(contents, ver, bits[|stream|..]);
  }

  /** Every symbol made from valid contents that fit reads back as these contents. */
  lemma SymbolReadsBack(contents: seq<Content>, ver: Version, ecl: Ecc, msk: nat)
    requires forall i :: 0 <= i < |contents| ==> ValidContent(contents[i])
    requires SegmentsFit(SegmentsOf(contents), ver, ecl) && msk <= 7
    ensures var g := Symbol(ver, ecl, DataCodewords(SegmentsOf(contents), ver, ecl), msk);
            IsSymbolGrid(g) && ReadContents(g) == Some(contents)
  {
    hide Symbol, ReadSymbol, NumDataCodewords, DataCodewords, BitsOf, Parse, SegmentsOf, SegmentsFit;
    ReadSymbolOf(ver, ecl, DataCodewords(SegmentsOf(contents), ver, ecl), msk);
    CodewordsParseBack(contents, ver, ecl);
  }

  /** A damaged grid within the tolerance shows the contents of one symbol only. */
  lemma DamagedContentsRead(g: Grid, a: seq<Content>, b: seq<Content>, ver: Version, ecl1: Ecc, ecl2: Ecc, msk1: nat, msk2: nat)
    requires forall i :: 0 <= i < |a| ==> ValidContent(a[i])
    requires forall i :: 0 <= i < |b| ==> ValidContent(b[i])
    requires SegmentsFit(SegmentsOf(a), ver, ecl1) && SegmentsFit(SegmentsOf(b), ver, ecl2)
    requires IsSquare(g, Size(ver)) && msk1 <= 7 && msk2 <= 7
    requires ShowsDamaged(g, Reading(ver, ecl1, msk1, DataCodewords(SegmentsOf(a), ver, ecl1)))
    requires ShowsDamaged(g, Reading(ver, ecl2, msk2, DataCodewords(SegmentsOf(b), ver, ecl2)))
    ensures a == b
  {
    hide NumDataCodewords, DataCodewords, BitsOf, Parse, SegmentsOf, SegmentsFit, ShowsDamaged;
    DamagedSymbolReads(g, Reading(ver, ecl1, msk1, DataCodewords(SegmentsOf(a), ver, ecl1)),
                       Reading(ver, ecl2, msk2, DataCodewords(SegmentsOf(b), ver, ecl2)));
    CodewordsParseBack(a, ver, ecl1);
    CodewordsParseBack(b, ver, ecl2);
  }

  lemma TextOfContents(text: CString)
    ensures TextOf(ContentsOf(text)) == text
  {
    hide AllDigits, AllAlphanumeric;
    if text != [] {
      assert TextOf(ContentsOf(text)[1..]) == [];
    }
  }

  lemma EncodingReadsBack(qr: QrCode, contents: seq<Content>, ecl: Ecc, minVersion: int, maxVersion: int, msk: int, boost: bool)
    requires forall i :: 0 <= i < |contents| ==> ValidContent(contents[i])
    requires IsEncoding(qr, SegmentsOf(contents), ecl, minVersion, maxVersion, msk, boost)
    ensures IsSymbolGrid(Value(qr.modules)) && ReadContents(Value(qr.modules)) == Some(contents)
  {
    hide Symbol, DataCodewords, TotalBits, NumDataCodewords, BestOf, Unmasked, FunctionGrid, SegmentsOf, Value, ReadContents;
    SymbolReadsBack(contents, qr.version, qr.errorCorrectionLevel, qr.mask);
  }

  function TextSegments(text: CString): seq<Segment> {
    SegmentsOf(ContentsOf(text))
  }

  lemma LongTextIsBytes(text: CString)
    requires |text| > INT_MAX && !AllDigits(text) && !AllAlphanumeric(text)
    ensures TextSegments(text) == BinarySegments(text)
  {
    hide AllDigits, AllAlphanumeric, SegmentsOf;
  }

  /** encodeText: whenever it succeeds, the symbol reads back as the text. */
  method EncodeText(text: CString, ecl: Ecc) returns (r: Outcome<QrCode>)
    ensures r.Success? ==> fresh(r.value) && IsEncoding(r.value, TextSegments(text), ecl, 1, 40, -1, true)
    ensures r.Success? ==> IsSymbolGrid(Value(r.value.modules)) && ReadText(Value(r.value.modules)) == Some(text)
    ensures r.Failure? ==> forall v: Version :: !SegmentsFit(TextSegments(text), v, ecl)
    ensures ecl == Low ==> (r.Success? <==> |text| <= TextLimit(text))
  {
    hide TotalBits, NumDataCodewords, IsEncoding, SegmentsOf, ContentsOf, Value, ReadContents, TextLimit, SegmentsFit;
    if ecl == Low {
      TextFitsExactly(text);
    }
    var contents := ContentsOf(text);
    var segs := MakeSegments(text);
    if segs.Failure? {
      LongTextIsBytes(text);
      TooLongForAnyVersion(text, ecl);
      return Failure(LengthError);
    }
    r := EncodeSegments(segs.value, ecl, 1, 40, -1, true);
    if r.Success? {
      EncodingReadsBack(r.value, contents, ecl, 1, 40, -1, true);
      TextOfContents(text);
    }
  }

  function BinarySegments(data: seq<UInt8>): seq<Segment> {
    SegmentsOf([Bytes(data)])
  }

  /** encodeBinary. */
  method EncodeBinary(data: seq<UInt8>, ecl: Ecc) returns (r: Outcome<QrCode>)
    ensures r.Success? ==> fresh(r.value) && IsEncoding(r.value, BinarySegments(data), ecl, 1, 40, -1, true)
    ensures r.Success? ==> IsSymbolGrid(Value(r.value.modules)) && ReadContents(Value(r.value.modules)) == Some([Bytes(data)])
    ensures r.Failure? ==> forall v: Version :: !SegmentsFit(BinarySegments(data), v, ecl)
    ensures ecl == Low ==> (r.Success? <==> |data| <= 2953)
  {
    hide TotalBits, NumDataCodewords, IsEncoding, Value, ReadContents, ByteModeBits;
    var seg := MakeBytes(data);
    if ecl == Low {
      BytesFit(data);
    }
    if seg.Failure? {
      TooLongForAnyVersion(data, ecl);
      return Failure(LengthError);
    }
    assert [seg.value] == BinarySegments(data);
    r := EncodeSegments([seg.value], ecl, 1, 40, -1, true);
    if r.Success? {
      EncodingReadsBack(r.value, [Bytes(data)], ecl, 1, 40, -1, true);
    }
  }

  // ----- Capacity -----

  lemma {:induction false} NumericLength(text: seq<UInt8>)
    requires AllDigits(text)
    ensures |NumericBits(text)| <= 4 * |text|
  {
    if |text| >= 3 {
      NumericLength(text[3..]);
    }
  }

  lemma {:induction false} AlphanumericLength(text: seq<UInt8>)
    requires AllAlphanumeric(text)
    ensures |AlphanumericBits(text)| <= 6 * |text|
  {
    if |text| >= 2 {
      AlphanumericLength(text[2..]);
    }
  }

  lemma {:induction false} ByteLength(data: seq<UInt8>)
    ensures |ByteModeBits(data)| == 8 * |data|
  {
    if data != [] {
      ByteLength(data[..|data| - 1]);
    }
  }

  lemma LargestCapacity()
    ensures NumDataCodewords(40, Low) == 2956
    ensures CharCountBits(Numeric, 40) == 14 && CharCountBits(Alphanumeric, 40) == 13 && CharCountBits(ByteMode, 40) == 16
  {
  }

  lemma OneSegmentLength(seg: Segment, ver: Version)
    ensures BitLength([seg], ver) == 4 + CharCountBits(seg.mode, ver) + |seg.data|
  {
    assert BitLength([seg][..0], ver) == 0;
  }

  lemma OneSegmentFits(seg: Segment)
    requires seg.mode.Numeric? || seg.mode.Alphanumeric? || seg.mode.ByteMode?
    requires seg.numChars <= 2953 && |seg.data| <= 8 * seg.numChars
    ensures SegmentsFit([seg], 40, Low)
  {
    LargestCapacity();
    PowersOfTwo();
    hide NumDataCodewords, BitLength, Pow2, CharCountBits;
    OneSegmentLength(seg, 40);
  }

  /** At LOW correction every text of at most 2953 characters fits, whatever mode is chosen. */
  lemma TextFits(text: CString)
    requires |text| <= 2953
    ensures SegmentsFit(SegmentsOf(ContentsOf(text)), 40, Low)
  {
    hide NumericBits, AlphanumericBits, ByteModeBits, SegmentsFit, AllDigits, AllAlphanumeric;
    var segs := SegmentsOf(ContentsOf(text));
    if text == [] {
      assert segs == [];
      NothingFits();
    } else {
      assert segs == [segs[0]];
      if AllDigits(text) {
        NumericLength(text);
      } else if AllAlphanumeric(text) {
        AlphanumericLength(text);
      } else {
        ByteLength(text);
      }
      OneSegmentFits(segs[0]);
    }
  }

  lemma NothingFits()
    ensures SegmentsFit([], 40, Low)
  {
    LargestCapacity();
  }

  lemma BytesTooLong(data: seq<UInt8>, ver: Version)
    requires |data| > 2953
    ensures !SegmentsFit([Segment(ByteMode, |data|, ByteModeBits(data))], ver, Low)
  {
    var seg := Segment(ByteMode, |data|, ByteModeBits(data));
    PowersOfTwo();
    TablesFit(ver, Low);
    ByteLength(data);
    hide NumDataCodewords, BitLength, Pow2, ByteModeBits;
    OneSegmentLength(seg, ver);
    if CountsFit([seg], ver) {
      assert [seg][0].numChars < Pow2(CharCountBits(ByteMode, ver));
    }
  }

  /** At LOW correction a byte string fits if and only if it has at most 2953 bytes. */
  lemma BytesFit(data: seq<UInt8>)
    ensures |data| <= 2953 ==> SegmentsFit([Segment(ByteMode, |data|, ByteModeBits(data))], 40, Low)
    ensures |data| > 2953 ==> forall v: Version :: !SegmentsFit([Segment(ByteMode, |data|, ByteModeBits(data))], v, Low)
  {
    hide SegmentsFit, ByteModeBits;
    if |data| <= 2953 {
      ByteLength(data);
      OneSegmentFits(Segment(ByteMode, |data|, ByteModeBits(data)));
    } else {
      forall v: Version ensures !SegmentsFit([Segment(ByteMode, |data|, ByteModeBits(data))], v, Low) {
        BytesTooLong(data, v);
      }
    }
  }

  /** The exact length of numeric and alphanumeric data. */
  lemma {:induction false} NumericExact(text: seq<UInt8>)
    requires AllDigits(text)
    ensures |NumericBits(text)| == 10 * (|text| / 3) + (if |text| % 3 == 0 then 0 else if |text| % 3 == 1 then 4 else 7)
  {
    if |text| >= 3 {
      NumericExact(text[3..]);
    }
  }

  lemma {:induction false} AlphanumericExact(text: seq<UInt8>)
    requires AllAlphanumeric(text)
    ensures |AlphanumericBits(text)| == 11 * (|text| / 2) + 6 * (|text| % 2)
  {
    if |text| >= 2 {
      AlphanumericExact(text[2..]);
    }
  }

  /** The longest text of its kind that fits at LOW correction. */
  function TextLimit(text: CString): (limit: nat)
    ensures limit >= 2953
  {
    if AllDigits(text) then 7089 else if AllAlphanumeric(text) then 4296 else 2953
  }

  lemma SegmentFitsLargest(seg: Segment)
    requires seg.mode.Numeric? || seg.mode.Alphanumeric? || seg.mode.ByteMode?
    requires seg.numChars < 8192 && 4 + CharCountBits(seg.mode, 40) + |seg.data| <= 23648
    ensures SegmentsFit([seg], 40, Low)
  {
    LargestCapacity();
    PowersOfTwo();
    BitsOfFourteen();
    hide NumDataCodewords, BitLength, Pow2, CharCountBits;
    OneSegmentLength(seg, 40);
  }

  lemma BitsOfFourteen()
    ensures Pow2(13) == 8192 && Pow2(14) == 16384
  {
    PowersOfTwo();
  }

  lemma SegmentTooLong(seg: Segment, ver: Version)
    requires seg.numChars >= 2048 && (seg.mode.Numeric? ==> seg.numChars >= 4096)
    requires seg.mode.Numeric? || seg.mode.Alphanumeric?
    requires 17 + |seg.data| > 23648
    ensures !SegmentsFit([seg], ver, Low)
  {
    PowersOfTwo();
    TablesFit(ver, Low);
    hide NumDataCodewords, BitLength, Pow2;
    OneSegmentLength(seg, ver);
    if CountsFit([seg], ver) {
      assert [seg][0].numChars < Pow2(CharCountBits(seg.mode, ver));
    }
  }

  /** At LOW correction a text fits some version if and only if it is no longer than the limit of its kind. */
  lemma TextFitsExactly(text: CString)
    ensures |text| <= TextLimit(text) ==> SegmentsFit(TextSegments(text), 40, Low)
    ensures |text| > TextLimit(text) ==> forall v: Version :: !SegmentsFit(TextSegments(text), v, Low)
  {
    hide NumericBits, AlphanumericBits, ByteModeBits, SegmentsFit, AllDigits, AllAlphanumeric, CharCountBits;
    var segs := TextSegments(text);
    LargestCapacity();
    if text == [] {
      assert segs == [];
      NothingFits();
    } else {
      assert segs == [segs[0]];
      if AllDigits(text) {
        NumericExact(text);
      } else if AllAlphanumeric(text) {
        AlphanumericExact(text);
      } else {
        BytesFit(text);
      }
      if |text| <= TextLimit(text) && (AllDigits(text) || AllAlphanumeric(text)) {
        SegmentFitsLargest(segs[0]);
      }
      if |text| > TextLimit(text) && (AllDigits(text) || AllAlphanumeric(text)) {
        forall v: Version ensures !SegmentsFit(segs, v, Low) {
          SegmentTooLong(segs[0], v);
        }
      }
    }
  }

  // ----- The most compact mode -----

  /** The contents that stand for a text, in any mode that can hold it. */
  predicate Holds(c: Content, text: CString) {
    ValidContent(c) && (c == Digits(text) || c == Chars(text) || c == Bytes(text))
  }

  lemma {:induction false} AlphanumericAtLeast(text: seq<UInt8>)
    requires AllAlphanumeric(text)
    ensures 2 * |AlphanumericBits(text)| >= 11 * |text|
  {
    if |text| >= 2 {
      AlphanumericAtLeast(text[2..]);
    }
  }

  lemma DigitsAreAlphanumeric(text: seq<UInt8>)
    requires AllDigits(text)
    ensures AllAlphanumeric(text)
  {
  }

  lemma ModeLength(c: Content, text: CString, ver: Version)
    requires text != [] && Holds(c, text)
    ensures var n, seg := |text|, SegmentOf(c);
            && BitLength([seg], ver) == 4 + CharCountBits(seg.mode, ver) + |seg.data|
            && (c.Digits? ==> seg.mode == Numeric && |seg.data| <= 4 * n)
            && (c.Chars? ==> seg.mode == Alphanumeric && 11 * n <= 2 * |seg.data| && |seg.data| <= 6 * n)
            && (c.Bytes? ==> seg.mode == ByteMode && |seg.data| == 8 * n)
  {
    hide NumericBits, AlphanumericBits, ByteModeBits, AllDigits, AllAlphanumeric, BitLength;
    OneSegmentLength(SegmentOf(c), ver);
    match c
    case Digits(t) => NumericLength(t);
    case Chars(t) => AlphanumericLength(t); AlphanumericAtLeast(t);
    case Bytes(b) => ByteLength(b);
  }

  lemma CountWidths(ver: Version)
    ensures CharCountBits(Numeric, ver) == CharCountBits(Alphanumeric, ver) + 1
    ensures CharCountBits(Numeric, ver) <= CharCountBits(ByteMode, ver) + 2
  {
  }

  /** makeSegments picks, for every nonempty text and every version, the mode with the shortest stream. */
  lemma MostCompact(text: CString, other: Content, ver: Version)
    requires text != [] && Holds(other, text)
    ensures BitLength(TextSegments(text), ver) <= BitLength([SegmentOf(other)], ver)
  {
    hide CharCountBits, BitLength, AllDigits, AllAlphanumeric, SegmentOf;
    var chosen := ContentsOf(text)[0];
    assert TextSegments(text) == [SegmentOf(chosen)];
    CountWidths(ver);
    ModeLength(chosen, text, ver);
    ModeLength(other, text, ver);
    if AllDigits(text) {
      DigitsAreAlphanumeric(text);
    }
  }

  /** A byte string that makeBytes refuses would not fit any version. */
  lemma TooLongForAnyVersion(data: seq<UInt8>, ecl: Ecc)
    requires |data| > INT_MAX
    ensures forall v: Version :: !SegmentsFit(BinarySegments(data), v, ecl)
  {
    PowersOfTwo();
    hide ByteModeBits, BitLength, NumDataCodewords, Pow2;
    var segs := BinarySegments(data);
    forall v: Version ensures !SegmentsFit(segs, v, ecl) {
      assert segs[0].numChars == |data| && segs[0].mode == ByteMode;
      assert Pow2(CharCountBits(ByteMode, v)) <= 65536;
    }
  }
}
