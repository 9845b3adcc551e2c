/** Versions, error correction levels and the constant tables of QR Code Model 2. */
module Tables {

  datatype Ecc = Low | Medium | Quartile | High

  const MIN_VERSION := 1
  const MAX_VERSION := 40

  type Version = v: int | MIN_VERSION <= v <= MAX_VERSION witness 1

  function Level(ecl: Ecc): (r: nat)
    ensures r < 4
  {
    match ecl
    case Low => 0
    case Medium => 1
    case Quartile => 2
    case High => 3
  }

  // The tables below list versions 1 to 40, ten to a row.

  const ECC_LEN_LOW: seq<seq<int>> := [
    [ 7, 10, 15, 20, 26, 18, 20, 24, 30, 18],
    [20, 24, 26, 30, 22, 24, 28, 30, 28, 28],
    [28, 28, 30, 30, 26, 28, 30, 30, 30, 30],
    [30, 30, 30, 30, 30, 30, 30, 30, 30, 30]
  ]
  const ECC_LEN_MEDIUM: seq<seq<int>> := [
    [10, 16, 26, 18, 24, 16, 18, 22, 22, 26],
    [30, 22, 22, 24, 24, 28, 28, 26, 26, 26],
    [26, 28, 28, 28, 28, 28, 28, 28, 28, 28],
    [28, 28, 28, 28, 28, 28, 28, 28, 28, 28]
  ]
  const ECC_LEN_QUARTILE: seq<seq<int>> := [
    [13, 22, 18, 26, 18, 24, 18, 22, 20, 24],
    [28, 26, 24, 20, 30, 24, 28, 28, 26, 30],
    [28, 30, 30, 30, 30, 28, 30, 30, 30, 30],
    [30, 30, 30, 30, 30, 30, 30, 30, 30, 30]
  ]
  const ECC_LEN_HIGH: seq<seq<int>> := [
    [17, 28, 22, 16, 22, 28, 26, 26, 24, 28],
    [24, 28, 22, 24, 24, 30, 28, 28, 26, 28],
    [30, 24, 30, 30, 30, 30, 30, 30, 30, 30],
    [30, 30, 30, 30, 30, 30, 30, 30, 30, 30]
  ]

  const NUM_BLOCKS_LOW: seq<seq<int>> := [
    [ 1,  1,  1,  1,  1,  2,  2,  2,  2,  4],
    [ 4,  4,  4,  4,  6,  6,  6,  6,  7,  8],
    [ 8,  9,  9, 10, 12, 12, 12, 13, 14, 15],
    [16, 17, 18, 19, 19, 20, 21, 22, 24, 25]
  ]
  const NUM_BLOCKS_MEDIUM: seq<seq<int>> := [
    [ 1,  1,  1,  2,  2,  4,  4,  4,  5,  5],
    [ 5,  8,  9,  9, 10, 10, 11, 13, 14, 16],
    [17, 17, 18, 20, 21, 23, 25, 26, 28, 29],
    [31, 33, 35, 37, 38, 40, 43, 45, 47, 49]
  ]
  const NUM_BLOCKS_QUARTILE: seq<seq<int>> := [
    [ 1,  1,  2,  2,  4,  4,  6,  6,  8,  8],
    [ 8, 10, 12, 16, 12, 17, 16, 18, 21, 20],
    [23, 23, 25, 27, 29, 34, 34, 35, 38, 40],
    [43, 45, 48, 51, 53, 56, 59, 62, 65, 68]
  ]
  const NUM_BLOCKS_HIGH: seq<seq<int>> := [
    [ 1,  1,  2,  4,  4,  4,  5,  6,  8,  8],
    [11, 11, 16, 16, 18, 16, 19, 21, 25, 25],
    [25, 34, 30, 32, 35, 37, 40, 42, 45, 48],
    [51, 54, 57, 60, 63, 66, 70, 74, 77, 81]
  ]

  function Lookup(table: seq<seq<int>>, ver: Version): int
    requires |table| == 4 && forall i :: 0 <= i < 4 ==> |table[i]| == 10
  {
    table[(ver - 1) / 10][(ver - 1) % 10]
  }

  function BlockEccLen(ver: Version, ecl: Ecc): int {
    match ecl
    case Low => Lookup(ECC_LEN_LOW, ver)
    case Medium => Lookup(ECC_LEN_MEDIUM, ver)
    case Quartile => Lookup(ECC_LEN_QUARTILE, ver)
    case High => Lookup(ECC_LEN_HIGH, ver)
  }

  function NumBlocks(ver: Version, ecl: Ecc): int {
    match ecl
    case Low => Lookup(NUM_BLOCKS_LOW, ver)
    case Medium => Lookup(NUM_BLOCKS_MEDIUM, ver)
    case Quartile => Lookup(NUM_BLOCKS_QUARTILE, ver)
    case High => Lookup(NUM_BLOCKS_HIGH, ver)
  }

  /** The number of modules left for data and error correction bits. */
  function NumRawDataModules(ver: Version): int {
    var numAlign := ver / 7 + 2;
    (16 * ver + 128) * ver + 64
    - (if ver >= 2 then (25 * numAlign - 10) * numAlign - 55 else 0)
    - (if ver >= 7 then 36 else 0)
  }

  function NumDataCodewords(ver: Version, ecl: Ecc): int {
    NumRawDataModules(ver) / 8 - BlockEccLen(ver, ecl) * NumBlocks(ver, ecl)
  }

  /** The range check at the end of getNumRawDataModules never fires. */
  lemma RawModulesInRange(ver: Version)
    ensures 208 <= NumRawDataModules(ver) <= 29648
  {
    assert ver == 1 || ver == 2 || ver == 3 || ver == 4 || ver == 5 || ver == 6 || ver == 7 || ver == 8 || ver == 9 || ver == 10
      || ver == 11 || ver == 12 || ver == 13 || ver == 14 || ver == 15 || ver == 16 || ver == 17 || ver == 18 || ver == 19 || ver == 20
      || ver == 21 || ver == 22 || ver == 23 || ver == 24 || ver == 25 || ver == 26 || ver == 27 || ver == 28 || ver == 29 || ver == 30
      || ver == 31 || ver == 32 || ver == 33 || ver == 34 || ver == 35 || ver == 36 || ver == 37 || ver == 38 || ver == 39 || ver == 40;
  }

  /**
    What the tables guarantee: each block has between 7 and 30 error correction bytes, at least one
    data byte and fewer than 154 bytes, and no symbol holds more than 2956 data bytes.
  */
  predicate Fits(ver: Version, ecl: Ecc) {
    && 7 <= BlockEccLen(ver, ecl) <= 30
    && 1 <= NumBlocks(ver, ecl)
    && (BlockEccLen(ver, ecl) + 1) * NumBlocks(ver, ecl) <= NumRawDataModules(ver) / 8 < 154 * NumBlocks(ver, ecl)
    && 1 <= NumDataCodewords(ver, ecl) <= 2956
  }

  lemma FitsLow0(ver: Version)
    requires 0 < ver <= 10
    ensures Fits(ver, Low)
  {
    assert Fits(1, Low) && Fits(2, Low) && Fits(3, Low) && Fits(4, Low) && Fits(5, Low);
    assert Fits(6, Low) && Fits(7, Low) && Fits(8, Low) && Fits(9, Low) && Fits(10, Low);
    hide Fits;
    assert ver == 1 || ver == 2 || ver == 3 || ver == 4 || ver == 5 || ver == 6 || ver == 7 || ver == 8 || ver == 9 || ver == 10;
  }

  lemma FitsLow1(ver: Version)
    requires 10 < ver <= 20
    ensures Fits(ver, Low)
  {
    assert Fits(11, Low) && Fits(12, Low) && Fits(13, Low) && Fits(14, Low) && Fits(15, Low);
    assert Fits(16, Low) && Fits(17, Low) && Fits(18, Low) && Fits(19, Low) && Fits(20, Low);
    hide Fits;
    assert ver == 11 || ver == 12 || ver == 13 || ver == 14 || ver == 15 || ver == 16 || ver == 17 || ver == 18 || ver == 19 || ver == 20;
  }

  lemma FitsLow2(ver: Version)
    requires 20 < ver <= 30
    ensures Fits(ver, Low)
  {
    assert Fits(21, Low) && Fits(22, Low) && Fits(23, Low) && Fits(24, Low) && Fits(25, Low);
    assert Fits(26, Low) && Fits(27, Low) && Fits(28, Low) && Fits(29, Low) && Fits(30, Low);
    hide Fits;
    assert ver == 21 || ver == 22 || ver == 23 || ver == 24 || ver == 25 || ver == 26 || ver == 27 || ver == 28 || ver == 29 || ver == 30;
  }

  lemma FitsLow3(ver: Version)
    requires 30 < ver <= 40
    ensures Fits(ver, Low)
  {
    assert Fits(31, Low) && Fits(32, Low) && Fits(33, Low) && Fits(34, Low) && Fits(35, Low);
    assert Fits(36, Low) && Fits(37, Low) && Fits(38, Low) && Fits(39, Low) && Fits(40, Low);
    hide Fits;
    assert ver == 31 || ver == 32 || ver == 33 || ver == 34 || ver == 35 || ver == 36 || ver == 37 || ver == 38 || ver == 39 || ver == 40;
  }

  lemma FitsMedium0(ver: Version)
    requires 0 < ver <= 10
    ensures Fits(ver, Medium)
  {
    assert Fits(1, Medium) && Fits(2, Medium) && Fits(3, Medium) && Fits(4, Medium) && Fits(5, Medium);
    assert Fits(6, Medium) && Fits(7, Medium) && Fits(8, Medium) && Fits(9, Medium) && Fits(10, Medium);
    hide Fits;
    assert ver == 1 || ver == 2 || ver == 3 || ver == 4 || ver == 5 || ver == 6 || ver == 7 || ver == 8 || ver == 9 || ver == 10;
  }

  lemma FitsMedium1(ver: Version)
    requires 10 < ver <= 20
    ensures Fits(ver, Medium)
  {
    assert Fits(11, Medium) && Fits(12, Medium) && Fits(13, Medium) && Fits(14, Medium) && Fits(15, Medium);
    assert Fits(16, Medium) && Fits(17, Medium) && Fits(18, Medium) && Fits(19, Medium) && Fits(20, Medium);
    hide Fits;
    assert ver == 11 || ver == 12 || ver == 13 || ver == 14 || ver == 15 || ver == 16 || ver == 17 || ver == 18 || ver == 19 || ver == 20;
  }

  lemma FitsMedium2(ver: Version)
    requires 20 < ver <= 30
    ensures Fits(ver, Medium)
  {
    assert Fits(21, Medium) && Fits(22, Medium) && Fits(23, Medium) && Fits(24, Medium) && Fits(25, Medium);
    assert Fits(26, Medium) && Fits(27, Medium) && Fits(28, Medium) && Fits(29, Medium) && Fits(30, Medium);
    hide Fits;
    assert ver == 21 || ver == 22 || ver == 23 || ver == 24 || ver == 25 || ver == 26 || ver == 27 || ver == 28 || ver == 29 || ver == 30;
  }

  lemma FitsMedium3(ver: Version)
    requires 30 < ver <= 40
    ensures Fits(ver, Medium)
  {
    assert Fits(31, Medium) && Fits(32, Medium) && Fits(33, Medium) && Fits(34, Medium) && Fits(35, Medium);
    assert Fits(36, Medium) && Fits(37, Medium) && Fits(38, Medium) && Fits(39, Medium) && Fits(40, Medium);
    hide Fits;
    assert ver == 31 || ver == 32 || ver == 33 || ver == 34 || ver == 35 || ver == 36 || ver == 37 || ver == 38 || ver == 39 || ver == 40;
  }

  lemma FitsQuartile0(ver: Version)
    requires 0 < ver <= 10
    ensures Fits(ver, Quartile)
  {
    assert Fits(1, Quartile) && Fits(2, Quartile) && Fits(3, Quartile) && Fits(4, Quartile) && Fits(5, Quartile);
    assert Fits(6, Quartile) && Fits(7, Quartile) && Fits(8, Quartile) && Fits(9, Quartile) && Fits(10, Quartile);
    hide Fits;
    assert ver == 1 || ver == 2 || ver == 3 || ver == 4 || ver == 5 || ver == 6 || ver == 7 || ver == 8 || ver == 9 || ver == 10;
  }

  lemma FitsQuartile1(ver: Version)
    requires 10 < ver <= 20
    ensures Fits(ver, Quartile)
  {
    assert Fits(11, Quartile) && Fits(12, Quartile) && Fits(13, Quartile) && Fits(14, Quartile) && Fits(15, Quartile);
    assert Fits(16, Quartile) && Fits(17, Quartile) && Fits(18, Quartile) && Fits(19, Quartile) && Fits(20, Quartile);
    hide Fits;
    assert ver == 11 || ver == 12 || ver == 13 || ver == 14 || ver == 15 || ver == 16 || ver == 17 || ver == 18 || ver == 19 || ver == 20;
  }

  lemma FitsQuartile2(ver: Version)
    requires 20 < ver <= 30
    ensures Fits(ver, Quartile)
  {
    assert Fits(21, Quartile) && Fits(22, Quartile) && Fits(23, Quartile) && Fits(24, Quartile) && Fits(25, Quartile);
    assert Fits(26, Quartile) && Fits(27, Quartile) && Fits(28, Quartile) && Fits(29, Quartile) && Fits(30, Quartile);
    hide Fits;
    assert ver == 21 || ver == 22 || ver == 23 || ver == 24 || ver == 25 || ver == 26 || ver == 27 || ver == 28 || ver == 29 || ver == 30;
  }

  lemma FitsQuartile3(ver: Version)
    requires 30 < ver <= 40
    ensures Fits(ver, Quartile)
  {
    assert Fits(31, Quartile) && Fits(32, Quartile) && Fits(33, Quartile) && Fits(34, Quartile) && Fits(35, Quartile);
    assert Fits(36, Quartile) && Fits(37, Quartile) && Fits(38, Quartile) && Fits(39, Quartile) && Fits(40, Quartile);
    hide Fits;
    assert ver == 31 || ver == 32 || ver == 33 || ver == 34 || ver == 35 || ver == 36 || ver == 37 || ver == 38 || ver == 39 || ver == 40;
  }

  lemma FitsHigh0(ver: Version)
    requires 0 < ver <= 10
    ensures Fits(ver, High)
  {
    assert Fits(1, High) && Fits(2, High) && Fits(3, High) && Fits(4, High) && Fits(5, High);
    assert Fits(6, High) && Fits(7, High) && Fits(8, High) && Fits(9, High) && Fits(10, High);
    hide Fits;
    assert ver == 1 || ver == 2 || ver == 3 || ver == 4 || ver == 5 || ver == 6 || ver == 7 || ver == 8 || ver == 9 || ver == 10;
  }

  lemma FitsHigh1(ver: Version)
    requires 10 < ver <= 20
    ensures Fits(ver, High)
  {
    assert Fits(11, High) && Fits(12, High) && Fits(13, High) && Fits(14, High) && Fits(15, High);
    assert Fits(16, High) && Fits(17, High) && Fits(18, High) && Fits(19, High) && Fits(20, High);
    hide Fits;
    assert ver == 11 || ver == 12 || ver == 13 || ver == 14 || ver == 15 || ver == 16 || ver == 17 || ver == 18 || ver == 19 || ver == 20;
  }

  lemma FitsHigh2(ver: Version)
    requires 20 < ver <= 30
    ensures Fits(ver, High)
  {
    assert Fits(21, High) && Fits(22, High) && Fits(23, High) && Fits(24, High) && Fits(25, High);
    assert Fits(26, High) && Fits(27, High) && Fits(28, High) && Fits(29, High) && Fits(30, High);
    hide Fits;
    assert ver == 21 || ver == 22 || ver == 23 || ver == 24 || ver == 25 || ver == 26 || ver == 27 || ver == 28 || ver == 29 || ver == 30;
  }

  lemma FitsHigh3(ver: Version)
    requires 30 < ver <= 40
    ensures Fits(ver, High)
  {
    assert Fits(31, High) && Fits(32, High) && Fits(33, High) && Fits(34, High) && Fits(35, High);
    assert Fits(36, High) && Fits(37, High) && Fits(38, High) && Fits(39, High) && Fits(40, High);
    hide Fits;
    assert ver == 31 || ver == 32 || ver == 33 || ver == 34 || ver == 35 || ver == 36 || ver == 37 || ver == 38 || ver == 39 || ver == 40;
  }

  lemma TablesFit(ver: Version, ecl: Ecc)
    ensures Fits(ver, ecl)
  {
    hide Fits;
    match ecl {
      case Low =>
        if ver <= 10 { FitsLow0(ver); } else if ver <= 20 { FitsLow1(ver); } else if ver <= 30 { FitsLow2(ver); } else { FitsLow3(ver); }
      case Medium =>
        if ver <= 10 { FitsMedium0(ver); } else if ver <= 20 { FitsMedium1(ver); } else if ver <= 30 { FitsMedium2(ver); } else { FitsMedium3(ver); }
      case Quartile =>
        if ver <= 10 { FitsQuartile0(ver); } else if ver <= 20 { FitsQuartile1(ver); } else if ver <= 30 { FitsQuartile2(ver); } else { FitsQuartile3(ver); }
      case High =>
        if ver <= 10 { FitsHigh0(ver); } else if ver <= 20 { FitsHigh1(ver); } else if ver <= 30 { FitsHigh2(ver); } else { FitsHigh3(ver); }
    }
  }
}
