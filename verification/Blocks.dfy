/**
  Splitting the data codewords into Reed-Solomon blocks and interleaving the blocks, and the way
  back.  Long blocks carry one data byte more than short ones; the encoder pads every short block
  with one byte to make all blocks equally long and skips the padding when it interleaves.
*/
module Blocks {
  import opened GaloisField
  import opened Polynomials
  import opened ReedSolomon
  import opened Outcomes
  import opened Tables
  import opened Arithmetic

  /** numBlocks blocks, the last numLong of which carry dataLen + 1 data bytes, the others dataLen. */
  datatype Layout = Layout(numBlocks: nat, eccLen: nat, dataLen: nat, numLong: nat) {
    predicate Valid() {
      numLong < numBlocks && eccLen > 0
    }

    function NumShort(): nat
      requires Valid()
    {
      numBlocks - numLong
    }

    /** The total number of codewords, padding not counted. */
    function RawCodewords(): nat {
      numBlocks * (dataLen + eccLen) + numLong
    }

    function DataSize(): nat {
      numBlocks * dataLen + numLong
    }

    function BlockDataLen(j: nat): nat
      requires Valid()
    {
      if j < NumShort() then dataLen else dataLen + 1
    }

    /** The index of the first data byte of block j. */
    function Start(j: nat): nat
      requires Valid()
    {
      j * dataLen + (if j > NumShort() then j - NumShort() else 0)
    }

    /** The bytes of a padded block are numbered by rows 0..dataLen+eccLen; short blocks have padding in row dataLen. */
    predicate IsCell(i: int, j: int)
      requires Valid()
    {
      0 <= i <= dataLen + eccLen && 0 <= j < numBlocks && (i != dataLen || j >= NumShort())
    }

    /** How many bytes precede row i, block j in the interleaved sequence. */
    function Position(i: nat, j: nat): int
      requires Valid()
    {
      i * numBlocks + j -
      (if i < dataLen then 0 else if i == dataLen && j < NumShort() then j else NumShort())
    }

    /** The row and block of byte t of the interleaved sequence. */
    function Locate(t: nat): (cell: (nat, nat))
      requires Valid()
    {
      if t < dataLen * numBlocks then (t / numBlocks, t % numBlocks)
      else if t < dataLen * numBlocks + numLong then (dataLen, NumShort() + t - dataLen * numBlocks)
      else ((t + NumShort()) / numBlocks, (t + NumShort()) % numBlocks)
    }
  }

  /** The layout addEccAndInterleave computes for a version and level. */
  function LayoutOf(ver: Version, ecl: Ecc): (l: Layout)
    ensures l.Valid() && l.dataLen > 0 && l.dataLen + l.eccLen < 154
    ensures l.RawCodewords() == NumRawDataModules(ver) / 8
    ensures l.DataSize() == NumDataCodewords(ver, ecl)
  {
    TablesFit(ver, ecl);
    var n, e, raw := NumBlocks(ver, ecl), BlockEccLen(ver, ecl), NumRawDataModules(ver) / 8;
    LayoutArithmetic(n, e, raw);
    Layout(n, e, raw / n - e, raw % n)
  }

  lemma LayoutArithmetic(n: int, e: int, raw: int)
    requires 0 < n && 0 < e && (e + 1) * n <= raw < 154 * n
    ensures e < raw / n < 154
    ensures n * (raw / n) + raw % n == raw
    ensures n * (raw / n - e) + raw % n == raw - e * n
    ensures n * (raw / n - e + e) + raw % n == raw
  {
    var q := raw / n;
    assert raw == n * q + raw % n;
    assert q <= e ==> n * q <= n * e;
    assert q >= 154 ==> n * q >= n * 154;
    assert n * (q - e) == n * q - n * e;
  }

  lemma CellBounds(n: nat, d: nat, e: nat, i: nat, j: nat)
    requires j < n
    ensures i < d ==> i * n + j < d * n
    ensures d < i ==> d * n + n <= i * n
    ensures i <= d + e ==> i * n + j < d * n + e * n + n
    ensures 0 <= i * n && d * n <= n * (d + e) == d * n + e * n
  {
    Distribute(d, e, n);
    NonNegative(i, n);
    NonNegative(e, n);
    if i < d {
      Multiples(i, d, n);
    }
    if d < i {
      Multiples(d, i, n);
    }
    if i < d + e {
      Multiples(i, d + e, n);
    }
  }

  /** Interleaving numbers the cells without gaps or collisions. */
  lemma LocatePosition(l: Layout, i: nat, j: nat)
    requires l.Valid() && l.IsCell(i, j)
    ensures 0 <= l.Position(i, j) < l.RawCodewords()
    ensures l.Locate(l.Position(i, j)) == (i, j)
  {
    DivMod(i, j, l.numBlocks);
    CellBounds(l.numBlocks, l.dataLen, l.eccLen, i, j);
    Multiples(0, l.eccLen, l.numBlocks);
  }

  lemma PositionLocate(l: Layout, t: nat)
    requires l.Valid() && t < l.RawCodewords()
    ensures var (i, j) := l.Locate(t); l.IsCell(i, j) && l.Position(i, j) == t
  {
    var n, d := l.numBlocks, l.dataLen;
    DivBelow(t, d, n);
    var u := t + l.NumShort();
    DivBelow(u, d + 1, n);
    DivBelow(u, d + l.eccLen + 1, n);
    assert (d + 1) * n == d * n + n;
    assert (d + l.eccLen + 1) * n == d * n + n * l.eccLen + n;
    assert l.RawCodewords() == d * n + n * l.eccLen + l.numLong;
  }

  // ----- Splitting -----

  lemma StartStep(l: Layout, j: nat)
    requires l.Valid() && j < l.numBlocks
    ensures l.Start(j + 1) == l.Start(j) + l.BlockDataLen(j)
    ensures l.Start(j + 1) <= l.DataSize()
    ensures l.Start(0) == 0 && l.Start(l.numBlocks) == l.DataSize()
  {
    assert (j + 1) * l.dataLen == j * l.dataLen + l.dataLen;
    if j + 1 < l.numBlocks {
      Multiples(j + 1, l.numBlocks, l.dataLen);
    }
  }

  /** The data bytes of block j. */
  function DataBlock(l: Layout, data: Poly, j: nat): (block: Poly)
    requires l.Valid() && |data| == l.DataSize() && j < l.numBlocks
    ensures |block| == l.BlockDataLen(j)
  {
    StartStep(l, j);
    data[l.Start(j)..l.Start(j + 1)]
  }

  /** Block j with its error correction bytes, a short block padded after its data. */
  function PaddedBlock(l: Layout, data: Poly, j: nat): (block: Poly)
    requires l.Valid() && |data| == l.DataSize() && j < l.numBlocks
    ensures |block| == l.dataLen + l.eccLen + 1
  {
    var dat := DataBlock(l, data, j);
    dat + (if j < l.NumShort() then [ZERO] else []) + Encode(dat, l.eccLen)[|dat|..]
  }

  /** The interleaved codewords: byte t comes from the cell that Locate gives. */
  function Interleaved(l: Layout, data: Poly): (code: Poly)
    requires l.Valid() && |data| == l.DataSize()
    ensures |code| == l.RawCodewords()
  {
    seq(l.RawCodewords(), t requires 0 <= t < l.RawCodewords() =>
      PositionLocate(l, t);
      PaddedBlock(l, data, l.Locate(t).1)[l.Locate(t).0])
  }

  /** One turn of the splitting loop: cut out block i, whose data starts at k, and add its error correction bytes. */
  method MakeBlock(l: Layout, data: Poly, k: nat, i: nat, divisor: Poly) returns (dat: Poly)
    requires l.Valid() && |data| == l.DataSize() && i < l.numBlocks
    requires k == l.Start(i) && divisor == Generator(l.eccLen)[1..]
    ensures dat == PaddedBlock(l, data, i)
  {
    StartStep(l, i);
    hide Layout.Start, Remainder, Generator, Encode;
    var shortBlockLen := l.dataLen + l.eccLen;
    dat := data[k..k + shortBlockLen - l.eccLen + (if i < l.NumShort() then 0 else 1)];
    assert dat == DataBlock(l, data, i);
    hide DataBlock;
    var ecc := ComputeRemainder(dat, divisor);
    EncodeTail(dat, l.eccLen);
    if i < l.NumShort() {
      dat := dat + [ZERO];
    }
    dat := dat + ecc.value;
  }

  /** addEccAndInterleave on an arbitrary layout. */
  method AddEccAndInterleave(l: Layout, data: Poly) returns (r: Outcome<Poly>)
    requires l.Valid() && l.eccLen <= 255
    ensures r.Failure? <==> |data| != l.DataSize()
    ensures r.Success? ==> r.value == Interleaved(l, data)
  {
    if |data| != l.DataSize() {
      return Failure(InvalidArgument);
    }
    var blocks := [];
    var divisor := ComputeDivisor(l.eccLen);
    var k := 0;
    var i := 0;
    while i < l.numBlocks
      invariant 0 <= i <= l.numBlocks
      invariant k == l.Start(i)
      invariant |blocks| == i
      invariant forall j :: 0 <= j < i ==> blocks[j] == PaddedBlock(l, data, j)
    {
      StartStep(l, i);
      hide PaddedBlock, Layout.Start;
      var dat := MakeBlock(l, data, k, i, divisor.value);
      k := k + l.BlockDataLen(i);
      blocks := blocks + [dat];
      i := i + 1;
    }
    var result := InterleaveBlocks(l, blocks, data);
    return Success(result);
  }

  /** Every block has been built, and the bytes emitted so far are the first ones of the interleaved sequence. */
  ghost predicate Emitted(l: Layout, data: Poly, blocks: seq<Poly>, result: Poly, count: int) {
    && l.Valid() && |data| == l.DataSize() && |blocks| == l.numBlocks
    && (forall j :: 0 <= j < l.numBlocks ==> blocks[j] == PaddedBlock(l, data, j))
    && |result| == count
    && PrefixOf(result, Interleaved(l, data))
  }

  lemma {:induction false} EmitOne(l: Layout, data: Poly, blocks: seq<Poly>, result: Poly, i: nat, j: nat)
    requires l.Valid() && l.IsCell(i, j)
    requires Emitted(l, data, blocks, result, l.Position(i, j))
    ensures |blocks[j]| == l.dataLen + l.eccLen + 1
    ensures Emitted(l, data, blocks, result + [blocks[j][i]], l.Position(i, j) + 1)
  {
    hide Interleaved, PaddedBlock, Layout.Position, Layout.RawCodewords, Layout.DataSize;
    InterleavedAt(l, data, i, j);
  }

  /** The interleaving loop; the length check that follows it in the source cannot fail. */
  method InterleaveBlocks(l: Layout, blocks: seq<Poly>, ghost data: Poly) returns (result: Poly)
    requires l.Valid() && Emitted(l, data, blocks, [], 0)
    ensures result == Interleaved(l, data)
  {
    var shortBlockLen := l.dataLen + l.eccLen;
    result := [];
    var i := 0;
    PositionEnds(l);
    assert blocks[0] == PaddedBlock(l, data, 0);
    hide Emitted, Layout.Position;
    while i < |blocks[0]|
      invariant 0 <= i <= shortBlockLen + 1
      invariant Emitted(l, data, blocks, result, l.Position(i, 0))
    {
      var j := 0;
      while j < |blocks|
        invariant 0 <= j <= |blocks|
        invariant Emitted(l, data, blocks, result, l.Position(i, j))
      {
        PositionStep(l, i, j);
        if i != shortBlockLen - l.eccLen || j >= l.NumShort() {
          EmitOne(l, data, blocks, result, i, j);
          result := result + [blocks[j][i]];
        }
        j := j + 1;
      }
      PositionStep(l, i, 0);
      i := i + 1;
    }
    EmittedAll(l, data, blocks, result);
  }

  lemma EmittedAll(l: Layout, data: Poly, blocks: seq<Poly>, result: Poly)
    requires l.Valid() && Emitted(l, data, blocks, result, l.RawCodewords())
    ensures result == Interleaved(l, data)
  {
    hide Interleaved;
  }

  lemma PositionEnds(l: Layout)
    requires l.Valid()
    ensures l.Position(0, 0) == 0
    ensures l.Position(l.dataLen + l.eccLen + 1, 0) == l.RawCodewords()
  {
    var i := l.dataLen + l.eccLen + 1;
    assert i * l.numBlocks == l.numBlocks * (l.dataLen + l.eccLen) + l.numBlocks;
  }

  lemma PositionStep(l: Layout, i: nat, j: nat)
    requires l.Valid() && i <= l.dataLen + l.eccLen && j < l.numBlocks
    ensures l.Position(i, j + 1) == l.Position(i, j) + (if l.IsCell(i, j) then 1 else 0)
    ensures l.Position(i + 1, 0) == l.Position(i, l.numBlocks)
  {
    assert (i + 1) * l.numBlocks == i * l.numBlocks + l.numBlocks;
  }

  ghost predicate PrefixOf(p: Poly, q: Poly) {
    |p| <= |q| && p == q[..|p|]
  }

  lemma InterleavedAt(l: Layout, data: Poly, i: nat, j: nat)
    requires l.Valid() && |data| == l.DataSize() && l.IsCell(i, j)
    ensures 0 <= l.Position(i, j) < l.RawCodewords()
    ensures Interleaved(l, data)[l.Position(i, j)] == PaddedBlock(l, data, j)[i]
  {
    LocatePosition(l, i, j);
  }

  // ----- Reading back -----

  /** The row of byte i of block j once the padding is skipped. */
  function RowOf(l: Layout, j: nat, i: nat): nat
    requires l.Valid()
  {
    if j < l.NumShort() && i >= l.dataLen then i + 1 else i
  }

  /** The bytes of block j, collected from the interleaved sequence. */
  function BlockOf(l: Layout, code: Poly, j: nat): (block: Poly)
    requires l.Valid() && |code| == l.RawCodewords() && j < l.numBlocks
    ensures |block| == l.BlockDataLen(j) + l.eccLen
  {
    seq(l.BlockDataLen(j) + l.eccLen, i requires 0 <= i < l.BlockDataLen(j) + l.eccLen =>
      LocatePosition(l, RowOf(l, j, i), j);
      code[l.Position(RowOf(l, j, i), j)])
  }

  /** The data bytes of the first k blocks. */
  function ReadData(l: Layout, code: Poly, k: nat): (data: Poly)
    requires l.Valid() && |code| == l.RawCodewords() && k <= l.numBlocks
  {
    if k == 0 then [] else ReadData(l, code, k - 1) + BlockOf(l, code, k - 1)[..l.BlockDataLen(k - 1)]
  }

  lemma PaddedBlockAt(l: Layout, data: Poly, j: nat, i: nat)
    requires l.Valid() && |data| == l.DataSize() && j < l.numBlocks && i < l.BlockDataLen(j) + l.eccLen
    ensures PaddedBlock(l, data, j)[RowOf(l, j, i)] == Encode(DataBlock(l, data, j), l.eccLen)[i]
  {
    hide Remainder, Generator, Layout.Start;
    var dat := DataBlock(l, data, j);
    hide DataBlock;
    var code := Encode(dat, l.eccLen);
    assert code == dat + code[|dat|..];
  }

  /** De-interleaving gives every block back, and each is the Reed-Solomon codeword of its data. */
  lemma BlockOfInterleaved(l: Layout, data: Poly, j: nat)
    requires l.Valid() && |data| == l.DataSize() && j < l.numBlocks
    ensures BlockOf(l, Interleaved(l, data), j) == Encode(DataBlock(l, data, j), l.eccLen)
    ensures VanishesAtPowers(BlockOf(l, Interleaved(l, data), j), l.eccLen)
  {
    hide DataBlock, PaddedBlock, Interleaved, Encode, Layout.Position, Layout.Locate, VanishesAtPowers;
    var block, code := BlockOf(l, Interleaved(l, data), j), Encode(DataBlock(l, data, j), l.eccLen);
    forall i | 0 <= i < |block|
      ensures block[i] == code[i]
    {
      LocatePosition(l, RowOf(l, j, i), j);
      InterleavedAt(l, data, RowOf(l, j, i), j);
      PaddedBlockAt(l, data, j, i);
    }
    assert block == code;
    EncodeGivesCodeword(DataBlock(l, data, j), l.eccLen);
  }

  lemma {:induction false} ReadDataInterleaved(l: Layout, data: Poly, k: nat)
    requires l.Valid() && |data| == l.DataSize() && k <= l.numBlocks
    ensures l.Start(k) <= |data|
    ensures ReadData(l, Interleaved(l, data), k) == data[..l.Start(k)]
  {
    hide PaddedBlock, Interleaved, Encode, BlockOf;
    StartStep(l, 0);
    if k > 0 {
      ReadDataInterleaved(l, data, k - 1);
      StartStep(l, k - 1);
      BlockOfInterleaved(l, data, k - 1);
      hide Layout.Start;
    }
  }

  /** De-interleaving undoes addEccAndInterleave. */
  lemma Deinterleave(l: Layout, data: Poly)
    requires l.Valid() && |data| == l.DataSize()
    ensures ReadData(l, Interleaved(l, data), l.numBlocks) == data
  {
    hide PaddedBlock, Interleaved, Encode, BlockOf;
    ReadDataInterleaved(l, data, l.numBlocks);
    StartStep(l, 0);
  }

  /** received differs from the code of data in at most half the error correction bytes of each block. */
  ghost predicate Tolerable(l: Layout, received: Poly, data: Poly)
    requires l.Valid() && |received| == l.RawCodewords() && |data| == l.DataSize()
  {
    forall j :: 0 <= j < l.numBlocks ==>
      2 * Distance(BlockOf(l, received, j), Encode(DataBlock(l, data, j), l.eccLen)) <= l.eccLen
  }

  /** The code itself is within the tolerance. */
  lemma CodeIsTolerable(l: Layout, data: Poly)
    requires l.Valid() && |data| == l.DataSize()
    ensures Tolerable(l, Interleaved(l, data), data)
  {
    hide Interleaved, BlockOf, DataBlock, Distance, Encode;
    forall j | 0 <= j < l.numBlocks
      ensures Distance(BlockOf(l, Interleaved(l, data), j), Encode(DataBlock(l, data, j), l.eccLen)) == 0
    {
      BlockOfInterleaved(l, data, j);
      NoDistance(Encode(DataBlock(l, data, j), l.eccLen));
    }
  }

  lemma {:induction false} NoDistance(p: Poly)
    ensures Distance(p, p) == 0
  {
    if p != [] {
      NoDistance(p[1..]);
    }
  }

  /** A damaged symbol within the tolerance stands for one data sequence only. */
  lemma DamageIsCorrectable(l: Layout, received: Poly, data1: Poly, data2: Poly)
    requires l.Valid() && l.dataLen + 1 + l.eccLen <= 255 && |received| == l.RawCodewords()
    requires |data1| == |data2| == l.DataSize()
    requires Tolerable(l, received, data1) && Tolerable(l, received, data2)
    ensures data1 == data2
  {
    hide DataBlock, PaddedBlock, Interleaved, Encode, BlockOf, Distance, Layout.Start;
    forall j | 0 <= j < l.numBlocks
      ensures DataBlock(l, data1, j) == DataBlock(l, data2, j)
    {
      ErrorsAreCorrectable(BlockOf(l, received, j), DataBlock(l, data1, j), DataBlock(l, data2, j), l.eccLen);
    }
    SameBlocks(l, data1, data2, l.numBlocks);
    StartStep(l, 0);
    assert data1[..|data1|] == data1 && data2[..|data2|] == data2;
  }

  lemma {:induction false} SameBlocks(l: Layout, data1: Poly, data2: Poly, k: nat)
    requires l.Valid() && |data1| == |data2| == l.DataSize() && k <= l.numBlocks
    requires forall j :: 0 <= j < l.numBlocks ==> DataBlock(l, data1, j) == DataBlock(l, data2, j)
    ensures l.Start(k) <= l.DataSize() && data1[..l.Start(k)] == data2[..l.Start(k)]
  {
    StartStep(l, 0);
    if k > 0 {
      SameBlocks(l, data1, data2, k - 1);
      StartStep(l, k - 1);
      assert DataBlock(l, data1, k - 1) == DataBlock(l, data2, k - 1);
      hide Layout.Start;
      var a, b := l.Start(k - 1), l.Start(k);
      assert data1[..b] == data1[..a] + data1[a..b];
      assert data2[..b] == data2[..a] + data2[a..b];
    }
  }
}
