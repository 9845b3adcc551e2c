/**
  How many modules are left for codewords: the scan finds exactly getNumRawDataModules(version)
  free modules, so the codewords always fit and at most seven remainder modules stay white.
*/
module FreeModules {
  import opened Grids
  import opened Tables
  import opened Zigzag
  import opened FunctionPatterns

  /** The number of k in [lo, hi) with p(k). */
  function Count(p: int -> bool, lo: int, hi: int): nat
    decreases hi - lo
  {
    if lo >= hi then 0 else Count(p, lo, hi - 1) + (if p(hi - 1) then 1 else 0)
  }

  lemma {:induction false} CountSplit(p: int -> bool, lo: int, mid: int, hi: int)
    requires lo <= mid <= hi
    ensures Count(p, lo, hi) == Count(p, lo, mid) + Count(p, mid, hi)
    decreases hi - mid
  {
    if mid < hi {
      CountSplit(p, lo, mid, hi - 1);
    }
  }

  lemma {:induction false} CountConstant(p: int -> bool, lo: int, hi: int, value: bool)
    requires lo <= hi && forall k :: lo <= k < hi ==> p(k) == value
    ensures Count(p, lo, hi) == if value then hi - lo else 0
    decreases hi - lo
  {
    if lo < hi {
      CountConstant(p, lo, hi - 1, value);
    }
  }

  lemma {:induction false} CountNot(p: int -> bool, q: int -> bool, lo: int, hi: int)
    requires lo <= hi && forall k :: lo <= k < hi ==> p(k) == !q(k)
    ensures Count(p, lo, hi) == hi - lo - Count(q, lo, hi)
    decreases hi - lo
  {
    if lo < hi {
      CountNot(p, q, lo, hi - 1);
    }
  }

  // ----- From scan order to columns -----

  function FreeIn(f: Grid, x: int): int -> bool {
    y => 0 <= y < |f| && 0 <= x < |f[y]| && !f[y][x]
  }

  /** The free modules among the first vert rows that the scan passes in column x. */
  function Passed(f: Grid, n: int, x: int, up: bool, vert: int): nat {
    if up then Count(FreeIn(f, x), n - vert, n) else Count(FreeIn(f, x), 0, vert)
  }

  lemma PassedStep(f: Grid, n: int, x: int, up: bool, vert: int)
    requires 0 <= vert < n && IsSquare(f, n) && 0 <= x < n
    ensures Passed(f, n, x, up, vert + 1) ==
            Passed(f, n, x, up, vert) + (if !f[if up then n - 1 - vert else vert][x] then 1 else 0)
  {
    if up {
      CountSplit(FreeIn(f, x), n - 1 - vert, n - vert, n);
      assert Count(FreeIn(f, x), n - 1 - vert, n - 1 - vert) == 0;
    }
  }

  /** The two modules of column pair c that the scan visits in its row vert. */
  lemma RankOfRow(f: Grid, n: int, c: nat, vert: nat)
    requires IsSize(n) && IsSquare(f, n) && c < (n - 1) / 2 && vert < n
    ensures PairStart(n, c) + 2 * vert + 2 <= ScanLength(n)
    ensures var right := RightColumn(n, c);
            var y := if Upward(right) then n - 1 - vert else vert;
            && 0 < right < n
            && Rank(f, n, PairStart(n, c) + 2 * vert + 2) == Rank(f, n, PairStart(n, c) + 2 * vert)
                 + (if !f[y][right] then 1 else 0) + (if !f[y][right - 1] then 1 else 0)
  {
    hide CellX, CellY, RightColumn, Upward, ScanLength, PairStart, PairOf, IsSize, Rank, FreeAt;
    PairOfRight(n, c, 0);
    PairOfRight(n, c, 1);
    PairCell(n, c, vert, 0);
    PairCell(n, c, vert, 1);
    var t := PairStart(n, c) + 2 * vert;
    RankNext(f, n, t);
    RankNext(f, n, t + 1);
  }

  lemma PairCell(n: int, c: nat, vert: nat, j: nat)
    requires IsSize(n) && c < (n - 1) / 2 && vert < n && j <= 1
    ensures var t := PairStart(n, c) + 2 * vert + j;
            && t < ScanLength(n) && CellX(n, t) == RightColumn(n, c) - j
            && CellY(n, t) == if Upward(RightColumn(n, c)) then n - 1 - vert else vert
  {
    hide CellX, CellY, RightColumn, Upward, ScanLength, IsSize;
    CellOfPart(n, c, 2 * vert + j);
    Halves(vert, j);
  }

  lemma RankNext(f: Grid, n: int, t: nat)
    requires IsSize(n) && IsSquare(f, n) && t < ScanLength(n)
    ensures 0 <= CellX(n, t) < n && 0 <= CellY(n, t) < n
    ensures Rank(f, n, t + 1) == Rank(f, n, t) + if !f[CellY(n, t)][CellX(n, t)] then 1 else 0
  {
    hide CellX, CellY, ScanLength, IsSize, Visit;
    VisitOfCell(n, t);
  }

  lemma PassedNone(f: Grid, n: int, x: int, up: bool)
    requires 0 <= n && IsSquare(f, n) && 0 <= x < n
    ensures Passed(f, n, x, up, 0) == 0
  {
  }

  lemma {:induction false} RankInPair(f: Grid, n: int, c: nat, vert: nat)
    requires IsSize(n) && IsSquare(f, n) && c < (n - 1) / 2 && vert <= n
    ensures PairStart(n, c) + 2 * vert <= ScanLength(n)
    ensures var right := RightColumn(n, c);
            Rank(f, n, PairStart(n, c) + 2 * vert) == Rank(f, n, PairStart(n, c))
              + Passed(f, n, right, Upward(right), vert) + Passed(f, n, right - 1, Upward(right), vert)
  {
    hide PairStart, RightColumn, Upward, ScanLength, Rank, PairOf;
    PairStarts(n, c);
    PairOfRight(n, c, 1);
    PairOfRight(n, c, 0);
    var right := RightColumn(n, c);
    if vert == 0 {
      PassedNone(f, n, right, Upward(right));
      PassedNone(f, n, right - 1, Upward(right));
    } else {
      hide Passed;
      var v := vert - 1;
      RankInPair(f, n, c, v);
      RankOfRow(f, n, c, v);
      PassedStep(f, n, right, Upward(right), v);
      PassedStep(f, n, right - 1, Upward(right), v);
    }
  }

  /** The free modules of column x. */
  function ColumnFree(f: Grid, n: int, x: int): nat {
    Count(FreeIn(f, x), 0, n)
  }

  /** The free modules of columns lo..n-1. */
  function ColumnsFree(f: Grid, n: int, lo: int): nat
    decreases n - lo
  {
    if lo >= n then 0 else ColumnFree(f, n, lo) + ColumnsFree(f, n, lo + 1)
  }

  lemma RankOfPair(f: Grid, n: int, c: nat)
    requires IsSize(n) && IsSquare(f, n) && c < (n - 1) / 2
    ensures PairStart(n, c) + 2 * n <= ScanLength(n)
    ensures var right := RightColumn(n, c);
            Rank(f, n, PairStart(n, c) + 2 * n) == Rank(f, n, PairStart(n, c)) + ColumnFree(f, n, right) + ColumnFree(f, n, right - 1)
  {
    RankInPair(f, n, c, n);
    hide Rank, ScanLength, RightColumn, Upward;
  }

  lemma ScanStart(f: Grid, n: int)
    requires IsSize(n) && IsSquare(f, n)
    ensures PairStart(n, 0) == 0 && Rank(f, n, 0) == 0 && ColumnsFree(f, n, RightColumn(n, 0) + 1) == 0
  {
  }

  /** If column 6 has no free module, the scan counts the columns from the right. */
  lemma {:induction false} RankIsColumns(f: Grid, n: int, c: nat)
    requires IsSize(n) && IsSquare(f, n) && c <= (n - 1) / 2 && ColumnFree(f, n, 6) == 0
    ensures PairStart(n, c) <= ScanLength(n)
    ensures Rank(f, n, PairStart(n, c)) == ColumnsFree(f, n, RightColumn(n, c) + 1)
  {
    hide PairStart, ScanLength, ColumnFree, ColumnsFree, RightColumn, Rank;
    if c == 0 {
      ScanStart(f, n);
    } else {
      RankIsColumns(f, n, c - 1);
      RankOfPair(f, n, c - 1);
      PairStarts(n, c - 1);
      ColumnsOfPair(f, n, c - 1);
    }
  }

  lemma ColumnsOfPair(f: Grid, n: int, c: nat)
    requires IsSize(n) && c < (n - 1) / 2 && ColumnFree(f, n, 6) == 0
    ensures var right := RightColumn(n, c);
            ColumnsFree(f, n, RightColumn(n, c + 1) + 1) ==
            ColumnsFree(f, n, right + 1) + ColumnFree(f, n, right) + ColumnFree(f, n, right - 1)
  {
    hide ColumnFree;
    var right := RightColumn(n, c);
    assert ColumnsFree(f, n, right) == ColumnFree(f, n, right) + ColumnsFree(f, n, right + 1);
    assert ColumnsFree(f, n, right - 1) == ColumnFree(f, n, right - 1) + ColumnsFree(f, n, right);
    assert right == 8 ==> ColumnsFree(f, n, 6) == ColumnFree(f, n, 6) + ColumnsFree(f, n, 7);
  }

  lemma RankIsAllColumns(f: Grid, n: int)
    requires IsSize(n) && IsSquare(f, n) && ColumnFree(f, n, 6) == 0
    ensures Rank(f, n, ScanLength(n)) == ColumnsFree(f, n, 0)
  {
    hide Rank, ScanLength, PairStart, ColumnFree;
    RankIsColumns(f, n, (n - 1) / 2);
    PairStarts(n, 0);
  }

  // ----- The bands of the alignment patterns -----

  /** x lies within distance 2 of alignment position i. */
  predicate InBand(ver: Version, i: int, x: int) {
    ver > 1 && AlignPosition(ver, i) - 2 <= x <= AlignPosition(ver, i) + 2
  }

  /** x lies in one of the bands 1..k. */
  predicate InBands(ver: Version, k: nat, x: int) {
    k > 0 && (InBand(ver, k, x) || InBands(ver, k - 1, x))
  }

  /** The number of positions strictly between the first and the last one. */
  function Middles(ver: Version): nat {
    if ver == 1 then 0 else ver / 7
  }

  /** x lies in the band of a middle position. */
  predicate InMiddle(ver: Version, x: int) {
    InBands(ver, Middles(ver), x)
  }

  lemma {:induction false} InBandsExists(ver: Version, k: nat, x: int)
    ensures InBands(ver, k, x) <==> exists i: nat :: 1 <= i <= k && InBand(ver, i, x)
  {
    hide InBand;
    if k > 0 {
      InBandsExists(ver, k - 1, x);
    }
  }

  lemma MiddleBounds(ver: Version, i: nat)
    requires ver > 1 && 1 <= i <= Middles(ver)
    ensures 18 <= AlignPosition(ver, i) <= Size(ver) - 23
  {
    AlignGeometry(ver);
    AlignAscends(ver, 1, i);
    AlignAscends(ver, i, NumAlign(ver) - 1);
    hide AlignPosition, AlignStep;
  }

  lemma InMiddleBounds(ver: Version, x: int)
    requires InMiddle(ver, x)
    ensures 16 <= x <= Size(ver) - 21
  {
    InBandsExists(ver, Middles(ver), x);
    var i: nat :| 1 <= i <= Middles(ver) && InBand(ver, i, x);
    MiddleBounds(ver, i);
  }

  /** The squares form a chessboard of bands without three corners. */
  lemma AlignmentByBands(ver: Version, x: int, y: int)
    requires ver > 1
    ensures InAlignment(ver, x, y) <==>
            || (InBand(ver, 0, x) && InMiddle(ver, y))
            || (InMiddle(ver, x) && (InBand(ver, 0, y) || InMiddle(ver, y) || InBand(ver, NumAlign(ver) - 1, y)))
            || (InBand(ver, NumAlign(ver) - 1, x) && (InMiddle(ver, y) || InBand(ver, NumAlign(ver) - 1, y)))
  {
    InBandsExists(ver, Middles(ver), x);
    InBandsExists(ver, Middles(ver), y);
    var last := NumAlign(ver) - 1;
    assert forall i, j :: InSquare(ver, i, j, x, y) <==> InBand(ver, i, x) && InBand(ver, j, y);
    hide InSquare, InBand, InBands, AlignPosition;
    if InAlignment(ver, x, y) {
      var i: nat, j: nat :| i <= last && j <= last && !IsCorner(ver, i, j) && InSquare(ver, i, j, x, y);
      assert i == 0 || i == last || 1 <= i <= Middles(ver);
      assert j == 0 || j == last || 1 <= j <= Middles(ver);
    }
    if InMiddle(ver, x) {
      var i: nat :| 1 <= i <= Middles(ver) && InBand(ver, i, x);
      assert InSquare(ver, i, 0, x, y) <==> InBand(ver, 0, y);
      assert InSquare(ver, i, last, x, y) <==> InBand(ver, last, y);
      if InMiddle(ver, y) {
        var j: nat :| 1 <= j <= Middles(ver) && InBand(ver, j, y);
        assert InSquare(ver, i, j, x, y);
      }
    }
    if InMiddle(ver, y) {
      var j: nat :| 1 <= j <= Middles(ver) && InBand(ver, j, y);
      assert InSquare(ver, 0, j, x, y) <==> InBand(ver, 0, x);
      assert InSquare(ver, last, j, x, y) <==> InBand(ver, last, x);
    }
    assert InSquare(ver, last, last, x, y) <==> InBand(ver, last, x) && InBand(ver, last, y);
  }

  function BandsOf(ver: Version, k: nat): int -> bool {
    x => InBands(ver, k, x)
  }

  /** Band k + 1 lies to the right of bands 1..k. */
  lemma {:induction false} BandsAscend(ver: Version, k: nat)
    requires ver > 1 && k <= Middles(ver)
    ensures k > 0 ==> 18 <= AlignPosition(ver, k)
    ensures forall x :: InBands(ver, k, x) ==> 16 <= x <= AlignPosition(ver, k) + 2
    ensures 0 < k < Middles(ver) ==> AlignPosition(ver, k) + 5 <= AlignPosition(ver, k + 1)
  {
    if k > 0 {
      MiddleBounds(ver, k);
      BandsAscend(ver, k - 1);
      hide AlignPosition;
      if k < Middles(ver) {
        AlignGeometry(ver);
        AlignAscends(ver, k, k + 1);
      }
    }
  }

  lemma {:induction false} BandsCount(ver: Version, k: nat, hi: int)
    requires ver > 1 && k <= Middles(ver) && hi >= 9 && (k > 0 ==> hi >= AlignPosition(ver, k) + 3)
    ensures Count(BandsOf(ver, k), 9, hi) == 5 * k
  {
    var p := BandsOf(ver, k);
    if k == 0 {
      CountConstant(p, 9, hi, false);
    } else {
      var a := AlignPosition(ver, k);
      BandsAscend(ver, k);
      BandsAscend(ver, k - 1);
      hide AlignPosition;
      BandsCount(ver, k - 1, a - 2);
      CountSplit(p, 9, a - 2, hi);
      CountSplit(p, a - 2, a + 3, hi);
      CountSame(p, BandsOf(ver, k - 1), 9, a - 2);
      CountConstant(p, a - 2, a + 3, true);
      CountConstant(p, a + 3, hi, false);
    }
  }

  lemma {:induction false} CountSame(p: int -> bool, q: int -> bool, lo: int, hi: int)
    requires forall k :: lo <= k < hi ==> p(k) == q(k)
    ensures Count(p, lo, hi) == Count(q, lo, hi)
    decreases hi - lo
  {
    if lo < hi {
      CountSame(p, q, lo, hi - 1);
    }
  }

  function MiddleOf(ver: Version): int -> bool {
    x => InMiddle(ver, x)
  }

  /** The middle bands cover five positions each, all of them between 9 and hi. */
  lemma MiddleCount(ver: Version, hi: int)
    requires Size(ver) - 20 <= hi && 9 <= hi
    ensures Count(MiddleOf(ver), 9, hi) == 5 * Middles(ver)
  {
    var k := Middles(ver);
    if k == 0 {
      CountConstant(MiddleOf(ver), 9, hi, false);
    } else {
      MiddleBounds(ver, k);
      BandsCount(ver, k, hi);
      CountSame(MiddleOf(ver), BandsOf(ver, k), 9, hi);
    }
  }

  // ----- Columns -----

  function Free(ver: Version, x: int): int -> bool {
    y => !IsFunctionModule(ver, x, y)
  }

  /** The part of a column between the corner areas, where only alignment rows are taken. */
  lemma MiddleRows(ver: Version, x: int, hi: int)
    requires Size(ver) - 20 <= hi && 9 <= hi
    requires forall y :: 9 <= y < hi ==> Free(ver, x)(y) == !InMiddle(ver, y)
    ensures Count(Free(ver, x), 9, hi) == hi - 9 - 5 * Middles(ver)
  {
    hide IsFunctionModule, InMiddle;
    CountNot(Free(ver, x), MiddleOf(ver), 9, hi);
    MiddleCount(ver, hi);
  }

  /** The alignment condition, by column. */
  lemma ColumnAlignment(ver: Version, x: int, y: int)
    requires 0 <= x < Size(ver) && 0 <= y < Size(ver)
    ensures InAlignment(ver, x, y) <==>
            ver > 1 &&
            (|| (4 <= x <= 8 && InMiddle(ver, y))
             || (InMiddle(ver, x) && (4 <= y <= 8 || InMiddle(ver, y) || Size(ver) - 9 <= y <= Size(ver) - 5))
             || (Size(ver) - 9 <= x <= Size(ver) - 5 && (InMiddle(ver, y) || Size(ver) - 9 <= y <= Size(ver) - 5)))
    ensures InMiddle(ver, x) ==> 16 <= x <= Size(ver) - 21
    ensures InMiddle(ver, y) ==> 16 <= y <= Size(ver) - 21
  {
    if ver > 1 {
      AlignmentByBands(ver, x, y);
      AlignGeometry(ver);
    }
    if InMiddle(ver, x) { InMiddleBounds(ver, x); }
    if InMiddle(ver, y) { InMiddleBounds(ver, y); }
    hide InMiddle, InAlignment;
  }

  lemma LeftCell(ver: Version, x: int, y: int)
    requires 0 <= x <= 8 && x != 6 && 0 <= y < Size(ver)
    ensures Free(ver, x)(y) <==>
            && 9 <= y < Size(ver) - 8
            && !(ver >= 7 && Size(ver) - 11 <= y && x <= 5)
            && !(x >= 4 && InMiddle(ver, y))
  {
    ColumnAlignment(ver, x, y);
    hide InMiddle, InAlignment;
  }

  lemma {:induction false} LeftColumn(ver: Version, x: int)
    requires 0 <= x <= 8 && x != 6
    ensures Count(Free(ver, x), 0, Size(ver)) ==
            Size(ver) - 17 - (if ver >= 7 && x <= 5 then 3 else 0) - (if x >= 4 then 5 * Middles(ver) else 0)
  {
    hide Free, InMiddle, Count, Middles;
    var n, p := Size(ver), Free(ver, x);
    forall y | 0 <= y < n
      ensures p(y) <==> 9 <= y < n - 8 && !(ver >= 7 && n - 11 <= y && x <= 5) && !(x >= 4 && InMiddle(ver, y))
      ensures n - 20 <= y ==> !InMiddle(ver, y)
    {
      LeftCell(ver, x, y);
      ColumnAlignment(ver, y, y);
    }
    CountSplit(p, 0, 9, n);
    CountSplit(p, 9, n - 8, n);
    CountConstant(p, 0, 9, false);
    CountConstant(p, n - 8, n, false);
    CountSplit(p, 9, n - 11, n - 8);
    CountConstant(p, n - 11, n - 8, !(ver >= 7 && x <= 5));
    if x >= 4 {
      MiddleRows(ver, x, n - 11);
    } else {
      CountConstant(p, 9, n - 11, true);
    }
  }

  lemma InnerCell(ver: Version, x: int, y: int)
    requires 9 <= x <= Size(ver) - 9 && 0 <= y < Size(ver)
    ensures Free(ver, x)(y) <==>
            && y != 6
            && !(ver >= 7 && x >= Size(ver) - 11 && y <= 5)
            && !(InMiddle(ver, x) && (4 <= y <= 8 || InMiddle(ver, y) || Size(ver) - 9 <= y <= Size(ver) - 5))
            && !(ver > 1 && x == Size(ver) - 9 && (InMiddle(ver, y) || Size(ver) - 9 <= y <= Size(ver) - 5))
  {
    ColumnAlignment(ver, x, y);
    if ver == 1 {
      assert !InMiddle(ver, x);
    }
    hide InMiddle, InAlignment;
  }

  lemma PlainColumn(ver: Version, x: int)
    requires 9 <= x <= Size(ver) - 9 && !InMiddle(ver, x) && (x == Size(ver) - 9 ==> ver == 1)
    ensures Count(Free(ver, x), 0, Size(ver)) == Size(ver) - 1 - (if ver >= 7 && x >= Size(ver) - 11 then 6 else 0)
  {
    hide Free, InMiddle;
    var n, p := Size(ver), Free(ver, x);
    forall y | 0 <= y < n
      ensures p(y) <==> y != 6 && !(ver >= 7 && x >= n - 11 && y <= 5)
    {
      InnerCell(ver, x, y);
    }
    CountSplit(p, 0, 6, n);
    CountSplit(p, 6, 7, n);
    CountConstant(p, 0, 6, !(ver >= 7 && x >= n - 11));
    CountConstant(p, 6, 7, false);
    CountConstant(p, 7, n, true);
  }

  lemma MiddleColumn(ver: Version, x: int)
    requires 0 <= x < Size(ver) && InMiddle(ver, x)
    ensures 16 <= x <= Size(ver) - 21
    ensures Count(Free(ver, x), 0, Size(ver)) == Size(ver) - 10 - 5 * Middles(ver)
  {
    hide Free, InMiddle;
    var n, p := Size(ver), Free(ver, x);
    ColumnAlignment(ver, x, x);
    forall y | 0 <= y < n
      ensures p(y) <==> !(4 <= y <= 8 || InMiddle(ver, y) || n - 9 <= y <= n - 5)
      ensures InMiddle(ver, y) ==> 16 <= y <= n - 21
    {
      InnerCell(ver, x, y);
      ColumnAlignment(ver, y, y);
    }
    CountSplit(p, 0, 4, n);
    CountSplit(p, 4, 9, n);
    CountConstant(p, 0, 4, true);
    CountConstant(p, 4, 9, false);
    CountSplit(p, 9, n - 9, n);
    MiddleRows(ver, x, n - 9);
    BottomRows(n, p);
  }

  lemma BottomRows(n: int, p: int -> bool)
    requires forall y :: n - 9 <= y < n ==> p(y) == (y >= n - 4)
    ensures Count(p, n - 9, n) == 4
  {
    CountSplit(p, n - 9, n - 4, n);
    CountConstant(p, n - 9, n - 4, false);
    CountConstant(p, n - 4, n, true);
  }

  /** The first column of the last alignment band, left of the finder pattern. */
  lemma BandColumn(ver: Version)
    requires ver > 1
    ensures Count(Free(ver, Size(ver) - 9), 0, Size(ver)) == Size(ver) - 6 - (if ver >= 7 then 6 else 0) - 5 * Middles(ver)
  {
    hide Free, InMiddle, Count, Middles;
    var n, x := Size(ver), Size(ver) - 9;
    var p := Free(ver, x);
    ColumnAlignment(ver, x, x);
    forall y | 0 <= y < n
      ensures p(y) <==> y != 6 && !(ver >= 7 && y <= 5) && !InMiddle(ver, y) && !(n - 9 <= y <= n - 5)
      ensures InMiddle(ver, y) ==> 16 <= y <= n - 21
    {
      InnerCell(ver, x, y);
      ColumnAlignment(ver, y, y);
    }
    CountSplit(p, 0, 6, n);
    CountSplit(p, 6, 7, n);
    CountSplit(p, 7, 9, n);
    CountConstant(p, 0, 6, ver < 7);
    CountConstant(p, 6, 7, false);
    CountConstant(p, 7, 9, true);
    CountSplit(p, 9, n - 9, n);
    MiddleRows(ver, x, n - 9);
    BottomRows(n, p);
  }

  lemma RightCell(ver: Version, x: int, y: int)
    requires Size(ver) - 8 <= x < Size(ver) && 0 <= y < Size(ver)
    ensures Free(ver, x)(y) <==>
            y >= 9 && !(ver > 1 && x <= Size(ver) - 5 && (InMiddle(ver, y) || Size(ver) - 9 <= y <= Size(ver) - 5))
  {
    ColumnAlignment(ver, x, y);
    hide InMiddle, InAlignment;
  }

  lemma RightSideColumn(ver: Version, x: int)
    requires Size(ver) - 8 <= x < Size(ver)
    ensures Count(Free(ver, x), 0, Size(ver)) ==
            Size(ver) - 9 - (if ver > 1 && x <= Size(ver) - 5 then 5 + 5 * Middles(ver) else 0)
  {
    hide Free, InMiddle;
    var n, p := Size(ver), Free(ver, x);
    forall y | 0 <= y < n
      ensures p(y) <==> y >= 9 && !(ver > 1 && x <= n - 5 && (InMiddle(ver, y) || n - 9 <= y <= n - 5))
      ensures InMiddle(ver, y) ==> 16 <= y <= n - 21
    {
      RightCell(ver, x, y);
      ColumnAlignment(ver, y, y);
    }
    CountSplit(p, 0, 9, n);
    CountConstant(p, 0, 9, false);
    if ver > 1 && x <= n - 5 {
      CountSplit(p, 9, n - 9, n);
      MiddleRows(ver, x, n - 9);
      BottomRows(n, p);
    } else {
      CountConstant(p, 9, n, true);
    }
  }

  // ----- The total -----

  /** The free modules of column x, in closed form. */
  function ColumnCount(ver: Version, x: int): int {
    var n, k := Size(ver), Middles(ver);
    var info := if ver >= 7 then 1 else 0;
    if x == 6 then 0
    else if x <= 8 then n - 17 - (if x <= 5 then 3 * info else 0) - (if x >= 4 then 5 * k else 0)
    else if x >= n - 8 then n - 9 - (if ver > 1 && x <= n - 5 then 5 + 5 * k else 0)
    else if InMiddle(ver, x) then n - 10 - 5 * k
    else if x == n - 9 && ver > 1 then n - 6 - 6 * info - 5 * k
    else n - 1 - (if x >= n - 11 then 6 * info else 0)
  }

  lemma GridColumn(ver: Version, x: int)
    requires 0 <= x < Size(ver)
    ensures ColumnFree(FunctionGrid(ver), Size(ver), x) == Count(Free(ver, x), 0, Size(ver))
  {
    hide IsFunctionModule;
    var f, n := FunctionGrid(ver), Size(ver);
    forall y | 0 <= y < n
      ensures FreeIn(f, x)(y) == Free(ver, x)(y)
    {
      assert f[y][x] == IsFunctionModule(ver, x, y);
    }
    hide FunctionGrid, FreeIn, Free;
    CountSame(FreeIn(f, x), Free(ver, x), 0, n);
  }

  lemma {:induction false} ColumnCounted(ver: Version, x: int)
    requires 0 <= x < Size(ver)
    ensures ColumnFree(FunctionGrid(ver), Size(ver), x) == ColumnCount(ver, x)
  {
    hide Count, InMiddle, Free, ColumnFree, FunctionGrid, Size, Middles, NumAlign;
    var n := Size(ver);
    GridColumn(ver, x);
    if x == 6 {
      ColumnSix(ver);
    } else if x <= 8 {
      LeftColumn(ver, x);
    } else if x >= n - 8 {
      RightSideColumn(ver, x);
    } else if InMiddle(ver, x) {
      MiddleColumn(ver, x);
    } else if x == n - 9 && ver > 1 {
      BandColumn(ver);
    } else {
      PlainColumn(ver, x);
    }
  }

  lemma ColumnSix(ver: Version)
    ensures Count(Free(ver, 6), 0, Size(ver)) == 0
  {
    CountConstant(Free(ver, 6), 0, Size(ver), false);
  }

  /** The sum of the column counts from lo to n - 1. */
  function TotalFrom(ver: Version, lo: int): int
    decreases Size(ver) - lo
  {
    if lo >= Size(ver) then 0 else ColumnCount(ver, lo) + TotalFrom(ver, lo + 1)
  }

  lemma {:induction false} ColumnsCounted(ver: Version, lo: nat)
    requires lo <= Size(ver)
    ensures ColumnsFree(FunctionGrid(ver), Size(ver), lo) == TotalFrom(ver, lo)
    decreases Size(ver) - lo
  {
    hide ColumnFree, ColumnCount, FunctionGrid;
    if lo < Size(ver) {
      ColumnsCounted(ver, lo + 1);
      ColumnCounted(ver, lo);
    }
  }

  lemma RightTotal(ver: Version)
    ensures TotalFrom(ver, Size(ver) - 4) == 4 * (Size(ver) - 9)
    ensures TotalFrom(ver, Size(ver) - 8) == TotalFrom(ver, Size(ver) - 4)
              + 4 * (Size(ver) - 9 - (if ver > 1 then 5 + 5 * Middles(ver) else 0))
  {
    hide InMiddle;
    var n := Size(ver);
    assert TotalFrom(ver, n - 1) == ColumnCount(ver, n - 1) + TotalFrom(ver, n);
    assert TotalFrom(ver, n - 2) == ColumnCount(ver, n - 2) + TotalFrom(ver, n - 1);
    assert TotalFrom(ver, n - 3) == ColumnCount(ver, n - 3) + TotalFrom(ver, n - 2);
    assert TotalFrom(ver, n - 4) == ColumnCount(ver, n - 4) + TotalFrom(ver, n - 3);
    assert TotalFrom(ver, n - 5) == ColumnCount(ver, n - 5) + TotalFrom(ver, n - 4);
    assert TotalFrom(ver, n - 6) == ColumnCount(ver, n - 6) + TotalFrom(ver, n - 5);
    assert TotalFrom(ver, n - 7) == ColumnCount(ver, n - 7) + TotalFrom(ver, n - 6);
    assert TotalFrom(ver, n - 8) == ColumnCount(ver, n - 8) + TotalFrom(ver, n - 7);
  }

  lemma VersionColumns(ver: Version)
    ensures TotalFrom(ver, Size(ver) - 11) == TotalFrom(ver, Size(ver) - 8)
              + 3 * (Size(ver) - 1 - (if ver >= 7 then 6 else 0)) - (if ver > 1 then 5 + 5 * Middles(ver) else 0)
  {
    var n := Size(ver);
    ColumnAlignment(ver, n - 9, n - 9);
    ColumnAlignment(ver, n - 10, n - 10);
    ColumnAlignment(ver, n - 11, n - 11);
    hide InMiddle;
    assert TotalFrom(ver, n - 9) == ColumnCount(ver, n - 9) + TotalFrom(ver, n - 8);
    assert TotalFrom(ver, n - 10) == ColumnCount(ver, n - 10) + TotalFrom(ver, n - 9);
    assert TotalFrom(ver, n - 11) == ColumnCount(ver, n - 11) + TotalFrom(ver, n - 10);
  }

  lemma {:induction false} InnerTotal(ver: Version, lo: int)
    requires 9 <= lo <= Size(ver) - 11
    ensures TotalFrom(ver, lo) == TotalFrom(ver, Size(ver) - 11)
              + Weighted(Size(ver) - 11 - lo, Size(ver) - 1, Count(MiddleOf(ver), lo, Size(ver) - 11), 9 + 5 * Middles(ver))
    decreases Size(ver) - lo
  {
    var n, k := Size(ver), Middles(ver);
    hide Weighted;
    WeightedStep(n - 12 - lo, n - 1, Count(MiddleOf(ver), lo + 1, n - 11), 9 + 5 * k);
    if lo < n - 11 {
      InnerTotal(ver, lo + 1);
      CountSplit(MiddleOf(ver), lo, lo + 1, n - 11);
      InnerColumn(ver, lo);
      hide InMiddle, Count, ColumnCount, MiddleOf, Size, Middles;
    }
  }

  lemma InnerColumn(ver: Version, x: int)
    requires 9 <= x < Size(ver) - 11
    ensures ColumnCount(ver, x) == Size(ver) - 1 - (if InMiddle(ver, x) then 9 + 5 * Middles(ver) else 0)
    ensures Count(MiddleOf(ver), x, x + 1) == if InMiddle(ver, x) then 1 else 0
  {
    hide InMiddle;
    assert Count(MiddleOf(ver), x, x) == 0;
  }

  /** a columns of b modules, c of them short of d modules. */
  function Weighted(a: int, b: int, c: int, d: int): int {
    a * b - c * d
  }

  lemma WeightedStep(a: int, b: int, c: int, d: int)
    ensures Weighted(0, b, 0, d) == 0
    ensures Weighted(a + 1, b, c, d) == Weighted(a, b, c, d) + b
    ensures Weighted(a + 1, b, c + 1, d) == Weighted(a, b, c, d) + b - d
  {
  }

  lemma LeftTotal(ver: Version)
    ensures TotalFrom(ver, 0) == TotalFrom(ver, 9) + 8 * (Size(ver) - 17) - (if ver >= 7 then 18 else 0) - 20 * Middles(ver)
  {
    hide InMiddle;
    assert TotalFrom(ver, 8) == ColumnCount(ver, 8) + TotalFrom(ver, 9);
    assert TotalFrom(ver, 7) == ColumnCount(ver, 7) + TotalFrom(ver, 8);
    assert TotalFrom(ver, 6) == ColumnCount(ver, 6) + TotalFrom(ver, 7);
    assert TotalFrom(ver, 5) == ColumnCount(ver, 5) + TotalFrom(ver, 6);
    assert TotalFrom(ver, 4) == ColumnCount(ver, 4) + TotalFrom(ver, 5);
    assert TotalFrom(ver, 3) == ColumnCount(ver, 3) + TotalFrom(ver, 4);
    assert TotalFrom(ver, 2) == ColumnCount(ver, 2) + TotalFrom(ver, 3);
    assert TotalFrom(ver, 1) == ColumnCount(ver, 1) + TotalFrom(ver, 2);
  }

  /** The scan meets exactly getNumRawDataModules(ver) free modules. */
  lemma FreeModuleCount(ver: Version)
    ensures Rank(FunctionGrid(ver), Size(ver), ScanLength(Size(ver))) == NumRawDataModules(ver)
  {
    var n, k := Size(ver), Middles(ver);
    hide Rank, FunctionGrid, ScanLength, ColumnFree, ColumnsFree, TotalFrom, ColumnCount, InMiddle, Count;
    assert ColumnFree(FunctionGrid(ver), n, 6) == 0 by {
      ColumnCounted(ver, 6);
      ColumnCountSix(ver);
    }
    RankIsAllColumns(FunctionGrid(ver), n);
    ColumnsCounted(ver, 0);
    RightTotal(ver);
    VersionColumns(ver);
    InnerTotal(ver, 9);
    MiddleCount(ver, n - 11);
    LeftTotal(ver);
    TotalArithmetic(ver);
  }

  lemma ColumnCountSix(ver: Version)
    ensures ColumnCount(ver, 6) == 0
  {
  }

  lemma SquareTerms(ver: int, k: int)
    ensures (4 * ver - 3) * (4 * ver + 16) == 16 * (ver * ver) + 52 * ver - 48
    ensures (9 + 5 * k) * (5 * k) == 45 * k + 25 * (k * k)
    ensures (25 * (k + 2) - 10) * (k + 2) == 25 * (k * k) + 90 * k + 80
    ensures (16 * ver + 128) * ver == 16 * (ver * ver) + 128 * ver
  {
  }

  lemma {:induction false} TotalArithmetic(ver: Version)
    ensures var n, k := Size(ver), Middles(ver);
            var info, align := if ver >= 7 then 1 else 0, if ver > 1 then 5 + 5 * k else 0;
            NumRawDataModules(ver) == 4 * (n - 9) + 4 * (n - 9 - align) + 3 * (n - 1 - 6 * info) - align
              + (n - 20) * (n - 1) - (9 + 5 * k) * (5 * k) + 8 * (n - 17) - 18 * info - 20 * k
  {
    var k := Middles(ver);
    SquareTerms(ver, k);
    assert NumRawDataModules(ver) ==
           16 * (ver * ver) + 128 * ver + 64 - (if ver >= 2 then 25 * (k * k) + 90 * k + 80 - 55 + (if ver >= 7 then 36 else 0) else 0);
  }
}
