/**
  The zigzag scan that places the codeword bits, and reading the bits back.

  The scan runs over pairs of columns from right to left, skipping column 6, alternately upwards
  and downwards; within a pair it visits the right module before the left one.
*/
module Zigzag {
  import opened GaloisField
  import opened Grids
  import opened Arithmetic

  /** The side lengths of QR Codes: 4 * version + 17. */
  predicate IsSize(n: int) {
    n >= 21 && n % 4 == 1
  }

  /** The right column of column pair c. */
  function RightColumn(n: int, c: int): int {
    var right := n - 1 - 2 * c;
    if right <= 6 then right - 1 else right
  }

  predicate Upward(right: int) {
    (right + 1) / 2 % 2 == 0
  }

  /** The number of modules the scan visits: all but column 6. */
  function ScanLength(n: int): nat
    requires IsSize(n)
  {
    (n - 1) / 2 * (2 * n)
  }

  function CellX(n: int, t: nat): int
    requires IsSize(n)
  {
    RightColumn(n, Quot(t, 2 * n)) - Rem(t, 2 * n) % 2
  }

  function CellY(n: int, t: nat): int
    requires IsSize(n)
  {
    var vert := Rem(t, 2 * n) / 2;
    if Upward(RightColumn(n, Quot(t, 2 * n))) then n - 1 - vert else vert
  }

  /** The column pair of column x. */
  function PairOf(n: int, x: int): int {
    (if x > 6 then n - 1 - x else n - 2 - x) / 2
  }

  /** When the scan visits module (x, y). */
  function Visit(n: int, x: int, y: int): int {
    var c := PairOf(n, x);
    c * (2 * n) + 2 * (if Upward(RightColumn(n, c)) then n - 1 - y else y) + (RightColumn(n, c) - x)
  }

  predicate OnScan(n: int, x: int, y: int) {
    0 <= x < n && 0 <= y < n && x != 6
  }

  lemma PairArithmetic(half: int, x: int, c: int)
    requires half >= 10 && 0 <= x <= 2 * half && x != 6
    requires 2 * c <= (if x > 6 then 2 * half - x else 2 * half - 1 - x) <= 2 * c + 1
    ensures 0 <= c < half
    ensures 0 <= (if 2 * half - 2 * c <= 6 then 2 * half - 2 * c - 1 else 2 * half - 2 * c) - x <= 1
  {
  }

  lemma Odd(n: int)
    requires IsSize(n)
    ensures n == 2 * ((n - 1) / 2) + 1
  {
    var q := n / 4;
    assert n == 4 * q + 1;
    Halves(2 * q, 0);
  }

  lemma PairBounds(n: int, x: int)
    requires IsSize(n) && 0 <= x < n && x != 6
    ensures 0 <= PairOf(n, x) < (n - 1) / 2
    ensures 0 <= RightColumn(n, PairOf(n, x)) - x <= 1
  {
    Odd(n);
    PairArithmetic((n - 1) / 2, x, PairOf(n, x));
  }

  lemma PairOfRight(n: int, c: int, j: int)
    requires IsSize(n) && 0 <= c < (n - 1) / 2 && 0 <= j <= 1
    ensures PairOf(n, RightColumn(n, c) - j) == c
    ensures 0 <= RightColumn(n, c) - j < n && RightColumn(n, c) - j != 6
  {
  }

  lemma CellOfPart(n: int, c: nat, r: nat)
    requires IsSize(n) && c < (n - 1) / 2 && r < 2 * n
    ensures 0 <= c * (2 * n) + r < ScanLength(n)
    ensures CellX(n, c * (2 * n) + r) == RightColumn(n, c) - r % 2
    ensures CellY(n, c * (2 * n) + r) == if Upward(RightColumn(n, c)) then n - 1 - r / 2 else r / 2
  {
    hide RightColumn, Upward, Quot, Rem;
    QuotRemOf(c, r, 2 * n);
    Multiples(c, (n - 1) / 2, 2 * n);
  }

  /** The scan visits every module outside column 6 ... */
  lemma CellOfVisit(n: int, x: int, y: int)
    requires IsSize(n) && OnScan(n, x, y)
    ensures 0 <= Visit(n, x, y) < ScanLength(n)
    ensures CellX(n, Visit(n, x, y)) == x && CellY(n, Visit(n, x, y)) == y
  {
    PairBounds(n, x);
    hide PairOf, RightColumn, Upward, CellX, CellY, ScanLength, IsSize;
    var c := PairOf(n, x);
    var vert := if Upward(RightColumn(n, c)) then n - 1 - y else y;
    var j := RightColumn(n, c) - x;
    Halves(vert, j);
    CellOfPart(n, c, 2 * vert + j);
  }

  lemma Halves(a: nat, b: nat)
    requires b <= 1
    ensures (2 * a + b) / 2 == a && (2 * a + b) % 2 == b
  {
  }

  /** ... and each of them once. */
  lemma VisitOfCell(n: int, t: nat)
    requires IsSize(n) && t < ScanLength(n)
    ensures OnScan(n, CellX(n, t), CellY(n, t))
    ensures Visit(n, CellX(n, t), CellY(n, t)) == t
  {
    hide Visit, RightColumn, Upward, PairOf, Quot, Rem;
    QuotRem(t, (n - 1) / 2, 2 * n);
    VisitOfPart(n, Quot(t, 2 * n), Rem(t, 2 * n));
  }

  lemma VisitOfPart(n: int, c: int, r: int)
    requires IsSize(n) && 0 <= c < (n - 1) / 2 && 0 <= r < 2 * n
    ensures var right := RightColumn(n, c);
            var y := if Upward(right) then n - 1 - r / 2 else r / 2;
            OnScan(n, right - r % 2, y) && Visit(n, right - r % 2, y) == c * (2 * n) + r
  {
    PairOfRight(n, c, r % 2);
    hide PairOf, RightColumn, Upward;
  }

  /** When the scan reaches column pair c. */
  function PairStart(n: int, c: nat): nat
    requires n >= 0
  {
    c * (2 * n)
  }

  lemma PairStarts(n: int, c: nat)
    requires IsSize(n)
    ensures PairStart(n, 0) == 0 && PairStart(n, (n - 1) / 2) == ScanLength(n)
    ensures PairStart(n, c + 1) == PairStart(n, c) + 2 * n
    ensures c < (n - 1) / 2 ==> PairStart(n, c + 1) <= ScanLength(n)
  {
    if c < (n - 1) / 2 {
      Multiples(c, (n - 1) / 2, 2 * n);
    }
  }

  /** Column 6 aside, every module is visited. */
  lemma ScanCoversGrid(n: int)
    requires IsSize(n)
    ensures ScanLength(n) == n * n - n
  {
    hide IsSize;
    Odd(n);
    ScanArea((n - 1) / 2, n);
  }

  lemma ScanArea(half: int, n: int)
    requires n == 2 * half + 1
    ensures half * (2 * n) == n * n - n
  {
    assert half * (2 * n) == (2 * half) * n;
    assert (n - 1) * n == n * n - n;
  }

  // ----- The shape of the scan -----

  /** The pairs of columns alternate, and the first one runs upwards. */
  lemma Alternating(n: int, c: nat)
    requires IsSize(n) && c < (n - 1) / 2
    ensures Upward(RightColumn(n, c)) <==> c % 2 == 0
  {
    var q := n / 4;
    assert n == 4 * q + 1;
    var right := RightColumn(n, c);
    assert (right + 1) / 2 == 2 * q - c;
  }

  lemma CellInPair(n: int, c: nat, r: nat)
    requires IsSize(n) && c < (n - 1) / 2 && r < 2 * n
    ensures var t := c * (2 * n) + r;
            && 0 <= t < ScanLength(n)
            && CellX(n, t) == (if n - 1 - 2 * c > 6 then n - 1 - 2 * c else n - 2 - 2 * c) - r % 2
            && CellY(n, t) == if c % 2 == 0 then n - 1 - r / 2 else r / 2
  {
    Alternating(n, c);
    CellOfPart(n, c, r);
    hide Upward, CellX, CellY, ScanLength;
  }

  lemma StepInPair(n: int, c: nat, r: nat)
    requires IsSize(n) && c < (n - 1) / 2 && r + 1 < 2 * n
    ensures var t := c * (2 * n) + r;
            && 0 <= t && t + 1 < ScanLength(n)
            && CellX(n, t + 1) == CellX(n, t) + (if r % 2 == 0 then -1 else 1)
            && CellY(n, t + 1) == CellY(n, t) + (if r % 2 == 0 then 0 else if c % 2 == 0 then -1 else 1)
  {
    hide CellX, CellY, ScanLength;
    CellInPair(n, c, r);
    CellInPair(n, c, r + 1);
    assert c * (2 * n) + (r + 1) == c * (2 * n) + r + 1;
  }

  lemma PairEnds(n: int, c: nat)
    requires IsSize(n) && c < (n - 1) / 2
    ensures var t := c * (2 * n) + (2 * n - 1);
            && 0 <= t < ScanLength(n)
            && CellX(n, t) == (if n - 1 - 2 * c > 6 then n - 2 - 2 * c else n - 3 - 2 * c)
            && CellY(n, t) == if c % 2 == 0 then 0 else n - 1
  {
    CellInPair(n, c, 2 * (n - 1) + 1);
    hide CellX, CellY, ScanLength, IsSize;
    Halves(n - 1, 1);
    assert 2 * (n - 1) + 1 == 2 * n - 1;
  }

  lemma PairBegins(n: int, c: nat)
    requires IsSize(n) && c < (n - 1) / 2
    ensures var t := c * (2 * n);
            && 0 <= t < ScanLength(n)
            && CellX(n, t) == (if n - 1 - 2 * c > 6 then n - 1 - 2 * c else n - 2 - 2 * c)
            && CellY(n, t) == if c % 2 == 0 then n - 1 else 0
  {
    CellInPair(n, c, 0);
    hide CellX, CellY, ScanLength, IsSize;
    assert c * (2 * n) + 0 == c * (2 * n);
  }

  /** The scan starts in the bottom right corner. */
  lemma ScanStarts(n: int)
    requires IsSize(n)
    ensures 0 < ScanLength(n) && CellX(n, 0) == n - 1 && CellY(n, 0) == n - 1
  {
    PairBegins(n, 0);
    hide CellX, CellY, ScanLength;
    assert 0 * (2 * n) == 0;
  }

  lemma StepToNext(n: int, c: nat)
    requires IsSize(n) && c + 1 < (n - 1) / 2
    ensures var t := c * (2 * n) + (2 * n - 1);
            && 0 <= t && t + 1 < ScanLength(n)
            && CellX(n, t + 1) == (if CellX(n, t) == 7 then 5 else CellX(n, t) - 1)
            && CellY(n, t + 1) == CellY(n, t) == if c % 2 == 0 then 0 else n - 1
  {
    hide CellX, CellY, ScanLength, RightColumn, Upward;
    var t := c * (2 * n) + (2 * n - 1);
    assert t + 1 == (c + 1) * (2 * n) by {
      Distribute(c, 1, 2 * n);
    }
    PairEnds(n, c);
    PairBegins(n, c + 1);
    Odd(n);
    NextColumn((n - 1) / 2, c);
  }

  lemma NextColumn(half: int, c: nat)
    ensures var n := 2 * half + 1;
            var x := if n - 1 - 2 * c > 6 then n - 2 - 2 * c else n - 3 - 2 * c;
            (if n - 1 - 2 * (c + 1) > 6 then n - 1 - 2 * (c + 1) else n - 2 - 2 * (c + 1)) == if x == 7 then 5 else x - 1
    ensures (c + 1) % 2 == 0 <==> c % 2 != 0
  {
  }

  /**
    Every visit but the last is followed by the left neighbor, or by the module one column to the
    right in the next row, upwards in every other pair of columns, or at the end of a pair by the
    module to the left in the same row, column 6 being jumped over.
  */
  lemma ScanSteps(n: int, t: nat)
    requires IsSize(n) && t + 1 < ScanLength(n)
    ensures var x, y, x', y' := CellX(n, t), CellY(n, t), CellX(n, t + 1), CellY(n, t + 1);
            var c, r := Quot(t, 2 * n), Rem(t, 2 * n);
            if r % 2 == 0 then x' == x - 1 && y' == y
            else if r < 2 * n - 1 then x' == x + 1 && y' == (if c % 2 == 0 then y - 1 else y + 1)
            else x' == (if x == 7 then 5 else x - 1) && y' == y && y == if c % 2 == 0 then 0 else n - 1
  {
    hide CellX, CellY, Quot, Rem;
    var c, r := Quot(t, 2 * n), Rem(t, 2 * n);
    QuotRem(t, (n - 1) / 2, 2 * n);
    if r < 2 * n - 1 {
      StepInPair(n, c, r);
    } else {
      Distribute(c, 1, 2 * n);
      NextPair(n, c);
      StepToNext(n, c);
    }
  }

  lemma NextPair(n: int, c: nat)
    requires IsSize(n) && (c + 1) * (2 * n) < ScanLength(n)
    ensures c + 1 < (n - 1) / 2
  {
    var half := (n - 1) / 2;
    if half < c + 1 {
      Multiples(half, c + 1, 2 * n);
    }
  }

  // ----- Placing bits -----

  /** The t-th module of the scan carries a codeword bit. */
  predicate FreeAt(fn: Grid, n: int, t: nat)
    requires IsSize(n) && IsSquare(fn, n) && t < ScanLength(n)
  {
    VisitOfCell(n, t);
    !fn[CellY(n, t)][CellX(n, t)]
  }

  /** The number of free modules among the first t of the scan. */
  function Rank(fn: Grid, n: int, t: nat): nat
    requires IsSize(n) && IsSquare(fn, n) && t <= ScanLength(n)
  {
    if t == 0 then 0 else Rank(fn, n, t - 1) + (if FreeAt(fn, n, t - 1) then 1 else 0)
  }

  /** Module (x, y) after the scan has passed t modules, starting from grid g. */
  predicate Drawn(g: Grid, fn: Grid, n: int, bits: seq<bool>, t: nat, x: int, y: int)
    requires IsSize(n) && IsSquare(fn, n) && IsSquare(g, n) && 0 <= x < n && 0 <= y < n
  {
    if x == 6 || fn[y][x] then g[y][x]
    else
      CellOfVisit(n, x, y);
      var v := Visit(n, x, y);
      if v < t && Rank(fn, n, v) < |bits| then bits[Rank(fn, n, v)] else g[y][x]
  }

  /** The grid after the whole scan: function modules and column 6 keep their color. */
  function Draw(g: Grid, fn: Grid, n: int, bits: seq<bool>): (h: Grid)
    requires IsSize(n) && IsSquare(fn, n) && IsSquare(g, n)
    ensures IsSquare(h, n)
  {
    Paint(n, (x, y) => 0 <= x < n && 0 <= y < n && Drawn(g, fn, n, bits, ScanLength(n), x, y))
  }

  /** The bits of a sequence of codewords, most significant first. */
  function BitsOf(data: seq<Byte>): (bits: seq<bool>)
    ensures |bits| == 8 * |data|
  {
    seq(8 * |data|, i requires 0 <= i < 8 * |data| => data[i / 8][i % 8])
  }

  /** h is the grid and i the bit index reached after t modules. */
  ghost predicate Reached(h: Grid, i: int, g: Grid, fn: Grid, n: int, bits: seq<bool>, t: int) {
    && IsSize(n) && IsSquare(fn, n) && IsSquare(g, n) && IsSquare(h, n) && 0 <= t <= ScanLength(n)
    && i == (if Rank(fn, n, t) < |bits| then Rank(fn, n, t) else |bits|)
    && forall y, x :: 0 <= y < n && 0 <= x < n ==> h[y][x] == Drawn(g, fn, n, bits, t, x, y)
  }

  lemma ReachedStep(h: Grid, h': Grid, i: nat, i': nat, g: Grid, fn: Grid, n: int, bits: seq<bool>, t: nat)
    requires Reached(h, i, g, fn, n, bits, t) && t < ScanLength(n) && IsSquare(h', n)
    requires OnScan(n, CellX(n, t), CellY(n, t))
    requires var x0, y0 := CellX(n, t), CellY(n, t);
             if !fn[y0][x0] && i < |bits|
             then i' == i + 1 && h'[y0][x0] == bits[i]
               && forall y, x :: 0 <= y < n && 0 <= x < n && (y != y0 || x != x0) ==> h'[y][x] == h[y][x]
             else i' == i && h' == h
    ensures Reached(h', i', g, fn, n, bits, t + 1)
  {
    VisitOfCell(n, t);
    hide CellX, CellY, Visit;
    forall y, x | 0 <= y < n && 0 <= x < n
      ensures h'[y][x] == Drawn(g, fn, n, bits, t + 1, x, y)
    {
      if x != 6 {
        CellOfVisit(n, x, y);
      }
      assert h[y][x] == Drawn(g, fn, n, bits, t, x, y);
    }
  }

  /** The arrays of a symbol of side n. */
  predicate AreGrids(n: int, modules: array2<bool>, isFunction: array2<bool>) {
    && IsSize(n) && modules != isFunction
    && modules.Length0 == modules.Length1 == n && isFunction.Length0 == isFunction.Length1 == n
  }

  /** The innermost body of the scan, at module (x, y). */
  method PlaceBit(n: int, modules: array2<bool>, isFunction: array2<bool>, data: seq<Byte>, i: nat, x: int, y: int,
                  ghost g: Grid, ghost t: nat)
    returns (i': nat)
    requires AreGrids(n, modules, isFunction)
    requires Reached(Value(modules), i, g, Value(isFunction), n, BitsOf(data), t) && t < ScanLength(n)
    requires x == CellX(n, t) && y == CellY(n, t)
    modifies modules
    ensures Reached(Value(modules), i', g, Value(isFunction), n, BitsOf(data), t + 1)
  {
    VisitOfCell(n, t);
    hide CellX, CellY, Visit, Rank, Drawn, ScanLength;
    ghost var before := Value(modules);
    i' := i;
    if !isFunction[y, x] && i < 8 * |data| {
      modules[y, x] := data[i / 8][i % 8];
      i' := i + 1;
    }
    hide Reached;
    ReachedStep(before, Value(modules), i, i', g, Value(isFunction), n, BitsOf(data), t);
  }

  /** One pair of columns, upwards or downwards. */
  method DrawColumnPair(n: int, modules: array2<bool>, isFunction: array2<bool>, data: seq<Byte>, i: nat, right: int,
                        ghost g: Grid, ghost c: nat)
    returns (i': nat)
    requires AreGrids(n, modules, isFunction) && c < (n - 1) / 2 && right == RightColumn(n, c)
    requires Reached(Value(modules), i, g, Value(isFunction), n, BitsOf(data), PairStart(n, c))
    modifies modules
    ensures Reached(Value(modules), i', g, Value(isFunction), n, BitsOf(data), PairStart(n, c) + 2 * n)
  {
    hide Reached, RightColumn, BitsOf, CellX, CellY, ScanLength;
    i' := i;
    var vert := 0;
    while vert < n
      invariant 0 <= vert <= n
      invariant Reached(Value(modules), i', g, Value(isFunction), n, BitsOf(data), c * (2 * n) + 2 * vert)
    {
      var j := 0;
      while j < 2
        invariant 0 <= j <= 2
        invariant Reached(Value(modules), i', g, Value(isFunction), n, BitsOf(data), c * (2 * n) + 2 * vert + j)
      {
        var x := right - j;
        var upward := (right + 1) / 2 % 2 == 0;
        var y := if upward then n - 1 - vert else vert;
        Halves(vert, j);
        CellOfPart(n, c, 2 * vert + j);
        i' := PlaceBit(n, modules, isFunction, data, i', x, y, g, c * (2 * n) + 2 * vert + j);
        j := j + 1;
      }
      vert := vert + 1;
    }
  }

  lemma ReachedStart(g: Grid, fn: Grid, n: int, bits: seq<bool>)
    requires IsSize(n) && IsSquare(fn, n) && IsSquare(g, n)
    ensures Reached(g, 0, g, fn, n, bits, 0)
  {
    ScanCoversGrid(n);
    hide CellX, CellY, Visit, ScanLength;
    forall y, x | 0 <= y < n && 0 <= x < n
      ensures g[y][x] == Drawn(g, fn, n, bits, 0, x, y)
    {
      if x != 6 {
        CellOfVisit(n, x, y);
      }
    }
  }

  lemma ReachedEnd(h: Grid, i: int, g: Grid, fn: Grid, n: int, bits: seq<bool>, t: int)
    requires IsSize(n) && t == ScanLength(n) && Reached(h, i, g, fn, n, bits, t)
    ensures h == Draw(g, fn, n, bits)
    ensures i == |bits| <==> Rank(fn, n, ScanLength(n)) >= |bits|
  {
    hide CellX, CellY, Visit, ScanLength;
    SameGrid(h, Draw(g, fn, n, bits), n);
  }

  /** The first bit goes to the bottom right corner, if that module is free. */
  lemma FirstBit(g: Grid, fn: Grid, n: int, data: seq<Byte>)
    requires IsSize(n) && IsSquare(fn, n) && IsSquare(g, n)
    ensures data != [] && !fn[n - 1][n - 1] ==> Draw(g, fn, n, BitsOf(data))[n - 1][n - 1] == data[0][0]
  {
    ScanStarts(n);
    VisitOfCell(n, 0);
    hide CellX, CellY, Visit, ScanLength;
    assert Draw(g, fn, n, BitsOf(data))[n - 1][n - 1] == Drawn(g, fn, n, BitsOf(data), ScanLength(n), n - 1, n - 1);
    assert Rank(fn, n, 0) == 0;
  }

  /**
    drawCodewords.  The source throws when the codewords do not fit; `all` says whether every bit
    was placed.
  */
  method DrawCodewords(n: int, modules: array2<bool>, isFunction: array2<bool>, data: seq<Byte>) returns (all: bool)
    requires AreGrids(n, modules, isFunction)
    modifies modules
    ensures Value(modules) == Draw(old(Value(modules)), Value(isFunction), n, BitsOf(data))
    ensures all <==> Rank(Value(isFunction), n, ScanLength(n)) >= 8 * |data|
    ensures data != [] && !isFunction[n - 1, n - 1] ==> modules[n - 1, n - 1] == data[0][0]
  {
    hide Reached, Draw, Rank, ScanLength, BitsOf, Value, PairStart;
    ghost var g := Value(modules);
    var i := 0;
    var right := n - 1;
    ghost var c := 0;
    ReachedStart(g, Value(isFunction), n, BitsOf(data));
    PairStarts(n, 0);
    while right >= 1
      invariant 0 <= c <= (n - 1) / 2
      invariant right == if n - 1 - 2 * c >= 6 then n - 1 - 2 * c else n - 2 - 2 * c
      invariant Reached(Value(modules), i, g, Value(isFunction), n, BitsOf(data), PairStart(n, c))
      decreases right
    {
      if right == 6 {
        right := 5;
      }
      i := DrawColumnPair(n, modules, isFunction, data, i, right, g, c);
      PairStarts(n, c);
      c := c + 1;
      right := right - 2;
    }
    ReachedEnd(Value(modules), i, g, Value(isFunction), n, BitsOf(data), PairStart(n, c));
    all := i == 8 * |data|;
    FirstBit(g, Value(isFunction), n, data);
    assert isFunction[n - 1, n - 1] == Value(isFunction)[n - 1][n - 1] && modules[n - 1, n - 1] == Value(modules)[n - 1][n - 1];
  }

  /** Function modules and column 6 keep their color, and so do free modules beyond the last bit. */
  lemma DrawKeeps(g: Grid, fn: Grid, n: int, bits: seq<bool>, x: int, y: int)
    requires IsSize(n) && IsSquare(fn, n) && IsSquare(g, n) && 0 <= x < n && 0 <= y < n
    ensures x == 6 || fn[y][x] ==> Draw(g, fn, n, bits)[y][x] == g[y][x]
    ensures OnScan(n, x, y) && 0 <= Visit(n, x, y) <= ScanLength(n) && Rank(fn, n, Visit(n, x, y)) >= |bits|
        ==> Draw(g, fn, n, bits)[y][x] == g[y][x]
  {
    hide CellX, CellY, Visit, ScanLength, Rank;
    assert Draw(g, fn, n, bits)[y][x] == Drawn(g, fn, n, bits, ScanLength(n), x, y);
  }

  // ----- Reading bits -----

  /** The colors of the free modules among the first t of the scan, in scan order. */
  function ScanBits(g: Grid, fn: Grid, n: int, t: nat): (bits: seq<bool>)
    requires IsSize(n) && IsSquare(fn, n) && IsSquare(g, n) && t <= ScanLength(n)
    ensures |bits| == Rank(fn, n, t)
  {
    if t == 0 then []
    else
      VisitOfCell(n, t - 1);
      ScanBits(g, fn, n, t - 1) + (if FreeAt(fn, n, t - 1) then [g[CellY(n, t - 1)][CellX(n, t - 1)]] else [])
  }

  lemma DrawnWhenVisited(g: Grid, fn: Grid, n: int, bits: seq<bool>, t: nat)
    requires IsSize(n) && IsSquare(fn, n) && IsSquare(g, n) && t < ScanLength(n) && FreeAt(fn, n, t)
    requires OnScan(n, CellX(n, t), CellY(n, t))
    ensures Rank(fn, n, t) < |bits| ==> Draw(g, fn, n, bits)[CellY(n, t)][CellX(n, t)] == bits[Rank(fn, n, t)]
  {
    VisitOfCell(n, t);
    hide CellX, CellY, Visit, ScanLength, Rank;
  }

  /** Scanning a drawn grid returns the bits, as far as there is room. */
  lemma {:induction false} ScanDrawnPrefix(g: Grid, fn: Grid, n: int, bits: seq<bool>, t: nat)
    requires IsSize(n) && IsSquare(fn, n) && IsSquare(g, n) && t <= ScanLength(n)
    ensures var read := ScanBits(Draw(g, fn, n, bits), fn, n, t);
            forall k :: 0 <= k < |read| && k < |bits| ==> read[k] == bits[k]
  {
    hide CellX, CellY, Visit, ScanLength, Draw;
    if t > 0 {
      ScanDrawnPrefix(g, fn, n, bits, t - 1);
      VisitOfCell(n, t - 1);
      if FreeAt(fn, n, t - 1) {
        DrawnWhenVisited(g, fn, n, bits, t - 1);
      }
    }
  }

  /** If the free modules suffice, rescanning a drawn grid returns all codeword bits. */
  lemma ScanDrawn(g: Grid, fn: Grid, n: int, bits: seq<bool>)
    requires IsSize(n) && IsSquare(fn, n) && IsSquare(g, n)
    requires |bits| <= Rank(fn, n, ScanLength(n))
    ensures ScanBits(Draw(g, fn, n, bits), fn, n, ScanLength(n))[..|bits|] == bits
  {
    ScanCoversGrid(n);
    hide CellX, CellY, Visit, ScanLength, Draw;
    ScanDrawnPrefix(g, fn, n, bits, ScanLength(n));
  }
}
