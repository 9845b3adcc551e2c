/**
  Mask patterns, and the search for the mask with the lowest penalty: trying a mask and undoing it
  leaves the codeword modules as they were, and the symbol that wins is the one that forcing its
  mask would have produced.
*/
module Masking {
  import opened Arithmetic
  import opened Grids
  import opened Outcomes
  import opened Tables
  import opened Zigzag
  import opened FunctionPatterns
  import opened Penalty

  /** Mask msk inverts the codeword module at (x, y). */
  predicate Inverts(msk: int, x: nat, y: nat) {
    if msk == 0 then (x + y) % 2 == 0
    else if msk == 1 then y % 2 == 0
    else if msk == 2 then x % 3 == 0
    else if msk == 3 then (x + y) % 3 == 0
    else if msk == 4 then (x / 3 + y / 2) % 2 == 0
    else if msk == 5 then x * y % 2 + x * y % 3 == 0
    else if msk == 6 then (x * y % 2 + x * y % 3) % 2 == 0
    else ((x + y) % 2 + x * y % 3) % 2 == 0
  }

  // ----- What the masks look like -----

  /** Mask 0 is a checkerboard; mask 1 consists of every other row. */
  lemma CheckersAndRows(x: nat, y: nat)
    ensures Inverts(0, x + 1, y) != Inverts(0, x, y) && Inverts(0, x, y + 1) != Inverts(0, x, y)
    ensures Inverts(1, x + 1, y) == Inverts(1, x, y) && Inverts(1, x, y + 1) != Inverts(1, x, y)
  {
  }

  lemma OneOfThree(a: nat)
    ensures ExactlyOne(a % 3 == 0, (a + 1) % 3 == 0, (a + 2) % 3 == 0)
  {
  }

  lemma EveryThird(x: nat, y: nat)
    ensures Inverts(2, x, y) <==> x % 3 == 0
    ensures Inverts(3, x, y) <==> (x + y) % 3 == 0
  {
  }

  ghost predicate ExactlyOne(a: bool, b: bool, c: bool) {
    (a || b || c) && !(a && b) && !(a && c) && !(b && c)
  }

  /** Mask 2 consists of every third column, mask 3 of every third anti-diagonal. */
  lemma ColumnsAndDiagonals(x: nat, y: nat)
    ensures Inverts(2, x, y + 1) == Inverts(2, x, y)
    ensures ExactlyOne(Inverts(2, x, y), Inverts(2, x + 1, y), Inverts(2, x + 2, y))
    ensures Inverts(3, x + 1, y) == Inverts(3, x, y + 1)
    ensures ExactlyOne(Inverts(3, x, y), Inverts(3, x + 1, y), Inverts(3, x + 2, y))
  {
    hide Inverts;
    EveryThird(x, y);
    EveryThird(x, y + 1);
    EveryThird(x + 1, y);
    EveryThird(x + 2, y);
    OneOfThree(x);
    OneOfThree(x + y);
  }

  /** Mask 4 is a checkerboard of tiles three modules wide and two high. */
  lemma TileCheckers(i: nat, j: nat, dx: nat, dy: nat)
    requires dx < 3 && dy < 2
    ensures Inverts(4, 3 * i + dx, 2 * j + dy) == Inverts(4, 3 * i, 2 * j)
    ensures Inverts(4, 3 * (i + 1), 2 * j) != Inverts(4, 3 * i, 2 * j)
    ensures Inverts(4, 3 * i, 2 * (j + 1)) != Inverts(4, 3 * i, 2 * j)
  {
    hide Inverts;
    TileOf(i, j, dx, dy);
    TileOf(i, j, 0, 0);
    TileOf(i + 1, j, 0, 0);
    TileOf(i, j + 1, 0, 0);
  }

  lemma TileOf(i: nat, j: nat, dx: nat, dy: nat)
    requires dx < 3 && dy < 2
    ensures Inverts(4, 3 * i + dx, 2 * j + dy) <==> (i + j) % 2 == 0
  {
    DivMod(i, dx, 3);
    DivMod(j, dy, 2);
  }

  /** The tiles that masks 5, 6 and 7 repeat; inverted modules are marked. */
  const MASK_TILES: seq<seq<string>> := [
    ["######",
     "#.....",
     "#..#..",
     "#.#.#.",
     "#..#..",
     "#....."],
    ["######",
     "###...",
     "##.##.",
     "#.#.#.",
     "#.##.#",
     "#...##"],
    ["#.#.#.",
     "...###",
     "#...##",
     ".#.#.#",
     "###...",
     ".###.."]]

  /** Mask msk at (x, y), where xy is the product. */
  predicate InvertsBy(msk: int, x: nat, y: nat, xy: nat) {
    if msk == 5 then xy % 2 + xy % 3 == 0 else if msk == 6 then (xy % 2 + xy % 3) % 2 == 0 else ((x + y) % 2 + xy % 3) % 2 == 0
  }

  lemma InvertsByProduct(msk: int, x: nat, y: nat)
    requires 5 <= msk <= 7
    ensures Inverts(msk, x, y) == InvertsBy(msk, x, y, x * y)
  {
  }

  predicate InTile(msk: int, x: nat, y: nat)
    requires 5 <= msk <= 7
  {
    var tile := MASK_TILES[msk - 5];
    y < |tile| && x < |tile[y]| && tile[y][x] == '#'
  }

  /** The product, for y below 6, by cases. */
  function SmallProduct(x: nat, y: nat): nat {
    if y == 0 then 0 else if y == 1 then x else if y == 2 then 2 * x else if y == 3 then 3 * x else if y == 4 then 4 * x else 5 * x
  }

  lemma Products(x: nat, y: nat)
    requires y < 6
    ensures x * y == SmallProduct(x, y)
  {
  }

  lemma {:induction false} TileOfMask5(x: nat, y: nat, xy: nat)
    requires x < 6 && y < 6 && xy == SmallProduct(x, y)
    ensures InvertsBy(5, x, y, xy) == InTile(5, x, y)
  {
    assert y == 0 || y == 1 || y == 2 || y == 3 || y == 4 || y == 5;
    assert x == 0 || x == 1 || x == 2 || x == 3 || x == 4 || x == 5;
  }

  lemma {:induction false} TileOfMask6(x: nat, y: nat, xy: nat)
    requires x < 6 && y < 6 && xy == SmallProduct(x, y)
    ensures InvertsBy(6, x, y, xy) == InTile(6, x, y)
  {
    assert y == 0 || y == 1 || y == 2 || y == 3 || y == 4 || y == 5;
    assert x == 0 || x == 1 || x == 2 || x == 3 || x == 4 || x == 5;
  }

  lemma MaskSevenByThirds(x: nat, y: nat, xy: nat)
    ensures InvertsBy(7, x, y, xy) == (((x + y) % 2 == 0) == (xy % 3 != 1))
  {
  }

  lemma {:induction false} TileOfMask7(x: nat, y: nat, xy: nat)
    requires x < 6 && y < 6 && xy == SmallProduct(x, y)
    ensures InvertsBy(7, x, y, xy) == InTile(7, x, y)
  {
    MaskSevenByThirds(x, y, xy);
    hide InvertsBy;
    assert y == 0 || y == 1 || y == 2 || y == 3 || y == 4 || y == 5;
    assert x == 0 || x == 1 || x == 2 || x == 3 || x == 4 || x == 5;
  }

  lemma TileOfMask(msk: nat, x: nat, y: nat)
    requires 5 <= msk <= 7 && x < 6 && y < 6
    ensures Inverts(msk, x, y) == InTile(msk, x, y)
  {
    InvertsByProduct(msk, x, y);
    Products(x, y);
    hide Inverts, InvertsBy, InTile, SmallProduct;
    if msk == 5 {
      TileOfMask5(x, y, x * y);
    } else if msk == 6 {
      TileOfMask6(x, y, x * y);
    } else {
      TileOfMask7(x, y, x * y);
    }
  }

  lemma {:induction false} ProductInTiles(i: nat, a: nat, j: nat, b: nat) returns (k: nat)
    ensures (6 * i + a) * (6 * j + b) == 6 * k + a * b
  {
    var y := 6 * j + b;
    k := i * y + a * j;
    assert (6 * i + a) * y == 6 * (i * y) + a * y;
    assert a * y == 6 * (a * j) + a * b;
  }

  lemma {:induction false} PeriodSix(i: nat, a: nat, j: nat, b: nat, x: nat, y: nat, xy: nat)
    requires x == 6 * i + a && y == 6 * j + b && xy == x * y
    ensures xy % 2 == a * b % 2 && xy % 3 == a * b % 3
    ensures (x + y) % 2 == (a + b) % 2
  {
    var k := ProductInTiles(i, a, j, b);
    Remainders(k, a * b, xy);
    Remainders(i + j, a + b, x + y);
  }

  lemma Remainders(k: nat, r: nat, t: nat)
    requires t == 6 * k + r
    ensures t % 2 == r % 2 && t % 3 == r % 3
  {
    DivMod(3 * k + r / 2, r % 2, 2);
    DivMod(2 * k + r / 3, r % 3, 3);
    assert t == (3 * k + r / 2) * 2 + r % 2 == (2 * k + r / 3) * 3 + r % 3;
  }

  /** Masks 5, 6 and 7 repeat their tile in both directions, and mirroring at the diagonal keeps them. */
  lemma RepeatedTiles(msk: nat, x: nat, y: nat)
    requires 5 <= msk <= 7
    ensures Inverts(msk, x, y) == InTile(msk, x % 6, y % 6)
    ensures Inverts(msk, x, y) == Inverts(msk, y, x)
  {
    var a, b := x % 6, y % 6;
    PeriodSix(x / 6, a, y / 6, b, x, y, x * y);
    SameResidues(msk, x, y, a, b);
    SameResidues(msk, y, x, a, b);
    hide Inverts;
    TileOfMask(msk, a, b);
  }

  lemma SameResidues(msk: nat, x: nat, y: nat, a: nat, b: nat)
    requires 5 <= msk <= 7 && x * y % 2 == a * b % 2 && x * y % 3 == a * b % 3 && (x + y) % 2 == (a + b) % 2
    ensures Inverts(msk, x, y) == Inverts(msk, a, b)
  {
  }

  /** All eight masks invert the top left corner. */
  lemma CornerInverted(msk: nat)
    requires msk <= 7
    ensures Inverts(msk, 0, 0)
  {
  }

  /** The grid with mask msk applied to its codeword modules. */
  function Masked(g: Grid, fn: Grid, n: nat, msk: int): (h: Grid)
    requires IsSquare(g, n) && IsSquare(fn, n)
    ensures IsSquare(h, n)
  {
    Paint(n, (x, y) => 0 <= x < n && 0 <= y < n && g[y][x] != (Inverts(msk, x, y) && !fn[y][x]))
  }

  lemma MaskedAt(g: Grid, fn: Grid, n: nat, msk: int, x: int, y: int)
    requires IsSquare(g, n) && IsSquare(fn, n) && 0 <= x < n && 0 <= y < n
    ensures Masked(g, fn, n, msk)[y][x] == (g[y][x] != (Inverts(msk, x, y) && !fn[y][x]))
  {
    hide Inverts;
  }

  /** Applying a mask twice undoes it. */
  lemma MaskTwice(g: Grid, fn: Grid, n: nat, msk: int)
    requires IsSquare(g, n) && IsSquare(fn, n)
    ensures Masked(Masked(g, fn, n, msk), fn, n, msk) == g
  {
    hide Inverts, Masked;
    var h := Masked(Masked(g, fn, n, msk), fn, n, msk);
    forall y, x | 0 <= y < n && 0 <= x < n
      ensures h[y][x] == g[y][x]
    {
      MaskedAt(g, fn, n, msk, x, y);
      MaskedAt(Masked(g, fn, n, msk), fn, n, msk, x, y);
    }
    SameGrid(h, g, n);
  }

  /** The switch of applyMask. */
  method InvertsAt(msk: int, x: nat, y: nat) returns (invert: bool)
    requires 0 <= msk <= 7
    ensures invert == Inverts(msk, x, y)
  {
    match msk {
      case 0 => invert := (x + y) % 2 == 0;
      case 1 => invert := y % 2 == 0;
      case 2 => invert := x % 3 == 0;
      case 3 => invert := (x + y) % 3 == 0;
      case 4 => invert := (x / 3 + y / 2) % 2 == 0;
      case 5 => invert := x * y % 2 + x * y % 3 == 0;
      case 6 => invert := (x * y % 2 + x * y % 3) % 2 == 0;
      case _ => invert := ((x + y) % 2 + x * y % 3) % 2 == 0;
    }
  }

  /** applyMask; a mask number outside 0..7 is refused. */
  method ApplyMask(n: int, modules: array2<bool>, isFunction: array2<bool>, msk: int) returns (ok: bool)
    requires AreGrids(n, modules, isFunction)
    modifies modules
    ensures ok <==> 0 <= msk <= 7
    ensures Value(modules) == if ok then Masked(old(Value(modules)), Value(isFunction), n, msk) else old(Value(modules))
  {
    if msk < 0 || msk > 7 {
      return false;
    }
    hide Inverts;
    ghost var g := Value(modules);
    var y := 0;
    while y < n
      invariant 0 <= y <= n
      invariant forall j, i :: 0 <= j < n && 0 <= i < n ==>
        modules[j, i] == (if j < y then g[j][i] != (Inverts(msk, i, j) && !isFunction[j, i]) else g[j][i])
    {
      var x := 0;
      while x < n
        invariant 0 <= x <= n
        invariant forall j, i :: 0 <= j < n && 0 <= i < n ==>
          modules[j, i] == (if j < y || (j == y && i < x) then g[j][i] != (Inverts(msk, i, j) && !isFunction[j, i]) else g[j][i])
      {
        var invert := InvertsAt(msk, x, y);
        modules[y, x] := modules[y, x] != (invert && !isFunction[y, x]);
        x := x + 1;
      }
      y := y + 1;
    }
    ok := true;
    SameGrid(Value(modules), Masked(g, Value(isFunction), n, msk), n);
  }

  // ----- Format information -----

  /** The grid with the format information for mask msk drawn over it. */
  function Formatted(g: Grid, n: nat, ecl: Ecc, msk: int): (h: Grid)
    requires IsSquare(g, n) && 0 <= msk
    ensures IsSquare(h, n)
  {
    var s := Format(n, FormatWord(ecl, msk), 31);
    Paint(n, (x, y) => 0 <= x < n && 0 <= y < n && if At(s, x, y).Some? then At(s, x, y).value else g[y][x])
  }

  /** Every module that carries format information is marked as a function module. */
  ghost predicate FormatMarked(fn: Grid, n: int) {
    n >= 0 && IsSquare(fn, n) && forall y, x :: 0 <= y < n && 0 <= x < n && FormatWrite(n, x, y) >= 0 ==> fn[y][x]
  }

  lemma FormattedAt(g: Grid, n: nat, ecl: Ecc, msk: int, x: int, y: int)
    requires IsSquare(g, n) && 0 <= msk && 0 <= x < n && 0 <= y < n
    ensures Formatted(g, n, ecl, msk)[y][x] ==
            if FormatWrite(n, x, y) >= 0 then FormatColor(FormatWord(ecl, msk), FormatWrite(n, x, y)) else g[y][x]
  {
    hide FormatWord, FormatWrite, FormatColor;
    assert Formatted(g, n, ecl, msk)[y][x] ==
           var s := Format(n, FormatWord(ecl, msk), 31);
           if At(s, x, y).Some? then At(s, x, y).value else g[y][x];
  }

  /** Masking leaves format information alone, and drawing it again replaces the old one. */
  lemma FormatOverMask(g: Grid, fn: Grid, n: nat, ecl: Ecc, prev: nat, msk: nat)
    requires IsSquare(g, n) && FormatMarked(fn, n)
    ensures Formatted(Masked(Formatted(g, n, ecl, prev), fn, n, msk), n, ecl, msk) == Formatted(Masked(g, fn, n, msk), n, ecl, msk)
    ensures Masked(Formatted(Masked(g, fn, n, msk), n, ecl, msk), fn, n, msk) == Formatted(g, n, ecl, msk)
  {
    hide Inverts, Masked, Formatted, FormatWord, FormatWrite, FormatColor;
    var f, m := Formatted(g, n, ecl, prev), Masked(g, fn, n, msk);
    var a, b := Formatted(Masked(f, fn, n, msk), n, ecl, msk), Formatted(m, n, ecl, msk);
    var c, d := Masked(b, fn, n, msk), Formatted(g, n, ecl, msk);
    forall y, x | 0 <= y < n && 0 <= x < n
      ensures a[y][x] == b[y][x] && c[y][x] == d[y][x]
    {
      FormattedAt(g, n, ecl, prev, x, y);
      FormattedAt(g, n, ecl, msk, x, y);
      FormattedAt(Masked(f, fn, n, msk), n, ecl, msk, x, y);
      FormattedAt(m, n, ecl, msk, x, y);
      MaskedAt(f, fn, n, msk, x, y);
      MaskedAt(g, fn, n, msk, x, y);
      MaskedAt(b, fn, n, msk, x, y);
    }
    SameGrid(a, b, n);
    SameGrid(c, d, n);
  }

  lemma StampedFormat(g: Grid, f: Grid, g': Grid, f': Grid, n: nat, ecl: Ecc, msk: nat)
    requires Stamped(g, f, g', f', n, Format(n, FormatWord(ecl, msk), 31)) && FormatMarked(f, n)
    ensures g' == Formatted(g, n, ecl, msk) && f' == f
  {
    hide FormatWord, FormatWrite, FormatColor, Formatted;
    var s := Format(n, FormatWord(ecl, msk), 31);
    forall y, x | 0 <= y < n && 0 <= x < n
      ensures g'[y][x] == Formatted(g, n, ecl, msk)[y][x] && f'[y][x] == f[y][x]
    {
      FormattedAt(g, n, ecl, msk, x, y);
      assert At(s, x, y) == if FormatWrite(n, x, y) >= 0 then Some(FormatColor(FormatWord(ecl, msk), FormatWrite(n, x, y))) else None;
    }
    SameGrid(g', Formatted(g, n, ecl, msk), n);
    SameGrid(f', f, n);
  }

  // ----- The search for the best mask -----

  /** The symbol with mask msk forced, from the unmasked grid g. */
  function Finished(g: Grid, fn: Grid, n: nat, ecl: Ecc, msk: nat): (h: Grid)
    requires IsSquare(g, n) && IsSquare(fn, n)
    ensures IsSquare(h, n)
  {
    Formatted(Masked(g, fn, n, msk), n, ecl, msk)
  }

  /** msk has the lowest penalty of the masks below k, and is the first one that has it. */
  ghost predicate BestOf(g: Grid, fn: Grid, n: nat, ecl: Ecc, msk: int, k: int) {
    && n > 0 && IsSquare(g, n) && IsSquare(fn, n) && 0 <= msk < k <= 8
    && (forall i: nat :: i < k ==> Score(Finished(g, fn, n, ecl, msk), n) <= Score(Finished(g, fn, n, ecl, i), n))
    && (forall i: nat :: i < msk ==> Score(Finished(g, fn, n, ecl, msk), n) < Score(Finished(g, fn, n, ecl, i), n))
  }

  /** The largest long; any value of at least 2^31 - 1 serves. */
  const LONG_MAX := 0x7FFF_FFFF_FFFF_FFFF

  /** The grids of a symbol under construction: g, possibly with format information drawn over it. */
  ghost predicate UpToFormat(h: Grid, g: Grid, n: nat, ecl: Ecc) {
    IsSquare(g, n) && (h == g || exists k: nat :: h == Formatted(g, n, ecl, k))
  }

  lemma TrialGrid(h: Grid, g: Grid, fn: Grid, n: nat, ecl: Ecc, msk: nat)
    requires UpToFormat(h, g, n, ecl) && FormatMarked(fn, n)
    ensures IsSquare(h, n)
    ensures Formatted(Masked(h, fn, n, msk), n, ecl, msk) == Finished(g, fn, n, ecl, msk)
    ensures UpToFormat(Masked(Finished(g, fn, n, ecl, msk), fn, n, msk), g, n, ecl)
  {
    hide Masked, Formatted;
    FormatOverMask(g, fn, n, ecl, 0, msk);
    if h != g {
      var k: nat :| h == Formatted(g, n, ecl, k);
      FormatOverMask(g, fn, n, ecl, k, msk);
    }
  }

  /** One trial: apply mask i, draw its format information, score the symbol, undo the mask. */
  method TryMask(n: int, modules: array2<bool>, isFunction: array2<bool>, ecl: Ecc, i: nat, ghost g: Grid) returns (penalty: int)
    requires AreGrids(n, modules, isFunction) && i <= 7
    requires UpToFormat(Value(modules), g, n, ecl) && FormatMarked(Value(isFunction), n)
    modifies modules, isFunction
    ensures Value(isFunction) == old(Value(isFunction))
    ensures UpToFormat(Value(modules), g, n, ecl)
    ensures penalty == Score(Finished(g, Value(isFunction), n, ecl, i), n)
  {
    hide Masked, Formatted, UpToFormat, FormatMarked, Score, Stamped;
    ghost var fn := Value(isFunction);
    TrialGrid(Value(modules), g, fn, n, ecl, i);
    var ok := ApplyMask(n, modules, isFunction, i);
    ghost var m := Value(modules);
    DrawFormatBits(n, modules, isFunction, ecl, i);
    StampedFormat(m, fn, Value(modules), Value(isFunction), n, ecl, i);
    penalty := GetPenaltyScore(n, modules);
    ok := ApplyMask(n, modules, isFunction, i);
  }

  /** The automatic mask choice of the constructor. */
  method ChooseMask(n: int, modules: array2<bool>, isFunction: array2<bool>, ecl: Ecc) returns (msk: int)
    requires AreGrids(n, modules, isFunction) && n <= 177 && FormatMarked(Value(isFunction), n)
    modifies modules, isFunction
    ensures Value(isFunction) == old(Value(isFunction))
    ensures UpToFormat(Value(modules), old(Value(modules)), n, ecl)
    ensures BestOf(old(Value(modules)), Value(isFunction), n, ecl, msk, 8)
  {
    hide Masked, Formatted, FormatMarked, Finished, Score;
    ghost var g, fn := Value(modules), Value(isFunction);
    msk := -1;
    var minPenalty := LONG_MAX;
    var i := 0;
    while i < 8
      invariant 0 <= i <= 8
      invariant Value(isFunction) == fn && UpToFormat(Value(modules), g, n, ecl)
      invariant i == 0 ==> minPenalty == LONG_MAX
      invariant i > 0 ==> BestOf(g, fn, n, ecl, msk, i) && minPenalty == Score(Finished(g, fn, n, ecl, msk), n)
    {
      var penalty := TryMask(n, modules, isFunction, ecl, i, g);
      ScoreBound(Finished(g, fn, n, ecl, i), n);
      if penalty < minPenalty {
        msk := i;
        minPenalty := penalty;
      }
      i := i + 1;
    }
  }
}
