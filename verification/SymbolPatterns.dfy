/**
  What a finished symbol shows outside its codewords, read off its modules: finder, alignment and
  timing patterns, both copies of the format information and both copies of the version information.
*/
module SymbolPatterns {
  import opened Outcomes
  import opened Bits
  import opened GaloisField
  import opened Grids
  import opened Tables
  import opened Zigzag
  import opened FunctionPatterns
  import opened FreeModules
  import opened Masking
  import Blocks
  import opened QrCodes

  const FINDER := [
    "#######",
    "#.....#",
    "#.###.#",
    "#.###.#",
    "#.###.#",
    "#.....#",
    "#######"]

  const ALIGNMENT := [
    "#####",
    "#...#",
    "#.#.#",
    "#...#",
    "#####"]

  /** The picture is black at (x, y); outside it everything is white. */
  predicate Dark(picture: seq<string>, x: int, y: int) {
    0 <= y < |picture| && 0 <= x < |picture[y]| && picture[y][x] == '#'
  }

  /** g is the symbol of this version, level and mask for some data. */
  ghost predicate IsSymbol(g: Grid, ver: Version, ecl: Ecc, msk: nat) {
    IsSquare(g, Size(ver)) && exists data :: |data| == NumDataCodewords(ver, ecl) && g == Symbol(ver, ecl, data, msk)
  }

  /** Codewords and masking leave the function modules alone, and only the format information is redrawn. */
  lemma FunctionModuleShown(g: Grid, ver: Version, ecl: Ecc, msk: nat, x: int, y: int)
    requires IsSymbol(g, ver, ecl, msk) && 0 <= x < Size(ver) && 0 <= y < Size(ver)
    requires At(AllPatterns(ver, ecl), x, y).Some? && FormatWrite(Size(ver), x, y) < 0
    ensures g[y][x] == At(AllPatterns(ver, ecl), x, y).value
  {
    hide AllPatterns, At, Masked, Formatted, Draw, Blocks.Interleaved, BitsOf, FormatWrite, FormatWord;
    hide NumDataCodewords, IsFunctionModule, FormatColor;
    var data :| |data| == NumDataCodewords(ver, ecl) && g == Symbol(ver, ecl, data, msk);
    var n, fn, h := Size(ver), FunctionGrid(ver), Unmasked(ver, ecl, data);
    PatternsTouch(ver, ecl, x, y);
    assert fn[y][x];
    FormattedAt(Masked(h, fn, n, msk), n, ecl, msk, x, y);
    MaskedAt(h, fn, n, msk, x, y);
    DrawKeeps(Canvas(ver, ecl), fn, n, BitsOf(Blocks.Interleaved(Blocks.LayoutOf(ver, ecl), data)), x, y);
    assert Canvas(ver, ecl)[y][x] == (At(AllPatterns(ver, ecl), x, y) == Some(true));
  }

  /** The format information shows the level and the mask. */
  lemma FormatModuleShown(g: Grid, ver: Version, ecl: Ecc, msk: nat, x: int, y: int)
    requires IsSymbol(g, ver, ecl, msk) && 0 <= x < Size(ver) && 0 <= y < Size(ver) && FormatWrite(Size(ver), x, y) >= 0
    ensures g[y][x] == FormatColor(FormatWord(ecl, msk), FormatWrite(Size(ver), x, y))
  {
    hide Masked, Formatted, Unmasked, FormatWrite, FormatWord, NumDataCodewords, FunctionGrid, FormatColor;
    var data :| |data| == NumDataCodewords(ver, ecl) && g == Symbol(ver, ecl, data, msk);
    FormattedAt(Masked(Unmasked(ver, ecl, data), FunctionGrid(ver), Size(ver), msk), Size(ver), ecl, msk, x, y);
  }

  // ----- Finder patterns -----

  /** The centers of the finder patterns: three corners of the symbol. */
  predicate IsFinder(n: int, cx: int, cy: int) {
    (cx == 3 && cy == 3) || (cx == n - 4 && cy == 3) || (cx == 3 && cy == n - 4)
  }

  lemma NoAlignmentInCorners(ver: Version, x: int, y: int)
    requires (x <= 7 && y <= 7) || (x >= Size(ver) - 8 && y <= 7) || (x <= 7 && y >= Size(ver) - 8)
    ensures At(Alignment(ver, NumAlign(ver), 0), x, y) == None
  {
    if ver > 1 {
      AlignmentTouches(ver, NumAlign(ver), 0, x, y);
      AlignmentByBands(ver, x, y);
      AlignGeometry(ver);
      if InMiddle(ver, x) {
        InMiddleBounds(ver, x);
      }
      if InMiddle(ver, y) {
        InMiddleBounds(ver, y);
      }
      hide InMiddle, AlignStep, AlignmentAt;
    }
  }

  lemma SquareAt(cx: int, cy: int, x: int, y: int)
    ensures At(Squares(cx, cy, 4, {2, 4}), x, y) ==
            if Norm(x - cx, y - cy) <= 4 then Some(Norm(x - cx, y - cy) !in {2, 4}) else None
  {
  }

  lemma OverAt(s: Stamp, t: Stamp, x: int, y: int)
    ensures At(Over(s, t), x, y) == if At(t, x, y).Some? then At(t, x, y) else At(s, x, y)
  {
  }

  /** What is drawn last shows. */
  lemma PatternsAt(ver: Version, ecl: Ecc, x: int, y: int)
    ensures var n := Size(ver);
            var t, a := At(TimingAndFinders(n), x, y), At(Alignment(ver, NumAlign(ver), 0), x, y);
            var f, v := At(Format(n, FormatWord(ecl, 0), 31), x, y), At(VersionStamp(ver), x, y);
            At(AllPatterns(ver, ecl), x, y) == if v.Some? then v else if f.Some? then f else if a.Some? then a else t
  {
    var n := Size(ver);
    var t, a, f, v := TimingAndFinders(n), Alignment(ver, NumAlign(ver), 0), Format(n, FormatWord(ecl, 0), 31), VersionStamp(ver);
    hide At, TimingAndFinders, FormatWord, VersionStamp;
    OverAt(t, a, x, y);
    OverAt(Over(t, a), f, x, y);
    OverAt(Over(Over(t, a), f), v, x, y);
  }

  lemma FindersAt(n: int, cx: int, cy: int, x: int, y: int)
    requires IsSize(n) && IsFinder(n, cx, cy) && 0 <= x < n && 0 <= y < n && Norm(x - cx, y - cy) <= 4
    ensures At(TimingAndFinders(n), x, y) == Some(Norm(x - cx, y - cy) !in {2, 4})
  {
    hide Squares, At;
    SquareAt(3, 3, x, y);
    SquareAt(n - 4, 3, x, y);
    SquareAt(3, n - 4, x, y);
    var s0, s1, s2, s3 := Timing(n), Squares(3, 3, 4, {2, 4}), Squares(n - 4, 3, 4, {2, 4}), Squares(3, n - 4, 4, {2, 4});
    OverAt(s0, s1, x, y);
    OverAt(Over(s0, s1), s2, x, y);
    OverAt(Over(Over(s0, s1), s2), s3, x, y);
  }

  lemma FinderDrawn(ver: Version, ecl: Ecc, cx: int, cy: int, x: int, y: int)
    requires 0 <= x < Size(ver) && 0 <= y < Size(ver) && IsFinder(Size(ver), cx, cy) && Norm(x - cx, y - cy) <= 4
    ensures At(AllPatterns(ver, ecl), x, y) == Some(Norm(x - cx, y - cy) !in {2, 4})
    ensures FormatWrite(Size(ver), x, y) < 0
  {
    NoAlignmentInCorners(ver, x, y);
    FindersAt(Size(ver), cx, cy, x, y);
    PatternsAt(ver, ecl, x, y);
    hide AllPatterns, TimingAndFinders, AlignmentAt, FormatWord, VersionWord, FormatColor;
    assert VersionBit(Size(ver), x, y) < 0;
  }

  lemma {:induction false} FinderPicture(dx: int, dy: int)
    requires -4 <= dx <= 4 && -4 <= dy <= 4
    ensures Norm(dx, dy) !in {2, 4} <==> Dark(FINDER, dx + 3, dy + 3)
  {
    assert dy == -4 || dy == -3 || dy == -2 || dy == -1 || dy == 0 || dy == 1 || dy == 2 || dy == 3 || dy == 4;
    assert dx == -4 || dx == -3 || dx == -2 || dx == -1 || dx == 0 || dx == 1 || dx == 2 || dx == 3 || dx == 4;
  }

  /** Every symbol shows the finder pattern in three corners, 1:1:3:1:1 through the center, with a white border. */
  lemma FinderShown(g: Grid, ver: Version, ecl: Ecc, msk: nat, cx: int, cy: int, dx: int, dy: int)
    requires IsSymbol(g, ver, ecl, msk) && IsFinder(Size(ver), cx, cy)
    requires -4 <= dx <= 4 && -4 <= dy <= 4 && 0 <= cx + dx < Size(ver) && 0 <= cy + dy < Size(ver)
    ensures g[cy + dy][cx + dx] == Dark(FINDER, dx + 3, dy + 3)
  {
    hide AllPatterns, At, Symbol, NumDataCodewords, FormatWrite, IsSymbol, Dark;
    FinderDrawn(ver, ecl, cx, cy, cx + dx, cy + dy);
    FunctionModuleShown(g, ver, ecl, msk, cx + dx, cy + dy);
    FinderPicture(dx, dy);
  }

  // ----- Alignment patterns -----

  /** The squares of different centers do not meet. */
  lemma OneSquare(ver: Version, i: nat, j: nat, i': nat, j': nat, x: int, y: int)
    requires ver > 1 && i < NumAlign(ver) && j < NumAlign(ver) && i' < NumAlign(ver) && j' < NumAlign(ver)
    requires InSquare(ver, i, j, x, y) && InSquare(ver, i', j', x, y)
    ensures i == i' && j == j'
  {
    hide AlignStep, NumAlign, AlignPosition;
    AlignApart(ver, i, i');
    AlignApart(ver, j, j');
  }

  lemma AlignApart(ver: Version, i: nat, j: nat)
    requires ver > 1 && i < NumAlign(ver) && j < NumAlign(ver)
    ensures i < j ==> AlignPosition(ver, i) + 12 <= AlignPosition(ver, j)
    ensures j < i ==> AlignPosition(ver, j) + 12 <= AlignPosition(ver, i)
  {
    hide AlignStep, NumAlign;
    AlignGeometry(ver);
    var a, b := if i < j then i else j, if i < j then j else i;
    if a > 0 {
      AlignAscends(ver, a, b);
    } else if b > 0 {
      AlignAscends(ver, 1, b);
    }
  }

  lemma {:induction false} AlignmentColor(ver: Version, i: nat, j: nat, i0: nat, j0: nat, x: int, y: int)
    requires ver > 1 && i0 < NumAlign(ver) && j0 < NumAlign(ver) && !IsCorner(ver, i0, j0) && InSquare(ver, i0, j0, x, y)
    requires i <= NumAlign(ver) && j <= NumAlign(ver) && (i == NumAlign(ver) ==> j == 0)
    ensures i0 < i || (i0 == i && j0 < j) ==>
              AlignmentAt(ver, i, j, x, y) == Some(Norm(x - AlignPosition(ver, i0), y - AlignPosition(ver, j0)) != 1)
    decreases i, j
  {
    hide InSquare, IsCorner, AlignPosition, NumAlign, Norm;
    if j > 0 {
      AlignmentColor(ver, i, j - 1, i0, j0, x, y);
      if !IsCorner(ver, i, j - 1) && InSquare(ver, i, j - 1, x, y) {
        OneSquare(ver, i, j - 1, i0, j0, x, y);
      }
    } else if i > 0 {
      AlignmentColor(ver, i - 1, NumAlign(ver), i0, j0, x, y);
    }
  }

  lemma SquareBounds(ver: Version, i: nat, j: nat, x: int, y: int)
    requires ver > 1 && i < NumAlign(ver) && j < NumAlign(ver) && !IsCorner(ver, i, j) && InSquare(ver, i, j, x, y)
    ensures var n := Size(ver);
            && 4 <= x < n - 4 && 4 <= y < n - 4
            && (x < 16 ==> 16 <= y <= n - 21) && (y < 16 ==> 16 <= x <= n - 21)
  {
    AlignInBounds(ver, i);
    AlignInBounds(ver, j);
    AlignGeometry(ver);
    AlignApart(ver, 0, i);
    AlignApart(ver, 0, j);
    if 0 < i < NumAlign(ver) - 1 {
      MiddleBounds(ver, i);
    }
    if 0 < j < NumAlign(ver) - 1 {
      MiddleBounds(ver, j);
    }
    hide AlignStep, NumAlign;
  }

  lemma AlignmentDrawn(ver: Version, ecl: Ecc, i: nat, j: nat, x: int, y: int)
    requires ver > 1 && i < NumAlign(ver) && j < NumAlign(ver) && !IsCorner(ver, i, j) && InSquare(ver, i, j, x, y)
    ensures At(AllPatterns(ver, ecl), x, y) == Some(Norm(x - AlignPosition(ver, i), y - AlignPosition(ver, j)) != 1)
    ensures 0 <= x < Size(ver) && 0 <= y < Size(ver) && FormatWrite(Size(ver), x, y) < 0
  {
    SquareBounds(ver, i, j, x, y);
    AlignmentColor(ver, NumAlign(ver), 0, i, j, x, y);
    PatternsAt(ver, ecl, x, y);
    hide AllPatterns, TimingAndFinders, AlignmentAt, FormatWord, VersionWord, FormatColor;
    hide AlignPosition, InSquare, IsCorner, NumAlign, Norm;
    assert VersionBit(Size(ver), x, y) < 0;
  }

  lemma {:induction false} AlignmentPicture(dx: int, dy: int)
    requires -2 <= dx <= 2 && -2 <= dy <= 2
    ensures Norm(dx, dy) != 1 <==> Dark(ALIGNMENT, dx + 2, dy + 2)
  {
    assert dy == -2 || dy == -1 || dy == 0 || dy == 1 || dy == 2;
    assert dx == -2 || dx == -1 || dx == 0 || dx == 1 || dx == 2;
  }

  /** Around every two alignment positions but in the three corners, the symbol shows an alignment pattern. */
  lemma AlignmentShown(g: Grid, ver: Version, ecl: Ecc, msk: nat, i: nat, j: nat, dx: int, dy: int)
    requires IsSymbol(g, ver, ecl, msk) && ver > 1
    requires i < NumAlign(ver) && j < NumAlign(ver) && !IsCorner(ver, i, j) && -2 <= dx <= 2 && -2 <= dy <= 2
    ensures var x, y := AlignPosition(ver, i) + dx, AlignPosition(ver, j) + dy;
            0 <= x < Size(ver) && 0 <= y < Size(ver) && g[y][x] == Dark(ALIGNMENT, dx + 2, dy + 2)
  {
    hide AllPatterns, At, FormatWrite, IsSymbol, Dark, AlignPosition, IsCorner, NumAlign;
    var x, y := AlignPosition(ver, i) + dx, AlignPosition(ver, j) + dy;
    AlignmentDrawn(ver, ecl, i, j, x, y);
    FunctionModuleShown(g, ver, ecl, msk, x, y);
    AlignmentPicture(dx, dy);
  }

  // ----- Timing patterns -----

  lemma AlignPositionEven(ver: Version, i: nat)
    requires ver > 1 && i < NumAlign(ver)
    ensures AlignPosition(ver, i) % 2 == 0
  {
    hide NumAlign, AlignStep;
    AlignSpacing(ver);
    EvenDistance(Size(ver) - 7, NumAlign(ver) - 1 - i, AlignStep(ver));
  }

  lemma EvenDistance(last: int, r: int, step: int)
    requires last % 2 == 0 && step % 2 == 0
    ensures (last - r * step) % 2 == 0
  {
    var half := step / 2;
    assert r * step == 2 * (r * half);
  }

  lemma TimingAt(n: int, k: int)
    requires IsSize(n) && 8 <= k <= n - 9
    ensures At(TimingAndFinders(n), 6, k) == Some(k % 2 == 0) && At(TimingAndFinders(n), k, 6) == Some(k % 2 == 0)
  {
    hide Squares;
    var s0, s1, s2, s3 := Timing(n), Squares(3, 3, 4, {2, 4}), Squares(n - 4, 3, 4, {2, 4}), Squares(3, n - 4, 4, {2, 4});
    forall x, y | (x == 6 && y == k) || (x == k && y == 6) ensures At(TimingAndFinders(n), x, y) == At(s0, x, y) {
      SquareAt(3, 3, x, y);
      SquareAt(n - 4, 3, x, y);
      SquareAt(3, n - 4, x, y);
      OverAt(s0, s1, x, y);
      OverAt(Over(s0, s1), s2, x, y);
      OverAt(Over(Over(s0, s1), s2), s3, x, y);
    }
  }

  lemma SquareOnTiming(ver: Version, i: nat, j: nat, x: int, y: int)
    requires ver > 1 && i < NumAlign(ver) && j < NumAlign(ver) && InSquare(ver, i, j, x, y) && (x == 6 || y == 6)
    ensures Norm(x - AlignPosition(ver, i), y - AlignPosition(ver, j)) != 1 <==> if x == 6 then y % 2 == 0 else x % 2 == 0
  {
    hide AlignStep, NumAlign, Size, AlignPosition;
    AlignPositionEven(ver, i);
    AlignPositionEven(ver, j);
    AlignApart(ver, 0, i);
    AlignApart(ver, 0, j);
    FirstPosition(ver);
    if x == 6 {
      Parity(y, AlignPosition(ver, j));
    } else {
      Parity(x, AlignPosition(ver, i));
    }
  }

  lemma FirstPosition(ver: Version)
    requires ver > 1
    ensures AlignPosition(ver, 0) == 6
  {
  }

  lemma Parity(y: int, c: int)
    requires c % 2 == 0 && -2 <= y - c <= 2
    ensures y % 2 == 0 <==> y - c != 1 && y - c != -1
  {
  }

  /** On the timing lines alignment patterns have the colors the lines would have. */
  lemma AlignmentOnTiming(ver: Version, x: int, y: int)
    requires x == 6 || y == 6
    ensures var a := At(Alignment(ver, NumAlign(ver), 0), x, y); a.Some? ==> a.value == if x == 6 then y % 2 == 0 else x % 2 == 0
  {
    if ver > 1 {
      hide AlignStep, NumAlign, AlignmentAt, Size, AlignPosition, InSquare, IsCorner, Norm;
      AlignmentTouches(ver, NumAlign(ver), 0, x, y);
      if At(Alignment(ver, NumAlign(ver), 0), x, y).Some? {
        var i: nat, j: nat :| i < NumAlign(ver) && j < NumAlign(ver) && !IsCorner(ver, i, j) && InSquare(ver, i, j, x, y);
        AlignmentColor(ver, NumAlign(ver), 0, i, j, x, y);
        SquareOnTiming(ver, i, j, x, y);
      }
    }
  }

  lemma TimingDrawn(ver: Version, ecl: Ecc, k: int)
    requires 8 <= k <= Size(ver) - 9
    ensures At(AllPatterns(ver, ecl), 6, k) == Some(k % 2 == 0) && At(AllPatterns(ver, ecl), k, 6) == Some(k % 2 == 0)
    ensures FormatWrite(Size(ver), 6, k) < 0 && FormatWrite(Size(ver), k, 6) < 0
  {
    TimingAt(Size(ver), k);
    AlignmentOnTiming(ver, 6, k);
    AlignmentOnTiming(ver, k, 6);
    PatternsAt(ver, ecl, 6, k);
    PatternsAt(ver, ecl, k, 6);
    hide AllPatterns, TimingAndFinders, AlignmentAt, FormatWord, VersionWord, FormatColor, NumAlign;
  }

  /** Between the finder patterns the timing lines alternate, black on even positions. */
  lemma TimingShown(g: Grid, ver: Version, ecl: Ecc, msk: nat, k: int)
    requires IsSymbol(g, ver, ecl, msk) && 8 <= k <= Size(ver) - 9
    ensures g[k][6] == g[6][k] == (k % 2 == 0)
  {
    hide AllPatterns, At, FormatWrite, IsSymbol;
    TimingDrawn(ver, ecl, k);
    FunctionModuleShown(g, ver, ecl, msk, 6, k);
    FunctionModuleShown(g, ver, ecl, msk, k, 6);
  }

  // ----- Format and version information -----

  /** Where the second copy of the format information shows bit i: up column 8 from the bottom, then along row 8 to the right edge. */
  function SecondX(n: int, i: nat): int {
    if i <= 6 then 8 else n - 15 + i
  }

  function SecondY(n: int, i: nat): int {
    if i <= 6 then n - 1 - i else 8
  }

  lemma FormatPlaces(n: int, i: nat)
    requires IsSize(n) && i < 15
    ensures 0 <= SecondX(n, i) < n && 0 <= SecondY(n, i) < n && FormatX(i) <= 8 && FormatY(i) <= 8
    ensures FormatWrite(n, FormatX(i), FormatY(i)) == 14 - i
    ensures FormatWrite(n, SecondX(n, i), SecondY(n, i)) == 29 - i
    ensures FormatWrite(n, 8, n - 8) == 30
  {
  }

  /** Both copies show the format word, most significant bit first, and the module above the second one is black. */
  lemma FormatShown(g: Grid, ver: Version, ecl: Ecc, msk: nat, i: nat)
    requires IsSymbol(g, ver, ecl, msk) && i < 15
    ensures var n, x, y := Size(ver), SecondX(Size(ver), i), SecondY(Size(ver), i);
            && FormatX(i) <= 8 && FormatY(i) <= 8 && 0 <= x < n && 0 <= y < n
            && g[FormatY(i)][FormatX(i)] == FormatWord(ecl, msk)[i] == g[y][x]
            && g[n - 8][8]
  {
    hide FormatWrite, IsSymbol, FormatWord, FormatX, FormatY, SecondX, SecondY;
    var n := Size(ver);
    FormatPlaces(n, i);
    FormatModuleShown(g, ver, ecl, msk, FormatX(i), FormatY(i));
    FormatModuleShown(g, ver, ecl, msk, SecondX(n, i), SecondY(n, i));
    FormatModuleShown(g, ver, ecl, msk, 8, n - 8);
  }

  lemma VersionPlace(n: int, i: nat)
    requires IsSize(n) && i < 18
    ensures var x, y := n - 9 - i % 3, 5 - i / 3;
            && 0 <= y <= 5 && n - 11 <= x <= n - 9
            && VersionBit(n, x, y) == VersionBit(n, y, x) == 17 - i
            && FormatWrite(n, x, y) < 0 && FormatWrite(n, y, x) < 0
  {
    var q, r := i / 3, i % 3;
    assert i == 3 * q + r && 0 <= q <= 5 && 0 <= r <= 2;
  }

  lemma VersionDrawn(ver: Version, ecl: Ecc, i: nat)
    requires ver >= 7 && i < 18
    ensures var x, y := Size(ver) - 9 - i % 3, 5 - i / 3;
            && At(AllPatterns(ver, ecl), x, y) == Some(VersionWord(ver)[i]) == At(AllPatterns(ver, ecl), y, x)
            && FormatWrite(Size(ver), x, y) < 0 && FormatWrite(Size(ver), y, x) < 0
  {
    hide AllPatterns, TimingAndFinders, AlignmentAt, FormatWord, VersionWord, FormatColor, FormatWrite, VersionBit, NumAlign;
    var x, y := Size(ver) - 9 - i % 3, 5 - i / 3;
    VersionPlace(Size(ver), i);
    PatternsAt(ver, ecl, x, y);
    PatternsAt(ver, ecl, y, x);
  }

  /** From version 7 on the version word appears twice, mirrored, in six rows of three modules beside the finder patterns. */
  lemma VersionShown(g: Grid, ver: Version, ecl: Ecc, msk: nat, i: nat)
    requires IsSymbol(g, ver, ecl, msk) && ver >= 7 && i < 18
    ensures var x, y := Size(ver) - 9 - i % 3, 5 - i / 3; g[y][x] == g[x][y] == VersionWord(ver)[i]
    ensures Number(VersionWord(ver)[..6]) == ver
  {
    hide AllPatterns, At, FormatWrite, IsSymbol, Shifted;
    var x, y := Size(ver) - 9 - i % 3, 5 - i / 3;
    assert 0 <= i / 3 <= 5;
    VersionDrawn(ver, ecl, i);
    FunctionModuleShown(g, ver, ecl, msk, x, y);
    FunctionModuleShown(g, ver, ecl, msk, y, x);
    PowersOfTwo();
    NumberOfBits(ver, 6);
    assert VersionWord(ver)[..6] == BinaryBits(ver, 6);
  }
}
