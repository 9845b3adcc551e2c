/**
  The function modules: timing, finder and alignment patterns, format and version information.

  A drawing step is described by a stamp, the color it gives to each module it touches; the loops
  are shown to apply their stamp and to mark exactly its modules as function modules.
*/
module FunctionPatterns {
  import opened Outcomes
  import opened Grids
  import opened GaloisField
  import opened Tables
  import opened Zigzag
  import opened Bits

  datatype Stamp =
    | Blank
    | Point(x0: int, y0: int, color: bool)
    /** Row 6 and column 6, black on even positions, the first k of each. */
    | Timing(k: int)
    /** Concentric squares around (cx, cy), white at the distances in `white`; drawn row by row up to (dx, dy). */
    | Pattern(cx: int, cy: int, radius: int, white: set<int>, dx: int, dy: int)
    /** The alignment patterns of the first i rows of centers and the first j of the next one. */
    | Alignment(ver: Version, i: int, j: int)
    /** The first k of the 31 modules drawFormatBits writes. */
    | Format(n: int, word: seq<bool>, k: int)
    /** Both copies of the first i version bits. */
    | VersionInfo(n: int, word: seq<bool>, k: int)
    /** The second stamp drawn over the first. */
    | Over(under: Stamp, over: Stamp)

  function Abs(a: int): int {
    if a < 0 then -a else a
  }

  /** The distance in the maximum norm. */
  function Norm(dx: int, dy: int): int {
    if Abs(dx) > Abs(dy) then Abs(dx) else Abs(dy)
  }

  /** Which write of drawFormatBits sets module (x, y), or -1. */
  function FormatWrite(n: int, x: int, y: int): (w: int)
    ensures w <= 30
  {
    if x == 8 && 0 <= y <= 5 then y
    else if x == 8 && y == 7 then 6
    else if x == 8 && y == 8 then 7
    else if x == 7 && y == 8 then 8
    else if y == 8 && 0 <= x <= 5 then 14 - x
    else if y == 8 && n - 8 <= x < n then n + 14 - x
    else if x == 8 && n - 7 <= y < n then y - n + 30
    else if x == 8 && y == n - 8 then 30
    else -1
  }

  /** Two copies of the 15 bits, then the module that is always black. */
  function FormatColor(word: seq<bool>, w: int): bool
    requires |word| == 15 && 0 <= w <= 30
  {
    w == 30 || word[14 - (if w < 15 then w else w - 15)]
  }

  /** Which version bit module (x, y) shows, or -1. */
  function VersionBit(n: int, x: int, y: int): (b: int)
    ensures b < 18
  {
    if n - 11 <= x <= n - 9 && 0 <= y <= 5 then 3 * y + x - (n - 11)
    else if n - 11 <= y <= n - 9 && 0 <= x <= 5 then 3 * x + y - (n - 11)
    else -1
  }

  function Size(ver: Version): (n: int)
    ensures IsSize(n)
  {
    4 * ver + 17
  }

  /** The number of alignment pattern positions on each axis. */
  function NumAlign(ver: Version): (m: nat) {
    if ver == 1 then 0 else ver / 7 + 2
  }

  function AlignStep(ver: Version): int
    requires ver > 1
  {
    if ver == 32 then 26 else (ver * 4 + NumAlign(ver) * 2 + 1) / (NumAlign(ver) * 2 - 2) * 2
  }

  /** The i-th alignment pattern position, in ascending order. */
  function AlignPosition(ver: Version, i: int): int
    requires ver > 1
  {
    if i == 0 then 6 else Size(ver) - 7 - (NumAlign(ver) - 1 - i) * AlignStep(ver)
  }

  /** The three corners where finder patterns stand. */
  predicate IsCorner(ver: Version, i: int, j: int) {
    (i == 0 && j == 0) || (i == 0 && j == NumAlign(ver) - 1) || (i == NumAlign(ver) - 1 && j == 0)
  }

  predicate InSquare(ver: Version, i: int, j: int, x: int, y: int)
    requires ver > 1
  {
    Norm(x - AlignPosition(ver, i), y - AlignPosition(ver, j)) <= 2
  }

  function AlignmentAt(ver: Version, i: int, j: int, x: int, y: int): Option<bool>
    decreases i, j
  {
    if i < 0 || j < 0 || ver == 1 then None
    else if j > 0 then
      if !IsCorner(ver, i, j - 1) && InSquare(ver, i, j - 1, x, y)
      then Some(Norm(x - AlignPosition(ver, i), y - AlignPosition(ver, j - 1)) != 1)
      else AlignmentAt(ver, i, j - 1, x, y)
    else if i > 0 then AlignmentAt(ver, i - 1, NumAlign(ver), x, y)
    else None
  }

  /** The color a stamp gives to module (x, y), if it touches it. */
  function At(s: Stamp, x: int, y: int): Option<bool> {
    match s
    case Blank => None
    case Point(x0, y0, color) => if x == x0 && y == y0 then Some(color) else None
    case Timing(k) =>
      if x == 6 && 0 <= y < k then Some(y % 2 == 0) else if y == 6 && 0 <= x < k then Some(x % 2 == 0) else None
    case Pattern(cx, cy, radius, white, dx, dy) =>
      if cx - radius <= x <= cx + radius && cy - radius <= y <= cy + radius && (y < cy + dy || (y == cy + dy && x < cx + dx))
      then Some(Norm(x - cx, y - cy) !in white) else None
    case Alignment(ver, i, j) => AlignmentAt(ver, i, j, x, y)
    case Format(n, word, k) =>
      var w := FormatWrite(n, x, y);
      if 0 <= w < k && |word| == 15 then Some(FormatColor(word, w)) else None
    case VersionInfo(n, word, k) =>
      var b := VersionBit(n, x, y);
      if 0 <= b < k <= |word| == 18 then Some(word[17 - b]) else None
    case Over(s, t) => if At(t, x, y).Some? then At(t, x, y) else At(s, x, y)
  }

  /** Applying stamp s turns modules g and markings f into g' and f'. */
  ghost predicate Stamped(g: Grid, f: Grid, g': Grid, f': Grid, n: int, s: Stamp) {
    && n >= 0 && IsSquare(g, n) && IsSquare(f, n) && IsSquare(g', n) && IsSquare(f', n)
    && (forall y, x :: 0 <= y < n && 0 <= x < n ==>
          && g'[y][x] == (if At(s, x, y).Some? then At(s, x, y).value else g[y][x])
          && f'[y][x] == (f[y][x] || At(s, x, y).Some?))
  }

  /** Two stamps agree on the grid. */
  ghost predicate Same(n: int, s: Stamp, t: Stamp) {
    forall y, x :: 0 <= y < n && 0 <= x < n ==> At(s, x, y) == At(t, x, y)
  }

  lemma StampedBlank(g: Grid, f: Grid, n: int, s: Stamp)
    requires n >= 0 && IsSquare(g, n) && IsSquare(f, n) && Same(n, s, Blank)
    ensures Stamped(g, f, g, f, n, s)
  {
  }

  lemma StampedSame(g: Grid, f: Grid, g1: Grid, f1: Grid, n: int, s: Stamp, t: Stamp)
    requires Stamped(g, f, g1, f1, n, s) && Same(n, s, t)
    ensures Stamped(g, f, g1, f1, n, t)
  {
  }

  lemma StampedThen(g: Grid, f: Grid, g1: Grid, f1: Grid, g2: Grid, f2: Grid, n: int, s: Stamp, t: Stamp, u: Stamp)
    requires Stamped(g, f, g1, f1, n, s) && Stamped(g1, f1, g2, f2, n, t) && Same(n, Over(s, t), u)
    ensures Stamped(g, f, g2, f2, n, u)
  {
    forall y, x | 0 <= y < n && 0 <= x < n
      ensures g2[y][x] == (if At(u, x, y).Some? then At(u, x, y).value else g[y][x])
      ensures f2[y][x] == (f[y][x] || At(u, x, y).Some?)
    {
      assert At(Over(s, t), x, y) == At(u, x, y);
    }
  }

  /** setFunctionModule. */
  method SetFunctionModule(n: int, modules: array2<bool>, isFunction: array2<bool>, x: int, y: int, isBlack: bool)
    requires AreGrids(n, modules, isFunction) && 0 <= x < n && 0 <= y < n
    modifies modules, isFunction
    ensures Stamped(old(Value(modules)), old(Value(isFunction)), Value(modules), Value(isFunction), n, Point(x, y, isBlack))
  {
    modules[y, x] := isBlack;
    isFunction[y, x] := true;
  }

  /** One more module set by a loop that has applied s to (g, f) and applies t with it. */
  method SetNext(n: int, modules: array2<bool>, isFunction: array2<bool>, x: int, y: int, isBlack: bool,
                 ghost g: Grid, ghost f: Grid, ghost s: Stamp, ghost t: Stamp)
    requires AreGrids(n, modules, isFunction) && 0 <= x < n && 0 <= y < n
    requires Stamped(g, f, Value(modules), Value(isFunction), n, s) && Same(n, Over(s, Point(x, y, isBlack)), t)
    modifies modules, isFunction
    ensures Stamped(g, f, Value(modules), Value(isFunction), n, t)
  {
    ghost var g1, f1 := Value(modules), Value(isFunction);
    hide Stamped, Same;
    SetFunctionModule(n, modules, isFunction, x, y, isBlack);
    StampedThen(g, f, g1, f1, Value(modules), Value(isFunction), n, s, Point(x, y, isBlack), t);
  }

  // ----- Timing patterns -----

  lemma TimingNext(n: int, i: nat)
    ensures var s := Over(Timing(i), Point(6, i, i % 2 == 0));
            Same(n, Over(s, Point(i, 6, i % 2 == 0)), Timing(i + 1))
  {
    var s := Over(Timing(i), Point(6, i, i % 2 == 0));
    var t, u := Over(s, Point(i, 6, i % 2 == 0)), Timing(i + 1);
    forall y, x | 0 <= y < n && 0 <= x < n
      ensures At(t, x, y) == At(u, x, y)
    {
      assert At(s, x, y) == if x == 6 && y == i then Some(i % 2 == 0) else At(Timing(i), x, y);
    }
  }

  method DrawTiming(n: int, modules: array2<bool>, isFunction: array2<bool>)
    requires AreGrids(n, modules, isFunction)
    modifies modules, isFunction
    ensures Stamped(old(Value(modules)), old(Value(isFunction)), Value(modules), Value(isFunction), n, Timing(n))
  {
    ghost var g, f := Value(modules), Value(isFunction);
    StampedBlank(g, f, n, Timing(0));
    hide Stamped;
    var i := 0;
    while i < n
      invariant 0 <= i <= n
      invariant Stamped(g, f, Value(modules), Value(isFunction), n, Timing(i))
    {
      ghost var s := Over(Timing(i), Point(6, i, i % 2 == 0));
      TimingNext(n, i);
      SetNext(n, modules, isFunction, 6, i, i % 2 == 0, g, f, Timing(i), s);
      SetNext(n, modules, isFunction, i, 6, i % 2 == 0, g, f, s, Timing(i + 1));
      i := i + 1;
    }
  }

  // ----- Finder and alignment patterns -----

  /** The whole pattern. */
  function Squares(cx: int, cy: int, radius: int, white: set<int>): Stamp {
    Pattern(cx, cy, radius, white, 0, radius + 1)
  }

  lemma PatternSteps(n: int, cx: int, cy: int, radius: int, white: set<int>, dx: int, dy: int)
    requires radius >= 0
    ensures Same(n, Pattern(cx, cy, radius, white, -radius, -radius), Blank)
    ensures Same(n, Pattern(cx, cy, radius, white, radius + 1, dy), Pattern(cx, cy, radius, white, -radius, dy + 1))
    ensures Same(n, Pattern(cx, cy, radius, white, -radius, radius + 1), Squares(cx, cy, radius, white))
  {
  }

  lemma PatternNext(n: int, cx: int, cy: int, radius: int, white: set<int>, dx: int, dy: int)
    requires -radius <= dx <= radius && -radius <= dy <= radius
    ensures Same(n, Over(Pattern(cx, cy, radius, white, dx, dy), Point(cx + dx, cy + dy, Norm(dx, dy) !in white)),
                    Pattern(cx, cy, radius, white, dx + 1, dy))
    ensures !(0 <= cx + dx < n && 0 <= cy + dy < n) ==>
              Same(n, Pattern(cx, cy, radius, white, dx, dy), Pattern(cx, cy, radius, white, dx + 1, dy))
  {
    var s, p := Pattern(cx, cy, radius, white, dx, dy), Point(cx + dx, cy + dy, Norm(dx, dy) !in white);
    forall y, x | 0 <= y < n && 0 <= x < n
      ensures At(Over(s, p), x, y) == At(Pattern(cx, cy, radius, white, dx + 1, dy), x, y)
      ensures x != cx + dx || y != cy + dy ==> At(s, x, y) == At(Pattern(cx, cy, radius, white, dx + 1, dy), x, y)
    {
      if x == cx + dx && y == cy + dy {
        assert x - cx == dx && y - cy == dy;
      }
    }
  }

  method DrawPatternModule(n: int, modules: array2<bool>, isFunction: array2<bool>, cx: int, cy: int, radius: int, white: set<int>,
                           dx: int, dy: int, ghost g: Grid, ghost f: Grid)
    requires AreGrids(n, modules, isFunction) && -radius <= dx <= radius && -radius <= dy <= radius
    requires Stamped(g, f, Value(modules), Value(isFunction), n, Pattern(cx, cy, radius, white, dx, dy))
    modifies modules, isFunction
    ensures Stamped(g, f, Value(modules), Value(isFunction), n, Pattern(cx, cy, radius, white, dx + 1, dy))
  {
    hide Stamped, Same, At, Value;
    var dist := Norm(dx, dy);
    var x, y := cx + dx, cy + dy;
    ghost var s, t := Pattern(cx, cy, radius, white, dx, dy), Pattern(cx, cy, radius, white, dx + 1, dy);
    PatternNext(n, cx, cy, radius, white, dx, dy);
    if 0 <= x < n && 0 <= y < n {
      SetNext(n, modules, isFunction, x, y, dist !in white, g, f, s, t);
    } else {
      StampedSame(g, f, Value(modules), Value(isFunction), n, s, t);
    }
  }

  method DrawPatternRow(n: int, modules: array2<bool>, isFunction: array2<bool>, cx: int, cy: int, radius: int, white: set<int>,
                        dy: int, ghost g: Grid, ghost f: Grid)
    requires AreGrids(n, modules, isFunction) && -radius <= dy <= radius
    requires Stamped(g, f, Value(modules), Value(isFunction), n, Pattern(cx, cy, radius, white, -radius, dy))
    modifies modules, isFunction
    ensures Stamped(g, f, Value(modules), Value(isFunction), n, Pattern(cx, cy, radius, white, -radius, dy + 1))
  {
    hide Stamped, Same, At, Value;
    var dx := -radius;
    while dx <= radius
      invariant -radius <= dx <= radius + 1
      invariant Stamped(g, f, Value(modules), Value(isFunction), n, Pattern(cx, cy, radius, white, dx, dy))
    {
      DrawPatternModule(n, modules, isFunction, cx, cy, radius, white, dx, dy, g, f);
      dx := dx + 1;
    }
    PatternSteps(n, cx, cy, radius, white, 0, dy);
    StampedSame(g, f, Value(modules), Value(isFunction), n,
                Pattern(cx, cy, radius, white, radius + 1, dy), Pattern(cx, cy, radius, white, -radius, dy + 1));
  }

  /** The loops of drawFinderPattern and drawAlignmentPattern; modules outside the grid are skipped. */
  method DrawPattern(n: int, modules: array2<bool>, isFunction: array2<bool>, cx: int, cy: int, radius: int, white: set<int>)
    requires AreGrids(n, modules, isFunction) && radius >= 0
    modifies modules, isFunction
    ensures Stamped(old(Value(modules)), old(Value(isFunction)), Value(modules), Value(isFunction), n, Squares(cx, cy, radius, white))
  {
    hide Stamped, Same, At, Value;
    ghost var g, f := Value(modules), Value(isFunction);
    var dy := -radius;
    PatternSteps(n, cx, cy, radius, white, 0, 0);
    StampedBlank(g, f, n, Pattern(cx, cy, radius, white, -radius, dy));
    while dy <= radius
      invariant -radius <= dy <= radius + 1
      invariant Stamped(g, f, Value(modules), Value(isFunction), n, Pattern(cx, cy, radius, white, -radius, dy))
    {
      DrawPatternRow(n, modules, isFunction, cx, cy, radius, white, dy, g, f);
      dy := dy + 1;
    }
    StampedSame(g, f, Value(modules), Value(isFunction), n,
                Pattern(cx, cy, radius, white, -radius, radius + 1), Squares(cx, cy, radius, white));
  }

  /** getAlignmentPatternPositions. */
  method AlignmentPositions(ver: Version) returns (result: seq<int>)
    ensures |result| == NumAlign(ver)
    ensures forall i :: 0 <= i < |result| ==> result[i] == AlignPosition(ver, i)
  {
    if ver == 1 {
      return [];
    }
    var numAlign := ver / 7 + 2;
    var step := if ver == 32 then 26 else (ver * 4 + numAlign * 2 + 1) / (numAlign * 2 - 2) * 2;
    result := [];
    var i, pos := 0, Size(ver) - 7;
    while i < numAlign - 1
      invariant 0 <= i <= numAlign - 1 && |result| == i
      invariant pos == Size(ver) - 7 - i * step
      invariant forall k :: 0 <= k < i ==> result[k] == AlignPosition(ver, numAlign - i + k)
    {
      assert AlignPosition(ver, numAlign - 1 - i) == pos;
      result := [pos] + result;
      assert (i + 1) * step == i * step + step;
      i, pos := i + 1, pos - step;
    }
    result := [6] + result;
  }

  lemma AlignStepValue(ver: Version)
    requires ver > 1
    ensures var m, step := NumAlign(ver), AlignStep(ver);
            && (m == 2 ==> step == (ver * 4 + 5) / 2 * 2)
            && (m == 3 ==> step == (ver * 4 + 7) / 4 * 2)
            && (m == 4 ==> step == (ver * 4 + 9) / 6 * 2)
            && (m == 5 ==> step == (ver * 4 + 11) / 8 * 2)
            && (m == 6 ==> step == if ver == 32 then 26 else (ver * 4 + 13) / 10 * 2)
            && (m == 7 ==> step == (ver * 4 + 15) / 12 * 2)
  {
  }

  /** Alignment positions are at least 12 apart and keep clear of the finder patterns. */
  lemma AlignGeometry(ver: Version)
    requires ver > 1
    ensures 2 <= NumAlign(ver) <= 7
    ensures AlignStep(ver) >= 12
    ensures AlignPosition(ver, 1) >= 18
    ensures NumAlign(ver) > 2 ==> AlignStep(ver) >= 16
    ensures AlignPosition(ver, NumAlign(ver) - 1) == Size(ver) - 7
  {
    var m := NumAlign(ver);
    assert m == 2 || m == 3 || m == 4 || m == 5 || m == 6 || m == 7;
    AlignStepValue(ver);
  }

  /**
    The last gaps are the smallest even number not below the average gap, so that the first one is no
    wider; version 32 is the exception.
  */
  lemma AlignSpacing(ver: Version)
    requires ver > 1
    ensures AlignStep(ver) % 2 == 0
    ensures var m, step, span := NumAlign(ver), AlignStep(ver), Size(ver) - 13;
            && (ver != 32 ==> (m - 1) * step >= span > (m - 1) * (step - 2))
            && (ver == 32 ==> step == 26)
  {
    if ver != 32 {
      Ceiling(4 * ver, NumAlign(ver) - 1);
    }
    hide NumAlign;
  }

  lemma Ceiling(a: int, k: int)
    requires k > 0
    ensures var half := (a + (k + 1) * 2 + 1) / ((k + 1) * 2 - 2);
            k * (half * 2) >= a + 4 > k * (half * 2 - 2)
  {
    var d, t := 2 * k, a + 2 * k + 3;
    var half := t / d;
    assert t == d * half + t % d;
    assert k * (half * 2) == d * half && k * (half * 2 - 2) == d * half - d;
  }

  lemma Spread(r: int, d: nat, step: nat)
    ensures (r + d) * step == r * step + d * step
    ensures d * step >= 0 && (d > 0 ==> d * step >= step)
  {
    if d > 0 {
      assert d * step == (d - 1) * step + step;
    }
  }

  lemma {:induction false} AlignAscends(ver: Version, i: nat, j: nat)
    requires ver > 1 && 1 <= i <= j < NumAlign(ver)
    ensures AlignPosition(ver, i) + (j - i) * AlignStep(ver) == AlignPosition(ver, j)
    ensures AlignPosition(ver, i) <= AlignPosition(ver, j)
    ensures i < j ==> AlignPosition(ver, i) + AlignStep(ver) <= AlignPosition(ver, j)
  {
    hide NumAlign, AlignStep, Size;
    AlignGeometry(ver);
    var r, d := NumAlign(ver) - 1 - j, j - i;
    Spread(r, d, AlignStep(ver));
    assert r + d == NumAlign(ver) - 1 - i;
  }

  lemma AlignInBounds(ver: Version, i: nat)
    requires ver > 1 && i < NumAlign(ver)
    ensures 6 <= AlignPosition(ver, i) <= Size(ver) - 7
  {
    AlignGeometry(ver);
    if i > 0 {
      AlignAscends(ver, 1, i);
      AlignAscends(ver, i, NumAlign(ver) - 1);
    }
  }

  lemma AlignNext(n: int, ver: Version, i: nat, j: nat)
    requires ver > 1
    ensures !IsCorner(ver, i, j) ==>
              Same(n, Over(Alignment(ver, i, j), Squares(AlignPosition(ver, i), AlignPosition(ver, j), 2, {1})), Alignment(ver, i, j + 1))
    ensures IsCorner(ver, i, j) ==> Same(n, Alignment(ver, i, j), Alignment(ver, i, j + 1))
  {
    var cx, cy := AlignPosition(ver, i), AlignPosition(ver, j);
    var s, t := Alignment(ver, i, j), Alignment(ver, i, j + 1);
    var o := Over(s, Squares(cx, cy, 2, {1}));
    forall y, x | 0 <= y < n && 0 <= x < n
      ensures !IsCorner(ver, i, j) ==> At(o, x, y) == At(t, x, y)
      ensures IsCorner(ver, i, j) ==> At(s, x, y) == At(t, x, y)
    {
      assert At(Squares(cx, cy, 2, {1}), x, y) == if Norm(x - cx, y - cy) <= 2 then Some(Norm(x - cx, y - cy) != 1) else None;
      hide AlignPosition, Norm;
    }
  }

  /** One turn of the alignment loop; the pattern lies wholly inside the grid, as drawAlignmentPattern demands. */
  method DrawAlignmentSquare(ver: Version, modules: array2<bool>, isFunction: array2<bool>, positions: seq<int>, i: nat, j: nat,
                             ghost g: Grid, ghost f: Grid)
    requires AreGrids(Size(ver), modules, isFunction) && i < |positions| == NumAlign(ver) && j < |positions|
    requires forall k :: 0 <= k < |positions| ==> positions[k] == AlignPosition(ver, k)
    requires Stamped(g, f, Value(modules), Value(isFunction), Size(ver), Alignment(ver, i, j))
    modifies modules, isFunction
    ensures Stamped(g, f, Value(modules), Value(isFunction), Size(ver), Alignment(ver, i, j + 1))
  {
    hide Stamped, At, Value, AlignPosition, Same;
    var n := Size(ver);
    AlignNext(n, ver, i, j);
    ghost var g1, f1 := Value(modules), Value(isFunction);
    if !((i == 0 && j == 0) || (i == 0 && j == |positions| - 1) || (i == |positions| - 1 && j == 0)) {
      AlignInBounds(ver, i);
      AlignInBounds(ver, j);
      assert 2 <= positions[i] < n - 2 && 2 <= positions[j] < n - 2;
      DrawPattern(n, modules, isFunction, positions[i], positions[j], 2, {1});
      StampedThen(g, f, g1, f1, Value(modules), Value(isFunction), n, Alignment(ver, i, j),
                  Squares(positions[i], positions[j], 2, {1}), Alignment(ver, i, j + 1));
    } else {
      StampedSame(g, f, g1, f1, n, Alignment(ver, i, j), Alignment(ver, i, j + 1));
    }
  }

  /** The alignment loop of drawFunctionPatterns. */
  method DrawAlignmentPatterns(ver: Version, modules: array2<bool>, isFunction: array2<bool>)
    requires AreGrids(Size(ver), modules, isFunction)
    modifies modules, isFunction
    ensures Stamped(old(Value(modules)), old(Value(isFunction)), Value(modules), Value(isFunction), Size(ver), Alignment(ver, NumAlign(ver), 0))
  {
    var n := Size(ver);
    ghost var g, f := Value(modules), Value(isFunction);
    var positions := AlignmentPositions(ver);
    StampedBlank(g, f, n, Alignment(ver, 0, 0));
    hide Stamped, At, Value, AlignPosition, Same;
    var i := 0;
    while i < |positions|
      invariant 0 <= i <= |positions|
      invariant Stamped(g, f, Value(modules), Value(isFunction), n, Alignment(ver, i, 0))
    {
      var j := 0;
      while j < |positions|
        invariant 0 <= j <= |positions|
        invariant Stamped(g, f, Value(modules), Value(isFunction), n, Alignment(ver, i, j))
      {
        DrawAlignmentSquare(ver, modules, isFunction, positions, i, j, g, f);
        j := j + 1;
      }
      AlignRowDone(n, ver, i);
      StampedSame(g, f, Value(modules), Value(isFunction), n, Alignment(ver, i, NumAlign(ver)), Alignment(ver, i + 1, 0));
      i := i + 1;
    }
  }

  lemma AlignRowDone(n: int, ver: Version, i: nat)
    requires ver > 1
    ensures Same(n, Alignment(ver, i, NumAlign(ver)), Alignment(ver, i + 1, 0))
  {
  }

  // ----- Format and version information -----

  /** Division of polynomials over GF(2) by shifting a register k times; poly lacks its leading 1. */
  function Shifted(reg: seq<bool>, poly: seq<bool>, k: nat): (r: seq<bool>)
    requires |reg| == |poly| > 0
    ensures |r| == |reg|
  {
    if k == 0 then reg
    else
      var p := Shifted(reg, poly, k - 1);
      Xor(p[1..] + [false], if p[0] then poly else seq(|poly|, _ => false))
  }

  /** The shift loop of drawFormatBits and drawVersion, on a register as wide as poly. */
  method ShiftRegister(reg: seq<bool>, poly: seq<bool>, k: nat) returns (rem: seq<bool>)
    requires |reg| == |poly| > 0
    ensures rem == Shifted(reg, poly, k)
  {
    rem := reg;
    var i := 0;
    while i < k
      invariant 0 <= i <= k && rem == Shifted(reg, poly, i)
    {
      rem := Xor(rem[1..] + [false], if rem[0] then poly else seq(|poly|, _ => false));
      i := i + 1;
    }
  }

  function FormatBits(ecl: Ecc): nat {
    match ecl
    case Low => 1
    case Medium => 0
    case Quartile => 3
    case High => 2
  }

  /** Error correction level and mask, five bits. */
  function FormatData(ecl: Ecc, msk: nat): (bits: seq<bool>)
    ensures |bits| == 5
  {
    BinaryBits(FormatBits(ecl), 2) + BinaryBits(msk, 3)
  }

  /** 0x537 without its leading 1, and 0x5412. */
  const FORMAT_POLY: seq<bool> := [false, true, false, false, true, true, false, true, true, true]
  const FORMAT_XOR: seq<bool> := [true, false, true, false, true, false, false, false, false, false, true, false, false, true, false]

  function FormatWord(ecl: Ecc, msk: nat): (word: seq<bool>)
    ensures |word| == 15
  {
    var data := FormatData(ecl, msk);
    Xor(data + Shifted([false, false, false, false, false] + data, FORMAT_POLY, 10), FORMAT_XOR)
  }

  /** 0x1F25 without its leading 1. */
  const VERSION_POLY: seq<bool> := [true, true, true, true, false, false, true, false, false, true, false, true]

  function VersionWord(ver: Version): (word: seq<bool>)
    ensures |word| == 18
  {
    var data := BinaryBits(ver, 6);
    data + Shifted([false, false, false, false, false, false] + data, VERSION_POLY, 12)
  }

  lemma FormatNext(n: int, word: seq<bool>, k: nat, x: int, y: int)
    requires IsSize(n) && |word| == 15 && k <= 30 && FormatWrite(n, x, y) == k
    ensures 0 <= x < n && 0 <= y < n
    ensures Same(n, Over(Format(n, word, k), Point(x, y, FormatColor(word, k))), Format(n, word, k + 1))
  {
    var s, t := Over(Format(n, word, k), Point(x, y, FormatColor(word, k))), Format(n, word, k + 1);
    forall y', x' | 0 <= y' < n && 0 <= x' < n
      ensures At(s, x', y') == At(t, x', y')
    {
      assert FormatWrite(n, x', y') == k ==> x' == x && y' == y;
    }
  }

  /** One write of drawFormatBits. */
  method SetFormatModule(n: int, modules: array2<bool>, isFunction: array2<bool>, x: int, y: int, isBlack: bool,
                         ghost word: seq<bool>, ghost k: nat, ghost g: Grid, ghost f: Grid)
    requires AreGrids(n, modules, isFunction) && |word| == 15 && k <= 30
    requires FormatWrite(n, x, y) == k && isBlack == FormatColor(word, k)
    requires Stamped(g, f, Value(modules), Value(isFunction), n, Format(n, word, k))
    modifies modules, isFunction
    ensures Stamped(g, f, Value(modules), Value(isFunction), n, Format(n, word, k + 1))
  {
    FormatNext(n, word, k, x, y);
    hide Stamped, Same, At, Value, FormatWrite, FormatColor;
    SetNext(n, modules, isFunction, x, y, isBlack, g, f, Format(n, word, k), Format(n, word, k + 1));
  }

  /** drawFormatBits: both copies of the format word and the black module beside them. */
  method DrawFormatBits(n: int, modules: array2<bool>, isFunction: array2<bool>, ecl: Ecc, msk: nat)
    requires AreGrids(n, modules, isFunction) && msk < 8
    modifies modules, isFunction
    ensures Stamped(old(Value(modules)), old(Value(isFunction)), Value(modules), Value(isFunction), n, Format(n, FormatWord(ecl, msk), 31))
  {
    ghost var g, f := Value(modules), Value(isFunction);
    var data := FormatData(ecl, msk);
    var rem := ShiftRegister([false, false, false, false, false] + data, FORMAT_POLY, 10);
    var word := Xor(data + rem, FORMAT_XOR);
    assert word == FormatWord(ecl, msk);
    hide FormatWord, Shifted, FormatData;
    StampedBlank(g, f, n, Format(n, word, 0));
    DrawFirstCopy(n, modules, isFunction, word, g, f);
    DrawSecondCopy(n, modules, isFunction, word, g, f);
  }

  method DrawFirstCopy(n: int, modules: array2<bool>, isFunction: array2<bool>, word: seq<bool>, ghost g: Grid, ghost f: Grid)
    requires AreGrids(n, modules, isFunction) && |word| == 15
    requires Stamped(g, f, Value(modules), Value(isFunction), n, Format(n, word, 0))
    modifies modules, isFunction
    ensures Stamped(g, f, Value(modules), Value(isFunction), n, Format(n, word, 15))
  {
    hide Stamped, At, Value;
    var i := 0;
    while i <= 5
      invariant 0 <= i <= 6
      invariant Stamped(g, f, Value(modules), Value(isFunction), n, Format(n, word, i))
    {
      SetFormatModule(n, modules, isFunction, 8, i, word[14 - i], word, i, g, f);
      i := i + 1;
    }
    SetFormatModule(n, modules, isFunction, 8, 7, word[8], word, 6, g, f);
    SetFormatModule(n, modules, isFunction, 8, 8, word[7], word, 7, g, f);
    SetFormatModule(n, modules, isFunction, 7, 8, word[6], word, 8, g, f);
    i := 9;
    while i < 15
      invariant 9 <= i <= 15
      invariant Stamped(g, f, Value(modules), Value(isFunction), n, Format(n, word, i))
    {
      SetFormatModule(n, modules, isFunction, 14 - i, 8, word[14 - i], word, i, g, f);
      i := i + 1;
    }
  }

  method DrawSecondCopy(n: int, modules: array2<bool>, isFunction: array2<bool>, word: seq<bool>, ghost g: Grid, ghost f: Grid)
    requires AreGrids(n, modules, isFunction) && |word| == 15
    requires Stamped(g, f, Value(modules), Value(isFunction), n, Format(n, word, 15))
    modifies modules, isFunction
    ensures Stamped(g, f, Value(modules), Value(isFunction), n, Format(n, word, 31))
  {
    hide Stamped, At, Value;
    var i := 0;
    while i < 8
      invariant 0 <= i <= 8
      invariant Stamped(g, f, Value(modules), Value(isFunction), n, Format(n, word, 15 + i))
    {
      SetFormatModule(n, modules, isFunction, n - 1 - i, 8, word[14 - i], word, 15 + i, g, f);
      i := i + 1;
    }
    while i < 15
      invariant 8 <= i <= 15
      invariant Stamped(g, f, Value(modules), Value(isFunction), n, Format(n, word, 15 + i))
    {
      SetFormatModule(n, modules, isFunction, 8, n - 15 + i, word[14 - i], word, 15 + i, g, f);
      i := i + 1;
    }
    SetFormatModule(n, modules, isFunction, 8, n - 8, true, word, 30, g, f);
  }

  lemma VersionBitAt(n: int, i: nat, x: int, y: int)
    requires IsSize(n) && i < 18 && 0 <= x < n && 0 <= y < n
    ensures var a, b := n - 11 + i % 3, i / 3; VersionBit(n, x, y) == i <==> (x == a && y == b) || (x == b && y == a)
  {
  }

  lemma {:induction false} VersionNext(n: int, word: seq<bool>, i: nat)
    requires IsSize(n) && |word| == 18 && i < 18
    ensures var a, b := n - 11 + i % 3, i / 3;
            Same(n, Over(Over(VersionInfo(n, word, i), Point(a, b, word[17 - i])), Point(b, a, word[17 - i])), VersionInfo(n, word, i + 1))
  {
    hide VersionBit;
    var a, b := n - 11 + i % 3, i / 3;
    var s := Over(VersionInfo(n, word, i), Point(a, b, word[17 - i]));
    var t, u := Over(s, Point(b, a, word[17 - i])), VersionInfo(n, word, i + 1);
    forall y, x | 0 <= y < n && 0 <= x < n
      ensures At(t, x, y) == At(u, x, y)
    {
      assert At(s, x, y) == if x == a && y == b then Some(word[17 - i]) else At(VersionInfo(n, word, i), x, y);
      VersionBitAt(n, i, x, y);
    }
  }

  /** drawVersion: nothing below version 7. */
  method DrawVersion(ver: Version, modules: array2<bool>, isFunction: array2<bool>)
    requires AreGrids(Size(ver), modules, isFunction)
    modifies modules, isFunction
    ensures Stamped(old(Value(modules)), old(Value(isFunction)), Value(modules), Value(isFunction), Size(ver), VersionStamp(ver))
  {
    var n := Size(ver);
    ghost var g, f := Value(modules), Value(isFunction);
    if ver < 7 {
      StampedBlank(g, f, n, Blank);
      return;
    }
    var data := BinaryBits(ver, 6);
    var rem := ShiftRegister([false, false, false, false, false, false] + data, VERSION_POLY, 12);
    DrawVersionWord(n, modules, isFunction, data + rem);
  }

  method DrawVersionWord(n: int, modules: array2<bool>, isFunction: array2<bool>, word: seq<bool>)
    requires AreGrids(n, modules, isFunction) && |word| == 18
    modifies modules, isFunction
    ensures Stamped(old(Value(modules)), old(Value(isFunction)), Value(modules), Value(isFunction), n, VersionInfo(n, word, 18))
  {
    hide Stamped, Value, At;
    ghost var g, f := Value(modules), Value(isFunction);
    VersionStart(n, g, f, word);
    var i := 0;
    while i < 18
      invariant 0 <= i <= 18
      invariant Stamped(g, f, Value(modules), Value(isFunction), n, VersionInfo(n, word, i))
    {
      VersionNext(n, word, i);
      var bit := word[17 - i];
      var a, b := n - 11 + i % 3, i / 3;
      ghost var s := Over(VersionInfo(n, word, i), Point(a, b, bit));
      SetNext(n, modules, isFunction, a, b, bit, g, f, VersionInfo(n, word, i), s);
      SetNext(n, modules, isFunction, b, a, bit, g, f, s, VersionInfo(n, word, i + 1));
      i := i + 1;
    }
  }

  lemma VersionStart(n: int, g: Grid, f: Grid, word: seq<bool>)
    requires n >= 0 && IsSquare(g, n) && IsSquare(f, n) && |word| == 18
    ensures Stamped(g, f, g, f, n, VersionInfo(n, word, 0))
  {
    StampedBlank(g, f, n, VersionInfo(n, word, 0));
  }

  function VersionStamp(ver: Version): Stamp {
    if ver < 7 then Blank else VersionInfo(Size(ver), VersionWord(ver), 18)
  }

  // ----- All patterns -----

  function TimingAndFinders(n: int): Stamp {
    Over(Over(Over(Timing(n), Squares(3, 3, 4, {2, 4})), Squares(n - 4, 3, 4, {2, 4})), Squares(3, n - 4, 4, {2, 4}))
  }

  /** Everything drawFunctionPatterns draws, in its order. */
  function AllPatterns(ver: Version, ecl: Ecc): Stamp {
    var n := Size(ver);
    Over(Over(Over(TimingAndFinders(n), Alignment(ver, NumAlign(ver), 0)), Format(n, FormatWord(ecl, 0), 31)), VersionStamp(ver))
  }

  lemma StampedOver(g: Grid, f: Grid, g1: Grid, f1: Grid, g2: Grid, f2: Grid, n: int, s: Stamp, t: Stamp)
    requires Stamped(g, f, g1, f1, n, s) && Stamped(g1, f1, g2, f2, n, t)
    ensures Stamped(g, f, g2, f2, n, Over(s, t))
  {
    hide Stamped, At;
    StampedThen(g, f, g1, f1, g2, f2, n, s, t, Over(s, t));
  }

  /** drawFunctionPatterns. */
  method DrawFunctionPatterns(ver: Version, ecl: Ecc, modules: array2<bool>, isFunction: array2<bool>)
    requires AreGrids(Size(ver), modules, isFunction)
    modifies modules, isFunction
    ensures Stamped(old(Value(modules)), old(Value(isFunction)), Value(modules), Value(isFunction), Size(ver), AllPatterns(ver, ecl))
  {
    hide Stamped, Value, At, FormatWord, Squares;
    var n := Size(ver);
    ghost var g, f := Value(modules), Value(isFunction);
    DrawTiming(n, modules, isFunction);
    ghost var s := Timing(n);
    ghost var g1, f1 := Value(modules), Value(isFunction);
    DrawPattern(n, modules, isFunction, 3, 3, 4, {2, 4});
    StampedOver(g, f, g1, f1, Value(modules), Value(isFunction), n, s, Squares(3, 3, 4, {2, 4}));
    s := Over(s, Squares(3, 3, 4, {2, 4}));
    g1, f1 := Value(modules), Value(isFunction);
    DrawPattern(n, modules, isFunction, n - 4, 3, 4, {2, 4});
    StampedOver(g, f, g1, f1, Value(modules), Value(isFunction), n, s, Squares(n - 4, 3, 4, {2, 4}));
    s := Over(s, Squares(n - 4, 3, 4, {2, 4}));
    g1, f1 := Value(modules), Value(isFunction);
    DrawPattern(n, modules, isFunction, 3, n - 4, 4, {2, 4});
    StampedOver(g, f, g1, f1, Value(modules), Value(isFunction), n, s, Squares(3, n - 4, 4, {2, 4}));
    s := TimingAndFinders(n);
    g1, f1 := Value(modules), Value(isFunction);
    DrawAlignmentPatterns(ver, modules, isFunction);
    StampedOver(g, f, g1, f1, Value(modules), Value(isFunction), n, s, Alignment(ver, NumAlign(ver), 0));
    s := Over(s, Alignment(ver, NumAlign(ver), 0));
    g1, f1 := Value(modules), Value(isFunction);
    DrawFormatBits(n, modules, isFunction, ecl, 0);
    StampedOver(g, f, g1, f1, Value(modules), Value(isFunction), n, s, Format(n, FormatWord(ecl, 0), 31));
    s := Over(s, Format(n, FormatWord(ecl, 0), 31));
    g1, f1 := Value(modules), Value(isFunction);
    DrawVersion(ver, modules, isFunction);
    StampedOver(g, f, g1, f1, Value(modules), Value(isFunction), n, s, VersionStamp(ver));
  }

  /** Module (x, y) lies in an alignment pattern. */
  predicate InAlignment(ver: Version, x: int, y: int) {
    ver > 1 && exists i: nat, j: nat :: i < NumAlign(ver) && j < NumAlign(ver) && !IsCorner(ver, i, j) && InSquare(ver, i, j, x, y)
  }

  /** The function modules of a version, by area. */
  predicate IsFunctionModule(ver: Version, x: int, y: int) {
    var n := Size(ver);
    || x == 6 || y == 6
    || (x <= 8 && y <= 8) || (x >= n - 8 && y <= 8) || (x <= 8 && y >= n - 8)
    || (ver >= 7 && n - 11 <= x <= n - 9 && y <= 5) || (ver >= 7 && n - 11 <= y <= n - 9 && x <= 5)
    || InAlignment(ver, x, y)
  }

  lemma {:induction false} AlignmentTouches(ver: Version, i: nat, j: nat, x: int, y: int)
    requires ver > 1 && j <= NumAlign(ver)
    ensures At(Alignment(ver, i, j), x, y).Some? <==>
            exists i': nat, j': nat ::
              ((i' < i && j' < NumAlign(ver)) || (i' == i && j' < j)) && !IsCorner(ver, i', j') && InSquare(ver, i', j', x, y)
    decreases i, j
  {
    hide InSquare, IsCorner, AlignPosition, NumAlign;
    if j > 0 {
      AlignmentTouches(ver, i, j - 1, x, y);
    } else if i > 0 {
      AlignmentTouches(ver, i - 1, NumAlign(ver), x, y);
    }
  }

  lemma OverTouches(s: Stamp, t: Stamp, x: int, y: int)
    ensures At(Over(s, t), x, y).Some? <==> At(s, x, y).Some? || At(t, x, y).Some?
  {
  }

  lemma TimingAndFindersTouch(n: int, x: int, y: int)
    requires IsSize(n) && 0 <= x < n && 0 <= y < n
    ensures At(TimingAndFinders(n), x, y).Some? <==>
            x == 6 || y == 6 || (x <= 7 && y <= 7) || (x >= n - 8 && y <= 7) || (x <= 7 && y >= n - 8)
  {
    var s0, s1, s2, s3 := Timing(n), Squares(3, 3, 4, {2, 4}), Squares(n - 4, 3, 4, {2, 4}), Squares(3, n - 4, 4, {2, 4});
    OverTouches(Over(Over(s0, s1), s2), s3, x, y);
    OverTouches(Over(s0, s1), s2, x, y);
    OverTouches(s0, s1, x, y);
  }

  /** The drawing order does not matter for which modules are function modules. */
  lemma PatternsTouch(ver: Version, ecl: Ecc, x: int, y: int)
    requires 0 <= x < Size(ver) && 0 <= y < Size(ver)
    ensures At(AllPatterns(ver, ecl), x, y).Some? <==> IsFunctionModule(ver, x, y)
  {
    var n, m := Size(ver), NumAlign(ver);
    var t, a, f, v := TimingAndFinders(n), Alignment(ver, m, 0), Format(n, FormatWord(ecl, 0), 31), VersionStamp(ver);
    OverTouches(Over(Over(t, a), f), v, x, y);
    OverTouches(Over(t, a), f, x, y);
    OverTouches(t, a, x, y);
    TimingAndFindersTouch(n, x, y);
    assert At(a, x, y).Some? <==> InAlignment(ver, x, y) by {
      hide InSquare, IsCorner, AlignPosition;
      if ver > 1 {
        AlignmentTouches(ver, m, 0, x, y);
      }
    }
    hide TimingAndFinders, AlignmentAt, InAlignment, FormatWord, VersionWord;
  }

  /** The marking grid that drawFunctionPatterns leaves behind. */
  function FunctionGrid(ver: Version): (f: Grid)
    ensures IsSquare(f, Size(ver))
  {
    Paint(Size(ver), (x, y) => IsFunctionModule(ver, x, y))
  }

  lemma FunctionGridDrawn(ver: Version, ecl: Ecc, g: Grid, f: Grid, g': Grid, f': Grid)
    requires Stamped(g, f, g', f', Size(ver), AllPatterns(ver, ecl))
    requires forall y, x :: 0 <= y < Size(ver) && 0 <= x < Size(ver) ==> !f[y][x]
    ensures f' == FunctionGrid(ver)
  {
    hide AllPatterns, IsFunctionModule;
    forall y, x | 0 <= y < Size(ver) && 0 <= x < Size(ver)
      ensures f'[y][x] == FunctionGrid(ver)[y][x]
    {
      PatternsTouch(ver, ecl, x, y);
    }
    SameGrid(f', FunctionGrid(ver), Size(ver));
  }
}
