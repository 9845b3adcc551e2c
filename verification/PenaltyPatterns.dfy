/** The penalties of lines and grids, stated on their modules. */
module PenaltyPatterns {
  import opened Grids
  import opened Penalty

  /** The modules from i up to j all have this color. */
  ghost predicate AllOf(p: seq<bool>, i: int, j: int, color: bool)
    requires 0 <= i <= j <= |p|
  {
    forall k :: i <= k < j ==> p[k] == color
  }

  // ----- Where runs start -----

  /** The position of the first module of run k. */
  function Start(runs: seq<nat>, k: nat): nat
    requires k <= |runs|
  {
    if k == 0 then 0 else Start(runs, k - 1) + runs[k - 1]
  }

  lemma {:induction false} StartOfPrefix(runs: seq<nat>, m: nat, k: nat)
    requires k <= m <= |runs|
    ensures Start(runs[..m], k) == Start(runs, k)
  {
    if k > 0 {
      StartOfPrefix(runs, m, k - 1);
    }
  }

  lemma {:induction false} StartsAscend(runs: seq<nat>, k: nat, l: nat)
    requires k <= l <= |runs|
    ensures Start(runs, k) <= Start(runs, l)
    ensures IsRunList(runs) && 0 < k < l ==> Start(runs, k) < Start(runs, l)
  {
    if k < l {
      StartsAscend(runs, k, l - 1);
    }
  }

  /** The modules of run k have its color. */
  lemma {:induction false} ExpandAt(runs: seq<nat>, k: nat)
    requires k < |runs|
    ensures |Expand(runs)| == Start(runs, |runs|)
    ensures 0 <= Start(runs, k) <= Start(runs, k + 1) <= |Expand(runs)|
    ensures AllOf(Expand(runs), Start(runs, k), Start(runs, k + 1), RunColor(k))
  {
    hide RunColor;
    var n := |runs| - 1;
    StartOfPrefix(runs, n, n);
    if k < n {
      ExpandAt(runs[..n], k);
      StartOfPrefix(runs, n, k);
      StartOfPrefix(runs, n, k + 1);
    } else if n > 0 {
      ExpandAt(runs[..n], 0);
    }
  }

  /** Every module belongs to a run. */
  lemma {:induction false} RunAt(runs: seq<nat>, m: nat, i: nat) returns (k: nat)
    requires m <= |runs| && i < Start(runs, m)
    ensures k < m && Start(runs, k) <= i < Start(runs, k + 1)
  {
    if Start(runs, m - 1) <= i {
      k := m - 1;
    } else {
      k := RunAt(runs, m - 1, i);
    }
  }

  /** A black module after a white one starts a run. */
  lemma {:induction false} BlackStarts(runs: seq<nat>, i: nat) returns (k: nat)
    requires IsRunList(runs) && 0 < i < |Expand(runs)| && Expand(runs)[i] && !Expand(runs)[i - 1]
    ensures 0 < k < |runs| && RunColor(k) && Start(runs, k) == i
  {
    hide Expand, Start;
    ExpandAt(runs, 0);
    k := RunAt(runs, |runs|, i);
    ExpandAt(runs, k);
  }

  /** Modules of one color at the start of a run all belong to it. */
  lemma {:induction false} RunCovers(runs: seq<nat>, k: nat, u: nat)
    requires IsRunList(runs) && k < |runs| && Start(runs, k) + u <= |Expand(runs)|
    requires AllOf(Expand(runs), Start(runs, k), Start(runs, k) + u, RunColor(k))
    ensures runs[k] >= u
  {
    hide Expand;
    ExpandAt(runs, k);
    if k + 1 < |runs| {
      ExpandAt(runs, k + 1);
      Alternates(k);
      assert Expand(runs)[Start(runs, k + 1)] != RunColor(k);
    }
  }

  /** ... and if another color follows they are the whole run. */
  lemma {:induction false} RunEnds(runs: seq<nat>, k: nat, u: nat)
    requires IsRunList(runs) && k < |runs| && Start(runs, k) + u < |Expand(runs)|
    requires AllOf(Expand(runs), Start(runs, k), Start(runs, k) + u, RunColor(k)) && Expand(runs)[Start(runs, k) + u] != RunColor(k)
    ensures runs[k] == u && k + 1 < |runs| && Start(runs, k + 1) == Start(runs, k) + u
  {
    hide Expand;
    RunCovers(runs, k, u);
    ExpandAt(runs, k);
  }

  /** Modules of the other color before a run all belong to the run before it. */
  lemma {:induction false} RunPrecedes(runs: seq<nat>, k: nat, u: nat)
    requires IsRunList(runs) && 0 < k < |runs| && u <= Start(runs, k) <= |Expand(runs)|
    requires AllOf(Expand(runs), Start(runs, k) - u, Start(runs, k), RunColor(k - 1))
    ensures runs[k - 1] >= u
  {
    hide Expand;
    if k > 1 && Start(runs, k - 1) > 0 {
      ExpandAt(runs, k - 2);
      Alternates(k - 2);
      assert Expand(runs)[Start(runs, k - 1) - 1] != RunColor(k - 1);
    }
  }

  // ----- Finder-like patterns -----

  /** From i on: u black, u white, 3u black, u white and u black modules, with this many white ones before and after. */
  ghost predicate FinderAt(p: seq<bool>, i: nat, u: nat, before: nat, after: nat) {
    && u > 0 && before <= i && i + 7 * u + after <= |p|
    && AllOf(p, i - before, i, false)
    && AllOf(p, i, i + u, true) && AllOf(p, i + u, i + 2 * u, false) && AllOf(p, i + 2 * u, i + 5 * u, true)
    && AllOf(p, i + 5 * u, i + 6 * u, false) && AllOf(p, i + 6 * u, i + 7 * u, true)
    && AllOf(p, i + 7 * u, i + 7 * u + after, false)
  }

  /** Runs k to k + 4 are such a pattern. */
  ghost predicate Window(runs: seq<nat>, k: nat, before: nat, after: nat) {
    && 0 < k && k + 5 < |runs| && RunColor(k)
    && var u := runs[k];
    && u > 0 && runs[k + 1] == u && runs[k + 2] == 3 * u && runs[k + 3] == u && runs[k + 4] == u
    && runs[k - 1] >= before && runs[k + 5] >= after
  }

  lemma {:induction false} WindowStarts(runs: seq<nat>, k: nat, before: nat, after: nat)
    requires Window(runs, k, before, after)
    ensures var i, u := Start(runs, k), runs[k];
            && Start(runs, k + 1) == i + u && Start(runs, k + 2) == i + 2 * u && Start(runs, k + 3) == i + 5 * u
            && Start(runs, k + 4) == i + 6 * u && Start(runs, k + 5) == i + 7 * u
            && Start(runs, k - 1) + before <= i && i + 7 * u + after <= Start(runs, k + 6)
            && !RunColor(k - 1) && !RunColor(k + 1) && RunColor(k + 2) && !RunColor(k + 3) && RunColor(k + 4) && !RunColor(k + 5)
  {
    assert Start(runs, k + 3) == Start(runs, k + 2) + runs[k + 2];
  }

  lemma {:induction false} WindowIsFinder(runs: seq<nat>, k: nat, before: nat, after: nat)
    requires IsRunList(runs) && Window(runs, k, before, after)
    ensures FinderAt(Expand(runs), Start(runs, k), runs[k], before, after)
  {
    hide Expand, Start, RunColor;
    WindowStarts(runs, k, before, after);
    var p, i, u := Expand(runs), Start(runs, k), runs[k];
    ExpandAt(runs, k - 1);
    assert before <= i <= |p| && AllOf(p, i - before, i, false);
    ExpandAt(runs, k);
    ExpandAt(runs, k + 1);
    ExpandAt(runs, k + 2);
    ExpandAt(runs, k + 3);
    ExpandAt(runs, k + 4);
    ExpandAt(runs, k + 5);
    assert i + 7 * u + after <= |p| && AllOf(p, i + 7 * u, i + 7 * u + after, false);
    hide AllOf;
  }

  lemma {:induction false} FinderIsWindow(runs: seq<nat>, i: nat, u: nat, before: nat, after: nat) returns (k: nat)
    requires IsRunList(runs) && FinderAt(Expand(runs), i, u, before, after) && before > 0 && after > 0
    ensures Window(runs, k, before, after) && Start(runs, k) == i && runs[k] == u
  {
    hide Expand, Start, RunColor;
    var p := Expand(runs);
    assert p[i] && !p[i - 1] && !p[i + u] && p[i + 2 * u] && !p[i + 5 * u] && p[i + 6 * u] && !p[i + 7 * u];
    k := BlackStarts(runs, i);
    Alternates(k - 1);
    Alternates(k);
    Alternates(k + 1);
    Alternates(k + 2);
    Alternates(k + 3);
    Alternates(k + 4);
    RunPrecedes(runs, k, before);
    RunEnds(runs, k, u);
    RunEnds(runs, k + 1, u);
    RunEnds(runs, k + 2, 3 * u);
    RunEnds(runs, k + 3, u);
    RunEnds(runs, k + 4, u);
    RunCovers(runs, k + 5, after);
  }

  /** A pattern with four units of white on the left and one on the right. */
  ghost predicate FinderLeft(p: seq<bool>, i: nat, u: nat) {
    FinderAt(p, i, u, 4 * u, u)
  }

  /** The same with the sides swapped. */
  ghost predicate FinderRight(p: seq<bool>, i: nat, u: nat) {
    FinderAt(p, i, u, u, 4 * u)
  }

  /** The start and unit of all such patterns. */
  ghost function FindersLeft(p: seq<bool>): set<(nat, nat)> {
    set i: nat, u: nat | i < |p| && u < |p| && FinderLeft(p, i, u) :: (i, u)
  }

  ghost function FindersRight(p: seq<bool>): set<(nat, nat)> {
    set i: nat, u: nat | i < |p| && u < |p| && FinderRight(p, i, u) :: (i, u)
  }

  ghost predicate WindowLeft(runs: seq<nat>, k: nat)
    requires k < |runs|
  {
    Window(runs, k, 4 * runs[k], runs[k])
  }

  ghost predicate WindowRight(runs: seq<nat>, k: nat)
    requires k < |runs|
  {
    Window(runs, k, runs[k], 4 * runs[k])
  }

  ghost function WindowsLeft(runs: seq<nat>, m: nat): set<nat>
    requires m <= |runs|
  {
    set k: nat | k < m && k + 5 < m && WindowLeft(runs, k)
  }

  ghost function WindowsRight(runs: seq<nat>, m: nat): set<nat>
    requires m <= |runs|
  {
    set k: nat | k < m && k + 5 < m && WindowRight(runs, k)
  }

  /** Counting when a run ends counts every window once. */
  lemma {:induction false} CountWindows(runs: seq<nat>, m: nat)
    requires m <= |runs|
    ensures FinderCount(runs[..m]) == |WindowsLeft(runs, m)| + |WindowsRight(runs, m)|
  {
    hide FinderCount, PatternCount, WindowLeft, WindowRight, WindowsLeft, WindowsRight, RunColor, LastSeven;
    if m == 0 {
      FewRuns(runs[..m]);
      NoWindows(runs, m);
    } else {
      var n := m - 1;
      CountWindows(runs, n);
      assert runs[..m] == runs[..n] + [runs[n]];
      FinderCountSnoc(runs[..n], runs[n]);
      if m >= 7 {
        PatternIsWindow(runs, m);
        LeftGrows(runs, m);
        RightGrows(runs, m);
      } else {
        NoWindows(runs, m);
        NoWindows(runs, n);
      }
    }
  }

  lemma {:induction false} LeftGrows(runs: seq<nat>, m: nat)
    requires 7 <= m <= |runs|
    ensures |WindowsLeft(runs, m)| == |WindowsLeft(runs, m - 1)| + (if WindowLeft(runs, m - 6) then 1 else 0)
  {
    hide WindowLeft;
    var k := m - 6;
    assert WindowsLeft(runs, m) == WindowsLeft(runs, m - 1) + (if WindowLeft(runs, k) then {k} else {});
  }

  lemma {:induction false} RightGrows(runs: seq<nat>, m: nat)
    requires 7 <= m <= |runs|
    ensures |WindowsRight(runs, m)| == |WindowsRight(runs, m - 1)| + (if WindowRight(runs, m - 6) then 1 else 0)
  {
    hide WindowRight;
    var k := m - 6;
    assert WindowsRight(runs, m) == WindowsRight(runs, m - 1) + (if WindowRight(runs, k) then {k} else {});
  }

  lemma {:induction false} FewRuns(runs: seq<nat>)
    requires |runs| < 7
    ensures FinderCount(runs) == 0
  {
  }

  lemma {:induction false} NoWindows(runs: seq<nat>, m: nat)
    requires m <= |runs| && m < 7
    ensures WindowsLeft(runs, m) == {} && WindowsRight(runs, m) == {}
  {
  }

  lemma {:induction false} PatternIsWindow(runs: seq<nat>, m: nat)
    requires 7 <= m <= |runs|
    ensures (if RunColor(m - 1) then 0 else PatternCount(LastSeven(runs[..m])))
            == (if WindowLeft(runs, m - 6) then 1 else 0) + (if WindowRight(runs, m - 6) then 1 else 0)
  {
    hide RunColor, LastSeven, PatternCount;
    var w, k := LastSeven(runs[..m]), m - 6;
    SevenRuns(runs, m);
    PatternParts(w);
    assert RunColor(k) == !RunColor(m - 1) by {
      Alternates(k);
      Alternates(k + 1);
      Alternates(k + 2);
      Alternates(k + 3);
      Alternates(k + 4);
    }
  }

  lemma {:induction false} SevenRuns(runs: seq<nat>, m: nat)
    requires 7 <= m <= |runs|
    ensures var w, k := LastSeven(runs[..m]), m - 6;
            && w[0] == runs[k - 1] && w[1] == runs[k] && w[2] == runs[k + 1] && w[3] == runs[k + 2]
            && w[4] == runs[k + 3] && w[5] == runs[k + 4] && w[6] == runs[k + 5]
  {
  }

  lemma {:induction false} PatternParts(w: seq<nat>)
    requires |w| == 7
    ensures var core := w[1] > 0 && w[2] == w[1] && w[3] == 3 * w[1] && w[4] == w[1] && w[5] == w[1];
            PatternCount(w) == (if core && w[0] >= 4 * w[1] && w[6] >= w[1] then 1 else 0)
                             + (if core && w[0] >= w[1] && w[6] >= 4 * w[1] then 1 else 0)
  {
  }

  // ----- Counting -----

  lemma {:induction false} SameSize<A, B>(s: set<A>, t: set<B>, f: A -> B)
    requires forall a :: a in s ==> f(a) in t
    requires forall a, b :: a in s && b in s && f(a) == f(b) ==> a == b
    requires forall b :: b in t ==> exists a :: a in s && f(a) == b
    ensures |s| == |t|
  {
    if s == {} {
      assert t == {};
    } else {
      var a :| a in s;
      SameSize(s - {a}, t - {f(a)}, f);
    }
  }

  function PlaceOf(runs: seq<nat>): nat -> (nat, nat) {
    (k: nat) => if k < |runs| then (Start(runs, k), runs[k]) else (0, 0)
  }

  lemma {:induction false} PlacesDiffer(runs: seq<nat>, k: nat, l: nat)
    requires IsRunList(runs) && 0 < k < |runs| && 0 < l < |runs| && Start(runs, k) == Start(runs, l)
    ensures k == l
  {
    if k < l {
      StartsAscend(runs, k, l);
    } else if l < k {
      StartsAscend(runs, l, k);
    }
  }

  lemma {:induction false} LeftPlaces(runs: seq<nat>)
    requires IsRunList(runs)
    ensures |WindowsLeft(runs, |runs|)| == |FindersLeft(Expand(runs))|
  {
    hide Expand, Start, RunColor, FinderAt;
    var s, t, f := WindowsLeft(runs, |runs|), FindersLeft(Expand(runs)), PlaceOf(runs);
    forall k | k in s ensures f(k) in t {
      WindowIsFinder(runs, k, 4 * runs[k], runs[k]);
      assert FinderLeft(Expand(runs), Start(runs, k), runs[k]);
      FinderFits(Expand(runs), Start(runs, k), runs[k], 4 * runs[k], runs[k]);
    }
    forall k, l | k in s && l in s && f(k) == f(l) ensures k == l {
      PlacesDiffer(runs, k, l);
    }
    forall b | b in t ensures exists k :: k in s && f(k) == b {
      FinderFits(Expand(runs), b.0, b.1, 4 * b.1, b.1);
      var k := FinderIsWindow(runs, b.0, b.1, 4 * b.1, b.1);
      assert k in s && f(k) == b;
    }
    SameSize(s, t, f);
  }

  lemma {:induction false} RightPlaces(runs: seq<nat>)
    requires IsRunList(runs)
    ensures |WindowsRight(runs, |runs|)| == |FindersRight(Expand(runs))|
  {
    hide Expand, Start, RunColor, FinderAt;
    var s, t, f := WindowsRight(runs, |runs|), FindersRight(Expand(runs)), PlaceOf(runs);
    forall k | k in s ensures f(k) in t {
      WindowIsFinder(runs, k, runs[k], 4 * runs[k]);
      assert FinderRight(Expand(runs), Start(runs, k), runs[k]);
      FinderFits(Expand(runs), Start(runs, k), runs[k], runs[k], 4 * runs[k]);
    }
    forall k, l | k in s && l in s && f(k) == f(l) ensures k == l {
      PlacesDiffer(runs, k, l);
    }
    forall b | b in t ensures exists k :: k in s && f(k) == b {
      FinderFits(Expand(runs), b.0, b.1, b.1, 4 * b.1);
      var k := FinderIsWindow(runs, b.0, b.1, b.1, 4 * b.1);
      assert k in s && f(k) == b;
    }
    SameSize(s, t, f);
  }

  lemma {:induction false} FinderFits(p: seq<bool>, i: nat, u: nat, before: nat, after: nat)
    requires FinderAt(p, i, u, before, after)
    ensures 0 < u < |p| && i < |p|
  {
  }

  // ----- The borders -----

  lemma {:induction false} ExpandBorderFirst(runs: seq<nat>, n: nat)
    requires runs != []
    ensures Expand(BorderFirst(runs, n)) == Copies(n, false) + Expand(runs)
  {
    hide Copies, BorderFirst;
    var k := |runs| - 1;
    assert runs == runs[..k] + [runs[k]];
    BorderFirstSnoc(runs[..k], runs[k], n);
    ExpandMore(runs[..k], runs[k]);
    if k == 0 {
      assert runs[..k] == [] && BorderFirst([], n) == [] by { BorderNothing(n); }
      ExpandMore([], runs[k] + n);
      assert Copies(runs[k] + n, false) == Copies(n, false) + Copies(runs[k], false);
    } else {
      ExpandBorderFirst(runs[..k], n);
      ExpandMore(BorderFirst(runs[..k], n), runs[k]);
    }
  }

  lemma {:induction false} BorderNothing(n: nat)
    ensures BorderFirst([], n) == []
  {
  }

  lemma {:induction false} LongerLast(runs: seq<nat>, n: nat)
    requires |runs| % 2 == 1
    ensures var k := |runs| - 1; Expand(runs[..k] + [runs[k] + n]) == Expand(runs) + Copies(n, false)
  {
    hide Expand, Copies;
    var k := |runs| - 1;
    ExpandMore(runs[..k], runs[k] + n);
    ExpandMore(runs[..k], runs[k]);
    assert runs == runs[..k] + [runs[k]];
    assert Copies(runs[k] + n, false) == Copies(runs[k], false) + Copies(n, false);
  }

  /** The line between white borders as wide as itself. */
  function WithBorders(line: seq<bool>): seq<bool> {
    Copies(|line|, false) + line + Copies(|line|, false)
  }

  lemma {:induction false} ExpandBordered(line: seq<bool>)
    ensures var runs := Bordered(RunList(line), |line|); IsRunList(runs) && Expand(runs) == WithBorders(line)
  {
    hide Expand, RunList, BorderFirst;
    ExpandRunList(line);
    var runs, n := RunList(line), |line|;
    var closed := if |runs| % 2 == 1 then runs else runs + [0];
    if |runs| % 2 == 0 {
      ExpandMore(runs, 0);
    }
    assert Expand(closed) == line;
    var longer := closed[..|closed| - 1] + [closed[|closed| - 1] + n];
    LongerLast(closed, n);
    ExpandBorderFirst(longer, n);
    assert Copies(n, false) + (line + Copies(n, false)) == WithBorders(line);
    NoModules();
    BorderedIsRunList(line, runs, longer);
  }

  lemma {:induction false} NoModules()
    ensures RunList([]) == [0]
  {
  }

  lemma {:induction false} BorderedIsRunList(line: seq<bool>, runs: seq<nat>, longer: seq<nat>)
    requires IsRunList(runs) && (line == [] ==> runs == [0])
    requires var closed := if |runs| % 2 == 1 then runs else runs + [0];
             longer == closed[..|closed| - 1] + [closed[|closed| - 1] + |line|]
    ensures IsRunList(BorderFirst(longer, |line|))
  {
  }

  /**
    The finder-like patterns counted for a line are those of the line between white borders: black and
    white in the ratio 1:1:3:1:1, with at least four units of white before and one after, plus those with
    one before and four after.
  */
  lemma {:induction false} FindersOnModules(line: seq<bool>)
    ensures FinderCount(Bordered(RunList(line), |line|))
            == |FindersLeft(WithBorders(line))| + |FindersRight(WithBorders(line))|
  {
    hide Bordered, Expand, RunList, FinderCount, WithBorders, FindersLeft, FindersRight, WindowsLeft, WindowsRight;
    var runs := Bordered(RunList(line), |line|);
    ExpandBordered(line);
    CountWindows(runs, |runs|);
    assert runs[..|runs|] == runs;
    LeftPlaces(runs);
    RightPlaces(runs);
  }

  // ----- Long runs -----

  lemma {:induction false} LastRun(line: seq<bool>)
    requires line != []
    ensures var runs, n := RunList(line), |line| - 1;
            var r := runs[|runs| - 1];
            && RunColor(|runs| - 1) == line[n] && 0 < r <= n + 1 && AllOf(line, n + 1 - r, n + 1, line[n])
            && (r <= n ==> line[n - r] != line[n])
  {
    hide RunList, Expand;
    ExpandRunList(line);
    var runs := RunList(line);
    var k := |runs| - 1;
    ExpandAt(runs, k);
    assert runs[k] > 0 by {
      if k == 0 {
        assert Start(runs, 1) == runs[0];
      }
    }
    assert line[|line| - 1] == RunColor(k);
    if k > 0 && Start(runs, k) > 0 {
      ExpandAt(runs, k - 1);
      Alternates(k - 1);
    }
  }

  /** Five modules of one color start at x. */
  ghost predicate FiveFrom(line: seq<bool>, x: nat) {
    x + 5 <= |line| && AllOf(line, x, x + 5, line[x])
  }

  ghost function Fives(line: seq<bool>): set<nat> {
    set x: nat | x < |line| && FiveFrom(line, x)
  }

  /** ... and the module before them, if any, has the other color. */
  ghost predicate FirstFiveFrom(line: seq<bool>, x: nat) {
    FiveFrom(line, x) && (x == 0 || line[x - 1] != line[x])
  }

  ghost function FirstFives(line: seq<bool>): set<nat> {
    set x: nat | x < |line| && FirstFiveFrom(line, x)
  }

  lemma {:induction false} NewFive(line: seq<bool>)
    requires line != []
    ensures var r, n := RunList(line)[|RunList(line)| - 1], |line| - 1;
            && (r >= 5 <==> n >= 4 && FiveFrom(line, n - 4))
            && (r >= 5 ==> (r == 5 <==> n == 4 || line[n - 5] != line[n - 4]))
  {
    hide RunList, RunColor;
    LastRun(line);
    var r, n := RunList(line)[|RunList(line)| - 1], |line| - 1;
    if n >= 4 && FiveFrom(line, n - 4) {
      assert line[n - 4] == line[n];
      assert r <= n ==> !(n - 4 <= n - r <= n);
    }
  }

  lemma {:induction false} FivesGrow(line: seq<bool>, color: bool)
    ensures var more, n := line + [color], |line|;
            |Fives(more)| == |Fives(line)| + (if n >= 4 && FiveFrom(more, n - 4) then 1 else 0)
  {
    var more, n := line + [color], |line|;
    FivesStay(line, color);
    hide FiveFrom, FirstFiveFrom;
    var new' := if n >= 4 && FiveFrom(more, n - 4) then {n - 4} else {};
    forall x: nat ensures x in Fives(more) <==> x in Fives(line) || x in new' {
      assert x + 4 < n || x + 4 == n || x + 4 > n;
    }
    assert Fives(more) == Fives(line) + new';
  }

  lemma {:induction false} FirstFivesGrow(line: seq<bool>, color: bool)
    ensures var more, n := line + [color], |line|;
            |FirstFives(more)| == |FirstFives(line)| + (if n >= 4 && FirstFiveFrom(more, n - 4) then 1 else 0)
  {
    var more, n := line + [color], |line|;
    FivesStay(line, color);
    hide FiveFrom, FirstFiveFrom;
    var new' := if n >= 4 && FirstFiveFrom(more, n - 4) then {n - 4} else {};
    forall x: nat ensures x in FirstFives(more) <==> x in FirstFives(line) || x in new' {
      assert x + 4 < n || x + 4 == n || x + 4 > n;
    }
    assert FirstFives(more) == FirstFives(line) + new';
  }

  lemma {:induction false} FivesStay(line: seq<bool>, color: bool)
    ensures var more := line + [color];
            && (forall x: nat :: x + 4 < |line| ==> FiveFrom(more, x) == FiveFrom(line, x))
            && (forall x: nat :: x + 4 < |line| ==> FirstFiveFrom(more, x) == FirstFiveFrom(line, x))
            && (forall x: nat :: x + 4 >= |line| ==> !FiveFrom(line, x) && !FirstFiveFrom(line, x))
            && (forall x: nat :: x + 4 > |line| ==> !FiveFrom(more, x) && !FirstFiveFrom(more, x))
  {
    var more := line + [color];
    forall x: nat | x + 4 < |line| ensures FiveFrom(more, x) == FiveFrom(line, x) {
      assert forall k :: x <= k < x + 5 ==> more[k] == line[k];
    }
  }

  /** The runs of a line cost one point for every five equal modules in a row, and two more for every run with such. */
  lemma {:induction false} RunsOnModules(line: seq<bool>)
    ensures RunScore(RunList(line)) == |Fives(line)| + 2 * |FirstFives(line)|
  {
    hide RunScore, Fives, FirstFives, FiveFrom, RunColor, AddModule;
    if line == [] {
      NoFives();
    } else {
      var n := |line| - 1;
      var init, c := line[..n], line[n];
      assert line == init + [c];
      RunsOnModules(init);
      FivesGrow(init, c);
      FirstFivesGrow(init, c);
      NewFive(line);
      RunScoreStep(RunList(init), c);
    }
  }

  lemma {:induction false} NoFives()
    ensures RunScore(RunList([])) == 0 && Fives([]) == {} && FirstFives([]) == {}
  {
    RunScoreSnoc([], 0);
    assert [] + [0] == [0];
  }

  /** What one row or column costs, read off its modules. */
  lemma LineScoreOnModules(line: seq<bool>)
    ensures LineScore(line) == |Fives(line)| + 2 * |FirstFives(line)|
                               + 40 * (|FindersLeft(WithBorders(line))| + |FindersRight(WithBorders(line))|)
  {
    RunsOnModules(line);
    FindersOnModules(line);
    hide RunScore, RunList, FinderCount, Bordered, Fives, FirstFives, FindersLeft, FindersRight, WithBorders;
  }

  // ----- Blocks and balance -----

  /** The four modules with (x, y) at the top left have one color. */
  ghost predicate OneColor(g: Grid, n: nat, x: int, y: int)
    requires IsSquare(g, n) && 0 <= x < n - 1 && 0 <= y < n - 1
  {
    forall x', y' :: x <= x' <= x + 1 && y <= y' <= y + 1 ==> g[y'][x'] == g[y][x]
  }

  ghost function OneColorBlocks(g: Grid, n: nat, k: nat): set<(int, int)>
    requires IsSquare(g, n) && k <= n - 1
  {
    set x: int, y: int | 0 <= y < k && 0 <= x < n - 1 && OneColor(g, n, x, y) :: (x, y)
  }

  ghost function BlocksOfRow(g: Grid, n: nat, y: int, k: nat): set<(int, int)>
    requires IsSquare(g, n) && 0 <= y < n - 1 && k <= n - 1
  {
    set x: int | 0 <= x < k && OneColor(g, n, x, y) :: (x, y)
  }

  lemma UniformIsOneColor(g: Grid, n: nat, x: int, y: int)
    requires IsSquare(g, n) && 0 <= x < n - 1 && 0 <= y < n - 1
    ensures UniformBlock(g, n, x, y) <==> OneColor(g, n, x, y)
  {
  }

  lemma {:induction false} CountBlocksInRow(g: Grid, n: nat, y: int, k: nat)
    requires IsSquare(g, n) && 0 <= y < n - 1 && k <= n - 1
    ensures BlocksInRow(g, n, y, k) == |BlocksOfRow(g, n, y, k)|
  {
    hide OneColor, UniformBlock;
    if k == 0 {
      assert BlocksOfRow(g, n, y, k) == {};
    } else {
      CountBlocksInRow(g, n, y, k - 1);
      UniformIsOneColor(g, n, k - 1, y);
      assert BlocksOfRow(g, n, y, k) == BlocksOfRow(g, n, y, k - 1) + (if OneColor(g, n, k - 1, y) then {(k - 1, y)} else {});
    }
  }

  lemma {:induction false} CountBlocks(g: Grid, n: nat, k: nat)
    requires IsSquare(g, n) && k <= n - 1
    ensures Blocks(g, n, k) == |OneColorBlocks(g, n, k)|
  {
    hide OneColor, BlocksInRow;
    if k == 0 {
      assert OneColorBlocks(g, n, k) == {};
    } else {
      CountBlocks(g, n, k - 1);
      CountBlocksInRow(g, n, k - 1, n - 1);
      assert OneColorBlocks(g, n, k) == OneColorBlocks(g, n, k - 1) + BlocksOfRow(g, n, k - 1, n - 1);
    }
  }

  ghost function BlackModules(g: Grid, n: nat, k: nat): set<(int, int)>
    requires IsSquare(g, n) && k <= n
  {
    set x: int, y: int | 0 <= y < k && 0 <= x < n && g[y][x] :: (x, y)
  }

  ghost function BlackOfRow(row: seq<bool>, y: int, k: nat): set<(int, int)>
    requires k <= |row|
  {
    set x: int | 0 <= x < k && row[x] :: (x, y)
  }

  lemma {:induction false} CountBlackInRow(row: seq<bool>, y: int, k: nat)
    requires k <= |row|
    ensures BlackInRow(row, k) == |BlackOfRow(row, y, k)|
  {
    if k == 0 {
      assert BlackOfRow(row, y, k) == {};
    } else {
      CountBlackInRow(row, y, k - 1);
      assert BlackOfRow(row, y, k) == BlackOfRow(row, y, k - 1) + (if row[k - 1] then {(k - 1, y)} else {});
    }
  }

  lemma {:induction false} CountBlackModules(g: Grid, n: nat, k: nat)
    requires IsSquare(g, n) && k <= n
    ensures Black(g, n, k) == |BlackModules(g, n, k)|
  {
    hide BlackInRow;
    if k == 0 {
      assert BlackModules(g, n, k) == {};
    } else {
      CountBlackModules(g, n, k - 1);
      CountBlackInRow(g[k - 1], k - 1, n);
      assert BlackModules(g, n, k) == BlackModules(g, n, k - 1) + BlackOfRow(g[k - 1], k - 1, n);
    }
  }

  /**
    The score of a grid of odd size: its rows and columns, three points for every 2 by 2 block of one
    color, and ten for every level up to the smallest that fits the share of black modules.
  */
  lemma ScoreOnModules(g: Grid, n: nat, k: int)
    requires n % 2 == 1 && IsSquare(g, n) && SmallestLevel(|BlackModules(g, n, n)|, n * n, k)
    ensures Score(g, n) == RowsScore(g, n) + ColumnsScore(g, n, n) + 3 * |OneColorBlocks(g, n, n - 1)| + 10 * k
  {
    hide RowsScore, ColumnsScore, SmallestLevel, Score, BlackModules, OneColorBlocks, Blocks, Black;
    CountBlackModules(g, n, n);
    CountBlocks(g, n, n - 1);
    ScoreLevels(g, n, k);
  }
}
