/**
  The penalty score of a symbol: what the streaming scan of rows and columns adds up, stated on
  the run-length encoding of each line.
*/
module Penalty {
  import opened Arithmetic
  import opened Grids

  const PENALTY_N1 := 3
  const PENALTY_N2 := 3
  const PENALTY_N3 := 40
  const PENALTY_N4 := 10

  // ----- Run-length encoding -----

  /** The color of run i: runs alternate, the first one is white. */
  predicate RunColor(i: int) {
    i % 2 == 1
  }

  /** One more module: it prolongs the last run or starts a new one. */
  function AddModule(runs: seq<nat>, color: bool): (longer: seq<nat>)
    requires |runs| > 0
    ensures |longer| > 0
  {
    var n := |runs| - 1;
    if color == RunColor(n) then runs[..n] + [runs[n] + 1] else runs + [1]
  }

  /** The run lengths of a line, white first; the first run has length 0 if the line starts black. */
  function RunList(line: seq<bool>): (runs: seq<nat>)
    ensures |runs| > 0
  {
    if line == [] then [0] else AddModule(RunList(line[..|line| - 1]), line[|line| - 1])
  }

  function Copies(k: nat, color: bool): (line: seq<bool>)
    ensures |line| == k && forall i :: 0 <= i < k ==> line[i] == color
  {
    seq(k, _ => color)
  }

  /** The line with the given runs. */
  function Expand(runs: seq<nat>): seq<bool> {
    if runs == [] then [] else Expand(runs[..|runs| - 1]) + Copies(runs[|runs| - 1], RunColor(|runs| - 1))
  }

  /** Run lists: only the first run may be empty. */
  predicate IsRunList(runs: seq<nat>) {
    |runs| > 0 && forall i :: 0 < i < |runs| ==> runs[i] > 0
  }

  lemma ExpandMore(runs: seq<nat>, k: nat)
    ensures Expand(runs + [k]) == Expand(runs) + Copies(k, RunColor(|runs|))
  {
    assert (runs + [k])[..|runs|] == runs;
  }

  lemma OtherColor(runs: seq<nat>, color: bool)
    requires |runs| > 0 && color != RunColor(|runs| - 1)
    ensures RunColor(|runs|) == color
  {
  }

  lemma {:induction false} AddModuleExpand(runs: seq<nat>, color: bool)
    requires IsRunList(runs)
    ensures IsRunList(AddModule(runs, color)) && Expand(AddModule(runs, color)) == Expand(runs) + [color]
  {
    hide Expand, Copies, RunColor;
    var n := |runs| - 1;
    var init, last := runs[..n], runs[n];
    if color == RunColor(n) {
      ExpandMore(init, last + 1);
      ExpandMore(init, last);
      assert runs == init + [last];
      assert Copies(last + 1, color) == Copies(last, color) + [color];
      assert Expand(init) + (Copies(last, color) + [color]) == Expand(init) + Copies(last, color) + [color];
    } else {
      OtherColor(runs, color);
      ExpandMore(runs, 1);
      assert Copies(1, color) == [color];
    }
  }

  lemma RunListSnoc(line: seq<bool>, color: bool)
    ensures RunList(line + [color]) == AddModule(RunList(line), color)
  {
    hide AddModule;
    assert (line + [color])[..|line|] == line;
  }

  lemma ExpandZero()
    ensures Expand([0]) == []
  {
    assert [0][..0] == [];
    assert Expand([]) == [];
  }

  /** RunList is the run-length encoding of the line ... */
  lemma {:induction false} ExpandRunList(line: seq<bool>)
    ensures IsRunList(RunList(line)) && Expand(RunList(line)) == line
  {
    hide AddModule, Expand;
    if line == [] {
      ExpandZero();
    } else {
      hide IsRunList;
      var n := |line| - 1;
      ExpandRunList(line[..n]);
      AddModuleExpand(RunList(line[..n]), line[n]);
      assert line == line[..n] + [line[n]];
    }
  }

  /** A nonempty run list comes from another one by adding a module. */
  lemma Predecessor(runs: seq<nat>) returns (prev: seq<nat>)
    requires IsRunList(runs) && runs != [0]
    ensures IsRunList(prev) && AddModule(prev, RunColor(|runs| - 1)) == runs
    ensures |prev| < |runs| || (|prev| == |runs| && prev[|prev| - 1] < runs[|runs| - 1])
  {
    var n := |runs| - 1;
    if runs[n] == 1 && n > 0 {
      prev := runs[..n];
    } else {
      prev := runs[..n] + [runs[n] - 1];
    }
  }

  /** ... and the only one. */
  lemma {:induction false} RunListExpand(runs: seq<nat>)
    requires IsRunList(runs)
    ensures RunList(Expand(runs)) == runs
    decreases |runs|, runs[|runs| - 1]
  {
    hide Expand, AddModule;
    if runs == [0] {
      ExpandZero();
    } else {
      hide RunList;
      var prev := Predecessor(runs);
      RunListExpand(prev);
      AddModuleExpand(prev, RunColor(|runs| - 1));
      RunListSnoc(Expand(prev), RunColor(|runs| - 1));
    }
  }

  // ----- The score of a line -----

  /** A run of five or more modules costs its length minus two. */
  function RunScore(runs: seq<nat>): nat {
    if runs == [] then 0
    else RunScore(runs[..|runs| - 1]) + (if runs[|runs| - 1] >= 5 then runs[|runs| - 1] - 2 else 0)
  }

  /** The first run lengthened by the white border of n modules. */
  function BorderFirst(runs: seq<nat>, n: nat): (r: seq<nat>)
    ensures |r| == |runs|
  {
    if runs == [] then [] else [runs[0] + n] + runs[1..]
  }

  /** The run list with white borders of n modules on both sides; it starts and ends white. */
  function Bordered(runs: seq<nat>, n: nat): (r: seq<nat>)
    requires |runs| > 0
    ensures |r| % 2 == 1
  {
    var closed := if |runs| % 2 == 1 then runs else runs + [0];
    BorderFirst(closed[..|closed| - 1] + [closed[|closed| - 1] + n], n)
  }

  /** Runs 1..5 are in the ratio 1:1:3:1:1; the pattern counts once for every side with a white run of four units. */
  function PatternCount(w: seq<nat>): nat
    requires |w| == 7
  {
    var u := w[1];
    if u > 0 && w[2] == u && w[3] == 3 * u && w[4] == u && w[5] == u
    then (if w[0] >= 4 * u && w[6] >= u then 1 else 0) + (if w[6] >= 4 * u && w[0] >= u then 1 else 0)
    else 0
  }

  /** The finder-like patterns in the windows of seven runs that start and end white. */
  function FinderCount(runs: seq<nat>): nat {
    if |runs| < 7 then 0
    else FinderCount(runs[..|runs| - 1]) + (if RunColor(|runs| - 1) then 0 else PatternCount(LastSeven(runs)))
  }

  function LastSeven(runs: seq<nat>): (w: seq<nat>)
    requires |runs| >= 7
    ensures |w| == 7
  {
    runs[|runs| - 7..]
  }

  function LineScore(line: seq<bool>): nat {
    RunScore(RunList(line)) + PENALTY_N3 * FinderCount(Bordered(RunList(line), |line|))
  }

  // ----- The streaming scan -----

  /** What the history array holds after the runs in `done`: the last seven, latest first. */
  function HistoryOf(done: seq<nat>): (h: seq<nat>)
    ensures |h| == 7
  {
    seq(7, i requires 0 <= i < 7 => if i < |done| then done[|done| - 1 - i] else 0)
  }

  /** The finished runs of a prefix, the first one bordered. */
  function Done(runs: seq<nat>, n: nat): seq<nat>
    requires |runs| > 0
  {
    BorderFirst(runs[..|runs| - 1], n)
  }

  /** finderPenaltyAddHistory: the first run to be added gets the border. */
  method AddHistory(length: nat, history: array<nat>, n: nat, ghost done: seq<nat>)
    requires history.Length == 7 && history[..] == HistoryOf(done) && n > 0
    requires done != [] ==> done[|done| - 1] > 0
    modifies history
    ensures history[..] == HistoryOf(done + [if done == [] then length + n else length])
  {
    assert history[0] == HistoryOf(done)[0];
    var len := if history[0] == 0 then length + n else length;
    var i := 6;
    while i > 0
      invariant 0 <= i <= 6
      invariant forall k :: 0 <= k <= i ==> history[k] == HistoryOf(done)[k]
      invariant forall k :: i < k < 7 ==> history[k] == HistoryOf(done)[k - 1]
    {
      history[i] := history[i - 1];
      i := i - 1;
    }
    history[0] := len;
  }

  /** finderPenaltyCountPatterns; the source's length check cannot fail when runs are at most 3n long. */
  method CountPatterns(history: array<nat>, n: nat, ghost done: seq<nat>) returns (count: nat)
    requires history.Length == 7 && history[..] == HistoryOf(done)
    requires forall i :: 0 <= i < |done| ==> done[i] <= 3 * n
    ensures count == if |done| < 7 then 0 else PatternCount(LastSeven(done))
  {
    assert forall i :: 0 <= i < 7 ==> history[i] == HistoryOf(done)[i];
    var u := history[1];
    assert u <= 3 * n;
    var core := u > 0 && history[2] == u && history[3] == u * 3 && history[4] == u && history[5] == u;
    count := (if core && history[0] >= u * 4 && history[6] >= u then 1 else 0)
           + (if core && history[6] >= u * 4 && history[0] >= u then 1 else 0);
  }

  lemma {:induction false} RunBound(line: seq<bool>)
    ensures forall i :: 0 <= i < |RunList(line)| ==> RunList(line)[i] <= |line|
  {
    if line != [] {
      RunBound(line[..|line| - 1]);
    }
  }

  lemma RunScoreSnoc(runs: seq<nat>, k: nat)
    ensures RunScore(runs + [k]) == RunScore(runs) + (if k >= 5 then k - 2 else 0)
  {
    assert (runs + [k])[..|runs|] == runs;
  }

  lemma FinderCountSnoc(done: seq<nat>, k: nat)
    ensures FinderCount(done + [k]) == FinderCount(done) +
            (if |done| >= 6 && !RunColor(|done|) then PatternCount(LastSeven(done + [k])) else 0)
  {
    hide PatternCount, RunColor, LastSeven;
    assert (done + [k])[..|done|] == done;
  }

  lemma DoneSnoc(runs: seq<nat>, n: nat)
    requires |runs| > 0
    ensures BorderFirst(runs, n) == Done(runs, n) + [if |runs| == 1 then runs[0] + n else runs[|runs| - 1]]
  {
  }

  /** The state of the scan after the given runs of a line of n modules. */
  ghost predicate State(runs: seq<nat>, n: nat, color: bool, length: nat, history: seq<nat>, result: nat) {
    && |runs| > 0 && color == RunColor(|runs| - 1) && length == runs[|runs| - 1]
    && history == HistoryOf(Done(runs, n))
    && result == RunScore(runs) + PENALTY_N3 * FinderCount(Done(runs, n))
  }

  lemma PrefixStep(line: seq<bool>, x: nat)
    requires x < |line|
    ensures RunList(line[..x + 1]) == AddModule(RunList(line[..x]), line[x])
  {
    hide AddModule;
    assert line[..x + 1] == line[..x] + [line[x]];
    RunListSnoc(line[..x], line[x]);
  }

  lemma StateSame(runs: seq<nat>, n: nat, color: bool, length: nat, history: seq<nat>, result: nat)
    requires State(runs, n, color, length, history, result)
    ensures State(AddModule(runs, color), n, color, length + 1, history,
                  result + (if length + 1 == 5 then PENALTY_N1 else if length + 1 > 5 then 1 else 0))
  {
    var k := |runs| - 1;
    hide FinderCount, HistoryOf;
    RunScoreSnoc(runs[..k], runs[k]);
    RunScoreSnoc(runs[..k], runs[k] + 1);
    assert runs == runs[..k] + [runs[k]];
    assert AddModule(runs, color)[..k] == runs[..k];
  }

  /** The patterns counted when a run ends: only white runs are followed by a count. */
  function EndCount(done: seq<nat>): nat {
    if |done| >= 7 && !RunColor(|done| - 1) then PatternCount(LastSeven(done)) else 0
  }

  lemma {:induction false} NextRuns(runs: seq<nat>, n: nat, color: bool)
    requires |runs| > 0 && color == RunColor(|runs| - 1)
    ensures AddModule(runs, !color) == runs + [1] && RunColor(|runs|) == !color
    ensures |Done(runs, n)| == |runs| - 1 && Done(runs + [1], n) == BorderFirst(runs, n)
    ensures RunScore(runs + [1]) == RunScore(runs)
  {
    hide RunScore, BorderFirst;
    assert (runs + [1])[..|runs|] == runs;
    RunScoreSnoc(runs, 1);
  }

  lemma {:induction false} StateChange(runs: seq<nat>, n: nat, color: bool, length: nat, history: seq<nat>, result: nat)
    requires State(runs, n, color, length, history, result)
    ensures BorderFirst(runs, n) == Done(runs, n) + [if Done(runs, n) == [] then length + n else length]
    ensures State(AddModule(runs, !color), n, !color, 1, HistoryOf(BorderFirst(runs, n)),
                  result + EndCount(BorderFirst(runs, n)) * PENALTY_N3)
  {
    hide HistoryOf, PatternCount, LastSeven, FinderCount, RunScore, Done, BorderFirst, AddModule, RunColor;
    var done := Done(runs, n);
    NextRuns(runs, n, color);
    DoneSnoc(runs, n);
    FinderCountSnoc(done, if done == [] then length + n else length);
  }

  /** Lengths of finished runs. */
  ghost predicate Plausible(done: seq<nat>, n: nat) {
    && (done != [] ==> done[|done| - 1] > 0)
    && (forall i :: 0 <= i < |done| ==> done[i] <= 2 * n)
  }

  lemma DoneFacts(runs: seq<nat>, n: nat)
    requires IsRunList(runs) && n > 0 && forall i :: 0 <= i < |runs| ==> runs[i] <= n
    ensures Plausible(Done(runs, n), n)
    ensures |Done(runs, n)| == |runs| - 1
  {
  }

  /** The end of a run of the given length and color after the runs in `done`: history and finder count. */
  method EndRun(n: nat, runColor: bool, runX: nat, history: array<nat>, ghost done: seq<nat>) returns (count: nat)
    requires n > 0 && history.Length == 7 && history[..] == HistoryOf(done) && runColor == RunColor(|done|)
    requires runX <= 2 * n && Plausible(done, n)
    modifies history
    ensures history[..] == HistoryOf(done + [if done == [] then runX + n else runX])
    ensures count == EndCount(done + [if done == [] then runX + n else runX])
  {
    hide HistoryOf, PatternCount, LastSeven;
    ghost var more := done + [if done == [] then runX + n else runX];
    AddHistory(runX, history, n, done);
    count := 0;
    if !runColor {
      count := CountPatterns(history, n, more);
    }
  }

  /** A change of color at module x. */
  method NextRun(line: seq<bool>, x: nat, runColor: bool, runX: nat, history: array<nat>, sofar: nat) returns (result: nat)
    requires x < |line| && line[x] != runColor && history.Length == 7
    requires State(RunList(line[..x]), |line|, runColor, runX, history[..], sofar)
    modifies history
    ensures State(AddModule(RunList(line[..x]), line[x]), |line|, line[x], 1, history[..], result)
  {
    hide HistoryOf, RunList, Done, BorderFirst, EndCount, RunScore, FinderCount, Expand, Plausible, AddModule;
    ghost var runs := RunList(line[..x]);
    ghost var done := Done(runs, |line|);
    ExpandRunList(line[..x]);
    RunBound(line[..x]);
    DoneFacts(runs, |line|);
    StateChange(runs, |line|, runColor, runX, history[..], sofar);
    hide HistoryOf, RunList, Done, BorderFirst, EndCount, RunScore, FinderCount;
    var count := EndRun(|line|, runColor, runX, history, done);
    hide State;
    result := sofar + count * PENALTY_N3;
  }

  lemma BorderFirstSnoc(runs: seq<nat>, k: nat, n: nat)
    ensures BorderFirst(runs + [k], n) == BorderFirst(runs, n) + [if runs == [] then k + n else k]
  {
  }

  lemma {:induction false} BorderedByHistory(runs: seq<nat>, n: nat)
    requires |runs| > 0
    ensures var done, last := Done(runs, n), runs[|runs| - 1];
            && |done| == |runs| - 1
            && (RunColor(|runs| - 1) ==> done != [] && Bordered(runs, n) == done + [last] + [n])
            && (!RunColor(|runs| - 1) ==> Bordered(runs, n) == done + [if done == [] then last + n + n else last + n])
  {
    hide BorderFirst;
    var k := |runs| - 1;
    var init, last := runs[..k], runs[k];
    if RunColor(k) {
      assert |runs| % 2 == 0;
      var closed := runs + [0];
      assert closed[..|closed| - 1] == runs;
      BorderFirstSnoc(runs, n, n);
      BorderFirstSnoc(init, last, n);
      assert runs == init + [last];
    } else {
      assert |runs| % 2 == 1;
      BorderFirstSnoc(init, last + n, n);
    }
  }

  lemma Alternates(i: int)
    ensures RunColor(i + 1) == !RunColor(i)
  {
  }

  lemma CountSkips(done: seq<nat>, k: nat)
    requires RunColor(|done|)
    ensures FinderCount(done + [k]) == FinderCount(done)
  {
    hide FinderCount, PatternCount, LastSeven, RunColor;
    FinderCountSnoc(done, k);
  }

  lemma CountEnds(done: seq<nat>, k: nat)
    requires !RunColor(|done|)
    ensures FinderCount(done + [k]) == FinderCount(done) + EndCount(done + [k])
  {
    hide FinderCount, PatternCount, LastSeven, RunColor;
    FinderCountSnoc(done, k);
  }

  lemma FinderTerminates(runs: seq<nat>, n: nat)
    requires |runs| > 0
    ensures FinderCount(Bordered(runs, n)) == FinderCount(Done(runs, n)) + EndCount(Bordered(runs, n))
  {
    hide Bordered, Done, EndCount, FinderCount, RunColor;
    BorderedByHistory(runs, n);
    var done, last := Done(runs, n), runs[|runs| - 1];
    if RunColor(|runs| - 1) {
      CountSkips(done, last);
      Alternates(|runs| - 1);
      CountEnds(done + [last], n);
    } else {
      CountEnds(done, if done == [] then last + n + n else last + n);
    }
  }

  /** The runs after the final white border is added. */
  function Terminated(done: seq<nat>, runColor: bool, runX: nat, n: nat): seq<nat> {
    if runColor then done + [runX] + [n] else done + [if done == [] then runX + n + n else runX + n]
  }

  /** finderPenaltyTerminateAndCount: the end of a line. */
  method TerminateAndCount(n: nat, runColor: bool, runX: nat, history: array<nat>, ghost done: seq<nat>) returns (count: nat)
    requires n > 0 && history.Length == 7 && AtEnd(n, runColor, runX, history[..], done)
    modifies history
    ensures count == EndCount(Terminated(done, runColor, runX, n))
  {
    hide HistoryOf, EndCount;
    if runColor {
      AddHistory(runX, history, n, done);
      count := EndRun(n, false, n, history, done + [runX]);
    } else {
      count := EndRun(n, false, runX + n, history, done);
    }
  }

  lemma ScoreEnds(runs: seq<nat>, n: nat, runColor: bool, runX: nat, history: seq<nat>, sofar: nat)
    requires State(runs, n, runColor, runX, history, sofar)
    ensures RunScore(runs) + PENALTY_N3 * FinderCount(Bordered(runs, n)) ==
            sofar + EndCount(Terminated(Done(runs, n), runColor, runX, n)) * PENALTY_N3
  {
    BorderedByHistory(runs, n);
    FinderTerminates(runs, n);
    hide HistoryOf, Done, Bordered, EndCount, RunScore, FinderCount;
  }

  /** The requirements of TerminateAndCount hold at the end of a line. */
  ghost predicate AtEnd(n: nat, runColor: bool, runX: nat, history: seq<nat>, done: seq<nat>) {
    && history == HistoryOf(done) && runColor == RunColor(|done|)
    && runX <= n && (runColor ==> runX > 0) && Plausible(done, n)
  }

  lemma LineEnds(line: seq<bool>, runColor: bool, runX: nat, history: seq<nat>, sofar: nat)
    requires |line| > 0 && State(RunList(line), |line|, runColor, runX, history, sofar)
    ensures AtEnd(|line|, runColor, runX, history, Done(RunList(line), |line|))
  {
    hide HistoryOf, RunList, Done, RunScore, FinderCount, Expand, Plausible;
    ExpandRunList(line);
    RunBound(line);
    DoneFacts(RunList(line), |line|);
  }

  lemma StateStart(n: nat, history: seq<nat>)
    requires |history| == 7 && forall i :: 0 <= i < 7 ==> history[i] == 0
    ensures State(RunList([]), n, false, 0, history, 0)
  {
    assert history == HistoryOf([]);
    assert RunScore([]) == 0;
    assert RunScore([0]) == 0 by { RunScoreSnoc([], 0); assert [] + [0] == [0]; }
  }

  /** The loop of getPenaltyScore over one row or column. */
  method LinePenalty(line: seq<bool>) returns (result: nat)
    requires |line| > 0
    ensures result == LineScore(line)
  {
    hide State, HistoryOf, RunList, AtEnd, Done, EndCount, Terminated, Bordered, FinderCount, RunScore, AddModule;
    var n := |line|;
    var runColor, runX := false, 0;
    var history := new nat[7](_ => 0);
    result := 0;
    var x := 0;
    assert line[..0] == [];
    StateStart(n, history[..]);
    while x < n
      invariant 0 <= x <= n && history.Length == 7
      invariant State(RunList(line[..x]), n, runColor, runX, history[..], result)
    {
      PrefixStep(line, x);
      if line[x] == runColor {
        StateSame(RunList(line[..x]), n, runColor, runX, history[..], result);
        runX := runX + 1;
        if runX == 5 {
          result := result + PENALTY_N1;
        } else if runX > 5 {
          result := result + 1;
        }
      } else {
        result := NextRun(line, x, runColor, runX, history, result);
        runColor := line[x];
        runX := 1;
      }
      x := x + 1;
    }
    assert line[..n] == line;
    LineEnds(line, runColor, runX, history[..], result);
    ScoreEnds(RunList(line), n, runColor, runX, history[..], result);
    var count := TerminateAndCount(n, runColor, runX, history, Done(RunList(line), n));
    result := result + count * PENALTY_N3;
  }

  // ----- The score of a grid -----

  function Column(g: Grid, n: int, x: int): (line: seq<bool>)
    requires n >= 0 && IsSquare(g, n) && 0 <= x < n
    ensures |line| == n
  {
    seq(n, y requires 0 <= y < n => g[y][x])
  }

  function RowsScore(g: Grid, k: nat): nat
    requires k <= |g|
  {
    if k == 0 then 0 else RowsScore(g, k - 1) + LineScore(g[k - 1])
  }

  function ColumnsScore(g: Grid, n: nat, k: nat): nat
    requires IsSquare(g, n) && k <= n
  {
    if k == 0 then 0 else ColumnsScore(g, n, k - 1) + LineScore(Column(g, n, k - 1))
  }

  /** The modules (x, y), (x+1, y), (x, y+1) and (x+1, y+1) have the same color. */
  predicate UniformBlock(g: Grid, n: nat, x: int, y: int)
    requires IsSquare(g, n) && 0 <= x < n - 1 && 0 <= y < n - 1
  {
    g[y][x] == g[y][x + 1] == g[y + 1][x] == g[y + 1][x + 1]
  }

  function BlocksInRow(g: Grid, n: nat, y: int, k: nat): nat
    requires IsSquare(g, n) && 0 <= y < n - 1 && k <= n - 1
  {
    if k == 0 then 0 else BlocksInRow(g, n, y, k - 1) + (if UniformBlock(g, n, k - 1, y) then 1 else 0)
  }

  function Blocks(g: Grid, n: nat, k: nat): nat
    requires IsSquare(g, n) && k <= n - 1
  {
    if k == 0 then 0 else Blocks(g, n, k - 1) + BlocksInRow(g, n, k - 1, n - 1)
  }

  function BlackInRow(row: seq<bool>, k: nat): (count: nat)
    requires k <= |row|
    ensures count <= k
  {
    if k == 0 then 0 else BlackInRow(row, k - 1) + (if row[k - 1] then 1 else 0)
  }

  function Black(g: Grid, n: nat, k: nat): (count: nat)
    requires IsSquare(g, n) && k <= n
    ensures count <= k * n
  {
    if k == 0 then 0
    else
      assert k * n == (k - 1) * n + n;
      Black(g, n, k - 1) + BlackInRow(g[k - 1], n)
  }

  /** The share of black modules lies between (45-5k)% and (55+5k)%. */
  predicate Balanced(black: int, total: int, k: int) {
    (45 - 5 * k) * total <= 100 * black <= (55 + 5 * k) * total
  }

  function Difference(a: int, b: int): int {
    if a > b then a - b else b - a
  }

  function BalanceLevel(black: int, total: int): int
    requires total > 0
  {
    (Difference(black * 20, total * 10) + total - 1) / total - 1
  }

  /** On an odd number of modules the formula gives the smallest k >= 0 that meets the bounds. */
  lemma BalanceLevelIsSmallest(black: int, total: int, j: int)
    requires total > 0 && total % 2 == 1
    ensures var k := BalanceLevel(black, total);
            k >= 0 && Balanced(black, total, k) && (0 <= j < k ==> !Balanced(black, total, j))
  {
    var d := Difference(black * 20, total * 10);
    var k := BalanceLevel(black, total);
    assert d > 0;
    CeilingDivision(d, total, j);
    assert (k + 1) * total == k * total + total;
    assert (j + 1) * total == j * total + total;
    assert forall i :: Balanced(black, total, i) <==> d <= i * total + total by {
      forall i ensures Balanced(black, total, i) <==> d <= i * total + total {
        assert (45 - 5 * i) * total == 45 * total - 5 * (i * total);
        assert (55 + 5 * i) * total == 55 * total + 5 * (i * total);
      }
    }
  }

  lemma CeilingDivision(d: int, t: int, j: int)
    requires d > 0 && t > 0
    ensures var q := (d + t - 1) / t;
            q >= 1 && d <= q * t && (j + 1 < q ==> (j + 1) * t < d)
  {
    var e: nat := d + t - 1;
    DivBelow(e, 1, t);
    if j + 1 >= 0 {
      DivBelow(e, j + 2, t);
      Distribute(j + 1, 1, t);
    } else {
      NonNegative(-(j + 1), t);
      Distribute(j + 1, -(j + 1), t);
    }
  }

  lemma OddSquare(n: int)
    requires n % 2 == 1
    ensures n * n % 2 == 1
  {
    var k := n / 2;
    assert n * n == 2 * (2 * (k * k) + 2 * k) + 1;
  }

  /** The whole score. */
  function Score(g: Grid, n: nat): int
    requires n > 0 && IsSquare(g, n)
  {
    RowsScore(g, n) + ColumnsScore(g, n, n) + PENALTY_N2 * Blocks(g, n, n - 1)
    + PENALTY_N4 * BalanceLevel(Black(g, n, n), n * n)
  }

  /** k is the smallest level whose bounds the share of black modules meets. */
  ghost predicate SmallestLevel(black: int, total: int, k: int) {
    k >= 0 && Balanced(black, total, k) && forall j :: 0 <= j < k ==> !Balanced(black, total, j)
  }

  /** On every grid of odd size the balance term is 10 for every level up to the smallest that fits. */
  lemma ScoreLevels(g: Grid, n: nat, k: int)
    requires n % 2 == 1 && IsSquare(g, n) && SmallestLevel(Black(g, n, n), n * n, k)
    ensures Score(g, n) == RowsScore(g, n) + ColumnsScore(g, n, n) + PENALTY_N2 * Blocks(g, n, n - 1) + PENALTY_N4 * k
  {
    hide RowsScore, ColumnsScore, Blocks, Black, Balanced, BalanceLevel;
    OddSquare(n);
    var black, total := Black(g, n, n), n * n;
    BalanceLevelIsSmallest(black, total, k);
    assert k <= BalanceLevel(black, total);
  }

  lemma LevelExists(black: int, total: int)
    requires total > 0 && total % 2 == 1
    ensures SmallestLevel(black, total, BalanceLevel(black, total))
  {
    hide Balanced, BalanceLevel;
    var k := BalanceLevel(black, total);
    BalanceLevelIsSmallest(black, total, 0);
    forall j | 0 <= j < k ensures !Balanced(black, total, j) {
      BalanceLevelIsSmallest(black, total, j);
    }
  }

  // ----- getPenaltyScore -----

  method RowsPenalty(n: nat, modules: array2<bool>) returns (result: nat)
    requires n > 0 && modules.Length0 == modules.Length1 == n
    ensures result == RowsScore(Value(modules), n)
  {
    hide LineScore;
    result := 0;
    var y := 0;
    while y < n
      invariant 0 <= y <= n && result == RowsScore(Value(modules), y)
    {
      var row := seq(n, x requires 0 <= x < n reads modules => modules[y, x]);
      assert row == Value(modules)[y];
      var penalty := LinePenalty(row);
      result := result + penalty;
      y := y + 1;
    }
  }

  method ColumnsPenalty(n: nat, modules: array2<bool>) returns (result: nat)
    requires n > 0 && modules.Length0 == modules.Length1 == n
    ensures result == ColumnsScore(Value(modules), n, n)
  {
    hide LineScore;
    result := 0;
    var x := 0;
    while x < n
      invariant 0 <= x <= n && result == ColumnsScore(Value(modules), n, x)
    {
      var column := seq(n, y requires 0 <= y < n reads modules => modules[y, x]);
      assert column == Column(Value(modules), n, x);
      var penalty := LinePenalty(column);
      result := result + penalty;
      x := x + 1;
    }
  }

  method BlocksPenalty(n: nat, modules: array2<bool>) returns (result: nat)
    requires n > 0 && modules.Length0 == modules.Length1 == n
    ensures result == PENALTY_N2 * Blocks(Value(modules), n, n - 1)
  {
    ghost var g := Value(modules);
    result := 0;
    var y := 0;
    while y < n - 1
      invariant 0 <= y <= n - 1 && result == PENALTY_N2 * Blocks(g, n, y)
    {
      ghost var before := result;
      var x := 0;
      while x < n - 1
        invariant 0 <= x <= n - 1 && result == before + PENALTY_N2 * BlocksInRow(g, n, y, x)
      {
        var color := modules[y, x];
        if color == modules[y, x + 1] && color == modules[y + 1, x] && color == modules[y + 1, x + 1] {
          assert UniformBlock(g, n, x, y);
          result := result + PENALTY_N2;
        }
        x := x + 1;
      }
      y := y + 1;
    }
  }

  method CountBlack(n: nat, modules: array2<bool>) returns (black: nat)
    requires n > 0 && modules.Length0 == modules.Length1 == n
    ensures black == Black(Value(modules), n, n)
  {
    ghost var g := Value(modules);
    black := 0;
    var y := 0;
    while y < n
      invariant 0 <= y <= n && black == Black(g, n, y)
    {
      ghost var before := black;
      var x := 0;
      while x < n
        invariant 0 <= x <= n && black == before + BlackInRow(g[y], x)
      {
        if modules[y, x] {
          black := black + 1;
        }
        x := x + 1;
      }
      y := y + 1;
    }
  }

  /** getPenaltyScore. */
  method GetPenaltyScore(n: nat, modules: array2<bool>) returns (result: int)
    requires n > 0 && modules.Length0 == modules.Length1 == n
    ensures result == Score(Value(modules), n)
    ensures n % 2 == 1 ==>
              var g := Value(modules);
              exists k :: SmallestLevel(Black(g, n, n), n * n, k) &&
                          result == RowsScore(g, n) + ColumnsScore(g, n, n) + PENALTY_N2 * Blocks(g, n, n - 1) + PENALTY_N4 * k
  {
    hide RowsScore, ColumnsScore, Blocks, Black, SmallestLevel;
    var rows := RowsPenalty(n, modules);
    var columns := ColumnsPenalty(n, modules);
    var blocks := BlocksPenalty(n, modules);
    var black := CountBlack(n, modules);
    var total := n * n;
    var k := (Difference(black * 20, total * 10) + total - 1) / total - 1;
    result := rows + columns + blocks + k * PENALTY_N4;
    if n % 2 == 1 {
      OddSquare(n);
      LevelExists(black, total);
    }
  }

  // ----- The score stays far below the initial minimum of the mask search -----

  lemma {:induction false} RunScoreBound(line: seq<bool>)
    ensures RunScore(RunList(line)) <= 3 * |line|
    ensures |RunList(line)| <= |line| + 1
  {
    hide RunScore;
    if line == [] {
      assert RunScore([0]) == 0 by { RunScoreSnoc([], 0); assert [] + [0] == [0]; NoRuns(); }
    } else {
      var n := |line| - 1;
      RunScoreBound(line[..n]);
      RunScoreStep(RunList(line[..n]), line[n]);
    }
  }

  lemma NoRuns()
    ensures RunScore([]) == 0
  {
  }

  lemma {:induction false} RunScoreStep(runs: seq<nat>, color: bool)
    requires |runs| > 0
    ensures var more := AddModule(runs, color);
            var last := more[|more| - 1];
            RunScore(more) == RunScore(runs) + if last == 5 then 3 else if last > 5 then 1 else 0
  {
    hide RunScore;
    var k := |runs| - 1;
    if color == RunColor(k) {
      RunScoreSnoc(runs[..k], runs[k]);
      RunScoreSnoc(runs[..k], runs[k] + 1);
      assert runs == runs[..k] + [runs[k]];
    } else {
      RunScoreSnoc(runs, 1);
    }
  }

  lemma {:induction false} FinderBound(runs: seq<nat>)
    ensures FinderCount(runs) <= 2 * |runs|
  {
    if |runs| >= 7 {
      FinderBound(runs[..|runs| - 1]);
    }
  }

  lemma LineBound(line: seq<bool>)
    ensures LineScore(line) <= 83 * |line| + 160
  {
    hide RunScore, FinderCount, RunList;
    RunScoreBound(line);
    FinderBound(Bordered(RunList(line), |line|));
  }

  lemma {:induction false} RowsBound(g: Grid, n: nat, k: nat)
    requires IsSquare(g, n) && k <= n
    ensures RowsScore(g, k) <= k * (83 * n + 160) && ColumnsScore(g, n, k) <= k * (83 * n + 160)
  {
    hide LineScore;
    if k > 0 {
      RowsBound(g, n, k - 1);
      LineBound(g[k - 1]);
      LineBound(Column(g, n, k - 1));
      assert k * (83 * n + 160) == (k - 1) * (83 * n + 160) + (83 * n + 160);
    }
  }

  lemma {:induction false} BlocksInRowBound(g: Grid, n: nat, y: int, k: nat)
    requires IsSquare(g, n) && 0 <= y < n - 1 && k <= n - 1
    ensures BlocksInRow(g, n, y, k) <= k
  {
    if k > 0 {
      BlocksInRowBound(g, n, y, k - 1);
    }
  }

  lemma {:induction false} BlocksBound(g: Grid, n: nat, k: nat)
    requires IsSquare(g, n) && k <= n - 1
    ensures Blocks(g, n, k) <= k * n
  {
    if k > 0 {
      BlocksBound(g, n, k - 1);
      BlocksInRowBound(g, n, k - 1, n - 1);
      assert k * n == (k - 1) * n + n;
    }
  }

  /** For the sizes of QR Codes every score is far below 2^31 - 1, so the first mask tried becomes the minimum. */
  lemma ScoreBound(g: Grid, n: nat)
    requires 0 < n <= 177 && IsSquare(g, n)
    ensures Score(g, n) < 0x7FFF_FFFF
  {
    hide RowsScore, ColumnsScore, Blocks, Black;
    RowsBound(g, n, n);
    BlocksBound(g, n, n - 1);
    assert n * (83 * n + 160) <= 177 * (83 * 177 + 160);
    assert (n - 1) * n <= 177 * 177;
    BalanceBound(Black(g, n, n), n * n);
  }

  lemma {:induction false} BalanceBound(black: int, total: int)
    requires total > 0 && 0 <= black <= total
    ensures BalanceLevel(black, total) <= 10
  {
    DivBelow(Difference(black * 20, total * 10) + total - 1, 11, total);
  }
}
