/** Square grids of modules, as mutable arrays and as values. */
module Grids {

  /** A grid as a value: its rows from top to bottom. */
  type Grid = seq<seq<bool>>

  predicate IsSquare(g: Grid, n: nat) {
    |g| == n && forall y :: 0 <= y < n ==> |g[y]| == n
  }

  /** The value held by an array. */
  function Value(a: array2<bool>): (g: Grid)
    requires a.Length0 == a.Length1
    reads a
    ensures IsSquare(g, a.Length0)
    ensures forall y, x {:trigger g[y][x]} :: 0 <= y < a.Length0 && 0 <= x < a.Length0 ==> g[y][x] == a[y, x]
  {
    seq(a.Length0, y requires 0 <= y < a.Length0 reads a => seq(a.Length1, x requires 0 <= x < a.Length1 reads a => a[y, x]))
  }

  /** The grid given by a color for every module. */
  function Paint(n: nat, color: (int, int) -> bool): (g: Grid)
    ensures IsSquare(g, n)
    ensures forall y, x {:trigger g[y][x]} :: 0 <= y < n && 0 <= x < n ==> g[y][x] == color(x, y)
  {
    seq(n, y requires 0 <= y < n => seq(n, x requires 0 <= x < n => color(x, y)))
  }

  lemma SameGrid(g: Grid, h: Grid, n: nat)
    requires IsSquare(g, n) && IsSquare(h, n)
    requires forall y, x :: 0 <= y < n && 0 <= x < n ==> g[y][x] == h[y][x]
    ensures g == h
  {
    forall y | 0 <= y < n
      ensures g[y] == h[y]
    {
    }
  }
}
