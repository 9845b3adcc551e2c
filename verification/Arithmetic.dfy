/** Division with a remainder, as needed to number cells row by row. */
module Arithmetic {

  lemma Distribute(x: int, y: int, n: int)
    ensures (x + y) * n == x * n + y * n
  {
  }

  lemma {:induction false} NonNegative(d: nat, n: nat)
    ensures d * n >= 0
  {
    if d > 0 {
      NonNegative(d - 1, n);
      Distribute(d - 1, 1, n);
    }
  }

  lemma Multiples(a: nat, b: nat, n: nat)
    requires a < b
    ensures a * n + n <= b * n
  {
    var d := b - a - 1;
    Distribute(a + 1, d, n);
    Distribute(a, 1, n);
    NonNegative(d, n);
    assert a + 1 + d == b;
  }

  lemma DivMod(i: nat, j: nat, n: nat)
    requires j < n
    ensures (i * n + j) / n == i && (i * n + j) % n == j
  {
    NonNegative(i, n);
    var t: nat := i * n + j;
    var q: nat := t / n;
    assert t == n * q + t % n;
    if q < i {
      Multiples(q, i, n);
    } else if q > i {
      Multiples(i, q, n);
    }
  }

  lemma DivBelow(t: nat, d: nat, n: nat)
    requires n > 0
    ensures t / n < d <==> t < d * n
    ensures t == (t / n) * n + t % n
  {
    var q := t / n;
    assert t == n * q + t % n;
    if q < d {
      Multiples(q, d, n);
    } else if q > d {
      Multiples(d, q, n);
    }
  }

  /** Quotient and remainder under names that proofs can hide. */
  function Quot(t: nat, m: nat): nat
    requires m > 0
  {
    t / m
  }

  function Rem(t: nat, m: nat): nat
    requires m > 0
  {
    t % m
  }

  lemma QuotRem(t: nat, d: nat, m: nat)
    requires m > 0
    ensures t == Quot(t, m) * m + Rem(t, m)
    ensures Rem(t, m) < m
    ensures Quot(t, m) < d <==> t < d * m
  {
    DivBelow(t, d, m);
  }

  lemma QuotRemOf(c: nat, r: nat, m: nat)
    requires r < m
    ensures Quot(c * m + r, m) == c && Rem(c * m + r, m) == r
  {
    DivMod(c, r, m);
  }
}
