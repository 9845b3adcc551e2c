/**
  Polynomials over GF(2^8)/0x11D.  A polynomial is the sequence of its coefficients, highest power
  first, which is also how the encoder stores data, divisors and remainders.
*/
module Polynomials {
  import opened GaloisField

  type Poly = seq<Byte>

  /** The value of p at x, by Horner's rule. */
  function Eval(p: Poly, x: Byte): Byte {
    if p == [] then ZERO else Add(Mul(Eval(p[..|p| - 1], x), x), p[|p| - 1])
  }

  function Zeros(n: nat): (p: Poly)
    ensures |p| == n
  {
    seq(n, _ => ZERO)
  }

  /** Sum of two polynomials written with the same number of coefficients. */
  function Sum(p: Poly, q: Poly): (r: Poly)
    requires |p| == |q|
    ensures |r| == |p|
  {
    seq(|p|, i requires 0 <= i < |p| => Add(p[i], q[i]))
  }

  function Scale(c: Byte, p: Poly): (r: Poly)
    ensures |r| == |p|
  {
    seq(|p|, i requires 0 <= i < |p| => Mul(c, p[i]))
  }

  /** Product of p with the nonempty q, of length |p| + |q| - 1: one shifted multiple of q per coefficient of p. */
  function Product(p: Poly, q: Poly): (r: Poly)
    requires |q| > 0
    ensures |r| == |p| + |q| - 1
  {
    if p == [] then Zeros(|q| - 1)
    else Sum(Product(p[..|p| - 1], q) + [ZERO], Zeros(|p| - 1) + Scale(p[|p| - 1], q))
  }

  lemma {:induction false} EvalZeros(n: nat, x: Byte)
    ensures Eval(Zeros(n), x) == ZERO
  {
    hide Mul, Add;
    if n != 0 {
      assert Zeros(n)[..n - 1] == Zeros(n - 1);
      EvalZeros(n - 1, x);
      MulZero(x);
      AddLaws(ZERO, ZERO, ZERO);
    }
  }

  lemma {:induction false} EvalConcat(p: Poly, q: Poly, x: Byte)
    ensures Eval(p + q, x) == Add(Mul(Eval(p, x), Power(x, |q|)), Eval(q, x))
  {
    hide Mul, Add;
    var e := Eval(p, x);
    if q == [] {
      assert p + q == p;
      MulIdentity(e);
      AddLaws(e, ZERO, ZERO);
    } else {
      var n := |q| - 1;
      assert (p + q)[..|p| + n] == p + q[..n];
      EvalConcat(p, q[..n], x);
      hide Eval;
      var f := Eval(q[..n], x);
      MulDistributes(x, Mul(e, Power(x, n)), f);
      MulAssociates(e, Power(x, n), x);
      AddLaws(Mul(e, Power(x, n + 1)), Mul(f, x), q[n]);
    }
  }

  lemma EvalSingleton(c: Byte, x: Byte)
    ensures Eval([c], x) == c
  {
    MulZero(x);
    AddLaws(c, ZERO, ZERO);
    assert Eval([c][..0], x) == ZERO;
  }

  lemma {:induction false} EvalSum(p: Poly, q: Poly, x: Byte)
    requires |p| == |q|
    ensures Eval(Sum(p, q), x) == Add(Eval(p, x), Eval(q, x))
  {
    hide Mul, Add;
    AddLaws(ZERO, ZERO, ZERO);
    if p != [] {
      var n := |p| - 1;
      assert Sum(p, q)[..n] == Sum(p[..n], q[..n]);
      EvalSum(p[..n], q[..n], x);
      MulDistributes(x, Eval(p[..n], x), Eval(q[..n], x));
      AddShuffle(Mul(Eval(p[..n], x), x), Mul(Eval(q[..n], x), x), p[n], q[n]);
    }
  }

  lemma {:induction false} EvalScale(c: Byte, p: Poly, x: Byte)
    ensures Eval(Scale(c, p), x) == Mul(c, Eval(p, x))
  {
    hide Mul, Add;
    MulZero(c);
    if p != [] {
      var n := |p| - 1;
      assert Scale(c, p)[..n] == Scale(c, p[..n]);
      EvalScale(c, p[..n], x);
      MulAssociates(c, Eval(p[..n], x), x);
      MulDistributes(c, Mul(Eval(p[..n], x), x), p[n]);
    }
  }

  lemma EvalLeadingZeros(n: nat, p: Poly, x: Byte)
    ensures Eval(Zeros(n) + p, x) == Eval(p, x)
  {
    hide Mul, Add;
    EvalConcat(Zeros(n), p, x);
    EvalZeros(n, x);
    MulZero(Power(x, |p|));
    AddLaws(Eval(p, x), ZERO, ZERO);
  }

  lemma EvalShift(p: Poly, c: Byte, x: Byte)
    ensures Eval(p + [c], x) == Add(Mul(Eval(p, x), x), c)
  {
    hide Mul, Add;
    assert (p + [c])[..|p|] == p;
  }

  /** Evaluation turns the product of polynomials into the field product. */
  lemma {:induction false} EvalProduct(p: Poly, q: Poly, x: Byte)
    requires |q| > 0
    ensures Eval(Product(p, q), x) == Mul(Eval(p, x), Eval(q, x))
  {
    hide Mul, Add, Eval;
    if p == [] {
      EvalZeros(|q| - 1, x);
      EvalZeros(0, x);
      assert p == Zeros(0);
      MulZero(Eval(q, x));
    } else {
      var n := |p| - 1;
      var m, c := p[..n], p[n];
      EvalProduct(m, q, x);
      var a, b := Product(m, q) + [ZERO], Zeros(n) + Scale(c, q);
      EvalSum(a, b, x);
      EvalShift(Product(m, q), ZERO, x);
      EvalLeadingZeros(n, Scale(c, q), x);
      EvalScale(c, q, x);
      assert m + [c] == p;
      EvalShift(m, c, x);
      var e, f := Eval(m, x), Eval(q, x);
      AddLaws(Mul(Mul(e, f), x), ZERO, ZERO);
      MulDistributes(f, Mul(e, x), c);
      MulAssociates(e, f, x);
      MulCommutes(f, x);
      MulAssociates(e, x, f);
    }
  }

  // ----- Roots and weights -----

  /** p vanishes at 2^0, ..., 2^(n-1). */
  ghost predicate VanishesAtPowers(p: Poly, n: nat) {
    forall k: nat :: k < n ==> Eval(p, Power(TWO, k)) == ZERO
  }

  /** The number of positions at which two words differ. */
  function Distance(p: Poly, q: Poly): nat
    requires |p| == |q|
  {
    if p == [] then 0 else (if p[0] != q[0] then 1 else 0) + Distance(p[1..], q[1..])
  }

  lemma {:induction false} DistanceLaws(p: Poly, q: Poly, r: Poly)
    requires |p| == |q| == |r|
    ensures Distance(p, q) == Distance(q, p)
    ensures Distance(p, r) <= Distance(p, q) + Distance(q, r)
    ensures Distance(p, q) == 0 <==> p == q
  {
    if p != [] {
      DistanceLaws(p[1..], q[1..], r[1..]);
      assert p == [p[0]] + p[1..] && q == [q[0]] + q[1..];
    }
  }

  /** A power sum c1*2^(e1*k) + c2*2^(e2*k) + ..., as a list of (c, e). */
  datatype Term = Term(coefficient: Byte, exponent: nat)

  function PowerSum(terms: seq<Term>, k: nat): Byte {
    if terms == [] then ZERO
    else Add(Mul(terms[0].coefficient, Power(TWO, terms[0].exponent * k)), PowerSum(terms[1..], k))
  }

  /** The nonzero terms of a polynomial. */
  function Support(p: Poly): (terms: seq<Term>) {
    if p == [] then []
    else (if p[0] == ZERO then [] else [Term(p[0], |p| - 1)]) + Support(p[1..])
  }

  ghost predicate DistinctExponents(terms: seq<Term>, bound: nat) {
    && (forall i :: 0 <= i < |terms| ==> terms[i].exponent < bound)
    && (forall i, j :: 0 <= i < j < |terms| ==> terms[i].exponent != terms[j].exponent)
  }

  lemma {:induction false} PowerPower(a: Byte, m: nat, n: nat)
    ensures Power(Power(a, m), n) == Power(a, m * n)
  {
    hide Mul, Power;
    if n == 0 {
      PowerSmall(Power(a, m));
      PowerSmall(a);
      assert m * n == 0;
    } else {
      PowerPower(a, m, n - 1);
      assert m * n == m * (n - 1) + m;
      PowerAdd(a, m * (n - 1), m);
      PowerAdd(Power(a, m), n - 1, 1);
      PowerSmall(Power(a, m));
    }
  }

  /** Evaluating at 2^k is the k-th power sum of the nonzero terms. */
  lemma {:induction false} EvalAsPowerSum(p: Poly, k: nat)
    ensures Eval(p, Power(TWO, k)) == PowerSum(Support(p), k)
  {
    hide Mul, Add, Power;
    if p != [] {
      var x := Power(TWO, k);
      var rest := p[1..];
      assert p == [p[0]] + rest;
      EvalAsPowerSum(rest, k);
      EvalConcat([p[0]], rest, x);
      EvalSingleton(p[0], x);
      hide Eval;
      PowerPower(TWO, k, |rest|);
      assert k * |rest| == |rest| * k;
      if p[0] == ZERO {
        MulZero(Power(x, |rest|));
        AddLaws(Eval(rest, x), ZERO, ZERO);
        assert [] + Support(rest) == Support(rest);
      } else {
        assert ([Term(p[0], |p| - 1)] + Support(rest))[1..] == Support(rest);
      }
    }
  }

  lemma {:induction false} SupportExponents(p: Poly)
    ensures DistinctExponents(Support(p), |p|)
  {
    if p != [] {
      SupportExponents(p[1..]);
    }
  }

  lemma {:induction false} SupportSize(p: Poly, q: Poly)
    requires |p| == |q|
    ensures |Support(Sum(p, q))| == Distance(p, q)
  {
    hide Add;
    if p != [] {
      SupportSize(p[1..], q[1..]);
      assert Sum(p, q)[1..] == Sum(p[1..], q[1..]);
      AddIsZero(p[0], q[0]);
    }
  }

  lemma AddIsZero(a: Byte, b: Byte)
    ensures Add(a, b) == ZERO <==> a == b
  {
    hide Add;
    AddLaws(a, b, b);
    AddLaws(a, a, b);
    AddLaws(b, ZERO, ZERO);
  }

  // ----- Distinct locators: power sums that vanish have no terms -----

  /** The terms whose k-th power sum is PowerSum(k+1) - a*PowerSum(k). */
  function Eliminate(terms: seq<Term>, a: Byte): (r: seq<Term>)
    ensures |r| == |terms|
  {
    seq(|terms|, i requires 0 <= i < |terms| =>
      Term(Mul(terms[i].coefficient, Add(Power(TWO, terms[i].exponent), a)), terms[i].exponent))
  }

  lemma EliminateTerm(c: Byte, a: Byte, e: nat, k: nat)
    ensures Mul(Mul(c, Add(Power(TWO, e), a)), Power(TWO, e * k))
         == Add(Mul(c, Power(TWO, e * (k + 1))), Mul(a, Mul(c, Power(TWO, e * k))))
  {
    hide Mul, Add, Power;
    var x, y := Power(TWO, e), Power(TWO, e * k);
    assert e * (k + 1) == e + e * k;
    PowerAdd(TWO, e, e * k);
    MulDistributes(c, x, a);
    MulDistributes(y, Mul(c, x), Mul(c, a));
    MulAssociates(c, x, y);
    MulCommutes(c, a);
    MulAssociates(a, c, y);
  }

  lemma {:induction false} PowerSumEliminate(terms: seq<Term>, a: Byte, k: nat)
    ensures PowerSum(Eliminate(terms, a), k) == Add(PowerSum(terms, k + 1), Mul(a, PowerSum(terms, k)))
  {
    hide Mul, Add, Power;
    if terms == [] {
      MulZero(a);
      AddLaws(ZERO, ZERO, ZERO);
    } else {
      var t, rest := terms[0], terms[1..];
      PowerSumEliminate(rest, a, k);
      assert Eliminate(terms, a)[1..] == Eliminate(rest, a);
      EliminateTerm(t.coefficient, a, t.exponent, k);
      var u, v := Mul(t.coefficient, Power(TWO, t.exponent * (k + 1))), Mul(t.coefficient, Power(TWO, t.exponent * k));
      MulDistributes(a, v, PowerSum(rest, k));
      AddShuffle(u, Mul(a, v), PowerSum(rest, k + 1), Mul(a, PowerSum(rest, k)));
    }
  }

  ghost predicate PowerSumsVanish(terms: seq<Term>, n: nat) {
    forall k: nat :: k < n ==> PowerSum(terms, k) == ZERO
  }

  lemma EliminateFirst(terms: seq<Term>)
    requires terms != [] && PowerSumsVanish(terms, |terms|)
    ensures PowerSumsVanish(Eliminate(terms[1..], Power(TWO, terms[0].exponent)), |terms| - 1)
  {
    hide Mul, Add, Power;
    var a, c := Power(TWO, terms[0].exponent), terms[0].coefficient;
    var reduced := Eliminate(terms[1..], a);
    forall k: nat | k < |terms| - 1
      ensures PowerSum(reduced, k) == ZERO
    {
      PowerSumEliminate(terms, a, k);
      MulZero(a);
      AddLaws(ZERO, ZERO, ZERO);
      assert Eliminate(terms, a)[1..] == reduced;
      AddLaws(a, a, a);
      MulZero(c);
      MulZero(Power(TWO, terms[0].exponent * k));
      AddLaws(PowerSum(reduced, k), ZERO, ZERO);
    }
  }

  /** Fewer terms with distinct exponents below 255 than vanishing power sums: all are zero. */
  lemma {:induction false} VanishingPowerSums(terms: seq<Term>)
    requires DistinctExponents(terms, 255) && PowerSumsVanish(terms, |terms|)
    ensures forall i :: 0 <= i < |terms| ==> terms[i].coefficient == ZERO
    decreases |terms|
  {
    hide Mul, Add, Power;
    if terms != [] {
      var a, rest := Power(TWO, terms[0].exponent), terms[1..];
      EliminateFirst(terms);
      var reduced := Eliminate(rest, a);
      VanishingPowerSums(reduced);
      forall i | 0 <= i < |rest|
        ensures rest[i].coefficient == ZERO
      {
        assert reduced[i].coefficient == ZERO;
        var b := Power(TWO, rest[i].exponent);
        NoZeroDivisors(rest[i].coefficient, Add(b, a));
        AddIsZero(b, a);
        DistinctPowers(rest[i].exponent, terms[0].exponent);
      }
      ZeroTerms(rest, 0);
      var c := terms[0].coefficient;
      assert terms[0].exponent * 0 == 0;
      PowerSmall(TWO);
      MulIdentity(c);
      AddLaws(c, ZERO, ZERO);
      assert PowerSum(terms, 0) == ZERO;
    }
  }

  lemma DistinctPowers(i: nat, j: nat)
    requires i < 255 && j < 255 && i != j
    ensures Power(TWO, i) != Power(TWO, j)
  {
    if i < j {
      PowersOfTwoDistinct(i, j);
    } else {
      PowersOfTwoDistinct(j, i);
    }
  }

  lemma {:induction false} ZeroTerms(terms: seq<Term>, k: nat)
    requires forall i :: 0 <= i < |terms| ==> terms[i].coefficient == ZERO
    ensures PowerSum(terms, k) == ZERO
  {
    hide Mul, Add, Power;
    if terms != [] {
      ZeroTerms(terms[1..], k);
      MulZero(Power(TWO, terms[0].exponent * k));
      AddLaws(ZERO, ZERO, ZERO);
    }
  }

  lemma {:induction false} SupportNonzero(p: Poly)
    ensures forall i :: 0 <= i < |Support(p)| ==> Support(p)[i].coefficient != ZERO
  {
    if p != [] {
      SupportNonzero(p[1..]);
    }
  }

  lemma DifferenceVanishes(p: Poly, q: Poly, n: nat, k: nat)
    requires |p| == |q| && k < n && VanishesAtPowers(p, n) && VanishesAtPowers(q, n)
    ensures PowerSum(Support(Sum(p, q)), k) == ZERO
  {
    hide Mul, Add, Power, Eval, Sum, Support, PowerSum;
    EvalAsPowerSum(Sum(p, q), k);
    EvalSum(p, q, Power(TWO, k));
    AddLaws(ZERO, ZERO, ZERO);
  }

  /** Two different words of at most 255 bytes that vanish at 2^0..2^(n-1) differ in more than n bytes. */
  lemma MinimumDistance(p: Poly, q: Poly, n: nat)
    requires |p| == |q| <= 255 && p != q
    requires VanishesAtPowers(p, n) && VanishesAtPowers(q, n)
    ensures Distance(p, q) > n
  {
    hide Mul, Add, Power, Eval, Sum, Support, PowerSum, Distance, VanishesAtPowers;
    if Distance(p, q) <= n {
      var terms := Support(Sum(p, q));
      SupportSize(p, q);
      SupportExponents(Sum(p, q));
      SupportNonzero(Sum(p, q));
      DistanceLaws(p, q, q);
      assert terms[0].coefficient != ZERO;
      forall k: nat | k < |terms|
        ensures PowerSum(terms, k) == ZERO
      {
        DifferenceVanishes(p, q, n, k);
      }
      VanishingPowerSums(terms);
    }
  }
}
