/**
  Reed-Solomon error correction: the divisor and remainder loops, that they are the generator
  polynomial and polynomial division, and what that buys: every block is a codeword, the
  remainder is the only tail that makes it one, and errors up to half the degree are decodable.
*/
module ReedSolomon {
  import opened GaloisField
  import opened Polynomials
  import opened Outcomes

  /** p times (x - a). */
  function TimesRoot(p: Poly, a: Byte): (r: Poly)
    ensures |r| == |p| + 1
  {
    Sum(p + [ZERO], [ZERO] + Scale(a, p))
  }

  /** (x - 2^0)(x - 2^1)...(x - 2^(n-1)), all n + 1 coefficients. */
  function Generator(n: nat): (g: Poly)
    ensures |g| == n + 1
  {
    if n == 0 then [ONE] else TimesRoot(Generator(n - 1), Power(TWO, n - 1))
  }

  lemma EvalTimesRoot(p: Poly, a: Byte, x: Byte)
    ensures Eval(TimesRoot(p, a), x) == Mul(Eval(p, x), Add(x, a))
  {
    hide Mul, Add, Eval;
    var e := Eval(p, x);
    EvalSum(p + [ZERO], [ZERO] + Scale(a, p), x);
    EvalShift(p, ZERO, x);
    AddLaws(Mul(e, x), ZERO, ZERO);
    assert [ZERO] == Zeros(1);
    EvalLeadingZeros(1, Scale(a, p), x);
    EvalScale(a, p, x);
    MulCommutes(a, e);
    MulDistributes(e, x, a);
  }

  lemma {:induction false} GeneratorLeads(n: nat)
    ensures Generator(n)[0] == ONE
  {
    if n != 0 {
      GeneratorLeads(n - 1);
      AddLaws(ONE, ZERO, ZERO);
    }
  }

  /** The roots of the generator polynomial are 2^0, ..., 2^(n-1) and nothing else. */
  lemma {:induction false} GeneratorRoots(n: nat, x: Byte)
    ensures Eval(Generator(n), x) == ZERO <==> exists k: nat :: k < n && x == Power(TWO, k)
  {
    hide Mul, Add, Eval;
    if n == 0 {
      EvalSingleton(ONE, x);
    } else {
      GeneratorRoots(n - 1, x);
      var a := Power(TWO, n - 1);
      EvalTimesRoot(Generator(n - 1), a, x);
      AddIsZero(x, a);
      MulZero(Add(x, a));
      MulZero(Eval(Generator(n - 1), x));
      if Eval(Generator(n), x) == ZERO {
        NoZeroDivisors(Eval(Generator(n - 1), x), Add(x, a));
        if Eval(Generator(n - 1), x) == ZERO {
          var k: nat :| k < n - 1 && x == Power(TWO, k);
          assert k < n && x == Power(TWO, k);
        } else {
          assert x == Power(TWO, n - 1);
        }
      }
      if exists k: nat :: k < n && x == Power(TWO, k) {
        var k: nat :| k < n && x == Power(TWO, k);
        assert k < n - 1 || k == n - 1;
      }
    }
  }

  /** One step of long division by the monic polynomial [ONE] + divisor. */
  function RemainderStep(rem: Poly, b: Byte, divisor: Poly): (r: Poly)
    requires |rem| == |divisor| > 0
    ensures |r| == |divisor|
  {
    Sum(rem[1..] + [ZERO], Scale(Add(b, rem[0]), divisor))
  }

  function Remainder(data: Poly, divisor: Poly): (r: Poly)
    requires |divisor| > 0
    ensures |r| == |divisor|
  {
    if data == [] then Zeros(|divisor|)
    else RemainderStep(Remainder(data[..|data| - 1], divisor), data[|data| - 1], divisor)
  }

  function Quotient(data: Poly, divisor: Poly): (q: Poly)
    requires |divisor| > 0
    ensures |q| == |data|
  {
    if data == [] then []
    else
      var n := |data| - 1;
      Quotient(data[..n], divisor) + [Add(data[n], Remainder(data[..n], divisor)[0])]
  }

  lemma DivisionStep(init: Poly, b: Byte, rem: Poly, f: Byte, divisor: Poly)
    requires |rem| == |divisor| > 0 && f == Add(b, rem[0])
    ensures var n := |init|;
            init + [b] + Sum(rem[1..] + [ZERO], Scale(f, divisor))
            == Sum(init + rem + [ZERO], Zeros(n) + Scale(f, [ONE] + divisor))
  {
    hide Mul, Add;
    var n, d := |init|, |divisor|;
    var left, right := init + rem + [ZERO], Zeros(n) + Scale(f, [ONE] + divisor);
    assert Scale(f, [ONE] + divisor) == [f] + Scale(f, divisor) by { MulIdentity(f); }
    var whole := init + [b] + Sum(rem[1..] + [ZERO], Scale(f, divisor));
    forall i | 0 <= i < n + 1 + d
      ensures whole[i] == Sum(left, right)[i]
    {
      if i < n {
        AddLaws(init[i], ZERO, ZERO);
      } else if i == n {
        AddLaws(rem[0], f, f);
        AddLaws(b, rem[0], rem[0]);
        AddLaws(b, ZERO, ZERO);
        AddLaws(rem[0], b, rem[0]);
      }
    }
  }

  /** The remainder loop is polynomial division: data * x^degree + remainder == quotient * divisor. */
  lemma {:induction false} DivisionIdentity(data: Poly, divisor: Poly)
    requires |divisor| > 0
    ensures data + Remainder(data, divisor) == Product(Quotient(data, divisor), [ONE] + divisor)
  {
    hide Mul, Add, Scale, Sum;
    var d := |divisor|;
    var g := [ONE] + divisor;
    if data == [] {
      assert data + Zeros(d) == Zeros(d);
    } else {
      var n := |data| - 1;
      var init, b := data[..n], data[n];
      DivisionIdentity(init, divisor);
      var rem, q := Remainder(init, divisor), Quotient(init, divisor);
      var f := Add(b, rem[0]);
      assert Quotient(data, divisor)[..n] == q;
      DivisionStep(init, b, rem, f, divisor);
      assert data == init + [b];
    }
  }

  /** A block as it is stored: the data bytes, then the error correction bytes. */
  function Encode(data: Poly, degree: nat): (block: Poly)
    requires degree > 0
    ensures |block| == |data| + degree && block[..|data|] == data
  {
    data + Remainder(data, Generator(degree)[1..])
  }

  lemma EncodeTail(data: Poly, degree: nat)
    requires degree > 0
    ensures Encode(data, degree)[|data|..] == Remainder(data, Generator(degree)[1..])
  {
    hide Remainder, Generator;
  }

  /** Data followed by its remainder vanishes at 2^0, ..., 2^(degree-1). */
  lemma EncodeGivesCodeword(data: Poly, degree: nat)
    requires degree > 0
    ensures VanishesAtPowers(Encode(data, degree), degree)
  {
    hide Mul, Add, Eval, Power;
    var divisor := Generator(degree)[1..];
    GeneratorLeads(degree);
    assert [ONE] + divisor == Generator(degree);
    DivisionIdentity(data, divisor);
    forall k: nat | k < degree
      ensures Eval(Encode(data, degree), Power(TWO, k)) == ZERO
    {
      var x := Power(TWO, k);
      EvalProduct(Quotient(data, divisor), Generator(degree), x);
      GeneratorRoots(degree, x);
      MulZero(Eval(Quotient(data, divisor), x));
    }
  }

  /** In a block of at most 255 bytes, only the computed bytes turn the data into a codeword. */
  lemma EncodeIsOnlyCodeword(data: Poly, block: Poly, degree: nat)
    requires degree > 0 && |block| == |data| + degree <= 255 && block[..|data|] == data
    ensures VanishesAtPowers(block, degree) <==> block == Encode(data, degree)
  {
    hide Mul, Add, Eval, Power, Encode;
    var code := Encode(data, degree);
    EncodeGivesCodeword(data, degree);
    if VanishesAtPowers(block, degree) && block != code {
      MinimumDistance(block, code, degree);
      assert block == data + block[|data|..] && code == data + code[|data|..];
      DistanceOfTails(data, block[|data|..], code[|data|..]);
      DistanceBound(block[|data|..], code[|data|..]);
      assert false;
    }
  }

  lemma {:induction false} DistanceOfTails(head: Poly, p: Poly, q: Poly)
    requires |p| == |q|
    ensures Distance(head + p, head + q) == Distance(p, q)
  {
    if head == [] {
      assert head + p == p && head + q == q;
    } else {
      DistanceOfTails(head[1..], p, q);
      assert (head + p)[1..] == head[1..] + p && (head + q)[1..] == head[1..] + q;
    }
  }

  lemma {:induction false} DistanceBound(p: Poly, q: Poly)
    requires |p| == |q|
    ensures Distance(p, q) <= |p|
  {
    if p != [] {
      DistanceBound(p[1..], q[1..]);
    }
  }

  /**
    Error correction: a received block with at most degree/2 wrong bytes belongs to one data block
    only.
  */
  lemma ErrorsAreCorrectable(received: Poly, d1: Poly, d2: Poly, degree: nat)
    requires degree > 0 && |d1| == |d2| && |received| == |d1| + degree <= 255
    requires 2 * Distance(received, Encode(d1, degree)) <= degree
    requires 2 * Distance(received, Encode(d2, degree)) <= degree
    ensures d1 == d2
  {
    hide Mul, Add, Eval, Power, Encode, Distance;
    var c1, c2 := Encode(d1, degree), Encode(d2, degree);
    EncodeGivesCodeword(d1, degree);
    EncodeGivesCodeword(d2, degree);
    DistanceLaws(c1, received, c2);
    if c1 != c2 {
      MinimumDistance(c1, c2, degree);
      assert false;
    }
  }

  // ----- The encoder's loops -----

  /** The inner loop of the divisor computation: multiply by (x - root), dropping the leading term. */
  method MultiplyByRoot(result: array<Byte>, root: Byte)
    modifies result
    ensures result[..] == TimesRoot(old(result[..]), root)[1..]
  {
    var j := 0;
    while j < result.Length
      invariant 0 <= j <= result.Length
      invariant forall k :: 0 <= k < j ==> result[k] == TimesRoot(old(result[..]), root)[k + 1]
      invariant forall k :: j <= k < result.Length ==> result[k] == old(result[k])
    {
      hide Mul, Add;
      var scaled := Multiply(result[j], root);
      MulCommutes(result[j], root);
      AddLaws(scaled, ZERO, ZERO);
      if j + 1 < result.Length {
        AddLaws(result[j + 1], scaled, ZERO);
        result[j] := Add(scaled, result[j + 1]);
      } else {
        result[j] := scaled;
      }
      j := j + 1;
    }
  }

  lemma PowerNext(i: nat)
    ensures Power(TWO, 0) == ONE && Power(TWO, i + 1) == Mul(Power(TWO, i), TWO)
  {
    hide Mul;
  }

  /** reedSolomonComputeDivisor: the generator polynomial without its leading 1. */
  method ComputeDivisor(degree: int) returns (r: Outcome<Poly>)
    ensures r.Failure? <==> degree < 1 || degree > 255
    ensures r.Success? ==> r.value == Generator(degree)[1..]
  {
    hide PaddedGenerator, Generator, Power, Mul, TimesRoot;
    if degree < 1 || degree > 255 {
      return Failure(DomainError);
    }
    PowerNext(0);
    var result := new Byte[degree](_ => ZERO);
    result[result.Length - 1] := ONE;
    var root := ONE;
    var i := 0;
    assert result[..] == Zeros(degree - 1) + [ONE];
    PaddedGeneratorTail(degree, 0);
    while i < degree
      invariant 0 <= i <= degree
      invariant result[..] == PaddedGenerator(degree, i)[1..]
      invariant root == Power(TWO, i)
    {
      MultiplyByRoot(result, root);
      PaddedGeneratorStep(degree, i);
      PowerNext(i);
      root := Multiply(root, TWO);
      i := i + 1;
    }
    PaddedGeneratorTail(degree, degree);
    return Success(result[..]);
  }

  /** The first i factors of the product, padded with zeros to degree + 1 coefficients. */
  function PaddedGenerator(degree: nat, i: nat): (p: Poly)
    requires i <= degree
    ensures |p| == degree + 1
  {
    Zeros(degree - i) + Generator(i)
  }

  lemma PaddedGeneratorTail(degree: nat, i: nat)
    requires i <= degree && degree > 0
    ensures i == 0 ==> PaddedGenerator(degree, i)[1..] == Zeros(degree - 1) + [ONE]
    ensures i == degree ==> PaddedGenerator(degree, i)[1..] == Generator(degree)[1..]
  {
    if i == degree {
      assert Zeros(0) + Generator(degree) == Generator(degree);
    }
  }

  lemma PaddedGeneratorStep(degree: nat, i: nat)
    requires i < degree
    ensures TimesRoot(PaddedGenerator(degree, i)[1..], Power(TWO, i))[1..] == PaddedGenerator(degree, i + 1)[1..]
  {
    hide Mul, Add;
    var n, g, a := degree - i - 1, Generator(i), Power(TWO, i);
    assert PaddedGenerator(degree, i)[1..] == Zeros(n) + g;
    var l, r := TimesRoot(Zeros(n) + g, a), Zeros(n) + TimesRoot(g, a);
    forall k | 0 <= k < n + i + 2
      ensures l[k] == r[k]
    {
      MulZero(a);
      AddLaws(ZERO, ZERO, ZERO);
      if k == n {
        if n > 0 { assert ([ZERO] + Scale(a, Zeros(n) + g))[k] == ZERO; }
      }
    }
    assert l == r;
  }

  /** The inner loop of the division: result + factor * divisor. */
  method AddMultiple(initial: Poly, factor: Byte, divisor: Poly) returns (result: Poly)
    requires |initial| == |divisor|
    ensures result == Sum(initial, Scale(factor, divisor))
  {
    result := initial;
    var i := 0;
    while i < |result|
      invariant 0 <= i <= |result| == |divisor|
      invariant forall k :: 0 <= k < i ==> result[k] == Add(initial[k], Mul(factor, divisor[k]))
      invariant forall k :: i <= k < |result| ==> result[k] == initial[k]
    {
      hide Mul, Add;
      var product := Multiply(divisor[i], factor);
      MulCommutes(divisor[i], factor);
      result := result[i := Add(result[i], product)];
      i := i + 1;
    }
  }

  /** reedSolomonComputeRemainder: polynomial division, byte by byte. */
  method ComputeRemainder(data: Poly, divisor: Poly) returns (r: Outcome<Poly>)
    ensures r.Failure? <==> data != [] && divisor == []
    ensures r.Success? && divisor != [] ==> r.value == Remainder(data, divisor)
    ensures r.Success? && divisor == [] ==> r.value == []
  {
    if divisor == [] {
      // result.at(0) throws on the first data byte
      return if data == [] then Success([]) else Failure(LogicError);
    }
    var result := Zeros(|divisor|);
    var n := 0;
    while n < |data|
      invariant 0 <= n <= |data|
      invariant result == Remainder(data[..n], divisor)
    {
      ghost var before := result;
      var factor := Add(data[n], result[0]);
      result := AddMultiple(result[1..] + [ZERO], factor, divisor);
      assert result == RemainderStep(before, data[n], divisor);
      assert data[..n + 1][..n] == data[..n];
      n := n + 1;
    }
    assert data[..|data|] == data;
    return Success(result);
  }
}
