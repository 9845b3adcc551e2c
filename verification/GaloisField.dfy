/**
  The field GF(2^8)/0x11D used by the error correction of QR Codes.

  A byte is its eight bits, most significant first, read as a polynomial over GF(2).  Every
  polynomial over GF(2), of any length, stands for a field element through Horner's rule
  (`Times`); the product of two elements is defined that way and shown to be a commutative field
  product.  `Multiply` is the encoder's own loop on machine integers.
*/
module GaloisField {
  import opened Arithmetic

  type Byte = b: seq<bool> | |b| == 8 witness [false, false, false, false, false, false, false, false]

  const ZERO: Byte := [false, false, false, false, false, false, false, false]
  const ONE: Byte := [false, false, false, false, false, false, false, true]
  const TWO: Byte := [false, false, false, false, false, false, true, false]
  const POLY: Byte := [false, false, false, true, true, true, false, true]

  /** Bitwise exclusive or of two bit strings of the same length. */
  function Xor(p: seq<bool>, q: seq<bool>): (r: seq<bool>)
    requires |p| == |q|
    ensures |r| == |p|
  {
    seq(|p|, i requires 0 <= i < |p| => p[i] != q[i])
  }

  /** Field addition, and subtraction: bitwise exclusive or. */
  function Add(a: Byte, b: Byte): Byte {
    Xor(a, b)
  }

  function Select(bit: bool, a: Byte): Byte {
    if bit then a else ZERO
  }

  /** The product with the polynomial x, reduced by x^8 + x^4 + x^3 + x^2 + 1. */
  function Xtime(a: Byte): Byte {
    Add(a[1..] + [false], Select(a[0], POLY))
  }

  /** a times the polynomial over GF(2) whose coefficients are p, highest power first. */
  function Times(a: Byte, p: seq<bool>): Byte {
    if p == [] then ZERO else Add(Xtime(Times(a, p[..|p| - 1])), Select(p[|p| - 1], a))
  }

  /** The field product. */
  function Mul(a: Byte, b: Byte): Byte {
    Times(a, b)
  }

  // ----- Addition -----

  lemma AddLaws(a: Byte, b: Byte, c: Byte)
    ensures Add(a, b) == Add(b, a)
    ensures Add(Add(a, b), c) == Add(a, Add(b, c))
    ensures Add(a, a) == ZERO && Add(a, ZERO) == a && Add(ZERO, a) == a
  {
  }

  lemma AddShuffle(a: Byte, b: Byte, c: Byte, d: Byte)
    ensures Add(Add(a, b), Add(c, d)) == Add(Add(a, c), Add(b, d))
  {
  }

  lemma SelectLaws(s: bool, t: bool, a: Byte, b: Byte)
    ensures Select(s, Add(a, b)) == Add(Select(s, a), Select(s, b))
    ensures Select(s != t, a) == Add(Select(s, a), Select(t, a))
  {
    hide Add;
    AddLaws(a, a, ZERO);
    AddLaws(ZERO, ZERO, ZERO);
  }

  lemma XtimeAdd(a: Byte, b: Byte)
    ensures Xtime(Add(a, b)) == Add(Xtime(a), Xtime(b))
    ensures Xtime(ZERO) == ZERO
  {
    SelectLaws(a[0], b[0], POLY, POLY);
    assert Add(a, b)[1..] + [false] == Add(a[1..] + [false], b[1..] + [false]);
    AddShuffle(a[1..] + [false], b[1..] + [false], Select(a[0], POLY), Select(b[0], POLY));
  }

  // ----- Times is linear in both arguments -----

  lemma TimesStep(a: Byte, p: seq<bool>, bit: bool)
    ensures Times(a, []) == ZERO
    ensures Times(a, p + [bit]) == Add(Xtime(Times(a, p)), Select(bit, a))
  {
    hide Add, Xtime, Select;
    assert (p + [bit])[..|p|] == p;
  }

  lemma {:induction false} TimesAdd(a: Byte, b: Byte, p: seq<bool>)
    ensures Times(Add(a, b), p) == Add(Times(a, p), Times(b, p))
  {
    hide Add, Xtime, Select;
    AddLaws(ZERO, ZERO, ZERO);
    if p != [] {
      var q, s := p[..|p| - 1], p[|p| - 1];
      TimesAdd(a, b, q);
      XtimeAdd(Times(a, q), Times(b, q));
      SelectLaws(s, s, a, b);
      AddShuffle(Xtime(Times(a, q)), Xtime(Times(b, q)), Select(s, a), Select(s, b));
    }
  }

  lemma {:induction false} TimesXor(a: Byte, p: seq<bool>, q: seq<bool>)
    requires |p| == |q|
    ensures Times(a, Xor(p, q)) == Add(Times(a, p), Times(a, q))
  {
    hide Add, Xtime, Select;
    AddLaws(ZERO, ZERO, ZERO);
    if p != [] {
      var n := |p| - 1;
      TimesXor(a, p[..n], q[..n]);
      assert Xor(p, q)[..n] == Xor(p[..n], q[..n]);
      XtimeAdd(Times(a, p[..n]), Times(a, q[..n]));
      SelectLaws(p[n], q[n], a, a);
      AddShuffle(Xtime(Times(a, p[..n])), Xtime(Times(a, q[..n])), Select(p[n], a), Select(q[n], a));
    }
  }

  lemma {:induction false} TimesXtime(a: Byte, p: seq<bool>)
    ensures Times(Xtime(a), p) == Xtime(Times(a, p))
  {
    hide Add, Xtime;
    XtimeAdd(ZERO, ZERO);
    if p != [] {
      var q, s := p[..|p| - 1], p[|p| - 1];
      TimesXtime(a, q);
      XtimeAdd(Xtime(Times(a, q)), Select(s, a));
    }
  }

  lemma {:induction false} TimesZero(p: seq<bool>)
    ensures Times(ZERO, p) == ZERO
  {
    hide Add, Xtime;
    if p != [] {
      TimesZero(p[..|p| - 1]);
      XtimeAdd(ZERO, ZERO);
      AddLaws(ZERO, ZERO, ZERO);
    }
  }

  lemma TimesNothing(a: Byte, n: nat)
    ensures Times(a, seq(n, _ => false)) == ZERO
  {
    hide Add, Xtime;
    if n != 0 {
      TimesNothing(a, n - 1);
      assert seq(n, _ => false)[..n - 1] == seq(n - 1, _ => false);
      XtimeAdd(ZERO, ZERO);
      AddLaws(ZERO, ZERO, ZERO);
    }
  }

  lemma DoubleSmall(z: Byte, bit: bool)
    requires !z[0]
    ensures Add(Xtime(z), Select(bit, ONE)) == z[1..] + [bit]
  {
    AddLaws(z[1..] + [false], ZERO, ZERO);
    assert Xtime(z) == z[1..] + [false];
    hide Xtime;
  }

  /** Horner's rule on 1 rebuilds a byte from its leading bits. */
  lemma {:induction false} TimesOne(a: Byte, n: nat)
    requires n <= 8
    ensures Times(ONE, a[..n]) == seq(8 - n, _ => false) + a[..n]
  {
    hide Times, Add, Xtime, Select;
    if n == 0 {
      TimesStep(ONE, [], false);
      assert a[..0] == [];
    } else {
      TimesOne(a, n - 1);
      assert a[..n] == a[..n - 1] + [a[n - 1]];
      TimesStep(ONE, a[..n - 1], a[n - 1]);
      DoubleSmall(Times(ONE, a[..n - 1]), a[n - 1]);
    }
  }

  lemma MulZero(a: Byte)
    ensures Mul(ZERO, a) == ZERO && Mul(a, ZERO) == ZERO
  {
    TimesZero(a);
    TimesNothing(a, 8);
    hide Times;
    assert ZERO == seq(8, _ => false);
  }

  lemma TimesUnit(a: Byte, n: nat)
    ensures Times(a, seq(n, _ => false) + [true]) == a
    ensures Times(a, seq(n, _ => false) + [true] + [false]) == Xtime(a)
  {
    hide Add, Xtime, Times;
    var p := seq(n, _ => false);
    TimesNothing(a, n);
    TimesStep(a, p, true);
    TimesStep(a, p + [true], false);
    XtimeAdd(ZERO, ZERO);
    AddLaws(a, ZERO, ZERO);
    AddLaws(Xtime(a), ZERO, ZERO);
  }

  lemma MulIdentity(a: Byte)
    ensures Mul(ONE, a) == a && Mul(a, ONE) == a
  {
    assert Mul(ONE, a) == a by {
      TimesOne(a, 8);
      assert a[..8] == a;
    }
    assert ONE == seq(7, _ => false) + [true];
    TimesUnit(a, 7);
  }

  lemma MulTwo(a: Byte)
    ensures Mul(a, TWO) == Xtime(a)
  {
    assert TWO == seq(6, _ => false) + [true] + [false];
    TimesUnit(a, 6);
  }

  lemma MulDistributes(a: Byte, b: Byte, c: Byte)
    ensures Mul(a, Add(b, c)) == Add(Mul(a, b), Mul(a, c))
    ensures Mul(Add(b, c), a) == Add(Mul(b, a), Mul(c, a))
  {
    TimesXor(a, b, c);
    TimesAdd(b, c, a);
  }

  // ----- The product is commutative and associative -----

  /** A polynomial of any length acts as the element it stands for. */
  lemma {:induction false} TimesIsMul(a: Byte, p: seq<bool>)
    ensures Times(a, p) == Mul(Times(ONE, p), a)
  {
    hide Add, Xtime;
    MulIdentity(a);
    MulZero(a);
    if p != [] {
      var q, s := p[..|p| - 1], p[|p| - 1];
      TimesIsMul(a, q);
      TimesAdd(Xtime(Times(ONE, q)), Select(s, ONE), a);
      TimesXtime(Times(ONE, q), a);
    }
  }

  lemma MulCommutes(a: Byte, b: Byte)
    ensures Mul(a, b) == Mul(b, a)
  {
    TimesIsMul(a, b);
    MulIdentity(b);
  }

  lemma {:induction false} TimesAssociates(a: Byte, b: Byte, p: seq<bool>)
    ensures Times(Mul(a, b), p) == Mul(a, Times(b, p))
  {
    MulZero(a);
    hide Add, Xtime;
    if p != [] {
      var q, s := p[..|p| - 1], p[|p| - 1];
      TimesAssociates(a, b, q);
      hide Mul;
      calc {
        Mul(a, Times(b, p));
        { MulDistributes(a, Xtime(Times(b, q)), Select(s, b)); }
        Add(Mul(a, Xtime(Times(b, q))), Mul(a, Select(s, b)));
        { MulXtime(a, Times(b, q)); }
        Add(Xtime(Mul(a, Times(b, q))), Select(s, Mul(a, b)));
      }
    }
  }

  lemma MulXtime(a: Byte, b: Byte)
    ensures Mul(a, Xtime(b)) == Xtime(Mul(a, b))
  {
    MulCommutes(a, Xtime(b));
    TimesXtime(b, a);
    MulCommutes(a, b);
  }

  lemma MulAssociates(a: Byte, b: Byte, c: Byte)
    ensures Mul(Mul(a, b), c) == Mul(a, Mul(b, c))
  {
    TimesAssociates(a, b, c);
  }

  // ----- Squaring, and why every nonzero element is invertible -----

  function Square(a: Byte): Byte {
    Mul(a, a)
  }

  /** Squaring is additive: the mixed terms cancel. */
  lemma SquareAdd(a: Byte, b: Byte)
    ensures Square(Add(a, b)) == Add(Square(a), Square(b))
  {
    hide Add, Mul;
    MulDistributes(Add(a, b), a, b);
    MulDistributes(a, a, b);
    MulDistributes(b, a, b);
    MulCommutes(a, b);
    var m := Mul(a, b);
    AddLaws(m, m, Square(b));
    AddLaws(Square(a), m, Add(m, Square(b)));
    AddLaws(Square(b), ZERO, ZERO);
  }

  lemma SquareMul(a: Byte, b: Byte)
    ensures Square(Mul(a, b)) == Mul(Square(a), Square(b))
  {
    hide Mul;
    MulAssociates(a, b, Mul(a, b));
    MulAssociates(b, a, b);
    MulCommutes(a, b);
    MulAssociates(a, b, b);
    MulAssociates(a, a, Square(b));
  }

  lemma XtimeBits(a: Byte)
    ensures Xtime(a) == [a[1], a[2], a[3], a[4] != a[0], a[5] != a[0], a[6] != a[0], a[7], a[0]]
  {
    var x := Xtime(a);
    assert x == [x[0], x[1], x[2], x[3], x[4], x[5], x[6], x[7]];
  }

  lemma SquareStep(a: Byte, bit: bool)
    ensures Square(Add(Xtime(a), Select(bit, ONE))) == Add(Xtime(Xtime(Square(a))), Select(bit, ONE))
  {
    hide Add, Xtime, Mul;
    SquareAdd(Xtime(a), Select(bit, ONE));
    MulXtime(Xtime(a), a);
    MulCommutes(Xtime(a), a);
    MulXtime(a, a);
    MulIdentity(ONE);
    MulZero(ZERO);
  }

  lemma AddBit(x: Byte, bit: bool)
    ensures Add(x, Select(bit, ONE)) == x[..7] + [x[7] != bit]
  {
  }

  lemma SquareStepBits(q: Byte, bit: bool)
    ensures Add(Xtime(Xtime(q)), Select(bit, ONE)) ==
            [q[2], q[3], q[4] != q[0], (q[5] != q[0]) != q[1], (q[6] != q[0]) != q[1], q[7] != q[1], q[0], q[1] != bit]
  {
    XtimeBits(q);
    XtimeBits(Xtime(q));
    hide Xtime;
    AddBit(Xtime(Xtime(q)), bit);
  }

  lemma SquareNext(a: Byte, n: nat)
    requires n < 8
    ensures Square(Times(ONE, a[..n + 1])) == Add(Xtime(Xtime(Square(Times(ONE, a[..n])))), Select(a[n], ONE))
  {
    hide Add, Xtime, Select, Mul, Times;
    TimesStep(ONE, a[..n], a[n]);
    assert a[..n] + [a[n]] == a[..n + 1];
    SquareStep(Times(ONE, a[..n]), a[n]);
  }

  lemma SquareNextBits(a: Byte, n: nat, q: Byte)
    requires n < 8 && Square(Times(ONE, a[..n])) == q
    ensures Square(Times(ONE, a[..n + 1])) ==
            [q[2], q[3], q[4] != q[0], (q[5] != q[0]) != q[1], (q[6] != q[0]) != q[1], q[7] != q[1], q[0], q[1] != a[n]]
  {
    hide Add, Xor, Xtime, Select, Mul, Times, Square;
    SquareNext(a, n);
    SquareStepBits(q, a[n]);
  }

  lemma SquareNoBits()
    ensures Square(Times(ONE, [])) == ZERO
  {
    MulZero(ZERO);
  }

  lemma SquareHighNibble(a: Byte)
    ensures Square(Times(ONE, a[..4])) == [false, a[0], false, a[1], false, a[2], false, a[3]]
  {
    SquareNoBits();
    hide Square, Times;
    assert a[..0] == [];
    SquareNextBits(a, 0, ZERO);
    SquareNextBits(a, 1, [false, false, false, false, false, false, false, a[0]]);
    SquareNextBits(a, 2, [false, false, false, false, false, a[0], false, a[1]]);
    SquareNextBits(a, 3, [false, false, false, a[0], false, a[1], false, a[2]]);
  }

  lemma SquareSixBits(a: Byte)
    ensures Square(Times(ONE, a[..6])) ==
            [false, a[2] != a[0], a[0], (a[3] != a[0]) != a[1], a[1], (a[0] != a[4]) != a[1], false, a[1] != a[5]]
  {
    SquareHighNibble(a);
    hide Square, Times;
    SquareNextBits(a, 4, [false, a[0], false, a[1], false, a[2], false, a[3]]);
    var q: Byte := [false, a[1], false, a[2] != a[0], a[0], a[3] != a[0], false, a[0] != a[4]];
    SquareNextBits(a, 5, q);
  }

  lemma SquareSevenBits(a: Byte)
    ensures Square(Times(ONE, a[..7])) ==
            [a[0], (a[0] != a[1]) != a[3], a[1], (a[1] != a[2]) != a[4], a[0] != a[2],
             ((a[0] != a[1]) != a[2]) != a[5], false, (a[0] != a[2]) != a[6]]
  {
    SquareSixBits(a);
    hide Square, Times;
    var q := Square(Times(ONE, a[..6]));
    SquareNextBits(a, 6, q);
    assert ((q[5] != q[0]) != q[1]) == ((a[1] != a[2]) != a[4]);
    assert (q[7] != q[1]) == (((a[0] != a[1]) != a[2]) != a[5]);
  }

  /** The matrix of squaring in the basis x^7, ..., x, 1. */
  lemma SquareBits(a: Byte)
    ensures Square(a) == [a[1], (a[1] != a[2]) != a[4], a[2], ((a[5] != a[3]) != a[2]) != a[0],
                          a[3] != a[1], ((a[6] != a[3]) != a[2]) != a[1], a[0], ((a[0] != a[1]) != a[3]) != a[7]]
  {
    SquareSevenBits(a);
    MulIdentity(a);
    hide Square, Times;
    var q := Square(Times(ONE, a[..7]));
    SquareNextBits(a, 7, q);
    assert a[..8] == a;
    assert (q[4] != q[0]) == a[2];
    assert ((q[5] != q[0]) != q[1]) == (((a[5] != a[3]) != a[2]) != a[0]);
    assert ((q[6] != q[0]) != q[1]) == (a[3] != a[1]);
    assert (q[7] != q[1]) == (((a[6] != a[3]) != a[2]) != a[1]);
  }

  /** The field has no idempotents but 0 and 1. */
  lemma IdempotentTrivial(a: Byte)
    requires Square(a) == a
    ensures a == ZERO || a == ONE
  {
    SquareBits(a);
    hide Square;
    assert a[1] == a[0] && a[6] == a[0] && a[2] == a[4];
    assert a[3] == false;
    assert a[4] == a[1] && a[5] == false;
    assert a[0] == false;
  }

  function Power(a: Byte, n: nat): Byte {
    if n == 0 then ONE else Mul(Power(a, n - 1), a)
  }

  lemma {:induction false} PowerAdd(a: Byte, m: nat, n: nat)
    ensures Power(a, m + n) == Mul(Power(a, m), Power(a, n))
  {
    hide Mul;
    if n == 0 {
      MulIdentity(Power(a, m));
    } else {
      PowerAdd(a, m, n - 1);
      MulAssociates(Power(a, m), Power(a, n - 1), a);
    }
  }

  /** Squaring k times. */
  function Frobenius(a: Byte, k: nat): Byte {
    if k == 0 then a else Square(Frobenius(a, k - 1))
  }

  lemma {:induction false} FrobeniusHomomorphism(a: Byte, b: Byte, k: nat)
    ensures Frobenius(Add(a, b), k) == Add(Frobenius(a, k), Frobenius(b, k))
    ensures Frobenius(Mul(a, b), k) == Mul(Frobenius(a, k), Frobenius(b, k))
    ensures Frobenius(ONE, k) == ONE && Frobenius(ZERO, k) == ZERO
  {
    hide Square, Add, Mul;
    if k != 0 {
      FrobeniusHomomorphism(a, b, k - 1);
      SquareAdd(Frobenius(a, k - 1), Frobenius(b, k - 1));
      SquareMul(Frobenius(a, k - 1), Frobenius(b, k - 1));
      SquareConstants();
    }
  }

  lemma SquareConstants()
    ensures Square(ONE) == ONE && Square(ZERO) == ZERO
  {
    MulIdentity(ONE);
    MulZero(ZERO);
  }

  lemma FrobeniusTwo()
    ensures Frobenius(TWO, 4) == [false, true, false, false, true, true, false, false]
    ensures Frobenius(TWO, 8) == TWO
  {
    hide Square;
    var a: Byte := [false, false, false, false, false, true, false, false];
    var b: Byte := [false, false, false, true, false, false, false, false];
    var d: Byte := [false, true, false, false, true, true, false, false];
    var e: Byte := [true, false, false, true, true, true, false, true];
    var f: Byte := [false, true, false, true, true, true, true, true];
    var g: Byte := [true, false, false, false, false, true, false, true];
    SquareBits(TWO);  assert Frobenius(TWO, 1) == a;
    SquareBits(a);    assert Frobenius(TWO, 2) == b;
    SquareBits(b);    assert Frobenius(TWO, 3) == POLY;
    SquareBits(POLY); assert Frobenius(TWO, 4) == d;
    SquareBits(d);    assert Frobenius(TWO, 5) == e;
    SquareBits(e);    assert Frobenius(TWO, 6) == f;
    SquareBits(f);    assert Frobenius(TWO, 7) == g;
    SquareBits(g);
  }

  lemma {:induction false} FrobeniusFixes(p: seq<bool>)
    ensures Frobenius(Times(ONE, p), 8) == Times(ONE, p)
  {
    hide Add, Xtime, Mul, Frobenius;
    FrobeniusHomomorphism(ZERO, ZERO, 8);
    if p != [] {
      var z := Times(ONE, p[..|p| - 1]);
      FrobeniusFixes(p[..|p| - 1]);
      MulTwo(z);
      FrobeniusTwo();
      FrobeniusHomomorphism(z, TWO, 8);
      FrobeniusHomomorphism(Xtime(z), Select(p[|p| - 1], ONE), 8);
    }
  }

  lemma {:induction false} FrobeniusPower(a: Byte, k: nat, n: nat)
    requires Frobenius(a, k) == Power(a, n)
    ensures Frobenius(a, k + 1) == Power(a, n + n)
  {
    PowerAdd(a, n, n);
  }

  lemma PowerDoubles(a: Byte)
    ensures Power(a, 16) == Frobenius(a, 4) && Power(a, 256) == Frobenius(a, 8)
  {
    assert Power(a, 1) == a by { MulIdentity(a); assert Power(a, 0) == ONE; }
    hide Power, Square;
    FrobeniusPower(a, 0, 1); FrobeniusPower(a, 1, 2); FrobeniusPower(a, 2, 4); FrobeniusPower(a, 3, 8);
    FrobeniusPower(a, 4, 16); FrobeniusPower(a, 5, 32); FrobeniusPower(a, 6, 64); FrobeniusPower(a, 7, 128);
  }

  lemma PowerFixes(a: Byte)
    ensures Power(a, 256) == a
  {
    PowerDoubles(a);
    FrobeniusFixes(a);
    MulIdentity(a);
  }

  function Inverse(a: Byte): Byte {
    Power(a, 254)
  }

  /** Every nonzero element has an inverse: a^255 is an idempotent that fixes a. */
  lemma MulInverse(a: Byte)
    requires a != ZERO
    ensures Mul(a, Inverse(a)) == ONE
  {
    hide Mul, Square;
    var b := Inverse(a);
    var e := Mul(a, b);
    assert Mul(e, a) == a by {
      PowerFixes(a);
      hide Power;
      PowerAdd(a, 254, 2);
      assert Power(a, 2) == Mul(a, a) by { PowerSmall(a); }
      MulCommutes(a, b);
      MulAssociates(b, a, a);
    }
    hide Power, Inverse;
    assert Square(e) == e by {
      SquareAsMul(e);
      MulAssociates(e, a, b);
    }
    IdempotentTrivial(e);
    MulZero(a);
  }

  lemma SquareAsMul(a: Byte)
    ensures Square(a) == Mul(a, a)
  {
  }

  lemma PowerSmall(a: Byte)
    ensures Power(a, 0) == ONE && Power(a, 1) == a && Power(a, 2) == Mul(a, a)
  {
    MulIdentity(a);
    assert Power(a, 1) == Mul(Power(a, 0), a);
  }

  lemma NoZeroDivisors(a: Byte, b: Byte)
    requires Mul(a, b) == ZERO
    ensures a == ZERO || b == ZERO
  {
    hide Mul, Inverse;
    if a != ZERO {
      MulInverse(a);
      MulAssociates(Inverse(a), a, b);
      MulCommutes(a, Inverse(a));
      MulIdentity(b);
      MulZero(Inverse(a));
    }
  }

  // ----- The powers of 2 are distinct up to 2^254 -----

  lemma {:induction false} PowerOfProduct(a: Byte, m: nat, n: nat)
    requires Power(a, m) == ONE
    ensures Power(a, m * n) == ONE
  {
    hide Mul, Power;
    if n == 0 {
      PowerSmall(a);
    } else {
      PowerOfProduct(a, m, n - 1);
      assert m * n == m * (n - 1) + m;
      PowerAdd(a, m * (n - 1), m);
      MulIdentity(ONE);
    }
  }

  lemma PowerOfMultiple(a: Byte, g: nat, n: nat)
    requires 0 < g && n % g == 0 && Power(a, g) == ONE
    ensures Power(a, n) == ONE
  {
    hide Power;
    PowerOfProduct(a, g, n / g);
    assert g * (n / g) == n;
  }

  lemma PowerModulo(a: Byte, m: nat, n: nat)
    requires 0 < n && Power(a, m) == ONE && Power(a, n) == ONE
    ensures Power(a, m % n) == ONE
  {
    hide Mul, Power;
    PowerOfProduct(a, n, m / n);
    PowerAdd(a, n * (m / n), m % n);
    MulIdentity(Power(a, m % n));
  }

  /** Some power of 2 with an exponent dividing 255 and at most k is 1, if 2^k is. */
  lemma {:induction false} OrderDivides(k: nat) returns (g: nat)
    requires 0 < k && Power(TWO, k) == ONE
    ensures 0 < g <= k && Power(TWO, g) == ONE && 255 % g == 0
  {
    hide Power;
    TwoTo255();
    PowerModulo(TWO, 255, k);
    if 255 % k == 0 {
      g := k;
    } else {
      g := OrderDivides(255 % k);
    }
  }

  lemma TwoTo255()
    ensures Power(TWO, 255) == ONE
  {
    hide Mul, Power, Inverse;
    PowerFixes(TWO);
    PowerAdd(TWO, 255, 1);
    PowerSmall(TWO);
    MulInverse(TWO);
    MulAssociates(Power(TWO, 255), TWO, Inverse(TWO));
    MulIdentity(Power(TWO, 255));
  }

  lemma UpTo15(q: int)
    requires 0 < q <= 15
    ensures q == 1 || q == 2 || q == 3 || q == 4 || q == 5 || q == 6 || q == 7 || q == 8
         || q == 9 || q == 10 || q == 11 || q == 12 || q == 13 || q == 14 || q == 15
  {
  }

  lemma LargeDivisor(g: nat, q: nat)
    requires 15 < g < 255 && q * g == 255
    ensures g == 17 || g == 51 || g == 85
  {
    if q > 15 {
      Multiples(15, q, g);
    } else {
      UpTo15(q);
    }
  }

  lemma ProperDivisorsOf255(g: nat)
    requires 0 < g < 255 && 255 % g == 0
    ensures 15 % g == 0 || 51 % g == 0 || 85 % g == 0
  {
    if g <= 15 {
      UpTo15(g);
    } else {
      LargeDivisor(g, 255 / g);
    }
  }

  lemma PowerXtime(k: nat, a: Byte)
    requires Power(TWO, k) == a
    ensures Power(TWO, k + 1) == [a[1], a[2], a[3], a[4] != a[0], a[5] != a[0], a[6] != a[0], a[7], a[0]]
  {
    hide Xtime;
    MulTwo(a);
    XtimeBits(a);
  }

  lemma PowerSquare(k: nat, a: Byte)
    requires Power(TWO, k) == a
    ensures Power(TWO, 2 * k) == [a[1], (a[1] != a[2]) != a[4], a[2], ((a[5] != a[3]) != a[2]) != a[0],
                                  a[3] != a[1], ((a[6] != a[3]) != a[2]) != a[1], a[0], ((a[0] != a[1]) != a[3]) != a[7]]
  {
    hide Mul, Power;
    PowerAdd(TWO, k, k);
    SquareBits(a);
  }

  lemma TwoTo15()
    ensures Power(TWO, 15) != ONE
  {
    hide Power, Frobenius;
    PowerDoubles(TWO);
    FrobeniusTwo();
    if Power(TWO, 15) == ONE {
      PowerXtime(15, ONE);
      assert false;
    }
  }

  lemma TwoTo51()
    ensures Power(TWO, 51) != ONE
  {
    PowerSmall(TWO);
    hide Power;
    PowerXtime(1, [false, false, false, false, false, false, true, false]);
    PowerXtime(2, [false, false, false, false, false, true, false, false]);
    PowerSquare(3, [false, false, false, false, true, false, false, false]);
    PowerSquare(6, [false, true, false, false, false, false, false, false]);
    PowerSquare(12, [true, true, false, false, true, true, false, true]);
    PowerSquare(24, [true, false, false, false, true, true, true, true]);
    PowerXtime(48, [false, true, false, false, false, true, true, false]);
    PowerXtime(49, [true, false, false, false, true, true, false, false]);
    PowerXtime(50, [false, false, false, false, false, true, false, true]);
  }

  lemma TwoTo85()
    ensures Power(TWO, 85) != ONE
  {
    PowerSmall(TWO);
    hide Power;
    PowerXtime(1, [false, false, false, false, false, false, true, false]);
    PowerSquare(2, [false, false, false, false, false, true, false, false]);
    PowerXtime(4, [false, false, false, true, false, false, false, false]);
    PowerSquare(5, [false, false, true, false, false, false, false, false]);
    PowerSquare(10, [false, true, true, true, false, true, false, false]);
    PowerXtime(20, [true, false, true, true, false, true, false, false]);
    PowerSquare(21, [false, true, true, true, false, true, false, true]);
    PowerSquare(42, [true, false, true, true, false, true, false, true]);
    PowerXtime(84, [false, true, true, false, true, false, true, true]);
  }

  /** 2 has order 255, so it generates all nonzero elements. */
  lemma OrderOfTwo(k: nat)
    requires 0 < k < 255
    ensures Power(TWO, k) != ONE
  {
    hide Power;
    if Power(TWO, k) == ONE {
      var g := OrderDivides(k);
      ProperDivisorsOf255(g);
      if 15 % g == 0 {
        PowerOfMultiple(TWO, g, 15);
        TwoTo15();
      } else if 51 % g == 0 {
        PowerOfMultiple(TWO, g, 51);
        TwoTo51();
      } else {
        PowerOfMultiple(TWO, g, 85);
        TwoTo85();
      }
      assert false;
    }
  }

  lemma PowersOfTwoDistinct(i: nat, j: nat)
    requires i < j < 255
    ensures Power(TWO, i) != Power(TWO, j)
  {
    hide Mul, Power, Inverse;
    if Power(TWO, i) == Power(TWO, j) {
      var a := Power(TWO, i);
      PowerAdd(TWO, i, 255 - i);
      TwoTo255();
      MulZero(Power(TWO, 255 - i));
      assert a != ZERO;
      MulInverse(a);
      PowerAdd(TWO, j - i, i);
      MulAssociates(Power(TWO, j - i), a, Inverse(a));
      MulIdentity(Power(TWO, j - i));
      OrderOfTwo(j - i);
      assert false;
    }
  }

  // ----- The encoder's multiplication loop -----

  /** 0x11D as a nine-bit number. */
  const MODULUS: seq<bool> := [true] + POLY

  /**
    Russian peasant multiplication.  z is kept as a nine-bit number; its top bit is what the
    source's final check tests, and the reduction step always clears it.
  */
  method Multiply(x: Byte, y: Byte) returns (product: Byte)
    ensures product == Mul(x, y)
  {
    var z := [false] + ZERO;
    var i := 8;
    while i > 0
      invariant 0 <= i <= 8
      invariant |z| == 9 && !z[0]
      invariant z[1..] == Times(x, y[..8 - i])
    {
      i := i - 1;
      hide Times, Xtime, Xor, Add;
      assert y[..8 - i] == y[..7 - i] + [y[7 - i]];
      TimesStep(x, y[..7 - i], y[7 - i]);
      PeasantStep(z, y[7 - i], x);
      z := Xor(z[1..] + [false], if z[1] then MODULUS else [false] + ZERO);
      z := Xor(z, [false] + Select(y[7 - i], x));
    }
    assert y[..8] == y;
    product := z[1..];
  }

  lemma PeasantStep(z: seq<bool>, bit: bool, x: Byte)
    requires |z| == 9 && !z[0]
    ensures var w := Xor(z[1..] + [false], if z[1] then MODULUS else [false] + ZERO);
            var r := Xor(w, [false] + Select(bit, x));
            |r| == 9 && !r[0] && r[1..] == Add(Xtime(z[1..]), Select(bit, x))
  {
    var w := Xor(z[1..] + [false], if z[1] then MODULUS else [false] + ZERO);
    assert !w[0] && w[1..] == Xtime(z[1..]);
    hide Xtime;
    assert Xor(w, [false] + Select(bit, x))[1..] == Add(w[1..], Select(bit, x));
  }
}
