/** The checksums of the format and version information are remainders of polynomials over GF(2). */
module Checksums {
  import opened GaloisField
  import opened Tables
  import opened Bits
  import opened FunctionPatterns

  // A bit string is the polynomial with these coefficients, highest power first.

  function Zeros(n: nat): (z: seq<bool>)
    ensures |z| == n && forall i :: 0 <= i < n ==> !z[i]
  {
    seq(n, _ => false)
  }

  function Times(bit: bool, g: seq<bool>): (r: seq<bool>)
    ensures |r| == |g|
  {
    if bit then g else Zeros(|g|)
  }

  /** The product of polynomials, by schoolbook multiplication. */
  function Product(q: seq<bool>, g: seq<bool>): (r: seq<bool>)
    requires |g| > 0
    ensures |r| == |q| + |g| - 1
  {
    if q == [] then Zeros(|g| - 1)
    else
      var n := |q| - 1;
      Xor(Product(q[..n], g) + [false], Zeros(n) + Times(q[n], g))
  }

  /** The bits that leave the register. */
  function Quotient(reg: seq<bool>, poly: seq<bool>, k: nat): (q: seq<bool>)
    requires |reg| == |poly| > 0
    ensures |q| == k
  {
    if k == 0 then [] else Quotient(reg, poly, k - 1) + [Shifted(reg, poly, k - 1)[0]]
  }

  /** reg * x^k == q * (x^w + poly) + r, where w is the width of the register. */
  predicate Divides(reg: seq<bool>, poly: seq<bool>, k: nat, q: seq<bool>, r: seq<bool>)
    requires |reg| == |poly| == |r| > 0 && |q| == k
  {
    reg + Zeros(k) == Xor(Product(q, [true] + poly), Zeros(k) + r)
  }

  lemma XorAt(p: seq<bool>, q: seq<bool>, i: nat)
    requires |p| == |q| && i < |p|
    ensures Xor(p, q)[i] == (p[i] != q[i])
  {
  }

  lemma {:induction false} ShiftStep(p: seq<bool>, poly: seq<bool>, k: nat)
    requires |p| == |poly| > 0
    ensures Zeros(k) + p + [false]
         == Xor(Zeros(k) + Times(p[0], [true] + poly), Zeros(k + 1) + Xor(p[1..] + [false], Times(p[0], poly)))
  {
    var w := |poly|;
    var left, next := Zeros(k) + p + [false], Xor(p[1..] + [false], Times(p[0], poly));
    var a, b := Zeros(k) + Times(p[0], [true] + poly), Zeros(k + 1) + next;
    forall i | 0 <= i < k + w + 1 ensures left[i] == Xor(a, b)[i] {
      XorAt(a, b, i);
      if i > k {
        XorAt(p[1..] + [false], Times(p[0], poly), i - k - 1);
      }
    }
  }

  lemma XorShuffle(a: seq<bool>, b: seq<bool>, c: seq<bool>)
    requires |a| == |b| == |c|
    ensures Xor(a, Xor(b, c)) == Xor(Xor(a, b), c)
    ensures Xor(a, b) + [false] == Xor(a + [false], b + [false])
    ensures Xor(Xor(a, b), b) == a
  {
  }

  lemma {:induction false} ExtendDivision(reg: seq<bool>, k: nat, p: seq<bool>, z: seq<bool>, t: seq<bool>, u: seq<bool>)
    requires |p| == |z| && |t| == |u| == |p| + 1
    requires reg + Zeros(k) == Xor(p, z) && z + [false] == Xor(t, u)
    ensures reg + Zeros(k + 1) == Xor(Xor(p + [false], t), u)
  {
    hide Xor;
    XorShuffle(p, z, z);
    XorShuffle(p + [false], t, u);
    assert reg + Zeros(k + 1) == reg + Zeros(k) + [false];
  }

  /** What the shift loop leaves is a remainder ... */
  lemma {:induction false} ShiftedDivides(reg: seq<bool>, poly: seq<bool>, k: nat)
    requires |reg| == |poly| > 0
    ensures Divides(reg, poly, k, Quotient(reg, poly, k), Shifted(reg, poly, k))
  {
    hide Xor, Times, Shifted;
    if k == 0 {
      NothingShifted(reg, poly);
    } else {
      var n, g := k - 1, [true] + poly;
      ShiftedDivides(reg, poly, n);
      var q, r := Quotient(reg, poly, n), Shifted(reg, poly, n);
      ShiftedOnce(reg, poly, n);
      ShiftStep(r, poly, n);
      assert Quotient(reg, poly, k) == q + [r[0]] && (q + [r[0]])[..n] == q;
      ExtendDivision(reg, n, Product(q, g), Zeros(n) + r, Zeros(n) + Times(r[0], g), Zeros(k) + Shifted(reg, poly, k));
    }
  }

  lemma NothingShifted(reg: seq<bool>, poly: seq<bool>)
    requires |reg| == |poly| > 0
    ensures Divides(reg, poly, 0, [], Shifted(reg, poly, 0))
  {
    assert reg + Zeros(0) == reg && Zeros(0) + reg == reg;
    assert forall i :: 0 <= i < |reg| ==> Xor(Zeros(|reg|), reg)[i] == reg[i];
  }

  lemma ShiftedOnce(reg: seq<bool>, poly: seq<bool>, k: nat)
    requires |reg| == |poly| > 0
    ensures var p := Shifted(reg, poly, k);
            Shifted(reg, poly, k + 1) == Xor(p[1..] + [false], Times(p[0], poly))
  {
    assert seq(|poly|, _ => false) == Zeros(|poly|);
  }

  lemma TimesLeads(bit: bool, poly: seq<bool>)
    ensures Times(bit, [true] + poly)[0] == bit
  {
  }

  /** The leading coefficients of a multiple of a polynomial that leads with 1 determine the factor. */
  lemma {:induction false} LeadingBits(a: seq<bool>, b: seq<bool>, poly: seq<bool>)
    requires |a| == |b| && |poly| > 0
    requires Product(a, [true] + poly)[..|a|] == Product(b, [true] + poly)[..|a|]
    ensures a == b
  {
    hide Xor, Times;
    var g, n := [true] + poly, |a| - 1;
    if a != [] {
      TimesLeads(a[n], poly);
      TimesLeads(b[n], poly);
      var pa, pb := Product(a[..n], g), Product(b[..n], g);
      forall i | 0 <= i < n ensures pa[i] == pb[i] {
        assert Product(a, g)[i] == Product(a, g)[..|a|][i] && Product(b, g)[i] == Product(b, g)[..|a|][i];
        XorAt(pa + [false], Zeros(n) + Times(a[n], g), i);
        XorAt(pb + [false], Zeros(n) + Times(b[n], g), i);
      }
      LeadingBits(a[..n], b[..n], poly);
      assert Product(a, g)[n] == Product(a, g)[..|a|][n] && Product(b, g)[n] == Product(b, g)[..|a|][n];
      XorAt(pa + [false], Zeros(n) + Times(a[n], g), n);
      XorAt(pb + [false], Zeros(n) + Times(b[n], g), n);
      assert a == a[..n] + [a[n]] && b == b[..n] + [b[n]];
    }
  }

  lemma HighParts(p: seq<bool>, q: seq<bool>, r: seq<bool>, s: seq<bool>, k: nat)
    requires |p| == |q| == k + |r| && |r| == |s| && Xor(p, Zeros(k) + r) == Xor(q, Zeros(k) + s)
    ensures p[..k] == q[..k]
  {
    hide Xor;
    forall i | 0 <= i < k ensures p[i] == q[i] {
      XorAt(p, Zeros(k) + r, i);
      XorAt(q, Zeros(k) + s, i);
    }
  }

  lemma LowParts(p: seq<bool>, r: seq<bool>, s: seq<bool>, k: nat)
    requires |p| == k + |r| && |r| == |s| && Xor(p, Zeros(k) + r) == Xor(p, Zeros(k) + s)
    ensures r == s
  {
    hide Xor;
    forall i | 0 <= i < |r| ensures r[i] == s[i] {
      XorAt(p, Zeros(k) + r, k + i);
      XorAt(p, Zeros(k) + s, k + i);
    }
  }

  /** ... and the only one, for every register and polynomial. */
  lemma {:induction false} ShiftedIsRemainder(reg: seq<bool>, poly: seq<bool>, k: nat, q: seq<bool>, r: seq<bool>)
    requires |reg| == |poly| == |r| > 0 && |q| == k
    ensures Divides(reg, poly, k, q, r) <==> q == Quotient(reg, poly, k) && r == Shifted(reg, poly, k)
  {
    hide Product, Shifted, Quotient, Xor, Zeros;
    ShiftedDivides(reg, poly, k);
    if Divides(reg, poly, k, q, r) {
      var g, q', r' := [true] + poly, Quotient(reg, poly, k), Shifted(reg, poly, k);
      HighParts(Product(q, g), Product(q', g), r, r', k);
      LeadingBits(q, q', poly);
      LowParts(Product(q, g), r, r', k);
    }
  }

  lemma XorOfHalves(p: seq<bool>, reg: seq<bool>, r: seq<bool>)
    requires |p| == 2 * |reg| && |r| == |reg| && reg + Zeros(|reg|) == Xor(p, Zeros(|reg|) + r)
    ensures p == reg + r
  {
    var w := |reg|;
    forall i | 0 <= i < 2 * w ensures p[i] == (reg + r)[i] {
      XorAt(p, Zeros(w) + r, i);
      assert (reg + Zeros(w))[i] == if i < w then reg[i] else false;
    }
  }

  lemma {:induction false} DividesMultiple(reg: seq<bool>, poly: seq<bool>, q: seq<bool>, r: seq<bool>)
    requires |reg| == |poly| == |r| == |q| > 0 && Divides(reg, poly, |q|, q, r)
    ensures Product(q, [true] + poly) == reg + r
  {
    hide Product, Xor, Zeros;
    XorOfHalves(Product(q, [true] + poly), reg, r);
  }

  /** Data followed by its checksum is a multiple of the generator polynomial. */
  lemma {:induction false} WordIsMultiple(data: seq<bool>, poly: seq<bool>)
    requires |data| <= |poly| && |poly| > 0
    ensures var w := |poly|;
            var reg := Zeros(w - |data|) + data;
            Product(Quotient(reg, poly, w), [true] + poly) == Zeros(w - |data|) + data + Shifted(reg, poly, w)
  {
    hide Product, Shifted, Quotient, Xor, Zeros, Divides;
    var w := |poly|;
    var reg := Zeros(w - |data|) + data;
    ShiftedDivides(reg, poly, w);
    DividesMultiple(reg, poly, Quotient(reg, poly, w), Shifted(reg, poly, w));
  }

  /** Unmasked, the 15 bits of format information are a multiple of 0x537. */
  lemma {:induction false} FormatWordIsMultiple(ecl: Ecc, msk: nat)
    ensures exists q :: |q| == 10 && Product(q, [true] + FORMAT_POLY) == Zeros(5) + Xor(FormatWord(ecl, msk), FORMAT_XOR)
  {
    hide Product, Shifted, Quotient, FormatData;
    var data := FormatData(ecl, msk);
    WordIsMultiple(data, FORMAT_POLY);
    assert Zeros(5) == [false, false, false, false, false];
    var word := data + Shifted(Zeros(5) + data, FORMAT_POLY, 10);
    XorShuffle(word, FORMAT_XOR, FORMAT_XOR);
    assert Zeros(5) + data + Shifted(Zeros(5) + data, FORMAT_POLY, 10) == Zeros(5) + word;
    assert |Quotient(Zeros(5) + data, FORMAT_POLY, 10)| == 10;
  }

  /** The 18 bits of version information are a multiple of 0x1F25. */
  lemma {:induction false} VersionWordIsMultiple(ver: Version)
    ensures exists q :: |q| == 12 && Product(q, [true] + VERSION_POLY) == Zeros(6) + VersionWord(ver)
  {
    hide Product, Shifted, Quotient, BinaryBits;
    var data := BinaryBits(ver, 6);
    WordIsMultiple(data, VERSION_POLY);
    assert Zeros(6) == [false, false, false, false, false, false];
    assert Zeros(6) + data + Shifted(Zeros(6) + data, VERSION_POLY, 12) == Zeros(6) + VersionWord(ver);
    assert |Quotient(Zeros(6) + data, VERSION_POLY, 12)| == 12;
  }

  function Hex(a: bool, b: bool, c: bool, d: bool): nat {
    (if a then 8 else 0) + (if b then 4 else 0) + (if c then 2 else 0) + (if d then 1 else 0)
  }

  lemma {:induction false} AppendHex(s: seq<bool>, a: bool, b: bool, c: bool, d: bool)
    ensures Number(s + [a, b, c, d]) == 16 * Number(s) + Hex(a, b, c, d)
  {
    hide Number;
    AppendBit(s, a);
    AppendBit(s + [a], b);
    AppendBit(s + [a] + [b], c);
    AppendBit(s + [a] + [b] + [c], d);
    assert s + [a] + [b] + [c] + [d] == s + [a, b, c, d];
  }

  lemma AppendBit(s: seq<bool>, bit: bool)
    ensures Number(s + [bit]) == 2 * Number(s) + if bit then 1 else 0
  {
    assert (s + [bit])[..|s|] == s;
  }

  lemma OneAndFive()
    ensures Number([true]) == 1 && Number([true, false, true]) == 5
  {
    AppendBit([], true);
    AppendBit([true], false);
    AppendBit([true, false], true);
    assert [] + [true] == [true] && [true] + [false] == [true, false] && [true, false] + [true] == [true, false, true];
  }

  /** The generator polynomials and the fixed pattern are the numbers of the standard. */
  lemma {:induction false} ChecksumConstants()
    ensures Number([true] + FORMAT_POLY) == 0x537
    ensures Number(FORMAT_XOR) == 0x5412
    ensures Number([true] + VERSION_POLY) == 0x1F25
  {
    hide Number;
    var one, five := [true], [true, false, true];
    OneAndFive();
    AppendHex(five, false, false, true, true);
    AppendHex(five + [false, false, true, true], false, true, true, true);
    assert [true] + FORMAT_POLY == five + [false, false, true, true] + [false, true, true, true];
    AppendHex(five, false, true, false, false);
    AppendHex(five + [false, true, false, false], false, false, false, true);
    AppendHex(five + [false, true, false, false] + [false, false, false, true], false, false, true, false);
    assert FORMAT_XOR == five + [false, true, false, false] + [false, false, false, true] + [false, false, true, false];
    AppendHex(one, true, true, true, true);
    AppendHex(one + [true, true, true, true], false, false, true, false);
    AppendHex(one + [true, true, true, true] + [false, false, true, false], false, true, false, true);
    assert [true] + VERSION_POLY == one + [true, true, true, true] + [false, false, true, false] + [false, true, false, true];
  }
}
