/** Binary numerals and the append-only bit buffer. */
module Bits {

  function Pow2(n: nat): (p: nat)
    ensures p > 0
  {
    if n == 0 then 1 else 2 * Pow2(n - 1)
  }

  /** The low len bits of v, most significant first. */
  function BinaryBits(v: nat, len: nat): (bits: seq<bool>)
    ensures |bits| == len
  {
    if len == 0 then [] else BinaryBits(v / 2, len - 1) + [v % 2 == 1]
  }

  /** The number written by a bit string. */
  function Number(bits: seq<bool>): nat {
    if bits == [] then 0 else 2 * Number(bits[..|bits| - 1]) + (if bits[|bits| - 1] then 1 else 0)
  }

  lemma {:induction false} NumberOfBits(v: nat, len: nat)
    requires v < Pow2(len)
    ensures Number(BinaryBits(v, len)) == v
  {
    if len > 0 {
      NumberOfBits(v / 2, len - 1);
      var bits := BinaryBits(v, len);
      assert bits[..|bits| - 1] == BinaryBits(v / 2, len - 1);
    }
  }

  lemma {:induction false} BitsOfNumber(bits: seq<bool>)
    ensures Number(bits) < Pow2(|bits|)
    ensures BinaryBits(Number(bits), |bits|) == bits
  {
    if bits != [] {
      var n := |bits| - 1;
      BitsOfNumber(bits[..n]);
      assert bits == bits[..n] + [bits[n]];
      assert Number(bits) / 2 == Number(bits[..n]);
    }
  }

  lemma {:induction false} ZeroBits(len: nat)
    ensures BinaryBits(0, len) == seq(len, _ => false)
    ensures Number(seq(len, _ => false)) == 0
  {
    if len > 0 {
      ZeroBits(len - 1);
      var z := seq(len, _ => false);
      assert z[..len - 1] == seq(len - 1, _ => false);
      assert seq(len - 1, _ => false) + [false] == z;
    }
  }

  lemma PowersOfTwo()
    ensures Pow2(4) == 16 && Pow2(6) == 64 && Pow2(7) == 128 && Pow2(8) == 256 && Pow2(10) == 1024 && Pow2(11) == 2048
    ensures Pow2(14) == 16384 && Pow2(21) == 2097152
    ensures Pow2(9) == 512 && Pow2(12) == 4096 && Pow2(13) == 8192 && Pow2(16) == 65536
  {
    assert Pow2(4) == 16;
    assert Pow2(8) == 256;
    assert Pow2(12) == 4096;
    assert Pow2(16) == 65536;
    assert Pow2(20) == 1048576;
  }

  /** The source's BitBuffer. */
  class BitBuffer {
    var bits: seq<bool>

    constructor ()
      ensures bits == []
    {
      bits := [];
    }

    /** appendBits: the low len bits of val; refused unless 0 <= len <= 31 and val has at most len bits. */
    method AppendBits(val: nat, len: int) returns (ok: bool)
      modifies this
      ensures ok <==> 0 <= len <= 31 && val < Pow2(len)
      ensures bits == if ok then old(bits) + BinaryBits(val, len) else old(bits)
    {
      if len >= 0 {
        ShiftedOut(val, len);
      }
      if len < 0 || len > 31 || Shr(val, len) != 0 {
        return false;
      }
      var i := len;
      while i > 0
        invariant 0 <= i <= len
        invariant bits == old(bits) + BinaryBits(Shr(val, i), len - i)
      {
        i := i - 1;
        ShrNext(val, i);
        bits := bits + [Shr(val, i) % 2 == 1];
      }
      ok := true;
    }
  }

  /** val >> i. */
  function Shr(val: nat, i: nat): nat {
    if i == 0 then val else Shr(val / 2, i - 1)
  }

  lemma {:induction false} ShrNext(val: nat, i: nat)
    ensures Shr(val, i + 1) == Shr(val, i) / 2
  {
    if i > 0 {
      ShrNext(val / 2, i - 1);
    }
  }

  lemma {:induction false} ShiftedOut(val: nat, len: nat)
    ensures Shr(val, len) == 0 <==> val < Pow2(len)
  {
    if len > 0 {
      ShiftedOut(val / 2, len - 1);
    }
  }
}
