/** Byte strings, big-endian numbers and bitwise exclusive or, all over the integers. */
module Bytes {

  type Byte = x: int | 0 <= x < 256
  type Str = seq<Byte>

  /** `v >> 8 * k` */
  function Shr8(v: nat, k: nat): nat {
    if k == 0 then v else Shr8(v / 256, k - 1)
  }

  /** The low `n` bytes of `v`, most significant first. */
  function BigEndian(v: nat, n: nat): (s: Str)
    ensures |s| == n
  {
    if n == 0 then [] else BigEndian(v / 256, n - 1) + [v % 256]
  }

  /** The reader's accumulation loop `acc = (acc << 8) + byte`. */
  function Fold(acc: nat, s: Str): nat {
    if s == [] then acc else Fold(acc, s[..|s|-1]) * 256 + s[|s|-1]
  }

  function Pow256(n: nat): (p: nat)
    ensures p > 0
  {
    if n == 0 then 1 else 256 * Pow256(n - 1)
  }

  /** Byte `i` is what a shift and a mask by 0xFF select. */
  lemma {:induction false} BigEndianAt(v: nat, n: nat, i: nat)
    requires i < n
    ensures BigEndian(v, n)[i] == Shr8(v, n - 1 - i) % 256
    decreases n
  {
    if i < n - 1 {
      BigEndianAt(v / 256, n - 1, i);
    }
  }

  /** Folding the bytes of `v` over what was shifted out restores `v`. */
  lemma {:induction false} FoldBigEndian(v: nat, n: nat)
    ensures Fold(Shr8(v, n), BigEndian(v, n)) == v
    decreases n
  {
    if n > 0 {
      FoldBigEndian(v / 256, n - 1);
      FoldStep(v, n, v / 256, v % 256);
    }
  }

  lemma FoldStep(v: nat, n: nat, q: nat, b: Byte)
    requires n > 0 && q == v / 256 && b == v % 256 && Fold(Shr8(q, n - 1), BigEndian(q, n - 1)) == q
    ensures Fold(Shr8(v, n), BigEndian(v, n)) == v
  {
    FoldSnoc(Shr8(q, n - 1), BigEndian(q, n - 1), b);
  }

  lemma FoldSnoc(acc: nat, s: Str, b: Byte)
    ensures Fold(acc, s + [b]) == Fold(acc, s) * 256 + b
  {
    assert (s + [b])[..|s|] == s;
  }

  lemma {:induction false} Shr8Bound(v: nat, k: nat, b: nat)
    requires v < b * Pow256(k)
    ensures Shr8(v, k) < b
    decreases k
  {
    if k > 0 {
      var x := b * Pow256(k - 1);
      assert b * Pow256(k) == 256 * x;
      assert v / 256 < x;
      Shr8Bound(v / 256, k - 1, b);
    }
  }

  lemma {:induction false} FoldBound(acc: nat, s: Str, b: nat)
    requires acc < b
    ensures Fold(acc, s) < b * Pow256(|s|)
  {
    if s != [] {
      FoldBound(acc, s[..|s|-1], b);
      var x := b * Pow256(|s| - 1);
      assert b * Pow256(|s|) == 256 * x;
    }
  }

  lemma FoldOne(b: Byte)
    ensures Fold(0, [b]) == b
  {
    assert [b][..0] == [];
  }

  /** A number that fits is recovered by a plain big-endian read. */
  lemma FoldBigEndianFits(v: nat, n: nat)
    requires v < Pow256(n)
    ensures Fold(0, BigEndian(v, n)) == v
  {
    Shr8Bound(v, n, 1);
    FoldBigEndian(v, n);
  }

  /** And the number that was read has just these bytes. */
  lemma {:induction false} BigEndianFold(s: Str)
    ensures BigEndian(Fold(0, s), |s|) == s
  {
    if s != [] {
      var v, b := Fold(0, s[..|s| - 1]), s[|s| - 1];
      BigEndianFold(s[..|s| - 1]);
      assert Fold(0, s) == v * 256 + b && (v * 256 + b) / 256 == v && (v * 256 + b) % 256 == b;
      assert s == s[..|s| - 1] + [b];
    }
  }

  /** Exclusive or of the low `k` bits. */
  function XorBits(a: nat, b: nat, k: nat): nat {
    if k == 0 then 0
    else (if a % 2 == b % 2 then 0 else 1) + 2 * XorBits(a / 2, b / 2, k - 1)
  }

  function Pow2(k: nat): (p: nat)
    ensures p > 0
  {
    if k == 0 then 1 else 2 * Pow2(k - 1)
  }

  lemma {:induction false} XorBitsBound(a: nat, b: nat, k: nat)
    ensures XorBits(a, b, k) < Pow2(k)
    decreases k
  {
    if k > 0 { XorBitsBound(a / 2, b / 2, k - 1); }
  }

  lemma {:induction false} XorBitsUndo(a: nat, b: nat, k: nat)
    requires a < Pow2(k)
    ensures XorBits(XorBits(a, b, k), b, k) == a
    decreases k
  {
    if k > 0 {
      XorBitsUndo(a / 2, b / 2, k - 1);
      LowBit(if a % 2 == b % 2 then 0 else 1, XorBits(a / 2, b / 2, k - 1));
    }
  }

  lemma LowBit(e: nat, x: nat)
    requires e < 2
    ensures (e + 2 * x) / 2 == x && (e + 2 * x) % 2 == e
  {}

  /** The bits above the mask are untouched. */
  lemma {:induction false} XorBitsHigh(a: nat, b: nat, k: nat, j: nat)
    requires j <= k && a < Pow2(k) && b < Pow2(j)
    ensures Shr(XorBits(a, b, k), j) == Shr(a, j)
    decreases k
  {
    if j > 0 {
      LowBit(if a % 2 == b % 2 then 0 else 1, XorBits(a / 2, b / 2, k - 1));
      XorBitsHigh(a / 2, b / 2, k - 1, j - 1);
    } else {
      XorZero(a, k);
    }
  }

  lemma {:induction false} XorZero(a: nat, k: nat)
    requires a < Pow2(k)
    ensures XorBits(a, 0, k) == a
    decreases k
  {
    if k > 0 { XorZero(a / 2, k - 1); }
  }

  function Shr(v: nat, k: nat): nat {
    if k == 0 then v else Shr(v / 2, k - 1)
  }

  function Xor(a: Byte, b: Byte): (r: Byte)
  {
    XorBitsBound(a, b, 8);
    assert Pow2(8) == 256 by { assert Pow2(4) == 16; }
    XorBits(a, b, 8)
  }

  lemma XorUndo(a: Byte, b: Byte)
    ensures Xor(Xor(a, b), b) == a
  {
    assert Pow2(8) == 256 by { assert Pow2(4) == 16; }
    XorBitsUndo(a, b, 8);
  }

  /** Bit `j` of a number. */
  function Bit(a: nat, j: nat): (b: nat)
    ensures b < 2
  { Shr(a, j) % 2 }

  /** Exclusive or, bit by bit: each bit is the sum of the two without its carry. */
  lemma XorBit(a: Byte, b: Byte, j: nat)
    requires j < 8
    ensures Bit(Xor(a, b), j) == (Bit(a, j) + Bit(b, j)) % 2
  {
    XorBitsBit(a, b, 8, j);
  }

  lemma {:induction false} XorBitsBit(a: nat, b: nat, k: nat, j: nat)
    requires j < k
    ensures Bit(XorBits(a, b, k), j) == (Bit(a, j) + Bit(b, j)) % 2
    decreases k
  {
    LowBit(if a % 2 == b % 2 then 0 else 1, XorBits(a / 2, b / 2, k - 1));
    if j > 0 { XorBitsBit(a / 2, b / 2, k - 1, j - 1); }
  }

  /** Taking a remainder keeps the low bits and clears the others. */
  lemma Mod2Bit(v: nat, j: nat)
    ensures Bit(v % 2, j) == if j < 1 then Bit(v, j) else 0
  {
    if j > 0 { ZeroBit(j - 1); }
  }

  lemma Half4(v: nat)
    ensures v % 4 / 2 == v / 2 % 2 && v % 4 % 2 == v % 2
  {}

  lemma Mod4Bit(v: nat, j: nat)
    ensures Bit(v % 4, j) == if j < 2 then Bit(v, j) else 0
  {
    Half4(v);
    if j > 0 { Mod2Bit(v / 2, j - 1); }
  }

  lemma Half8(v: nat)
    ensures v % 8 / 2 == v / 2 % 4 && v % 8 % 2 == v % 2
  {}

  lemma Mod8Bit(v: nat, j: nat)
    ensures Bit(v % 8, j) == if j < 3 then Bit(v, j) else 0
  {
    Half8(v);
    if j > 0 { Mod4Bit(v / 2, j - 1); }
  }

  lemma Half16(v: nat)
    ensures v % 16 / 2 == v / 2 % 8 && v % 16 % 2 == v % 2
  {}

  lemma Mod16Bit(v: nat, j: nat)
    ensures Bit(v % 16, j) == if j < 4 then Bit(v, j) else 0
  {
    Half16(v);
    if j > 0 { Mod8Bit(v / 2, j - 1); }
  }

  lemma Half32(v: nat)
    ensures v % 32 / 2 == v / 2 % 16 && v % 32 % 2 == v % 2
  {}

  lemma Mod32Bit(v: nat, j: nat)
    ensures Bit(v % 32, j) == if j < 5 then Bit(v, j) else 0
  {
    Half32(v);
    if j > 0 { Mod16Bit(v / 2, j - 1); }
  }

  lemma {:induction false} ZeroBit(j: nat)
    ensures Bit(0, j) == 0
  {
    if j > 0 { ZeroBit(j - 1); }
  }

  function Zeros(n: nat): (s: Str)
    ensures |s| == n && forall i :: 0 <= i < n ==> s[i] == 0
  {
    seq(n, _ => 0)
  }

  /** `memcpy(mem + pos, s, |s|)` */
  function Overwrite(mem: Str, pos: nat, s: Str): (r: Str)
    requires pos + |s| <= |mem|
    ensures |r| == |mem|
  { mem[..pos] + s + mem[pos + |s|..] }
}
