/** Header protection, section 5.4.1 of RFC 9001 (quic/format.c:384-477). */
module Protection {
  import opened Common
  import opened Bytes

  const PN_MAX := 4
  const SAMPLE := 16
  const TAG := 16

  type Mask = s: Str | |s| == SAMPLE witness Zeros(SAMPLE)

  /** One direction of one packet number space: the AEAD and the header mask as functions. The
      nonce input is the truncated packet number the source passes to both sides. */
  datatype Keys = Keys(
    seal: (nat, Str, Str) -> Str,
    open: (nat, Str, Str) -> Option<Str>,
    mask: Str -> Mask)

  ghost predicate ValidKeys(k: Keys) {
    && (forall n: nat, a: Str, p: Str :: |k.seal(n, a, p)| == |p| + TAG)
    && (forall n: nat, a: Str, p: Str :: k.open(n, a, k.seal(n, a, p)) == Some(p))
  }

  /** The number of protected bits of the first byte as a modulus: four for a long header, five
      for a short one. */
  predicate Modulus(b: nat) { b == 16 || b == 32 }

  function XorStr(s: Str, m: Str): (r: Str)
    requires |m| >= |s|
    ensures |r| == |s| && forall i :: 0 <= i < |s| ==> r[i] == Xor(s[i], m[i])
  {
    seq(|s|, i requires 0 <= i < |s| => Xor(s[i], m[i]))
  }

  lemma XorStrUndo(s: Str, m: Str)
    requires |m| >= |s|
    ensures XorStr(XorStr(s, m), m) == s
  {
    forall i | 0 <= i < |s| ensures XorStr(XorStr(s, m), m)[i] == s[i] { XorUndo(s[i], m[i]); }
  }

  function First(b: Byte, m: Str, bits: nat): Byte
    requires m != [] && Modulus(bits)
  { Xor(b, m[0] % bits) }

  lemma FirstUndo(b: Byte, m: Str, bits: nat)
    requires m != [] && Modulus(bits)
    ensures First(First(b, m, bits), m, bits) == b
    ensures First(b, m, bits) / bits == b / bits
  {
    XorUndo(b, m[0] % bits);
    assert Pow2(4) == 16 && Pow2(8) == 256 by { assert Pow2(6) == 64; }
    var j := if bits == 16 then 4 else 5;
    XorBitsHigh(b, m[0] % bits, 8, j);
    ShrDiv(b, j);
    ShrDiv(First(b, m, bits), j);
  }

  lemma ShrDiv(v: nat, j: nat)
    requires j == 4 || j == 5
    ensures Shr(v, j) == v / (if j == 4 then 16 else 32)
  {
    ShrTwo(v);
    ShrTwo(v / 2 / 2);
    ShrShr(v, 2, j - 2);
    ShrShr(v / 2 / 2, 2, j - 4);
    assert Shr(v / 2 / 2 / 2 / 2, 1) == v / 2 / 2 / 2 / 2 / 2;
  }

  lemma ShrTwo(v: nat)
    ensures Shr(v, 2) == v / 2 / 2
  {
    assert Shr(v / 2, 1) == v / 2 / 2;
  }

  lemma {:induction false} ShrShr(v: nat, a: nat, b: nat)
    ensures Shr(v, a + b) == Shr(Shr(v, a), b)
  {
    if a > 0 { ShrShr(v / 2, a - 1, b); }
  }

  /** The mask applied to a packet whose number of `n` bytes starts at `at`. */
  function Masked(s: Str, at: nat, n: nat, m: Str, bits: nat): (r: Str)
    requires 0 < at && at + n <= |s| && n < |m| && Modulus(bits)
    ensures |r| == |s|
  {
    [First(s[0], m, bits)] + s[1..at] + XorStr(s[at..at + n], m[1..]) + s[at + n..]
  }

  /** The mask comes from 16 bytes that start 4 after the packet number does. */
  function MaskOf(k: Keys, s: Str, at: nat): (m: Mask)
    requires at + PN_MAX + SAMPLE <= |s|
  { k.mask(s[at + PN_MAX..at + PN_MAX + SAMPLE]) }

  function Protect(k: Keys, s: Str, at: nat, bits: nat): (r: Str)
    requires 0 < at && at + PN_MAX + SAMPLE <= |s| && Modulus(bits)
    ensures |r| == |s|
  { Masked(s, at, s[0] % 4 + 1, MaskOf(k, s, at), bits) }

  /** The receiver learns the length of the packet number only after unmasking the first byte. */
  function Unprotect(k: Keys, s: Str, at: nat, bits: nat): (r: Str)
    requires 0 < at && at + PN_MAX + SAMPLE <= |s| && Modulus(bits)
    ensures |r| == |s|
  {
    var m := MaskOf(k, s, at);
    Masked(s, at, First(s[0], m, bits) % 4 + 1, m, bits)
  }

  lemma MaskedTwice(s: Str, at: nat, n: nat, m: Str, bits: nat)
    requires 0 < at && at + n <= |s| && n < |m| && Modulus(bits)
    ensures Masked(Masked(s, at, n, m, bits), at, n, m, bits) == s
  {
    var r := Masked(s, at, n, m, bits);
    FirstUndo(s[0], m, bits);
    XorStrUndo(s[at..at + n], m[1..]);
    FourParts(r, First(s[0], m, bits), s[1..at], XorStr(s[at..at + n], m[1..]), s[at + n..]);
    FourCuts(s, at, at + n);
  }

  lemma FourParts(r: Str, a: Byte, b: Str, c: Str, d: Str)
    requires r == [a] + b + c + d
    ensures var i, j := 1 + |b|, 1 + |b| + |c|;
            r[0] == a && r[1..i] == b && r[i..j] == c && r[j..] == d
  {}

  lemma FourCuts(s: Str, i: nat, j: nat)
    requires 0 < i <= j <= |s|
    ensures s == [s[0]] + s[1..i] + s[i..j] + s[j..]
  {}

  lemma SameSlice(r: Str, s: Str, i: nat, j: nat)
    requires i <= j <= |r| && |r| == |s| && r[i..] == s[i..]
    ensures r[i..j] == s[i..j]
  {
    assert r[i..][..j - i] == s[i..][..j - i];
  }

  lemma SameTail(r: Str, s: Str, i: nat, j: nat)
    requires i <= j <= |r| && |r| == |s| && r[i..] == s[i..]
    ensures r[j..] == s[j..]
  {
    assert r[i..][j - i..] == s[i..][j - i..];
  }

  /** Removing protection inverts adding it, and neither touches the sample, the bytes between the
      first one and the packet number, or the bits of the first byte above the mask. */
  lemma ProtectInvertible(k: Keys, s: Str, at: nat, bits: nat)
    requires 0 < at && at + PN_MAX + SAMPLE <= |s| && Modulus(bits)
    ensures Unprotect(k, Protect(k, s, at, bits), at, bits) == s
    ensures var r := Protect(k, s, at, bits);
            r[0] / bits == s[0] / bits && r[1..at] == s[1..at] && r[at + PN_MAX..] == s[at + PN_MAX..]
  {
    var m, n := MaskOf(k, s, at), s[0] % 4 + 1;
    var r := Protect(k, s, at, bits);
    FirstUndo(s[0], m, bits);
    MaskedTwice(s, at, n, m, bits);
    FourParts(r, First(s[0], m, bits), s[1..at], XorStr(s[at..at + n], m[1..]), s[at + n..]);
    SameTail(r, s, at + n, at + PN_MAX);
    SameSlice(r, s, at + PN_MAX, at + PN_MAX + SAMPLE);
  }

  /** How many bits of the first byte are protected. */
  function Protected(bits: nat): nat
    requires Modulus(bits)
  { if bits == 16 then 4 else 5 }

  lemma FirstBit(b: Byte, m: Str, bits: nat, j: nat)
    requires m != [] && Modulus(bits) && j < 8
    ensures Bit(First(b, m, bits), j) != Bit(b, j) <==> j < Protected(bits) && Bit(m[0], j) == 1
  {
    FlipBit(b, m[0] % bits, j);
    if bits == 16 { Mod16Bit(m[0], j); } else { Mod32Bit(m[0], j); }
  }

  /** What protection does to a packet, bit by bit (section 5.4.1 of RFC 9001). The mask comes from the 16
      bytes that start four bytes behind the start of the packet number. A bit of the first byte is flipped
      exactly if it is a protected one and set in the first byte of the mask; a bit of the packet number
      exactly if it is set in the mask byte that follows; and no other byte changes. */
  lemma ProtectFlips(k: Keys, s: Str, at: nat, bits: nat, i: nat, j: nat)
    requires 0 < at && at + PN_MAX + SAMPLE <= |s| && Modulus(bits) && i < |s| && j < 8
    ensures var r, m := Protect(k, s, at, bits), k.mask(s[at + 4..at + 20]);
            if i == 0 then Bit(r[0], j) != Bit(s[0], j) <==> j < Protected(bits) && Bit(m[0], j) == 1
            else if at <= i <= at + s[0] % 4 then Bit(r[i], j) != Bit(s[i], j) <==> Bit(m[i - at + 1], j) == 1
            else r[i] == s[i]
  {
    var m := MaskOf(k, s, at);
    ProtectedAt(k, s, at, bits, i);
    if i == 0 {
      FirstBit(s[0], m, bits, j);
    } else if at <= i <= at + s[0] % 4 {
      FlipBit(s[i], m[i - at + 1], j);
    }
  }

  lemma FlipBit(b: Byte, m: Byte, j: nat)
    requires j < 8
    ensures Bit(Xor(b, m), j) != Bit(b, j) <==> Bit(m, j) == 1
  {
    XorBit(b, m, j);
  }

  lemma ProtectedAt(k: Keys, s: Str, at: nat, bits: nat, i: nat)
    requires 0 < at && at + PN_MAX + SAMPLE <= |s| && Modulus(bits) && i < |s|
    ensures var r, m := Protect(k, s, at, bits), MaskOf(k, s, at);
            r[i] == if i == 0 then First(s[0], m, bits)
                    else if at <= i <= at + s[0] % 4 then Xor(s[i], m[i - at + 1]) else s[i]
  {}

  /** The in-place loop shared by QuicEncryptHeader and QuicDecryptHeader, on the packet that
      occupies `a[base..end]`. */
  method MaskNumber(a: array<Byte>, base: nat, at: nat, end: nat, n: nat, m: Str, bits: nat)
    requires 0 < at && base + at + n <= end <= a.Length && n < |m| && Modulus(bits)
    modifies a
    ensures forall i :: 0 <= i < a.Length && !(base <= i < end) ==> a[i] == old(a[i])
    ensures a[base..end] == Masked(old(a[base..end]), at, n, m, bits)
  {
    var start := base + at;
    a[base] := First(a[base], m, bits);
    var i := 0;
    while i < n
      invariant 0 <= i <= n
      invariant a[base] == First(old(a[base]), m, bits)
      invariant forall j :: start <= j < start + i ==> a[j] == Xor(old(a[j]), m[j - start + 1])
      invariant forall j :: 0 <= j < a.Length && j != base && !(start <= j < start + i) ==> a[j] == old(a[j])
    {
      a[start + i] := Xor(a[start + i], m[i + 1]);
      i := i + 1;
    }
    MaskedIs(old(a[base..end]), a[base..end], at, n, m, bits);
  }

  lemma MaskedIs(s: Str, r: Str, at: nat, n: nat, m: Str, bits: nat)
    requires 0 < at && at + n <= |s| == |r| && n < |m| && Modulus(bits)
    requires r[0] == First(s[0], m, bits)
    requires forall i :: at <= i < at + n ==> r[i] == Xor(s[i], m[i - at + 1])
    requires forall i :: 1 <= i < |s| && !(at <= i < at + n) ==> r[i] == s[i]
    ensures r == Masked(s, at, n, m, bits)
  {}

  /** QuicEncryptHeader: fails when too few bytes follow for a sample. */
  method EncryptHeader(k: Keys, a: array<Byte>, base: nat, at: nat, end: nat, bits: nat) returns (ok: bool)
    requires 0 < at && base + at <= end <= a.Length && Modulus(bits)
    modifies a
    ensures ok <==> end - base - at >= PN_MAX + SAMPLE
    ensures forall i :: 0 <= i < a.Length && !(base <= i < end) ==> a[i] == old(a[i])
    ensures ok ==> a[base..end] == Protect(k, old(a[base..end]), at, bits)
    ensures !ok ==> a[..] == old(a[..])
  {
    if end - base - at < PN_MAX + SAMPLE { return false; }
    var s := a[base..end];
    MaskNumber(a, base, at, end, s[0] % 4 + 1, MaskOf(k, s, at), bits);
    ok := true;
  }

  /** QuicDecryptHeader: the truncated packet number is read back big-endian. */
  method DecryptHeader(k: Keys, a: array<Byte>, base: nat, at: nat, end: nat, bits: nat)
    returns (ok: bool, pn: nat, n: nat)
    requires 0 < at && base + at <= end <= a.Length && Modulus(bits)
    modifies a
    ensures ok <==> end - base - at >= PN_MAX + SAMPLE
    ensures forall i :: 0 <= i < a.Length && !(base <= i < end) ==> a[i] == old(a[i])
    ensures ok ==> var u := Unprotect(k, old(a[base..end]), at, bits);
                   a[base..end] == u && n == u[0] % 4 + 1 && pn == Fold(0, u[at..at + n])
  {
    pn, n := 0, 0;
    if end - base - at < PN_MAX + SAMPLE { return false, 0, 0; }
    var s := a[base..end];
    var m := MaskOf(k, s, at);
    n := First(s[0], m, bits) % 4 + 1;
    MaskNumber(a, base, at, end, n, m, bits);
    pn := ReadNumber(a[base..end], at, n);
    ok := true;
  }

  /** The packet number after unmasking: `pn |= byte << 8 * (n - i - 1)` for each of its bytes. */
  method ReadNumber(u: Str, at: nat, n: nat) returns (pn: nat)
    requires at + n <= |u|
    ensures pn == Fold(0, u[at..at + n])
  {
    var i, b := 0, u[at..at + n];
    pn := 0;
    while i < n
      invariant 0 <= i <= n && pn == Fold(0, b[..i])
    {
      assert b[..i + 1][..i] == b[..i];
      pn := pn * 256 + b[i];
      i := i + 1;
    }
    assert b[..n] == b;
  }
}
