/** Packet number truncation and recovery, appendices A.2 and A.3 of RFC 9000
    (quic/format.c:270-376). */
module PacketNumber {
  import opened Common
  import opened Bytes

  /** The widths of the Packet Number field, in bits. */
  predicate Width(n: nat) { n == 8 || n == 16 || n == 24 || n == 32 }

  /** QuicPktNumberGetParam: the window `1 << n`. */
  function Win(n: nat): (w: nat)
    requires Width(n)
  {
    if n == 8 then 0x100 else if n == 16 then 0x1_0000 else if n == 24 then 0x100_0000 else TWO32
  }

  lemma {:induction false} ShrZero(v: nat, k: nat)
    ensures Shr(v, k) == 0 <==> v < Pow2(k)
    decreases k
  {
    if k > 0 { ShrZero(v / 2, k - 1); }
  }

  /** The window of a field is two to its width. */
  lemma WinIs(n: nat)
    requires Width(n)
    ensures Win(n) == Pow2(n)
  {
    Pow2Bytes();
  }

  lemma Pow2Bytes()
    ensures Pow2(8) == 0x100 && Pow2(16) == 0x1_0000 && Pow2(24) == 0x100_0000 && Pow2(32) == TWO32
  {
    assert Pow2(8) == 0x100;
    Pow2Add(8, 8);
    Pow2Add(8, 16);
    Pow2Add(16, 16);
  }

  lemma {:induction false} Pow2Add(a: nat, b: nat)
    ensures Pow2(a + b) == Pow2(a) * Pow2(b)
  {
    if a > 0 { Pow2Add(a - 1, b); }
  }

  lemma Pow2Large()
    ensures Pow2(63) == 0x8000_0000_0000_0000
  {
    assert Pow2(8) == 0x100 && Pow2(7) == 0x80;
    Pow2Add(8, 8);
    Pow2Add(16, 16);
    Pow2Add(24, 32);
    Pow2Add(8, 16);
    Pow2Add(7, 56);
  }

  /** QuicPktNumberEncode. The bit-length loop leads to the error value only for 2^63 or more
      unacknowledged packets, so every packet number below 2^62 is truncated. */
  method Encode(fullPn: nat, largestAcked: nat, n: nat) returns (code: nat)
    requires Width(n) && fullPn < TWO64 && largestAcked < TWO64
    requires largestAcked == 0 || QuicGe(fullPn, largestAcked)
    ensures fullPn < TWO62 && largestAcked <= fullPn ==> code == fullPn % Win(n)
    ensures code < TWO32
  {
    var unacked := if largestAcked == 0 then (fullPn + 1) % TWO64 else (fullPn - largestAcked) % TWO64;
    var i := 63;
    while i >= 0
      invariant -1 <= i <= 63
      invariant i < 63 ==> Shr(unacked, i + 1) == 0
    {
      if Shr(unacked, i) != 0 { break; }
      i := i - 1;
    }
    var minBits := i + 2;
    var numBytes := minBits / 8 + (if minBits % 8 != 0 then 1 else 0);
    ShrZero(unacked, 63);
    Pow2Large();
    if numBytes > n { return TWO32 - 1; }
    code := fullPn % Win(n);
  }

  /** `(expected & ~mask) | truncated` */
  function Candidate(largestPn: nat, truncated: nat, n: nat): nat
    requires Width(n) && truncated < Win(n)
  {
    var expected := largestPn + 1;
    expected - expected % Win(n) + truncated
  }

  /** Appendix A.3 with the comparisons it intends. */
  function DecodeInt(largestPn: nat, truncated: nat, n: nat): int
    requires Width(n) && truncated < Win(n)
  {
    var expected, half := largestPn + 1, Win(n) / 2;
    var c := Candidate(largestPn, truncated, n);
    if c <= expected - half && c < TWO62 - Win(n) then c + Win(n)
    else if c > expected + half && c >= Win(n) then c - Win(n)
    else c
  }

  /** QuicPktNumberDecode with the macros it uses. */
  function Decode(largestPn: nat, truncated: nat, n: nat): int
    requires Width(n) && truncated < Win(n)
  { Adjust(Candidate(largestPn, truncated, n), largestPn + 1, Win(n)) }

  function Adjust(c: nat, expected: nat, w: nat): int {
    if QuicLe(c, expected - w / 2) && QuicLt(c, TWO62 - w) then (c + w) % TWO64
    else if QuicGt(c, expected + w / 2) && QuicGe(c, w) then (c - w) % TWO64
    else c
  }

  /** The packet numbers a receiver that expects `largestPn + 1` must recover. */
  predicate InWindow(pn: nat, largestPn: nat, n: nat)
    requires Width(n)
  {
    && pn < TWO62 && largestPn + 1 < TWO62
    && largestPn + 1 - Win(n) / 2 < pn <= largestPn + 1 + Win(n) / 2
  }

  /** Appendix A.3 recovers every packet number of the window from its truncation. */
  lemma RecoveryInt(pn: nat, largestPn: nat, n: nat)
    requires Width(n) && InWindow(pn, largestPn, n)
    ensures DecodeInt(largestPn, pn % Win(n), n) == pn
  {
    Blocks(pn, largestPn + 1, n);
  }

  /** In the window, the packet number and the expected one are at most one block apart. */
  lemma Blocks(pn: nat, e: nat, n: nat)
    requires Width(n) && e - Win(n) / 2 < pn <= e + Win(n) / 2
    ensures var w := Win(n);
            var c := e - e % w + pn % w;
            match pn / w - e / w
            case 0 => c == pn
            case 1 => c == pn - w && c <= e - w / 2
            case _ => pn / w - e / w == -1 && c == pn + w && c > e + w / 2
  {
    if n == 8 {
    } else if n == 16 {
    } else if n == 24 {
    } else {
    }
  }

  predicate HighBit(pn: nat) { pn % TWO32 >= TWO31 }

  /** When the macro comparisons do recover the packet number: a change of block is followed only
      if bit 31 happens to agree with the direction, and for the 32-bit field never; there the
      candidate itself survives only if bit 31 tells which side of the expected number it is. */
  predicate MacroRecovers(pn: nat, largestPn: nat, n: nat)
    requires Width(n)
  {
    var block := pn / Win(n) - (largestPn + 1) / Win(n);
    if n < 32 then block == 0 || (block == 1 && HighBit(pn)) || (block == -1 && !HighBit(pn))
    else block == 0 && (pn > largestPn <==> !HighBit(pn))
  }

  lemma RecoveryMacro(pn: nat, largestPn: nat, n: nat)
    requires Width(n) && InWindow(pn, largestPn, n)
    ensures Decode(largestPn, pn % Win(n), n) == pn <==> MacroRecovers(pn, largestPn, n)
  {
    if n == 32 {
      RecoveryMacro32(pn, largestPn);
    } else {
      RecoveryNarrow(pn, largestPn, n);
    }
  }

  lemma RecoveryNarrow(pn: nat, largestPn: nat, n: nat)
    requires Width(n) && n < 32 && InWindow(pn, largestPn, n)
    ensures Decode(largestPn, pn % Win(n), n) == pn <==> MacroRecovers(pn, largestPn, n)
  {
    var w, e := Win(n), largestPn + 1;
    Blocks(pn, e, n);
    var c := Candidate(largestPn, pn % w, n);
    Near(e, w, pn % w);
    NarrowCases(pn, e, w, c, pn / w - e / w);
  }

  lemma Near(e: nat, w: nat, low: nat)
    requires 0 < w && low < w
    ensures var c := e - e % w + low; c - e < w && e - c < w
  {}

  /** A window narrower than the cast: the two window tests are exact, the two guards are not. */
  lemma NarrowCases(pn: nat, e: nat, w: nat, c: nat, block: int)
    requires pn < TWO62 && e < TWO62 && w % 2 == 0 && 0 < w <= 0x100_0000
    requires c - e < w && e - c < w && e - w / 2 < pn <= e + w / 2
    requires match block
             case 0 => c == pn
             case 1 => c == pn - w && c <= e - w / 2
             case _ => block == -1 && c == pn + w && c > e + w / 2
    ensures Adjust(c, e, w) == pn <==>
            block == 0 || (block == 1 && HighBit(pn)) || (block == -1 && !HighBit(pn))
  {
    if block == 1 {
      NarrowUp(pn, e, w, c);
    } else if block == -1 {
      NarrowDown(pn, e, w, c);
    }
  }

  lemma NarrowUp(pn: nat, e: nat, w: nat, c: nat)
    requires pn < TWO62 && w % 2 == 0 && 0 < w <= 0x100_0000 && e - c < w && pn == c + w && c <= e - w / 2
    ensures Adjust(c, e, w) == pn <==> HighBit(pn)
  {
    LowGuard(c, w);
    assert QuicLe(c, e - w / 2) && !QuicGt(c, e + w / 2);
  }

  lemma NarrowDown(pn: nat, e: nat, w: nat, c: nat)
    requires c < TWO62 + TWO32 && w % 2 == 0 && 0 < w <= 0x100_0000 && c - e < w && c == pn + w && c > e + w / 2
    ensures Adjust(c, e, w) == pn <==> !HighBit(pn)
  {
    HighGuard(c, w);
    assert !QuicLe(c, e - w / 2) && QuicGt(c, e + w / 2);
  }

  /** Both guards of the decoder only look at bit 31. */
  lemma LowGuard(c: nat, w: nat)
    ensures QuicLt(c, TWO62 - w) <==> HighBit(c + w)
  {
    assert (c - (TWO62 - w)) % TWO32 == (c + w) % TWO32 by {
      assert c - (TWO62 - w) == (c + w) - 0x4000_0000 * TWO32;
    }
  }

  lemma HighGuard(c: nat, w: nat)
    ensures QuicGe(c, w) <==> (c - w) % TWO32 < TWO31
  {}

  lemma RecoveryMacro32(pn: nat, largestPn: nat)
    requires InWindow(pn, largestPn, 32)
    ensures Decode(largestPn, pn % TWO32, 32) == pn <==> MacroRecovers(pn, largestPn, 32)
  {
    var e := largestPn + 1;
    Blocks(pn, e, 32);
    var c := Candidate(largestPn, pn % TWO32, 32);
    assert pn % TWO32 == c % TWO32;
    assert c / TWO32 == e / TWO32;
    WideCases(pn, e, c, pn / TWO32 - e / TWO32);
  }

  lemma WideCases(pn: nat, e: nat, c: nat, block: int)
    requires pn < TWO62 && e < TWO62 && e - TWO31 < pn <= e + TWO31
    requires pn % TWO32 == c % TWO32 && c / TWO32 == e / TWO32
    requires pn / TWO32 - e / TWO32 == block && -1 <= block <= 1
    requires c == pn - block * TWO32
    ensures Adjust(c, e, TWO32) == pn <==> block == 0 && (pn >= e <==> !HighBit(pn))
  {
    LowGuard(c, TWO32);
    HighGuard(c, TWO32);
    var d := c - e;
    Wrapped(d);
    SameHighBit(c, pn);
    Crossing(pn, e, block);
    assert QuicLe(c, e - TWO31) <==> d <= -TWO31 || 0 <= d <= TWO31;
    assert QuicGt(c, e + TWO31) <==> -TWO31 < d < 0 || d > TWO31;
  }

  lemma SameHighBit(c: nat, pn: nat)
    requires pn % TWO32 == c % TWO32
    ensures HighBit(c + TWO32) == HighBit(pn) && (c - TWO32) % TWO32 == pn % TWO32
  {}

  /** A packet number of the next block is in its lower half, one of the block before in its upper. */
  lemma Crossing(pn: nat, e: nat, block: int)
    requires e - TWO31 < pn <= e + TWO31 && pn / TWO32 - e / TWO32 == block
    ensures (block == 1 ==> !HighBit(pn)) && (block == -1 ==> HighBit(pn))
  {}

  /** The two window tests when the window is as wide as the cast. */
  lemma Wrapped(d: int)
    requires -TWO32 < d < TWO32
    ensures Trunc32(d + TWO31) <= 0 <==> d <= -TWO31 || 0 <= d <= TWO31
    ensures Trunc32(d - TWO31) > 0 <==> -TWO31 < d < 0 || d > TWO31
  {}

  /** QUIC_PKT_NUM_MAX */
  const PKT_NUM_MAX := TWO62 - 1

  /** QuicDecryptPacket refuses a packet whose number decodes to 2^62 - 1. A packet whose number is
      recovered is refused exactly if it is the last one RFC 9000 allows. */
  lemma RefusedIff(pn: nat, largestPn: nat, n: nat)
    requires Width(n) && InWindow(pn, largestPn, n)
    ensures MacroRecovers(pn, largestPn, n) ==>
            (Decode(largestPn, pn % Win(n), n) == PKT_NUM_MAX <==> pn == PKT_NUM_MAX)
    ensures n < 32 && pn == PKT_NUM_MAX ==> (Decode(largestPn, pn % Win(n), n) == PKT_NUM_MAX)
  {
    RecoveryMacro(pn, largestPn, n);
  }

  /** One wrap of an 8-bit field: packet 0x205 after 0x1EF decodes to 0x105. */
  lemma MacroCounterexample()
    ensures InWindow(0x205, 0x1EF, 8) && DecodeInt(0x1EF, 0x205 % 0x100, 8) == 0x205
    ensures Decode(0x1EF, 0x205 % 0x100, 8) == 0x105
  {}
}
