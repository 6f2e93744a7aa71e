/** Variable-length integers, section 16 of RFC 9000 (quic/format.c:200-268). */
module Varint {
  import opened Common
  import opened Bytes

  /** The shortest prefix whose payload holds `v`. */
  function Prefix(v: nat): (p: nat)
    ensures p <= 3
  {
    if v >= 0x4000_0000 then 3 else if v >= 0x4000 then 2 else if v >= 0x40 then 1 else 0
  }

  /** `1 << prefix` */
  function LenOf(prefix: nat): (n: nat)
    requires prefix <= 3
  {
    if prefix == 0 then 1 else if prefix == 1 then 2 else if prefix == 2 then 4 else 8
  }

  function VarLen(v: nat): nat { LenOf(Prefix(v)) }

  /** The payload bound of an encoding of `n` bytes: 2^(8n - 2). */
  function Capacity(n: nat): nat
    requires n > 0
  { 64 * Pow256(n - 1) }

  lemma Capacities()
    ensures Capacity(1) == 0x40 && Capacity(2) == 0x4000
    ensures Capacity(4) == 0x4000_0000 && Capacity(8) == TWO62
  {
    assert Pow256(3) == 0x100_0000;
    assert Pow256(7) == 256 * 256 * 256 * 256 * Pow256(3) by {
      assert Pow256(5) == 256 * 256 * Pow256(3);
      assert Pow256(7) == 256 * 256 * Pow256(5);
    }
  }

  function Enc(v: nat): (s: Str)
    requires v < TWO62
    ensures |s| == VarLen(v)
  {
    TopByteFits(v);
    [Prefix(v) * 64 + Shr8(v, VarLen(v) - 1)] + BigEndian(v, VarLen(v) - 1)
  }

  lemma TopByteFits(v: nat)
    requires v < TWO62
    ensures Shr8(v, VarLen(v) - 1) < 64
  {
    Capacities();
    Shr8Bound(v, VarLen(v) - 1, 64);
  }

  /** The value and the number of bytes used, or None when the input is cut short. */
  function Dec(s: Str): (r: Option<(nat, nat)>)
    ensures r.Some? ==> 0 < r.value.1 <= |s|
  {
    if s == [] then None
    else
      var n := LenOf(s[0] / 64);
      if |s| < n then None else Some((Fold(s[0] % 64, s[1..n]), n))
  }

  /** Decoding inverts encoding and leaves any suffix unread. */
  lemma RoundTrip(v: nat, suffix: Str)
    requires v < TWO62
    ensures Dec(Enc(v) + suffix) == Some((v, VarLen(v)))
  {
    TopByteFits(v);
    var s := Enc(v) + suffix;
    var n := VarLen(v);
    assert s[0] / 64 == Prefix(v) && s[0] % 64 == Shr8(v, n - 1);
    assert s[1..n] == BigEndian(v, n - 1);
    FoldBigEndian(v, n - 1);
  }

  /** Decoding as the parsers use it: the value and the bytes after it. */
  function Next(s: Str): (r: Option<(nat, Str)>)
    ensures r.Some? ==> |r.value.1| < |s|
  {
    var d := Dec(s);
    if d.None? then None else Some((d.value.0, s[d.value.1..]))
  }

  lemma NextEnc(v: nat, rest: Str)
    requires v < TWO62
    ensures Next(Enc(v) + rest) == Some((v, rest))
  {
    RoundTrip(v, rest);
    assert (Enc(v) + rest)[VarLen(v)..] == rest;
  }

  /** No byte string that decodes to `v` is shorter than the one the encoder writes. */
  lemma Shortest(s: Str)
    requires Dec(s).Some?
    ensures Dec(s).value.0 < TWO62 && VarLen(Dec(s).value.0) <= Dec(s).value.1
  {
    var n := LenOf(s[0] / 64);
    FoldBound(s[0] % 64, s[1..n], 64);
    Capacities();
  }

  lemma LenMonotone(v: nat, w: nat)
    requires v <= w
    ensures VarLen(v) <= VarLen(w)
  {}

  /** Decoding fails exactly on an empty input or one shorter than its prefix says. */
  lemma FailsIff(s: Str)
    ensures Dec(s).None? <==> |s| == 0 || |s| < LenOf(s[0] / 64)
  {}

  /** Distinct values have encodings neither of which starts the other, so a stream of
      varints reads back in only one way. */
  lemma PrefixFree(v: nat, w: nat, a: Str, b: Str)
    requires v < TWO62 && w < TWO62
    requires Enc(v) + a == Enc(w) + b
    ensures v == w && a == b
  {
    RoundTrip(v, a);
    RoundTrip(w, b);
    assert a == (Enc(v) + a)[VarLen(v)..];
    assert b == (Enc(w) + b)[VarLen(w)..];
  }

  /** QuicVariableLengthEncode and QuicVariableLengthValueEncode. */
  method Encode(buf: array<Byte>, blen: nat, v: nat) returns (r: int)
    requires blen <= buf.Length
    modifies buf
    ensures r == -1 <==> v >= TWO62 || blen < VarLen(v)
    ensures r == -1 ==> buf[..] == old(buf[..])
    ensures r != -1 ==> r == VarLen(v) && buf[..] == Enc(v) + old(buf[r..])
  {
    if v >= TWO62 { return -1; }
    var prefix := 3;
    while prefix > 0
      invariant 0 <= prefix <= 3 && Prefix(v) <= prefix
    {
      if v >= (if prefix == 3 then 0x4000_0000 else if prefix == 2 then 0x4000 else 0x40) { break; }
      prefix := prefix - 1;
    }
    var len := LenOf(prefix);
    if len > blen { return -1; }
    TopByteFits(v);
    buf[0] := prefix * 64 + Shr8(v, len - 1);
    var i := 1;
    while i < len
      invariant 1 <= i <= len
      invariant buf[0] == Enc(v)[0]
      invariant forall k :: 1 <= k < i ==> buf[k] == Enc(v)[k]
      invariant forall k :: len <= k < buf.Length ==> buf[k] == old(buf[k])
    {
      BigEndianAt(v, len - 1, i - 1);
      buf[i] := Shr8(v, len - i - 1) % 256;
      i := i + 1;
    }
    r := len;
  }

  // ---------------------------------------------------------------- runs of numbers

  /** The numbers that can be read from the front of `s`. */
  function Numbers(s: Str): seq<nat>
    decreases |s|
  {
    var n := Next(s);
    if n.None? then [] else [n.value.0] + Numbers(n.value.1)
  }

  /** What follows the first `n` numbers of `s`. */
  function Drop(s: Str, n: nat): Str
    decreases n
  {
    if n == 0 || Next(s).None? then s else Drop(Next(s).value.1, n - 1)
  }

  lemma {:induction false} DropAdd(s: Str, m: nat, n: nat, k: nat)
    requires k == m + n
    ensures Drop(Drop(s, m), n) == Drop(s, k)
    decreases m
  {
    if m > 0 && Next(s).Some? { DropAdd(Next(s).value.1, m - 1, n, k - 1); }
  }

  ghost predicate AllFit(ns: seq<nat>) {
    ns == [] || (ns[0] < TWO62 && AllFit(ns[1..]))
  }

  function EncAll(ns: seq<nat>): Str
    requires AllFit(ns)
  {
    if ns == [] then [] else Enc(ns[0]) + EncAll(ns[1..])
  }

  lemma NumbersFront(v: nat, tail: Str)
    requires v < TWO62
    ensures Numbers(Enc(v) + tail) == [v] + Numbers(tail)
    ensures forall n: nat :: Drop(Enc(v) + tail, n + 1) == Drop(tail, n)
  {
    NextEnc(v, tail);
  }

  /** A run of numbers is read back, with what follows left alone. */
  lemma {:induction false} NumbersBack(ns: seq<nat>, rest: Str)
    requires AllFit(ns)
    ensures Numbers(EncAll(ns) + rest) == ns + Numbers(rest) && Drop(EncAll(ns) + rest, |ns|) == rest
    decreases |ns|
  {
    if ns == [] {
      assert [] + rest == rest;
    } else {
      var tail := EncAll(ns[1..]) + rest;
      Assoc3(Enc(ns[0]), EncAll(ns[1..]), rest);
      NumbersFront(ns[0], tail);
      NumbersBack(ns[1..], rest);
      Assoc3([ns[0]], ns[1..], Numbers(rest));
      assert ns == [ns[0]] + ns[1..];
    }
  }

  lemma NumbersStep(s: Str)
    ensures Numbers(s) != [] <==> Next(s).Some?
    ensures Next(s).Some? ==> Numbers(s)[0] == Next(s).value.0 && Numbers(s)[1..] == Numbers(Next(s).value.1)
    ensures Next(s).Some? ==> forall n: nat :: Drop(s, n + 1) == Drop(Next(s).value.1, n)
  {}
}

module VarintReader {
  import opened Common
  import opened Bytes
  import opened PacketReader
  import opened Varint

  /** QuicVariableLengthDecode: a cut-short number uses up the rest of the input. */
  method Decode(pkt: RPacket) returns (ok: bool, v: nat)
    requires pkt.Valid()
    modifies pkt
    ensures pkt.Valid() && pkt.mem == old(pkt.mem) && pkt.head == old(pkt.head) && pkt.End() == old(pkt.End())
    ensures ok <==> Next(old(pkt.Rest())).Some?
    ensures !ok ==> pkt.Rest() == []
    ensures ok ==> Next(old(pkt.Rest())) == Some((v, pkt.Rest()))
  {
    ghost var rest := pkt.Rest();
    var b;
    v := 0;
    ok, b := pkt.GetData(1);
    if !ok { return; }
    assert rest[..1][..0] == [];
    assert b == rest[0];
    var n := LenOf(b / 64);
    v := b % 64;
    var i := 1;
    while i < n
      invariant pkt.Valid() && pkt.mem == old(pkt.mem) && pkt.head == old(pkt.head) && pkt.End() == old(pkt.End())
      invariant 1 <= i <= n && i <= |rest| && pkt.Rest() == rest[i..]
      invariant v == Fold(b % 64, rest[1..i])
    {
      var x;
      ok, x := pkt.GetData(1);
      if !ok { return false, 0; }
      assert rest[i..][..1] == [rest[i]] && [rest[i]][..0] == [];
      assert rest[1..i + 1][..i - 1] == rest[1..i];
      v := v * 256 + x;
      i := i + 1;
    }
  }

  /** Decode in terms of the numbers still to be read. */
  method ReadNumber(pkt: RPacket) returns (ok: bool, v: nat)
    requires pkt.Valid()
    modifies pkt
    ensures pkt.Valid()
    ensures ok <==> Numbers(old(pkt.Rest())) != []
    ensures ok ==> v == Numbers(old(pkt.Rest()))[0] && Numbers(pkt.Rest()) == Numbers(old(pkt.Rest()))[1..]
    ensures ok ==> pkt.Rest() == Drop(old(pkt.Rest()), 1)
  {
    ghost var s0 := pkt.Rest();
    NumbersStep(s0);
    ok, v := Decode(pkt);
    assert ok ==> Drop(s0, 1) == Drop(pkt.Rest(), 0);
  }

  method ReadTwo(pkt: RPacket) returns (ok: bool, v: nat, w: nat)
    requires pkt.Valid()
    modifies pkt
    ensures pkt.Valid()
    ensures ok <==> |Numbers(old(pkt.Rest()))| >= 2
    ensures ok ==> v == Numbers(old(pkt.Rest()))[0] && w == Numbers(old(pkt.Rest()))[1]
    ensures ok ==> Numbers(pkt.Rest()) == Numbers(old(pkt.Rest()))[2..]
    ensures ok ==> pkt.Rest() == Drop(old(pkt.Rest()), 2)
  {
    ghost var s0, ns := pkt.Rest(), Numbers(pkt.Rest());
    w := 0;
    ok, v := ReadNumber(pkt);
    if ok {
      DropAdd(s0, 1, 1, 2);
      ok, w := ReadNumber(pkt);
      if ok { assert ns[1..][1..] == ns[2..]; }
    }
  }
}
