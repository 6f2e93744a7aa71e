/** Packets inside a UDP datagram: how one is sealed, and how the receive loop takes a datagram of
    coalesced packets apart (section 12.2 of RFC 9000; quic/format.c:69-198, 416-788, 888-974,
    1090-1205 and quic/stream.c:442-470). */
module Datagram {
  import opened Common
  import opened Bytes
  import opened Varint
  import opened VarintReader
  import opened PacketReader
  import opened Protection
  import PN = PacketNumber

  const CID_MAX := 20
  const CID_MIN := 8
  const VERSION_1 := 1
  const LONG_BITS := 16
  const SHORT_BITS := 32

  datatype Space = Initial | Handshake | App

  predicate CidLength(n: nat) { n == 0 || CID_MIN <= n <= CID_MAX }

  /** What a sender writes in its headers. */
  datatype Sender = Sender(version: nat, dcid: Str, scid: Str, token: Str, pnLen: nat) {
    ghost predicate Valid() {
      && version < TWO32 && CidLength(|dcid|) && CidLength(|scid|)
      && |token| < TWO30 && 1 <= pnLen <= PN_MAX
    }
  }

  /** What an endpoint with established connection IDs accepts: its own IDs and those of the peer, each
      with the one in use first, and its token. */
  datatype Receiver = Receiver(client: bool, version: nat, local: seq<Str>, peer: seq<Str>, token: Str) {
    ghost predicate Valid() { local != [] && |local[0]| <= CID_MAX }
  }

  /** QuicClntParseScid: a client that knows its peer by an empty ID takes no long header. */
  predicate Nameless(r: Receiver) { r.client && (r.peer == [] || r.peer[0] == []) }

  ghost predicate Matched(s: Sender, r: Receiver) {
    && s.Valid() && r.Valid() && r.version == s.version
    && s.dcid in r.local && |r.local[0]| == |s.dcid| && s.scid in r.peer && !Nameless(r)
    && (s.token == [] || s.token == r.token)
  }

  // ---------------------------------------------------------------- packet codecs

  /** Sealing a payload behind a header with a packet number, and unsealing a packet whose number
      starts at a given place. */
  datatype Codec = Codec(
    seal: (Space, Str, nat, Str) -> Str,
    unseal: (Space, Str, nat) -> Option<Str>)

  function Bits(sp: Space): nat { if sp == App then SHORT_BITS else LONG_BITS }

  /** Sealing adds the number and the tag, keeps the header readable but for the protected bits of
      its first byte, and unsealing inverts it. */
  ghost predicate Inverts(c: Codec, sp: Space, h: Str, pn: nat, payload: Str, pnLen: nat)
    requires h != []
  {
    var x := c.seal(sp, h, pn, payload);
    && |x| == |h| + pnLen + |payload| + TAG
    && x[0] / Bits(sp) == h[0] / Bits(sp) && x[1..|h|] == h[1..]
    && c.unseal(sp, x, |h|) == Some(payload)
  }

  ghost predicate GoodCodec(c: Codec, pnLen: nat) {
    forall sp: Space, h: Str, pn: nat, payload: Str {:trigger c.seal(sp, h, pn, payload)} ::
      h != [] && h[0] % 4 + 1 == pnLen && pnLen + |payload| >= PN_MAX ==> Inverts(c, sp, h, pn, payload, pnLen)
  }

  datatype KeySet = KeySet(initial: Keys, handshake: Keys, app: Keys) {
    function Of(sp: Space): Keys {
      match sp case Initial => initial case Handshake => handshake case App => app
    }
    ghost predicate Valid() { ValidKeys(initial) && ValidKeys(handshake) && ValidKeys(app) }
  }

  /** QuicPacketBuild once the header is written: the associated data is the whole header with the
      packet number `b`, the nonce input the truncated packet number. */
  function Seal(k: Keys, head: Str, nonce: nat, b: Str, bits: nat, payload: Str): Str
    requires Modulus(bits)
  {
    var p := head + b + k.seal(nonce, head + b, payload);
    if head == [] || |p| < |head| + PN_MAX + SAMPLE then [] else Protect(k, p, |head|, bits)
  }

  /** QuicDecryptPacket on one packet whose number starts at `at`. */
  function Unseal(k: Keys, msg: Str, at: nat, bits: nat): Option<Str>
    requires Modulus(bits)
  {
    if at == 0 || |msg| < at + PN_MAX + SAMPLE then None
    else
      var u := Unprotect(k, msg, at, bits);
      var n := u[0] % 4 + 1;
      if |u| - at - n < TAG then None
      else k.open(Fold(0, u[at..at + n]), u[..at + n], u[at + n..])
  }

  function Truncated(pn: nat, pnLen: nat): nat
    requires 1 <= pnLen <= PN_MAX
  { pn % PN.Win(8 * pnLen) }

  /** The codec of a set of keys with packet numbers of `pnLen` bytes. */
  function CodecOf(ks: KeySet, pnLen: nat): Codec
    requires 1 <= pnLen <= PN_MAX
  {
    Codec((sp, h, pn, payload) =>
            Seal(ks.Of(sp), h, Truncated(pn, pnLen), BigEndian(Truncated(pn, pnLen), pnLen), Bits(sp), payload),
          (sp, msg, at) => Unseal(ks.Of(sp), msg, at, Bits(sp)))
  }

  lemma UnsealSteps(k: Keys, x: Str, head: Str, b: Str, ct: Str, bits: nat, payload: Str)
    requires ValidKeys(k) && Modulus(bits) && 1 <= |head| && |head| + PN_MAX + SAMPLE <= |x|
    requires Unprotect(k, x, |head|, bits) == head + b + ct && |b| == head[0] % 4 + 1 && |ct| >= TAG
    requires ct == k.seal(Fold(0, b), head + b, payload)
    ensures Unseal(k, x, |head|, bits) == Some(payload)
  {
    var u, at, n := head + b + ct, |head|, |b|;
    assert u[at..at + n] == b && u[..at + n] == head + b && u[at + n..] == ct;
  }

  /** Unsealing inverts sealing: both sides use the same nonce input and associated data. */
  lemma UnsealSeal(k: Keys, head: Str, nonce: nat, b: Str, bits: nat, payload: Str)
    requires ValidKeys(k) && Modulus(bits) && head != [] && |b| == head[0] % 4 + 1 && |b| + |payload| >= PN_MAX
    requires nonce == Fold(0, b)
    ensures Unseal(k, Seal(k, head, nonce, b, bits, payload), |head|, bits) == Some(payload)
  {
    var ct := k.seal(nonce, head + b, payload);
    ProtectInvertible(k, head + b + ct, |head|, bits);
    UnsealSteps(k, Protect(k, head + b + ct, |head|, bits), head, b, ct, bits, payload);
  }

  lemma SealedHead(k: Keys, h: Str, nonce: nat, b: Str, bits: nat, payload: Str)
    requires ValidKeys(k) && Modulus(bits) && h != [] && |b| + |payload| >= PN_MAX
    ensures var x := Seal(k, h, nonce, b, bits, payload);
            |x| == |h| + |b| + |payload| + TAG && x[0] / bits == h[0] / bits && x[1..|h|] == h[1..]
  {
    var p := h + b + k.seal(nonce, h + b, payload);
    ProtectInvertible(k, p, |h|, bits);
    assert p[0] == h[0] && p[1..|h|] == h[1..];
  }

  lemma NumberBack(pn: nat, pnLen: nat)
    requires 1 <= pnLen <= PN_MAX
    ensures Fold(0, BigEndian(Truncated(pn, pnLen), pnLen)) == Truncated(pn, pnLen)
  {
    assert Pow256(2) == 65536 && Pow256(4) == 65536 * Pow256(2);
    FoldBigEndianFits(Truncated(pn, pnLen), pnLen);
  }

  /** The header protection and AEAD of the source make a good codec. */
  lemma CodecGood(ks: KeySet, pnLen: nat)
    requires ks.Valid() && 1 <= pnLen <= PN_MAX
    ensures GoodCodec(CodecOf(ks, pnLen), pnLen)
  {
    var c := CodecOf(ks, pnLen);
    forall sp: Space, h: Str, pn: nat, payload: Str |
      h != [] && h[0] % 4 + 1 == pnLen && pnLen + |payload| >= PN_MAX
      ensures Inverts(c, sp, h, pn, payload, pnLen)
    {
      var t := Truncated(pn, pnLen);
      NumberBack(pn, pnLen);
      SealedHead(ks.Of(sp), h, t, BigEndian(t, pnLen), Bits(sp), payload);
      UnsealSeal(ks.Of(sp), h, t, BigEndian(t, pnLen), Bits(sp), payload);
    }
  }

  /** What a sealed packet is made of: unmasked, the header, the truncated number, and the payload sealed
      under that number with all in front of it as associated data (section 5.3 of RFC 9001). */
  lemma SealedForm(ks: KeySet, sp: Space, h: Str, pn: nat, payload: Str, pnLen: nat)
    requires ks.Valid() && 1 <= pnLen <= PN_MAX && h != [] && h[0] % 4 + 1 == pnLen && pnLen + |payload| >= PN_MAX
    ensures var b, x := BigEndian(pn % PN.Win(8 * pnLen), pnLen), CodecOf(ks, pnLen).seal(sp, h, pn, payload);
            var k := if sp == Initial then ks.initial else if sp == Handshake then ks.handshake else ks.app;
            && |x| >= |h| + PN_MAX + SAMPLE
            && Unprotect(k, x, |h|, if sp == App then 32 else 16) == h + b + k.seal(Fold(0, b), h + b, payload)
  {
    var k, t := ks.Of(sp), Truncated(pn, pnLen);
    var b := BigEndian(t, pnLen);
    NumberBack(pn, pnLen);
    SealedHead(k, h, t, b, Bits(sp), payload);
    ProtectInvertible(k, h + b + k.seal(t, h + b, payload), |h|, Bits(sp));
  }

  // ---------------------------------------------------------------- headers

  function LongType(sp: Space): nat { if sp == Initial then 0 else 2 }

  function LongFirst(sp: Space, pnLen: nat): Byte
    requires 1 <= pnLen <= PN_MAX
  { 0xC0 + 16 * LongType(sp) + (pnLen - 1) }

  function ShortFirst(pnLen: nat): Byte
    requires 1 <= pnLen <= PN_MAX
  { 0x40 + (pnLen - 1) }

  function CidBytes(cid: Str): Str
    requires |cid| <= CID_MAX
  { [|cid|] + cid }

  /** QuicTokenPut */
  function TokenBytes(s: Sender, sp: Space): Str
    requires s.Valid()
  { if sp == Initial then Enc(|s.token|) + s.token else [] }

  /** The long header between its first byte and its Length field. */
  function LongMid(s: Sender, sp: Space): Str
    requires s.Valid()
  { BigEndian(s.version, 4) + CidBytes(s.dcid) + CidBytes(s.scid) + TokenBytes(s, sp) }

  /** Everything in front of the packet number; `n` counts the bytes from there on. */
  function Head(s: Sender, sp: Space, n: nat): Str
    requires s.Valid() && n < TWO62
  {
    if sp == App then [ShortFirst(s.pnLen)] + s.dcid
    else [LongFirst(sp, s.pnLen)] + LongMid(s, sp) + Enc(n)
  }

  /** The first byte carries the form, the type and the length of the packet number. */
  ghost predicate HeaderOf(s: Sender, sp: Space, n: nat, h: Str)
    requires s.Valid() && n < TWO62
  {
    && h != [] && h[0] % 4 + 1 == s.pnLen
    && (sp == App ==> h[0] / 32 == 2 && h[1..] == s.dcid)
    && (sp != App ==> h[0] / 16 == 12 + LongType(sp) && h[1..] == LongMid(s, sp) + Enc(n))
  }

  lemma HeadParts(s: Sender, sp: Space, n: nat)
    requires s.Valid() && n < TWO62
    ensures HeaderOf(s, sp, n, Head(s, sp, n))
  {
    if sp != App {
      assert [LongFirst(sp, s.pnLen)] + LongMid(s, sp) + Enc(n) == [LongFirst(sp, s.pnLen)] + (LongMid(s, sp) + Enc(n));
    }
  }

  // ---------------------------------------------------------------- opening

  datatype LongHead = LongHead(space: Space, len: nat, rest: Str)

  /** The length checks of QuicLPacketHeaderParse on the destination connection ID. */
  predicate DcidLengthOk(version: nat, n: nat) {
    !(version == VERSION_1 && n > CID_MAX) && !(0 < n < CID_MIN)
  }

  /** Version, connection IDs, token and Length of a long header; `s` starts at its first byte. */
  function ParseLong(r: Receiver, s: Str): (h: Option<LongHead>)
    ensures h.Some? ==> h.value.len <= |h.value.rest| < |s| && h.value.space != App
  {
    if s == [] then None
    else
      var t := ParseIds(r, s[1..]);
      if t.None? then None else ParseTail(r, s[0] / 16 % 4, t.value)
  }

  function ParseIds(r: Receiver, s: Str): (t: Option<Str>)
    ensures t.Some? ==> |t.value| < |s|
  {
    if |s| < 4 || Fold(0, s[..4]) != r.version then None
    else
      var d := ReadSub(s[4..], 1);
      if d.None? || !DcidLengthOk(r.version, |d.value.0|) || d.value.0 !in r.local then None
      else
        var c := ReadSub(d.value.1, 1);
        if c.None? || Nameless(r) || c.value.0 !in r.peer then None else Some(c.value.1)
  }

  /** Only Initial and Handshake packets have a body that is read. */
  function ParseTail(r: Receiver, lpacketType: nat, s: Str): (h: Option<LongHead>)
    ensures h.Some? ==> h.value.len <= |h.value.rest| < |s| && h.value.space != App
  {
    if lpacketType == 0 then
      var t := ParseToken(r, s);
      if t.None? then None else ParseLength(Initial, t.value)
    else if lpacketType == 2 then ParseLength(Handshake, s)
    else None
  }

  /** QuicTokenVerify; a token cut short does not match. */
  function ParseToken(r: Receiver, s: Str): (t: Option<Str>)
    ensures t.Some? ==> |t.value| < |s|
  {
    var n := Next(s);
    if n.None? || |n.value.1| < n.value.0 then None
    else if n.value.0 != 0 && n.value.1[..n.value.0] != r.token then None
    else Some(n.value.1[n.value.0..])
  }

  /** QuicLengthParse, where its guard is exact; WildLength below says when it is not. */
  function ParseLength(sp: Space, s: Str): (h: Option<LongHead>)
    ensures h.Some? ==> |h.value.rest| < |s| && h.value.len <= |h.value.rest| && h.value.space == sp
  {
    var n := Next(s);
    if n.None? || n.value.0 > |n.value.1| then None else Some(LongHead(sp, n.value.0, n.value.1))
  }

  datatype Opened = Opened(space: Space, payload: Str, rest: Str)

  /** The body of a long packet: exactly the bytes its Length counts; the rest is left alone. */
  function OpenBody(c: Codec, s: Str, h: LongHead): Option<Opened>
    requires h.len <= |h.rest| < |s|
  {
    var at := |s| - |h.rest|;
    var p := c.unseal(h.space, s[..at + h.len], at);
    if p.None? then None else Some(Opened(h.space, p.value, h.rest[h.len..]))
  }

  /** The packet at the front of `s`; a short packet takes all of it. */
  function Open(c: Codec, r: Receiver, s: Str): (o: Option<Opened>)
    requires r.Valid()
    ensures o.Some? ==> |o.value.rest| < |s|
  {
    if s == [] then None
    else if s[0] >= 128 then
      var h := ParseLong(r, s);
      if h.None? then None else OpenBody(c, s, h.value)
    else
      var n := |r.local[0]|;
      if |s| < 1 + n || (n > 0 && s[1..1 + n] !in r.local) then None
      else
        var p := c.unseal(App, s, 1 + n);
        if p.None? then None else Some(Opened(App, p.value, []))
  }

  /** The packets opened before the end or the first bad one. */
  datatype Result = Result(packets: seq<(Space, Str)>, ok: bool)

  /** QuicStreamRecvNew */
  function OpenAll(c: Codec, r: Receiver, s: Str): Result
    requires r.Valid()
    decreases |s|
  {
    if s == [] then Result([], true)
    else
      var o := Open(c, r, s);
      if o.None? then Result([], false)
      else
        var more := OpenAll(c, r, o.value.rest);
        Result([(o.value.space, o.value.payload)] + more.packets, more.ok)
  }

  // ---------------------------------------------------------------- the length guard

  /** A Length that exceeds what is left and still passes the macro: the cursor leaves the packet. */
  predicate WildLength(s: Str) {
    var n := Next(s);
    n.Some? && n.value.0 > |n.value.1| && !QuicGt(n.value.0, |n.value.1|)
  }

  predicate WildTail(r: Receiver, lpacketType: nat, s: Str) {
    if lpacketType == 0 then ParseToken(r, s).Some? && WildLength(ParseToken(r, s).value)
    else lpacketType == 2 && WildLength(s)
  }

  predicate WildPacket(r: Receiver, s: Str) {
    s != [] && s[0] >= 128 && ParseIds(r, s[1..]).Some? && WildTail(r, s[0] / 16 % 4, ParseIds(r, s[1..]).value)
  }

  /** The receive loop gets to such a packet. */
  predicate Wild(c: Codec, r: Receiver, s: Str)
    requires r.Valid()
    decreases |s|
  {
    s != [] && (WildPacket(r, s) || (Open(c, r, s).Some? && Wild(c, r, Open(c, r, s).value.rest)))
  }

  /** Exactly the lengths that are ahead of the rest by 2^31 or more, counted modulo 2^32. */
  lemma WildLengthIff(s: Str)
    ensures WildLength(s) <==>
            Next(s).Some? && var n, left := Next(s).value.0, |Next(s).value.1|;
                             n > left && !(0 < (n - left) % TWO32 < TWO31)
  {
    if Next(s).Some? { MacroAgreesIff(Next(s).value.0, |Next(s).value.1|); }
  }

  /** 2^32 bytes of body pass where 30 are left. */
  lemma WildCounterexample()
    ensures WildLength(Enc(TWO32 + 30) + Zeros(30))
  {
    NextEnc(TWO32 + 30, Zeros(30));
    WildLengthIff(Enc(TWO32 + 30) + Zeros(30));
  }

  /** A datagram that is opened to its end holds no such length. */
  lemma {:induction false} OpenedIsTame(c: Codec, r: Receiver, s: Str)
    requires r.Valid() && OpenAll(c, r, s).ok
    ensures !Wild(c, r, s)
    decreases |s|
  {
    if s != [] { OpenedIsTame(c, r, Open(c, r, s).value.rest); }
  }

  // ---------------------------------------------------------------- headers read back

  lemma CidBack(cid: Str, rest: Str)
    requires |cid| <= CID_MAX
    ensures ReadSub(CidBytes(cid) + rest, 1) == Some((cid, rest))
  {
    var s := CidBytes(cid) + rest;
    assert s[..1] == [|cid|] && [|cid|][..0] == [];
    assert Fold(0, s[..1]) == |cid|;
    assert s[1..1 + |cid|] == cid && s[1 + |cid|..] == rest;
  }

  lemma SubRead(x: Str, rest: Str)
    requires |x| < 256
    ensures ReadSub([|x|] + x + rest, 1) == Some((x, rest))
  {
    var s := [|x|] + x + rest;
    FoldOne(|x|);
    assert s[..1] == [|x|];
    assert s[1..1 + |x|] == x && s[1 + |x|..] == rest;
  }

  lemma SubWritten(s: Str, x: Str, rest: Str)
    requires ReadSub(s, 1) == Some((x, rest))
    ensures |x| < 256 && s == [|x|] + x + rest
  {
    FoldOne(s[0]);
    assert s[..1] == [s[0]] && |x| == s[0];
    assert s == [s[0]] + s[1..1 + |x|] + s[1 + |x|..];
  }

  /** The version, a connection ID of this endpoint, and one of the peer. */
  ghost predicate IdsAre(r: Receiver, s: Str, d: Str, c: Str, t: Str) {
    && |d| < 256 && |c| < 256 && d in r.local && c in r.peer
    && (d == [] || |d| >= 8) && (r.version == 1 ==> |d| <= 20)
    && (r.client ==> r.peer[0] != [])
    && |s| >= 4 && s[..4] == BigEndian(r.version, 4) && s[4..] == [|d|] + d + ([|c|] + c + t)
  }

  /** A long header is taken exactly if it has the established version and connection IDs, each of a
      length that is allowed, and nothing else passes; a client must know its peer by a real one. */
  lemma IdsIff(r: Receiver, s: Str, t: Str)
    requires r.version < TWO32
    ensures ParseIds(r, s) == Some(t) <==> exists d, c :: IdsAre(r, s, d, c, t)
  {
    if ParseIds(r, s) == Some(t) {
      var d := ReadSub(s[4..], 1).value;
      var c := ReadSub(d.1, 1).value;
      IdsTaken(r, s, t, d.0, c.0, d.1);
    }
    if d, c :| IdsAre(r, s, d, c, t) { IdsPass(r, s, t, d, c); }
  }

  lemma IdsTaken(r: Receiver, s: Str, t: Str, d: Str, c: Str, u: Str)
    requires r.version < TWO32 && ParseIds(r, s) == Some(t)
    requires ReadSub(s[4..], 1) == Some((d, u)) && ReadSub(u, 1) == Some((c, t))
    ensures IdsAre(r, s, d, c, t)
  {
    VersionIff(r.version, s[..4]);
    SubWritten(s[4..], d, u);
    SubWritten(u, c, t);
  }

  lemma IdsPass(r: Receiver, s: Str, t: Str, d: Str, c: Str)
    requires r.version < TWO32 && IdsAre(r, s, d, c, t)
    ensures ParseIds(r, s) == Some(t)
  {
    VersionIff(r.version, s[..4]);
    SubRead(d, [|c|] + c + t);
    SubRead(c, t);
  }

  /** Of the long packets only Initial and Handshake ones are opened. */
  lemma OtherTypesRefused(r: Receiver, s: Str)
    requires s != []
    ensures ParseLong(r, s).Some? ==> s[0] / 16 % 4 == 0 || s[0] / 16 % 4 == 2
    ensures ParseLong(r, s).Some? ==> (ParseLong(r, s).value.space == Initial <==> s[0] / 16 % 4 == 0)
  {}

  /** A short packet is taken exactly if it carries a connection ID of this endpoint, of the length of the
      one in use, and opens. */
  lemma ShortIff(c: Codec, r: Receiver, f: Byte, cid: Str, tail: Str)
    requires r.Valid() && f < 128 && |cid| == |r.local[0]|
    ensures Open(c, r, [f] + cid + tail) ==
            if cid != [] && cid !in r.local then None
            else
              var p := c.unseal(App, [f] + cid + tail, 1 + |cid|);
              if p.None? then None else Some(Opened(App, p.value, []))
  {
    var s := [f] + cid + tail;
    assert s[1..1 + |cid|] == cid;
  }

  lemma VersionIff(v: nat, s: Str)
    requires v < TWO32 && |s| == 4
    ensures Fold(0, s) == v <==> s == BigEndian(v, 4)
  {
    BigEndianFold(s);
    assert Pow256(4) == 256 * Pow256(3) && Pow256(3) == 256 * Pow256(2) && Pow256(2) == 256 * Pow256(1);
    FoldBigEndianFits(v, 4);
  }

  lemma TokenBack(s: Sender, r: Receiver, rest: Str)
    requires Matched(s, r)
    ensures ParseToken(r, TokenBytes(s, Initial) + rest) == Some(rest)
  {
    NextEnc(|s.token|, s.token + rest);
    assert TokenBytes(s, Initial) + rest == Enc(|s.token|) + (s.token + rest);
    assert (s.token + rest)[..|s.token|] == s.token && (s.token + rest)[|s.token|..] == rest;
  }

  /** A token is taken exactly if it is empty or the one the endpoint knows. */
  lemma TokenIff(r: Receiver, token: Str, rest: Str)
    requires |token| < TWO62
    ensures ParseToken(r, Enc(|token|) + (token + rest)) ==
            if token == [] || token == r.token then Some(rest) else None
  {
    NextEnc(|token|, token + rest);
    assert (token + rest)[..|token|] == token && (token + rest)[|token|..] == rest;
  }

  lemma NoToken(s: Sender, sp: Space, t: Str)
    requires s.Valid() && sp != Initial
    ensures TokenBytes(s, sp) == [] && [] + t == t
  {}

  /** The steps of the parser of the connection IDs. */
  lemma ParseIdsSteps(r: Receiver, v: Str, t0: Str, d: Str, t1: Str, c: Str, t2: Str)
    requires |v| == 4 && Fold(0, v) == r.version
    requires ReadSub(t0, 1) == Some((d, t1)) && d in r.local && CidLength(|d|)
    requires ReadSub(t1, 1) == Some((c, t2)) && c in r.peer && !Nameless(r)
    ensures ParseIds(r, v + t0) == Some(t2)
  {
    assert (v + t0)[..4] == v && (v + t0)[4..] == t0;
  }

  lemma TailBack(r: Receiver, sp: Space, f: Byte, tok: Str, t3: Str, h: LongHead)
    requires sp != App && f / 16 == 12 + LongType(sp) && ParseLength(sp, t3) == Some(h)
    requires if sp == Initial then ParseToken(r, tok + t3) == Some(t3) else tok == []
    ensures ParseTail(r, f / 16 % 4, tok + t3) == Some(h)
  {
    assert f / 16 % 4 == LongType(sp);
    TailOfType(r, sp, LongType(sp), tok + t3, t3, h);
  }

  lemma TailOfType(r: Receiver, sp: Space, ty: nat, t2: Str, t3: Str, h: LongHead)
    requires sp != App && ty == LongType(sp) && ParseLength(sp, t3) == Some(h)
    requires if sp == Initial then ParseToken(r, t2) == Some(t3) else t2 == t3
    ensures ParseTail(r, ty, t2) == Some(h)
  {}

  lemma ParseLongSteps(r: Receiver, f: Byte, ids: Str, t: Str, h: LongHead)
    requires ParseIds(r, ids) == Some(t) && ParseTail(r, f / 16 % 4, t) == Some(h)
    ensures ParseLong(r, [f] + ids) == Some(h)
  {
    assert ([f] + ids)[1..] == ids;
  }

  lemma VersionBack(v: nat)
    requires v < TWO32
    ensures Fold(0, BigEndian(v, 4)) == v
  {
    assert Pow256(4) == TWO32 by { assert Pow256(2) == 65536; }
    FoldBigEndianFits(v, 4);
  }

  /** The long header reads back, whatever the protected bits of the first byte are. */
  lemma LongBack(s: Sender, r: Receiver, sp: Space, n: nat, f: Byte, tail: Str)
    requires Matched(s, r) && sp != App && f / 16 == 12 + LongType(sp) && n <= |tail| && n < TWO62
    ensures ParseLong(r, [f] + LongMid(s, sp) + Enc(n) + tail) == Some(LongHead(sp, n, tail))
  {
    NextEnc(n, tail);
    var t3 := Enc(n) + tail;
    if sp == Initial { TokenBack(s, r, t3); } else { NoToken(s, sp, t3); }
    LongBackWith(s, r, sp, n, f, TokenBytes(s, sp), Enc(n), tail);
  }

  lemma LongBackWith(s: Sender, r: Receiver, sp: Space, n: nat, f: Byte, tok: Str, len: Str, tail: Str)
    requires Matched(s, r) && sp != App && f / 16 == 12 + LongType(sp)
    requires ParseLength(sp, len + tail) == Some(LongHead(sp, n, tail))
    requires if sp == Initial then ParseToken(r, tok + (len + tail)) == Some(len + tail) else tok == []
    ensures ParseLong(r, [f] + (BigEndian(s.version, 4) + CidBytes(s.dcid) + CidBytes(s.scid) + tok) + len + tail)
            == Some(LongHead(sp, n, tail))
  {
    var t3 := len + tail;
    var t2 := tok + t3;
    var t1 := CidBytes(s.scid) + t2;
    var t0 := CidBytes(s.dcid) + t1;
    HeadAssoc([f], BigEndian(s.version, 4), CidBytes(s.dcid), CidBytes(s.scid), tok, len, tail);
    VersionBack(s.version);
    CidBack(s.dcid, t1);
    CidBack(s.scid, t2);
    ParseIdsSteps(r, BigEndian(s.version, 4), t0, s.dcid, t1, s.scid, t2);
    TailBack(r, sp, f, tok, t3, LongHead(sp, n, tail));
    ParseLongSteps(r, f, BigEndian(s.version, 4) + t0, t2, LongHead(sp, n, tail));
  }

  lemma HeadAssoc(f: Str, v: Str, d: Str, c: Str, t: Str, n: Str, tail: Str)
    ensures f + (v + d + c + t) + n + tail == f + (v + (d + (c + (t + (n + tail)))))
  {}

  // ---------------------------------------------------------------- packets open again

  datatype Packet = Packet(space: Space, pn: nat, payload: Str)

  ghost predicate Sealable(s: Sender, payload: Str) {
    s.Valid() && s.pnLen + |payload| >= PN_MAX && |payload| < TWO30
  }

  function HeadOf(s: Sender, p: Packet): Str
    requires Sealable(s, p.payload)
  { Head(s, p.space, s.pnLen + |p.payload| + TAG) }

  function SealPacket(c: Codec, s: Sender, p: Packet): Str
    requires Sealable(s, p.payload)
  { c.seal(p.space, HeadOf(s, p), p.pn, p.payload) }

  lemma BodyBack(c: Codec, x: Str, rest: Str, at: nat, sp: Space, payload: Str)
    requires 0 < at <= |x| && c.unseal(sp, x, at) == Some(payload)
    ensures OpenBody(c, x + rest, LongHead(sp, |x| - at, x[at..] + rest)) == Some(Opened(sp, payload, rest))
  {
    assert (x + rest)[..|x|] == x && (x[at..] + rest)[|x| - at..] == rest;
  }

  lemma LongSplit(x: Str, at: nat, mid: Str, len: Str, rest: Str)
    requires 0 < at <= |x| && x[1..at] == mid + len
    ensures x + rest == [x[0]] + mid + len + (x[at..] + rest)
  {
    assert x == [x[0]] + x[1..at] + x[at..];
  }

  /** A sealed long packet opens to its payload and leaves what follows it in the datagram. */
  lemma OpenLong(c: Codec, s: Sender, r: Receiver, sp: Space, x: Str, at: nat, n: nat, payload: Str, rest: Str)
    requires Matched(s, r) && sp != App && 0 < at && |x| == at + n && n < TWO62
    requires x[0] / 16 == 12 + LongType(sp) && x[1..at] == LongMid(s, sp) + Enc(n)
    requires c.unseal(sp, x, at) == Some(payload)
    ensures Open(c, r, x + rest) == Some(Opened(sp, payload, rest))
  {
    LongSplit(x, at, LongMid(s, sp), Enc(n), rest);
    LongBack(s, r, sp, n, x[0], x[at..] + rest);
    BodyBack(c, x, rest, at, sp, payload);
  }

  lemma OpenShort(c: Codec, r: Receiver, x: Str, dcid: Str, payload: Str)
    requires r.Valid() && |r.local[0]| == |dcid| < |x| && dcid in r.local
    requires x[0] / 32 == 2 && x[1..1 + |dcid|] == dcid
    requires c.unseal(App, x, 1 + |dcid|) == Some(payload)
    ensures Open(c, r, x + []) == Some(Opened(App, payload, []))
  {
    assert x + [] == x;
  }

  lemma OpenFirst(c: Codec, s: Sender, r: Receiver, p: Packet, rest: Str)
    requires GoodCodec(c, s.pnLen) && Matched(s, r) && Sealable(s, p.payload) && (p.space == App ==> rest == [])
    ensures Open(c, r, SealPacket(c, s, p) + rest) == Some(Opened(p.space, p.payload, rest))
  {
    var h := SealedBy(c, s, p);
    OpenSealed(c, s, r, p, h, SealPacket(c, s, p), rest);
  }

  lemma SealedBy(c: Codec, s: Sender, p: Packet) returns (h: Str)
    requires GoodCodec(c, s.pnLen) && Sealable(s, p.payload)
    ensures HeaderOf(s, p.space, s.pnLen + |p.payload| + TAG, h) && Inverts(c, p.space, h, p.pn, p.payload, s.pnLen)
    ensures SealPacket(c, s, p) == c.seal(p.space, h, p.pn, p.payload)
  {
    h := HeadOf(s, p);
    HeadParts(s, p.space, s.pnLen + |p.payload| + TAG);
  }

  lemma OpenSealed(c: Codec, s: Sender, r: Receiver, p: Packet, h: Str, x: Str, rest: Str)
    requires Matched(s, r) && Sealable(s, p.payload) && (p.space == App ==> rest == [])
    requires HeaderOf(s, p.space, s.pnLen + |p.payload| + TAG, h) && x == c.seal(p.space, h, p.pn, p.payload)
    requires Inverts(c, p.space, h, p.pn, p.payload, s.pnLen)
    ensures Open(c, r, x + rest) == Some(Opened(p.space, p.payload, rest))
  {
    if p.space == App {
      OpenShort(c, r, x, s.dcid, p.payload);
    } else {
      OpenLong(c, s, r, p.space, x, |h|, s.pnLen + |p.payload| + TAG, p.payload, rest);
    }
  }

  // ---------------------------------------------------------------- datagrams

  ghost predicate Coalescible(s: Sender, ps: seq<Packet>) {
    ps == [] || (Sealable(s, ps[0].payload) && (ps[0].space == App ==> |ps| == 1) && Coalescible(s, ps[1..]))
  }

  /** The sealed packets one after the other. */
  function SealAll(c: Codec, s: Sender, ps: seq<Packet>): Str
    requires Coalescible(s, ps)
  { if ps == [] then [] else SealPacket(c, s, ps[0]) + SealAll(c, s, ps[1..]) }

  function Payloads(ps: seq<Packet>): seq<(Space, Str)>
  { if ps == [] then [] else [(ps[0].space, ps[0].payload)] + Payloads(ps[1..]) }

  lemma OpenAllStep(c: Codec, r: Receiver, x: Str, rest: Str, sp: Space, payload: Str)
    requires r.Valid() && Open(c, r, x + rest) == Some(Opened(sp, payload, rest))
    ensures OpenAll(c, r, x + rest) ==
            Result([(sp, payload)] + OpenAll(c, r, rest).packets, OpenAll(c, r, rest).ok)
  {}

  /** The receive loop recovers every packet of a coalesced datagram, in order and nothing else. */
  lemma {:induction false} CoalescedRoundTrip(c: Codec, s: Sender, r: Receiver, ps: seq<Packet>)
    requires GoodCodec(c, s.pnLen) && Matched(s, r) && Coalescible(s, ps)
    ensures OpenAll(c, r, SealAll(c, s, ps)) == Result(Payloads(ps), true)
    decreases |ps|
  {
    if ps != [] {
      CoalescedRoundTrip(c, s, r, ps[1..]);
      OpenFirst(c, s, r, ps[0], SealAll(c, s, ps[1..]));
      OpenAllStep(c, r, SealPacket(c, s, ps[0]), SealAll(c, s, ps[1..]), ps[0].space, ps[0].payload);
    }
  }

  // ---------------------------------------------------------------- the receive loop

  /** QuicTokenVerify and the skip over the token. */
  method TokenParse(pkt: RPacket, r: Receiver) returns (ok: bool)
    requires pkt.Valid()
    modifies pkt
    ensures pkt.Valid() && pkt.mem == old(pkt.mem) && pkt.head == old(pkt.head) && pkt.End() == old(pkt.End())
    ensures var t := ParseToken(r, old(pkt.Rest()));
            ok == t.Some? && (ok ==> t.value == pkt.Rest())
  {
    var n, token;
    ok, n := Decode(pkt);
    if !ok { return; }
    if n > pkt.remaining { return false; }
    ok, token := pkt.GetBytes(n);
    ok := n == 0 || token == r.token;
  }

  /** The version and the connection IDs in QuicLPacketHeaderParse. */
  method IdsParse(pkt: RPacket, r: Receiver) returns (ok: bool)
    requires pkt.Valid()
    modifies pkt
    ensures pkt.Valid() && pkt.mem == old(pkt.mem) && pkt.head == old(pkt.head) && pkt.End() == old(pkt.End())
    ensures var t := ParseIds(r, old(pkt.Rest()));
            ok == t.Some? && (ok ==> t.value == pkt.Rest())
  {
    var version, cid;
    ok, version := pkt.GetData(4);
    if !ok { return; }
    if version != r.version { return false; }
    ok, cid := pkt.GetLengthPrefixed(1);
    if !ok || !DcidLengthOk(r.version, |cid|) || cid !in r.local { return false; }
    ok, cid := pkt.GetLengthPrefixed(1);
    ok := ok && !Nameless(r) && cid in r.peer;
  }

  /** The token of an Initial packet and QuicLengthParse. */
  method TailParse(pkt: RPacket, r: Receiver, lpacketType: nat) returns (ok: bool, sp: Space, len: nat, wild: bool)
    requires pkt.Valid()
    modifies pkt
    ensures pkt.Valid() && pkt.mem == old(pkt.mem) && pkt.head == old(pkt.head) && pkt.End() == old(pkt.End())
    ensures var h := ParseTail(r, lpacketType, old(pkt.Rest()));
            ok == h.Some? && (ok ==> h.value == LongHead(sp, len, pkt.Rest()))
    ensures wild == WildTail(r, lpacketType, old(pkt.Rest()))
  {
    sp, len, wild := Handshake, 0, false;
    if lpacketType == 0 {
      sp := Initial;
      ok := TokenParse(pkt, r);
      if !ok { return; }
    } else if lpacketType != 2 {
      return false, App, 0, false;
    }
    ok, len, wild := LengthParse(pkt, sp);
  }

  /** QuicLengthParse */
  method LengthParse(pkt: RPacket, ghost sp: Space) returns (ok: bool, len: nat, wild: bool)
    requires pkt.Valid()
    modifies pkt
    ensures pkt.Valid() && pkt.mem == old(pkt.mem) && pkt.head == old(pkt.head) && pkt.End() == old(pkt.End())
    ensures var h := ParseLength(sp, old(pkt.Rest()));
            ok == h.Some? && (ok ==> h.value == LongHead(sp, len, pkt.Rest()))
    ensures wild == WildLength(old(pkt.Rest()))
  {
    ok, len := Decode(pkt);
    if ok && QuicGt(len, pkt.remaining) { ok := false; }
    wild := ok && len > pkt.remaining;
    ok := ok && !wild;
  }

  /** QuicLPacketHeaderParse and what is in front of the packet number. */
  method LongParse(pkt: RPacket, r: Receiver, first: Byte, ghost s: Str)
    returns (ok: bool, sp: Space, len: nat, wild: bool)
    requires pkt.Valid() && s == [first] + pkt.Rest() && first >= 128
    modifies pkt
    ensures pkt.Valid() && pkt.mem == old(pkt.mem) && pkt.head == old(pkt.head) && pkt.End() == old(pkt.End())
    ensures var h := ParseLong(r, s);
            ok == h.Some? && (ok ==> h.value == LongHead(sp, len, pkt.Rest()))
    ensures wild == WildPacket(r, s)
  {
    assert s[1..] == pkt.Rest();
    sp, len, wild := App, 0, false;
    ok := IdsParse(pkt, r);
    if ok { ok, sp, len, wild := TailParse(pkt, r, first / 16 % 4); }
  }

  /** A long packet after its flags. */
  method ReadLong(pkt: RPacket, c: Codec, r: Receiver, first: Byte)
    returns (ok: bool, sp: Space, payload: Str, wild: bool)
    requires pkt.Valid() && r.Valid() && pkt.curr == pkt.head + 1 && first >= 128
    requires pkt.mem[pkt.head] == first
    modifies pkt
    ensures pkt.Valid() && pkt.mem == old(pkt.mem)
    ensures var o := Open(c, r, old(pkt.mem[pkt.head..pkt.End()]));
            ok == o.Some? && (ok ==> o.value == Opened(sp, payload, pkt.Rest()))
    ensures wild == WildPacket(r, old(pkt.mem[pkt.head..pkt.End()]))
  {
    ghost var s := pkt.mem[pkt.head..pkt.End()];
    assert s == [first] + pkt.Rest();
    payload := [];
    var len;
    ok, sp, len, wild := LongParse(pkt, r, first, s);
    if ok { ok, payload := ReadBody(pkt, c, sp, len, s); }
  }

  lemma BodyParts(m: Str, head: nat, curr: nat, len: nat, end: nat)
    requires head <= curr && curr + len <= end <= |m|
    ensures m[head..end][..curr - head + len] == m[head..curr + len]
    ensures m[curr..end][len..] == m[curr + len..end]
  {}

  /** Exactly the bytes the Length field counts are unsealed. */
  method ReadBody(pkt: RPacket, c: Codec, sp: Space, len: nat, ghost s: Str) returns (ok: bool, payload: Str)
    requires pkt.Valid() && pkt.head < pkt.curr && s == pkt.mem[pkt.head..pkt.End()] && len <= pkt.remaining
    modifies pkt
    ensures pkt.Valid() && pkt.mem == old(pkt.mem)
    ensures var o := OpenBody(c, s, LongHead(sp, len, old(pkt.Rest())));
            ok == o.Some? && (ok ==> o.value == Opened(sp, payload, pkt.Rest()))
  {
    payload := [];
    BodyParts(pkt.mem, pkt.head, pkt.curr, len, pkt.End());
    var p := c.unseal(sp, pkt.mem[pkt.head..pkt.curr + len], pkt.curr - pkt.head);
    pkt.Forward(len);
    if p.None? { return false, []; }
    ok, payload := true, p.value;
  }

  /** A short packet after its flags. */
  method ReadShort(pkt: RPacket, c: Codec, r: Receiver, first: Byte) returns (ok: bool, payload: Str)
    requires pkt.Valid() && r.Valid() && pkt.curr == pkt.head + 1 && first < 128
    requires pkt.mem[pkt.head] == first
    modifies pkt
    ensures pkt.Valid() && pkt.mem == old(pkt.mem)
    ensures var o := Open(c, r, old(pkt.mem[pkt.head..pkt.End()]));
            ok == o.Some? && (ok ==> o.value == Opened(App, payload, []) && pkt.Rest() == [])
  {
    FirstAndRest(pkt.mem, pkt.head, pkt.End());
    ghost var s := pkt.mem[pkt.head..pkt.End()];
    payload := [];
    ok := ShortDcid(pkt, r, first, s);
    if ok {
      var p := ShortBody(pkt, c, s, pkt.curr - pkt.head);
      ok, payload := p.Some?, if p.Some? then p.value else [];
    }
  }

  lemma FirstAndRest(m: Str, head: nat, end: nat)
    requires head < end <= |m|
    ensures m[head..end] == [m[head]] + m[head + 1..end]
  {}

  /** All that is left of the datagram is unsealed. */
  method ShortBody(pkt: RPacket, c: Codec, ghost s: Str, ghost at: nat) returns (p: Option<Str>)
    requires pkt.Valid() && s == pkt.mem[pkt.head..pkt.End()] && at == pkt.curr - pkt.head
    modifies pkt
    ensures pkt.Valid() && pkt.mem == old(pkt.mem) && pkt.remaining == 0 && p == c.unseal(App, s, at)
  {
    p := c.unseal(App, pkt.mem[pkt.head..pkt.curr + pkt.remaining], pkt.curr - pkt.head);
    pkt.Forward(pkt.remaining);
  }

  /** QuicSPacketDcidParse */
  method ShortDcid(pkt: RPacket, r: Receiver, first: Byte, ghost s: Str) returns (ok: bool)
    requires pkt.Valid() && r.Valid() && s == [first] + pkt.Rest()
    modifies pkt
    ensures pkt.Valid() && pkt.mem == old(pkt.mem) && pkt.head == old(pkt.head) && pkt.End() == old(pkt.End())
    ensures var n := |r.local[0]|;
            && ok == (|s| >= 1 + n && (n > 0 ==> s[1..1 + n] in r.local))
            && (ok ==> pkt.curr == old(pkt.curr) + n)
  {
    var n := |r.local[0]|;
    ok := true;
    if n != 0 {
      var cid;
      assert s[1..] == pkt.Rest();
      ok, cid := pkt.GetBytes(n);
      if ok { assert cid == s[1..1 + n]; }
      ok := ok && cid in r.local;
    }
  }

  /** One turn of the loop: the packet at the cursor is opened and the cursor rebased behind it. */
  method ReadPacket(pkt: RPacket, c: Codec, r: Receiver) returns (ok: bool, sp: Space, payload: Str, wild: bool)
    requires pkt.Valid() && r.Valid() && pkt.head == pkt.curr && pkt.remaining > 0
    modifies pkt
    ensures pkt.Valid() && pkt.mem == old(pkt.mem)
    ensures var o := Open(c, r, old(pkt.Rest()));
            ok == o.Some? && (ok ==> o.value == Opened(sp, payload, pkt.Rest()) && pkt.head == pkt.curr)
    ensures wild == WildPacket(r, old(pkt.Rest()))
  {
    ghost var s := pkt.Rest();
    var first;
    ok, first := pkt.GetData(1);
    assert s[..1] == [s[0]] && s[..1][..0] == [];
    assert s == pkt.mem[pkt.head..pkt.End()];
    if first >= 128 {
      ok, sp, payload, wild := ReadLong(pkt, c, r, first);
    } else {
      sp, wild := App, false;
      ok, payload := ReadShort(pkt, c, r, first);
    }
    if ok { pkt.Update(); }
  }

  /** QuicStreamRecvNew on the bytes of one datagram. A payload whose frames cannot be parsed counts as
      one that `c` does not open. Once a wild Length is met nothing more is said. */
  method Receive(c: Codec, r: Receiver, datagram: Str) returns (ok: bool, packets: seq<(Space, Str)>, wild: bool)
    requires r.Valid() && |datagram| < TWO31
    ensures Result(packets, ok) == OpenAll(c, r, datagram)
    ensures wild == Wild(c, r, datagram)
  {
    var pkt := new RPacket(datagram, 0, |datagram|);
    packets, ok, wild := [], true, false;
    ghost var all := OpenAll(c, r, datagram);
    assert pkt.Rest() == datagram && [] + all.packets == all.packets;
    while ok && pkt.remaining != 0
      invariant fresh(pkt) && pkt.Valid() && (ok ==> pkt.head == pkt.curr && !wild)
      invariant if ok then var more := OpenAll(c, r, pkt.Rest()); all == Result(packets + more.packets, more.ok)
                else all == Result(packets, false)
      invariant if ok then Wild(c, r, datagram) == Wild(c, r, pkt.Rest()) else wild == Wild(c, r, datagram)
      decreases ok, |pkt.Rest()|
    {
      var sp, payload;
      ghost var rest := pkt.Rest();
      ok, sp, payload, wild := ReadPacket(pkt, c, r);
      Turn(c, r, rest);
      if ok {
        Assoc3(packets, [(sp, payload)], OpenAll(c, r, pkt.Rest()).packets);
        packets := packets + [(sp, payload)];
      } else {
        assert packets + [] == packets;
      }
    }
    assert packets + [] == packets;
  }

  /** One turn of the loop, in terms of all of it. */
  lemma Turn(c: Codec, r: Receiver, s: Str)
    requires r.Valid() && s != []
    ensures var o := Open(c, r, s);
            if o.None? then OpenAll(c, r, s) == Result([], false) && Wild(c, r, s) == WildPacket(r, s)
            else var more := OpenAll(c, r, o.value.rest);
                 && OpenAll(c, r, s) == Result([(o.value.space, o.value.payload)] + more.packets, more.ok)
                 && !WildPacket(r, s) && Wild(c, r, s) == Wild(c, r, o.value.rest)
  {}
}
