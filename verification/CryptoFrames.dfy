/** Splitting a TLS message into CRYPTO frames and putting it together again
    (quic/frame.c:156-262, 804-816, 1064-1112 and quic/format.c:829-867). */
module CryptoFrames {
  import opened Common
  import opened Bytes
  import opened Varint
  import opened VarintReader
  import opened PacketReader

  const CRYPTO_HEADER_MAX := 12
  const TYPE_PADDING := 0
  const TYPE_CRYPTO := 6

  datatype Frame = Frame(off: nat, data: Str)

  // ---------------------------------------------------------------- wire form

  ghost predicate Encodable(f: Frame) { f.off < TWO62 && |f.data| < TWO62 }

  function FrameBytes(f: Frame): Str
    requires Encodable(f)
  { Enc(TYPE_CRYPTO) + Enc(f.off) + Enc(|f.data|) + f.data }

  ghost predicate AllEncodable(fs: seq<Frame>) {
    fs == [] || (Encodable(fs[0]) && AllEncodable(fs[1..]))
  }

  function Cat(fs: seq<Frame>): Str
    requires AllEncodable(fs)
  { if fs == [] then [] else FrameBytes(fs[0]) + Cat(fs[1..]) }

  /** The frames read before the end of the payload or the first malformed frame. */
  datatype Parsed = Parsed(frames: seq<Frame>, ok: bool)

  /** One CRYPTO frame after its type: the frame and the bytes after it. */
  function ParseCrypto(s: Str): (r: Option<(Frame, Str)>)
    ensures r.Some? ==> |r.value.1| < |s|
  {
    var o := Next(s);
    if o.None? then None
    else
      var n := Next(o.value.1);
      if n.None? || |n.value.1| < n.value.0 then None
      else Some((Frame(o.value.0, n.value.1[..n.value.0]), n.value.1[n.value.0..]))
  }

  /** QuicFrameDoParser on payloads of PADDING and CRYPTO frames; a type that cannot be decoded
      ends the payload. */
  function Parse(s: Str): Parsed
    decreases |s|
  {
    var t := Next(s);
    if t.None? then Parsed([], true)
    else if t.value.0 == TYPE_PADDING then Parse(t.value.1)
    else if t.value.0 != TYPE_CRYPTO then Parsed([], false)
    else
      var f := ParseCrypto(t.value.1);
      if f.None? then Parsed([], false)
      else
        var p := Parse(f.value.1);
        Parsed([f.value.0] + p.frames, p.ok)
  }

  lemma ParseCryptoOne(f: Frame, rest: Str)
    requires Encodable(f)
    ensures ParseCrypto(Enc(f.off) + (Enc(|f.data|) + (f.data + rest))) == Some((f, rest))
  {
    NextEnc(|f.data|, f.data + rest);
    NextEnc(f.off, Enc(|f.data|) + (f.data + rest));
    assert (f.data + rest)[..|f.data|] == f.data && (f.data + rest)[|f.data|..] == rest;
  }

  lemma Assoc(a: Str, b: Str, c: Str, d: Str, r: Str)
    ensures a + b + c + d + r == a + (b + (c + (d + r)))
  {}

  lemma ParseStep(s: Str, tail: Str, f: Frame, rest: Str)
    requires Next(s) == Some((TYPE_CRYPTO, tail)) && ParseCrypto(tail) == Some((f, rest))
    ensures Parse(s) == Parsed([f] + Parse(rest).frames, Parse(rest).ok)
  {}

  lemma ParseOne(f: Frame, rest: Str)
    requires Encodable(f)
    ensures Parse(FrameBytes(f) + rest) == Parsed([f] + Parse(rest).frames, Parse(rest).ok)
  {
    var tail := Enc(f.off) + (Enc(|f.data|) + (f.data + rest));
    Assoc(Enc(TYPE_CRYPTO), Enc(f.off), Enc(|f.data|), f.data, rest);
    ParseCryptoOne(f, rest);
    NextEnc(TYPE_CRYPTO, tail);
    ParseStep(FrameBytes(f) + rest, tail, f, rest);
  }

  /** Reading back a payload of frames. */
  lemma {:induction false} ParseCat(fs: seq<Frame>, rest: Str)
    requires AllEncodable(fs)
    ensures Parse(Cat(fs) + rest) == Parsed(fs + Parse(rest).frames, Parse(rest).ok)
  {
    if fs == [] {
      assert Cat(fs) + rest == rest;
    } else {
      ParseOne(fs[0], Cat(fs[1..]) + rest);
      ParseCat(fs[1..], rest);
      Assoc3(FrameBytes(fs[0]), Cat(fs[1..]), rest);
      Assoc3([fs[0]], fs[1..], Parse(rest).frames);
      assert [fs[0]] + fs[1..] == fs;
    }
  }

  /** A frame of another type, or one that ends before its data does, makes the payload fail. */
  lemma OthersRefused(ty: nat, rest: Str)
    requires ty < TWO62 && ty != TYPE_PADDING && (ty == TYPE_CRYPTO ==> ParseCrypto(rest).None?)
    ensures Parse(Enc(ty) + rest) == Parsed([], false)
  {
    NextEnc(ty, rest);
  }

  /** The zero bytes added to fill a datagram are skipped. */
  lemma {:induction false} ParseZeros(n: nat)
    ensures Parse(Zeros(n)) == Parsed([], true)
  {
    if n > 0 {
      var s := Zeros(n);
      assert s[1..1] == [] && s[1..] == Zeros(n - 1);
      assert Next(s) == Some((0, Zeros(n - 1)));
      ParseZeros(n - 1);
    }
  }

  lemma {:induction false} CatSnoc(fs: seq<Frame>, f: Frame)
    requires Encodable(f) && AllEncodable(fs)
    ensures AllEncodable(fs + [f]) && Cat(fs + [f]) == Cat(fs) + FrameBytes(f)
  {
    if fs == [] {
      assert fs + [f] == [f];
      CatOne(f);
    } else {
      assert (fs + [f])[1..] == fs[1..] + [f];
      CatSnoc(fs[1..], f);
      Assoc3(FrameBytes(fs[0]), Cat(fs[1..]), FrameBytes(f));
    }
  }

  lemma CatOne(f: Frame)
    requires Encodable(f)
    ensures AllEncodable([f]) && Cat([f]) == FrameBytes(f)
  {
    assert [f][1..] == [] && FrameBytes(f) + [] == FrameBytes(f);
  }

  // ---------------------------------------------------------------- splitting

  /** QuicWPacketSubMemcpyVar: how many of `len` bytes go behind a varint length into `space`. */
  function SubVarLen(space: nat, len: nat): (r: Option<nat>)
    requires space < TWO31 && len < TWO30
    ensures r.Some? ==> VarLen(r.value) + r.value <= space && r.value <= len
    ensures r.Some? && len > 0 ==> r.value > 0
    ensures r.None? <==> space <= VarLen(len) && space < len + VarLen(len)
    ensures r.Some? ==> r.value == len || r.value + VarLen(len) == space
    ensures len + VarLen(len) <= space ==> r == Some(len)
  {
    var w := VarLen(len);
    if QuicLt(space, len + w) then
      if QuicLe(space, w) then None else Some(space - w)
    else Some(len)
  }

  /** Consecutive frames cover `data[from..to]` once each, in order and without a gap. */
  predicate Tiles(fs: seq<Frame>, data: Str, from: nat, to: nat) {
    if fs == [] then from == to <= |data|
    else
      var end := fs[0].off + |fs[0].data|;
      && fs[0].off == from < end <= |data|
      && fs[0].data == data[from..end]
      && Tiles(fs[1..], data, end, to)
  }

  lemma {:induction false} TilesSnoc(fs: seq<Frame>, data: Str, from: nat, to: nat, f: Frame, next: nat)
    requires Tiles(fs, data, from, to) && to < next <= |data| && f == Frame(to, data[to..next])
    ensures Tiles(fs + [f], data, from, next)
  {
    if fs == [] {
      assert Tiles([f][1..], data, next, next);
    } else {
      assert (fs + [f])[1..] == fs[1..] + [f];
      TilesSnoc(fs[1..], data, fs[0].off + |fs[0].data|, to, f, next);
    }
  }

  function FramesOf(bufs: seq<Str>): seq<Frame> {
    if bufs == [] then [] else FramesOf(bufs[..|bufs| - 1]) + Parse(bufs[|bufs| - 1]).frames
  }

  /** The buffer is exactly the frames it parses to. */
  ghost predicate Whole(b: Str) {
    && Parse(b).ok
    && AllEncodable(Parse(b).frames)
    && b == Cat(Parse(b).frames)
  }

  ghost predicate Sealed(bufs: seq<Str>, bufLen: nat) {
    bufs == [] ||
    (var b := bufs[|bufs| - 1];
     0 < |b| <= bufLen && Whole(b) && Sealed(bufs[..|bufs| - 1], bufLen))
  }

  /** At most three bytes are free: what the length field shrank by when the frame was cut to size. */
  ghost predicate Filled(b: Str, bufLen: nat) { bufLen <= |b| + 3 }

  /** QuicFrameCryptoBuild, called with more than the largest header free. */
  method BuildFrame(cur: Str, bufLen: nat, data: Str, offset: nat) returns (next: nat, out: Str)
    requires |cur| + CRYPTO_HEADER_MAX < bufLen < TWO31 && offset < |data| < TWO30
    ensures offset < next <= |data| && |out| <= bufLen
    ensures out == cur + FrameBytes(Frame(offset, data[offset..next]))
    ensures next < |data| ==> |out| + VarLen(|data| - offset) - VarLen(next - offset) == bufLen && Filled(out, bufLen)
  {
    assert VarLen(TYPE_CRYPTO) == 1 && VarLen(offset) <= 4 && VarLen(|data| - offset) <= 4;
    var head := Enc(TYPE_CRYPTO) + Enc(offset);
    var part := SubVarLen(bufLen - |cur| - |head|, |data| - offset);
    next := offset + part.value;
    var body := head + Enc(part.value) + data[offset..next];
    out := cur + body;
  }

  /** The frames queued and those in the current buffer tile what was written so far. */
  ghost predicate Splitting(bufs: seq<Str>, cur: Str, fs: seq<Frame>, data: Str, offset: nat, bufLen: nat) {
    && |cur| <= bufLen && Sealed(bufs, bufLen)
    && AllEncodable(fs) && cur == Cat(fs)
    && Tiles(FramesOf(bufs) + fs, data, 0, offset)
  }

  ghost predicate AllFilled(bufs: seq<Str>, bufLen: nat) { forall b :: b in bufs ==> Filled(b, bufLen) }

  lemma FilledFront(bufs: seq<Str>, bufLen: nat)
    requires AllFilled(bufs, bufLen)
    ensures bufs != [] ==> AllFilled(bufs[..|bufs| - 1], bufLen)
  {}

  /** QuicFrameCryptoSplit with the final queueing of QuicCryptoFrameBuild. */
  method Split(data: Str, bufLen: nat) returns (ok: bool, bufs: seq<Str>)
    requires |data| < TWO30 && bufLen < TWO31
    ensures ok <==> bufLen > CRYPTO_HEADER_MAX || data == []
    ensures ok ==> Sealed(bufs, bufLen) && Tiles(FramesOf(bufs), data, 0, |data|)
    ensures ok && bufs != [] ==> AllFilled(bufs[..|bufs| - 1], bufLen)
  {
    var cur: Str := [];
    var offset := 0;
    bufs := [];
    ghost var fs: seq<Frame> := [];
    while QuicLt(offset, |data|)
      invariant 0 <= offset <= |data|
      invariant offset > 0 ==> bufLen > CRYPTO_HEADER_MAX
      invariant cur == [] <==> offset == 0
      invariant Splitting(bufs, cur, fs, data, offset, bufLen)
      invariant AllFilled(bufs, bufLen) && (cur != [] && offset < |data| ==> Filled(cur, bufLen))
      decreases |data| - offset
    {
      if !QuicGt(bufLen - |cur|, CRYPTO_HEADER_MAX) {
        // QuicBuffQueueAndNext refuses to queue an empty buffer
        if |cur| == 0 { return false, []; }
        bufs := Queue(bufs, cur, fs, data, offset, bufLen);
        cur, fs := [], [];
      }
      cur, offset, fs := AddFrame(bufs, cur, fs, data, offset, bufLen);
    }
    ok := true;
    FilledFront(bufs, bufLen);
    if |cur| != 0 {
      assert (bufs + [cur])[..|bufs|] == bufs;
      bufs := Queue(bufs, cur, fs, data, offset, bufLen);
      SplitDone(bufs, [], [], data, offset, bufLen);
    } else {
      SplitDone(bufs, cur, fs, data, offset, bufLen);
    }
  }

  method Queue(bufs: seq<Str>, cur: Str, ghost fs: seq<Frame>, data: Str, offset: nat, bufLen: nat)
    returns (r: seq<Str>)
    requires Splitting(bufs, cur, fs, data, offset, bufLen) && cur != []
    ensures r == bufs + [cur] && Splitting(r, [], [], data, offset, bufLen)
  {
    QueueStep(bufs, cur, fs, data, offset, bufLen);
    r := bufs + [cur];
  }

  method AddFrame(bufs: seq<Str>, cur: Str, ghost fs: seq<Frame>, data: Str, offset: nat, bufLen: nat)
    returns (out: Str, next: nat, ghost gs: seq<Frame>)
    requires |cur| + CRYPTO_HEADER_MAX < bufLen < TWO31 && offset < |data| < TWO30
    requires Splitting(bufs, cur, fs, data, offset, bufLen)
    ensures offset < next <= |data| && out != [] && Splitting(bufs, out, gs, data, next, bufLen)
    ensures next < |data| ==> Filled(out, bufLen)
  {
    next, out := BuildFrame(cur, bufLen, data, offset);
    ghost var f := Frame(offset, data[offset..next]);
    gs := fs + [f];
    FrameStep(bufs, cur, fs, data, offset, bufLen, f, out, gs, next);
  }

  lemma SplitDone(bufs: seq<Str>, cur: Str, fs: seq<Frame>, data: Str, offset: nat, bufLen: nat)
    requires Splitting(bufs, cur, fs, data, offset, bufLen) && cur == [] && offset == |data|
    ensures Sealed(bufs, bufLen) && Tiles(FramesOf(bufs), data, 0, |data|)
  {
    assert fs == [];
    assert FramesOf(bufs) + [] == FramesOf(bufs);
  }

  lemma FrameStep(bufs: seq<Str>, cur: Str, fs: seq<Frame>, data: Str, offset: nat, bufLen: nat,
                  f: Frame, out: Str, gs: seq<Frame>, next: nat)
    requires Splitting(bufs, cur, fs, data, offset, bufLen)
    requires offset < next <= |data| < TWO30 && |out| <= bufLen
    requires f == Frame(offset, data[offset..next]) && out == cur + FrameBytes(f) && gs == fs + [f]
    ensures Splitting(bufs, out, gs, data, next, bufLen)
  {
    CatSnoc(fs, f);
    TilesNext(FramesOf(bufs), fs, gs, data, offset, f, next);
  }

  lemma TilesNext(done: seq<Frame>, fs: seq<Frame>, gs: seq<Frame>, data: Str, offset: nat, f: Frame, next: nat)
    requires Tiles(done + fs, data, 0, offset) && offset < next <= |data|
    requires f == Frame(offset, data[offset..next]) && gs == fs + [f]
    ensures Tiles(done + gs, data, 0, next)
  {
    TilesSnoc(done + fs, data, 0, offset, f, next);
    Assoc3(done, fs, [f]);
  }

  lemma QueueStep(bufs: seq<Str>, cur: Str, fs: seq<Frame>, data: Str, offset: nat, bufLen: nat)
    requires Splitting(bufs, cur, fs, data, offset, bufLen) && cur != []
    ensures Splitting(bufs + [cur], [], [], data, offset, bufLen)
  {
    ParseCat(fs, []);
    assert Cat(fs) + [] == cur && fs + [] == fs;
    assert Parse([]) == Parsed([], true);
    assert (bufs + [cur])[..|bufs|] == bufs;
    assert FramesOf(bufs + [cur]) + [] == FramesOf(bufs) + fs;
  }

  // ---------------------------------------------------------------- reassembly

  /** The TLS receive buffer: its storage and how much of it counts as received. */
  datatype Buf = Buf(mem: Str, len: nat)

  function Grow(mem: Str, n: nat): Str {
    if n > |mem| then mem + Zeros(n - |mem|) else mem
  }

  /** QuicFrameCryptoParser once the frame is read. */
  function Apply(b: Buf, f: Frame): Buf {
    var total := f.off + |f.data|;
    Buf(Overwrite(Grow(b.mem, total), f.off, f.data), Max(b.len, total))
  }

  function ApplyAll(b: Buf, fs: seq<Frame>): Buf
    decreases |fs|
  {
    if fs == [] then b else ApplyAll(Apply(b, fs[0]), fs[1..])
  }

  lemma {:induction false} ApplyAppend(b: Buf, fs: seq<Frame>, gs: seq<Frame>)
    ensures ApplyAll(b, fs + gs) == ApplyAll(ApplyAll(b, fs), gs)
    decreases |fs|
  {
    if fs == [] {
      assert fs + gs == gs;
    } else {
      assert (fs + gs)[1..] == fs[1..] + gs;
      ApplyAppend(Apply(b, fs[0]), fs[1..], gs);
    }
  }

  /** The frame carries bytes of `msg` at their place. */
  ghost predicate PartOf(f: Frame, msg: Str) {
    f.off + |f.data| <= |msg| && f.data == msg[f.off..f.off + |f.data|]
  }

  ghost predicate Covers(f: Frame, i: nat) { f.off <= i < f.off + |f.data| }

  ghost predicate HoldsAt(b: Buf, msg: Str, i: nat)
    requires i < |msg|
  { i < |b.mem| && b.mem[i] == msg[i] }

  ghost predicate AllParts(fs: seq<Frame>, msg: Str) {
    fs == [] || (PartOf(fs[0], msg) && AllParts(fs[1..], msg))
  }

  lemma ApplyStep(msg: Str, b: Buf, f: Frame, i: nat)
    requires PartOf(f, msg) && i < |msg| && b.len <= |msg|
    ensures Covers(f, i) || HoldsAt(b, msg, i) ==> HoldsAt(Apply(b, f), msg, i)
    ensures b.len <= Apply(b, f).len <= |msg| && f.off + |f.data| <= Apply(b, f).len
  {}

  /** Whatever the order and however often frames of one message arrive, every position that some
      frame covered holds the message, and the length is at least the furthest end seen. */
  lemma {:induction false} Reassembled(msg: Str, b: Buf, fs: seq<Frame>, f: Frame, i: nat)
    requires AllParts(fs, msg) && i < |msg| && b.len <= |msg|
    ensures (f in fs && Covers(f, i)) || HoldsAt(b, msg, i) ==> HoldsAt(ApplyAll(b, fs), msg, i)
    ensures b.len <= ApplyAll(b, fs).len <= |msg|
    ensures f in fs ==> f.off + |f.data| <= ApplyAll(b, fs).len
    decreases |fs|
  {
    if fs != [] {
      ApplyStep(msg, b, fs[0], i);
      Reassembled(msg, Apply(b, fs[0]), fs[1..], f, i);
    }
  }

  /** Frames that tile the message cover all of it. */
  lemma {:induction false} TilesCover(fs: seq<Frame>, msg: Str, from: nat, to: nat, i: nat) returns (f: Frame)
    requires Tiles(fs, msg, from, to) && from <= i < to
    ensures f in fs && Covers(f, i)
  {
    if i < fs[0].off + |fs[0].data| {
      f := fs[0];
    } else {
      f := TilesCover(fs[1..], msg, fs[0].off + |fs[0].data|, to, i);
    }
  }

  lemma {:induction false} TilesPart(fs: seq<Frame>, msg: Str, from: nat, to: nat)
    requires Tiles(fs, msg, from, to)
    ensures forall f :: f in fs ==> PartOf(f, msg)
  {
    if fs != [] {
      TilesPart(fs[1..], msg, fs[0].off + |fs[0].data|, to);
      assert PartOf(fs[0], msg);
    }
  }

  /** An arriving packet: which buffer it carried and how much padding was added to it. */
  datatype Arrival = Arrival(buffer: nat, padding: nat)

  ghost predicate Known(order: seq<Arrival>, n: nat) { forall a :: a in order ==> a.buffer < n }

  /** The frames of the packets that arrive. */
  function Received(bufs: seq<Str>, order: seq<Arrival>): seq<Frame>
    requires Known(order, |bufs|)
  {
    if order == [] then []
    else Parse(bufs[order[0].buffer] + Zeros(order[0].padding)).frames + Received(bufs, order[1..])
  }

  /** The frames of each buffer. */
  function Lists(bufs: seq<Str>): (ls: seq<seq<Frame>>)
    ensures |ls| == |bufs|
  {
    if bufs == [] then [] else Lists(bufs[..|bufs| - 1]) + [Parse(bufs[|bufs| - 1]).frames]
  }

  function Flat(ls: seq<seq<Frame>>): seq<Frame> {
    if ls == [] then [] else Flat(ls[..|ls| - 1]) + ls[|ls| - 1]
  }

  function Gather(ls: seq<seq<Frame>>, order: seq<Arrival>): seq<Frame>
    requires Known(order, |ls|)
  {
    if order == [] then [] else ls[order[0].buffer] + Gather(ls, order[1..])
  }

  lemma {:induction false} FlatLists(bufs: seq<Str>)
    ensures Flat(Lists(bufs)) == FramesOf(bufs)
  {
    if bufs != [] {
      FlatLists(bufs[..|bufs| - 1]);
      FlatSnoc(Lists(bufs[..|bufs| - 1]), Parse(bufs[|bufs| - 1]).frames);
    }
  }

  lemma FlatSnoc(ls: seq<seq<Frame>>, l: seq<Frame>)
    ensures Flat(ls + [l]) == Flat(ls) + l
  {
    assert (ls + [l])[..|ls|] == ls;
  }

  /** Padding behind a sealed buffer adds no frame. */
  lemma {:induction false} SealedAt(bufs: seq<Str>, bufLen: nat, k: nat, padding: nat)
    requires Sealed(bufs, bufLen) && k < |bufs|
    ensures Parse(bufs[k] + Zeros(padding)).frames == Lists(bufs)[k]
  {
    var n := |bufs| - 1;
    if k == n {
      ParsePadded(bufs[n], padding);
    } else {
      SealedAt(bufs[..n], bufLen, k, padding);
      assert bufs[..n][k] == bufs[k];
    }
  }

  lemma {:induction false} ReceivedIs(bufs: seq<Str>, bufLen: nat, order: seq<Arrival>)
    requires Sealed(bufs, bufLen) && Known(order, |bufs|)
    ensures Received(bufs, order) == Gather(Lists(bufs), order)
  {
    if order != [] {
      SealedAt(bufs, bufLen, order[0].buffer, order[0].padding);
      ReceivedIs(bufs, bufLen, order[1..]);
    }
  }

  ghost predicate Delivered(order: seq<Arrival>, k: nat) {
    exists a :: a in order && a.buffer == k
  }

  lemma ParsePadded(b: Str, n: nat)
    requires Whole(b)
    ensures Parse(b + Zeros(n)) == Parse(b)
  {
    ParseCat(Parse(b).frames, Zeros(n));
    ParseZeros(n);
    assert Parse(b).frames + [] == Parse(b).frames;
  }

  lemma {:induction false} FlatHas(ls: seq<seq<Frame>>, k: nat, f: Frame)
    requires k < |ls| && f in ls[k]
    ensures f in Flat(ls)
  {
    if k < |ls| - 1 { FlatHas(ls[..|ls| - 1], k, f); }
  }

  lemma {:induction false} FlatFrom(ls: seq<seq<Frame>>, f: Frame) returns (k: nat)
    requires f in Flat(ls)
    ensures k < |ls| && f in ls[k]
  {
    if f in ls[|ls| - 1] { k := |ls| - 1; } else { k := FlatFrom(ls[..|ls| - 1], f); }
  }

  lemma {:induction false} GatherHas(ls: seq<seq<Frame>>, order: seq<Arrival>, k: nat, f: Frame)
    requires Known(order, |ls|) && Delivered(order, k) && k < |ls| && f in ls[k]
    ensures f in Gather(ls, order)
  {
    if order[0].buffer != k {
      var a :| a in order && a.buffer == k;
      assert a in order[1..];
      GatherHas(ls, order[1..], k, f);
    }
  }

  lemma {:induction false} GatherParts(ls: seq<seq<Frame>>, order: seq<Arrival>, msg: Str)
    requires Known(order, |ls|) && forall f :: f in Flat(ls) ==> PartOf(f, msg)
    ensures AllParts(Gather(ls, order), msg)
  {
    if order != [] {
      var l := ls[order[0].buffer];
      forall f | f in l ensures PartOf(f, msg) { FlatHas(ls, order[0].buffer, f); }
      AllPartsIntro(l, msg);
      GatherParts(ls, order[1..], msg);
      AllPartsAppend(l, Gather(ls, order[1..]), msg);
    }
  }

  lemma {:induction false} AllPartsAppend(a: seq<Frame>, b: seq<Frame>, msg: Str)
    requires AllParts(a, msg) && AllParts(b, msg)
    ensures AllParts(a + b, msg)
  {
    if a == [] {
      assert a + b == b;
    } else {
      assert (a + b)[1..] == a[1..] + b;
      AllPartsAppend(a[1..], b, msg);
    }
  }

  lemma {:induction false} AllPartsIntro(fs: seq<Frame>, msg: Str)
    requires forall f :: f in fs ==> PartOf(f, msg)
    ensures AllParts(fs, msg)
  {
    if fs != [] {
      assert PartOf(fs[0], msg);
      AllPartsIntro(fs[1..], msg);
    }
  }

  /** Every byte of the message is in its place once all lists have arrived. */
  lemma ByteArrives(msg: Str, ls: seq<seq<Frame>>, order: seq<Arrival>, b: Buf, i: nat)
    requires Known(order, |ls|) && Tiles(Flat(ls), msg, 0, |msg|) && AllParts(Gather(ls, order), msg)
    requires forall k :: 0 <= k < |ls| ==> Delivered(order, k)
    requires b.len <= |msg| && i < |msg|
    ensures var r := ApplyAll(b, Gather(ls, order)); HoldsAt(r, msg, i) && i < r.len <= |msg|
  {
    var f := TilesCover(Flat(ls), msg, 0, |msg|, i);
    var k := FlatFrom(ls, f);
    GatherHas(ls, order, k, f);
    Reassembled(msg, b, Gather(ls, order), f, i);
  }

  ghost predicate HoldsUpto(r: Buf, msg: Str, n: nat)
    requires n <= |msg|
  { n <= |r.mem| && r.mem[..n] == msg[..n] && (n > 0 ==> n <= r.len <= |msg|) }

  lemma HoldsNext(r: Buf, msg: Str, n: nat)
    requires n < |msg| && HoldsUpto(r, msg, n) && HoldsAt(r, msg, n) && n < r.len <= |msg|
    ensures HoldsUpto(r, msg, n + 1)
  {
    assert r.mem[..n + 1] == r.mem[..n] + [r.mem[n]] && msg[..n + 1] == msg[..n] + [msg[n]];
  }

  lemma {:induction false} PrefixArrives(msg: Str, ls: seq<seq<Frame>>, order: seq<Arrival>, b: Buf, n: nat)
    requires Known(order, |ls|) && Tiles(Flat(ls), msg, 0, |msg|) && AllParts(Gather(ls, order), msg)
    requires forall k :: 0 <= k < |ls| ==> Delivered(order, k)
    requires b.len <= |msg| && n <= |msg|
    ensures HoldsUpto(ApplyAll(b, Gather(ls, order)), msg, n)
  {
    if n > 0 {
      PrefixArrives(msg, ls, order, b, n - 1);
      ByteArrives(msg, ls, order, b, n - 1);
      HoldsNext(ApplyAll(b, Gather(ls, order)), msg, n - 1);
    }
  }

  lemma ListsReassemble(msg: Str, ls: seq<seq<Frame>>, order: seq<Arrival>, b: Buf)
    requires Known(order, |ls|) && Tiles(Flat(ls), msg, 0, |msg|) && b.len <= |msg|
    requires forall k :: 0 <= k < |ls| ==> Delivered(order, k)
    ensures var r := ApplyAll(b, Gather(ls, order));
            |msg| <= |r.mem| && r.mem[..|msg|] == msg && (msg != [] ==> r.len == |msg|)
  {
    TilesPart(Flat(ls), msg, 0, |msg|);
    GatherParts(ls, order, msg);
    PrefixArrives(msg, ls, order, b, |msg|);
    assert msg[..|msg|] == msg;
  }

  /** Splitting inverts under reassembly: deliver the buffers that Split made in any order, padded or
      not, each at least once, and the receive buffer holds the message. */
  lemma SplitThenReassemble(msg: Str, bufs: seq<Str>, bufLen: nat, order: seq<Arrival>, b: Buf)
    requires Sealed(bufs, bufLen) && Tiles(FramesOf(bufs), msg, 0, |msg|)
    requires Known(order, |bufs|) && b.len <= |msg|
    requires forall k :: 0 <= k < |bufs| ==> Delivered(order, k)
    ensures var r := ApplyAll(b, Received(bufs, order));
            |msg| <= |r.mem| && r.mem[..|msg|] == msg && (msg != [] ==> r.len == |msg|)
  {
    FlatLists(bufs);
    ReceivedIs(bufs, bufLen, order);
    ListsReassemble(msg, Lists(bufs), order, b);
  }

  /** Offsets and lengths stay in the range of the comparison macros. */
  ghost predicate InRange(s: Str)
    decreases |s|
  {
    var t := Next(s);
    t.Some? ==>
      if t.value.0 == TYPE_PADDING then InRange(t.value.1)
      else t.value.0 == TYPE_CRYPTO ==> CryptoInRange(t.value.1)
                                        && (ParseCrypto(t.value.1).Some? ==> InRange(ParseCrypto(t.value.1).value.1))
  }

  ghost predicate CryptoInRange(s: Str) {
    var o := Next(s);
    o.Some? && Next(o.value.1).Some? ==> o.value.0 + Next(o.value.1).value.0 < TWO31
  }

  /** The TLS buffer object the frames are copied into. */
  class TlsBuffer {
    var mem: Str
    var len: nat

    ghost function Abs(): Buf
      reads this
    { Buf(mem, len) }

    constructor (n: nat)
      ensures Abs() == Buf(Zeros(n), 0)
    { mem, len := Zeros(n), 0; }

    /** QuicFrameCryptoParser. A frame cut short by the end of the packet only grows the storage. */
    method ParseFrame(pkt: RPacket) returns (ok: bool)
      requires pkt.Valid() && CryptoInRange(pkt.Rest()) && |mem| < TWO31 && len < TWO31
      modifies this, pkt
      ensures pkt.Valid() && |mem| < TWO31 && len < TWO31
      ensures var f := ParseCrypto(old(pkt.Rest()));
              && ok == f.Some?
              && (ok ==> Abs() == Apply(old(Abs()), f.value.0) && pkt.Rest() == f.value.1)
              && (!ok ==> len == old(len) && old(mem) <= mem)
    {
      var offset, length;
      ok, offset, length := ParseHead(pkt);
      if !ok { return; }
      if QuicGt(offset + length, |mem|) { mem := Grow(mem, offset + length); }
      var data;
      ok, data := pkt.GetBytes(length);
      if ok { Store(offset, data, old(mem)); }
    }

    /** The two numbers in front of the data. */
    method ParseHead(pkt: RPacket) returns (ok: bool, offset: nat, length: nat)
      requires pkt.Valid() && CryptoInRange(pkt.Rest())
      modifies pkt
      ensures pkt.Valid()
      ensures !ok ==> ParseCrypto(old(pkt.Rest())).None?
      ensures ok ==> offset + length < TWO31
      ensures ok ==> var rest, f := pkt.Rest(), ParseCrypto(old(pkt.Rest()));
                     f == if |rest| < length then None else Some((Frame(offset, rest[..length]), rest[length..]))
    {
      length := 0;
      ok, offset := Decode(pkt);
      if ok { ok, length := Decode(pkt); }
    }

    /** The copy of RPacketCopyBytes into storage that was grown, and the new length. */
    method Store(offset: nat, data: Str, ghost was: Str)
      requires offset + |data| < TWO31 && len < TWO31 && mem == Grow(was, offset + |data|)
      modifies this
      ensures Abs() == Apply(Buf(was, old(len)), Frame(offset, data))
      ensures |mem| == |old(mem)|
    {
      mem := Overwrite(mem, offset, data);
      if QuicGt(offset + |data|, len) { len := offset + |data|; }
    }

    /** One turn of QuicFrameDoParser: a padding byte, a CRYPTO frame, the end or an error. */
    method ParseNext(pkt: RPacket) returns (more: bool, ok: bool, ghost fs: seq<Frame>)
      requires pkt.Valid() && InRange(pkt.Rest()) && |mem| < TWO31 && len < TWO31
      modifies this, pkt
      ensures !more ==> Parse(old(pkt.Rest())) == Parsed([], ok)
      ensures more ==> pkt.Valid() && InRange(pkt.Rest()) && |mem| < TWO31 && len < TWO31
                       && |pkt.Rest()| < |old(pkt.Rest())|
      ensures more ==> var p := Parse(pkt.Rest());
                       Parse(old(pkt.Rest())) == Parsed(fs + p.frames, p.ok) && Abs() == ApplyAll(old(Abs()), fs)
      ensures !more && ok ==> Abs() == old(Abs())
    {
      var t;
      fs := [];
      ok, t := Decode(pkt);
      if !ok { return false, true, []; }
      if t == TYPE_PADDING {
        assert [] + Parse(pkt.Rest()).frames == Parse(pkt.Rest()).frames;
        return true, true, [];
      }
      if t != TYPE_CRYPTO { return false, false, []; }
      ghost var rest := pkt.Rest();
      ok := ParseFrame(pkt);
      more := ok;
      if ok {
        fs := [ParseCrypto(rest).value.0];
        assert ApplyAll(Apply(old(Abs()), fs[0]), fs[1..]) == Abs();
      }
    }

    /** QuicFrameDoParser on a payload of PADDING and CRYPTO frames. */
    method ParsePayload(pkt: RPacket) returns (ok: bool)
      requires pkt.Valid() && InRange(pkt.Rest()) && |mem| < TWO31 && len < TWO31
      modifies this, pkt
      ensures ok == Parse(old(pkt.Rest())).ok
      ensures ok ==> Abs() == ApplyAll(old(Abs()), Parse(old(pkt.Rest())).frames)
    {
      ghost var all, done: seq<Frame> := Parse(pkt.Rest()), [];
      assert [] + all.frames == all.frames;
      var more := true;
      ok := true;
      while more
        invariant more ==> pkt.Valid() && InRange(pkt.Rest()) && |mem| < TWO31 && len < TWO31
        invariant more ==> all == Parsed(done + Parse(pkt.Rest()).frames, Parse(pkt.Rest()).ok)
        invariant !more ==> all == Parsed(done, ok)
        invariant more || ok ==> Abs() == ApplyAll(old(Abs()), done)
        decreases more, if more then |pkt.Rest()| else 0
      {
        ghost var fs;
        ghost var was := Abs();
        more, ok, fs := ParseNext(pkt);
        if more {
          Assoc3(done, fs, Parse(pkt.Rest()).frames);
          ApplyAppend(old(Abs()), done, fs);
          done := done + fs;
        } else {
          assert done + [] == done;
        }
      }
    }
  }
}
