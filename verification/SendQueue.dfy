/** From the transmit queue to datagrams: length computation, coalescing, padding and the move to
    the sent queues (quic/core.c:51-106, quic/q_buff.c, quic/format.c:976-1239,
    quic/frame.c:1114-1127 and quic/quic_lib.c:554-584). */
module Queues {
  import opened Bytes
  import opened Datagram

  /** QBUFF. `id` names the buffer; the source knows it by its address. */
  datatype QBuff = QBuff(id: nat, space: Space, data: Str, bufLen: nat, pktNum: nat,
                         stream: int, streamLen: nat, fin: bool, reset: bool)

  /** The part of QUIC_CRYPTO that sending and acknowledging use. */
  datatype Crypto = Crypto(pktNum: nat, sent: seq<QBuff>, ready: bool)

  datatype Spaces = Spaces(initial: Crypto, handshake: Crypto, app: Crypto) {
    /** QuicCryptoGet */
    function Get(sp: Space): Crypto {
      match sp case Initial => initial case Handshake => handshake case App => app
    }
    function Put(sp: Space, c: Crypto): Spaces {
      match sp
      case Initial => this.(initial := c)
      case Handshake => this.(handshake := c)
      case App => this.(app := c)
    }
  }

  /** The sent queue of a space holds its packets by strictly increasing number, none beyond the
      last number used. */
  ghost predicate SentSorted(q: seq<QBuff>, bound: nat) {
    && (forall i :: 0 <= i < |q| ==> q[i].pktNum <= bound)
    && (forall i, j :: 0 <= i < j < |q| ==> q[i].pktNum < q[j].pktNum)
  }

  ghost predicate Ordered(st: Spaces) {
    forall sp :: SentSorted(st.Get(sp).sent, st.Get(sp).pktNum)
  }

  /** The buffers of one space, in order. */
  function Of(sp: Space, q: seq<QBuff>): seq<nat> {
    if q == [] then []
    else (if q[0].space == sp then [q[0].id] else []) + Of(sp, q[1..])
  }

  function Ids(q: seq<QBuff>): seq<nat> {
    if q == [] then [] else Ids(q[..|q| - 1]) + [q[|q| - 1].id]
  }

  /** The buffers of a space that were sent and, after them, those that still wait. */
  function Line(st: Spaces, tx: seq<QBuff>, sp: Space): seq<nat> {
    Ids(st.Get(sp).sent) + Of(sp, tx)
  }

  /** QBuffQueueUnlink and QBuffQueueAdd in QuicWritePkt: the stamped buffer joins its sent queue. */
  function Move(st: Spaces, q: QBuff): Spaces {
    st.Put(q.space, st.Get(q.space).(pktNum := q.pktNum, sent := st.Get(q.space).sent + [q]))
  }

  function MoveAll(st: Spaces, qs: seq<QBuff>): Spaces
    decreases |qs|
  {
    if qs == [] then st else MoveAll(Move(st, qs[0]), qs[1..])
  }

  /** Taking the next number keeps the sent queues sorted and bounded. */
  lemma MoveOrdered(st: Spaces, q: QBuff)
    requires Ordered(st) && q.pktNum == st.Get(q.space).pktNum + 1
    ensures Ordered(Move(st, q))
  {
    forall sp ensures SentSorted(Move(st, q).Get(sp).sent, Move(st, q).Get(sp).pktNum) {
      assert SentSorted(st.Get(sp).sent, st.Get(sp).pktNum);
    }
  }

  /** Moving the front buffer conserves every line: nothing is lost, doubled or overtaken. */
  lemma MoveConserves(st: Spaces, tx: seq<QBuff>, q: QBuff, sp: Space)
    requires tx != [] && q.id == tx[0].id && q.space == tx[0].space
    ensures Line(Move(st, q), tx[1..], sp) == Line(st, tx, sp)
  {
    var sent := st.Get(sp).sent;
    if q.space == sp {
      assert (sent + [q])[..|sent|] == sent;
      assert Ids(sent) + [q.id] + Of(sp, tx[1..]) == Ids(sent) + ([q.id] + Of(sp, tx[1..]));
    } else {
      assert [] + Of(sp, tx[1..]) == Of(sp, tx[1..]);
    }
  }
}

module PacketLength {
  import opened Common
  import opened Bytes
  import opened Varint
  import opened Protection
  import opened Datagram

  const DATAGRAM_MIN := 1200

  /** QuicLPacketGetHeaderLen */
  function LongHeaderLen(s: Sender, sp: Space): nat {
    1 + 4 + (1 + |s.dcid|) + (1 + |s.scid|) + (if sp == Initial then VarLen(|s.token|) + |s.token| else 0)
  }

  /** QuicSPacketGetHeaderLen; it counts a length byte the short header does not have. */
  function ShortHeaderLen(s: Sender): nat { 1 + (1 + |s.dcid|) }

  /** QuicLPacketGetTotalLen and QuicSPacketGetTotalLen */
  function TotalLen(s: Sender, sp: Space, dataLen: nat): nat {
    var len := dataLen + TAG + s.pnLen;
    if sp == App then ShortHeaderLen(s) + len else LongHeaderLen(s, sp) + len + VarLen(len)
  }

  /** What a sealed packet really takes. */
  function SealedLen(s: Sender, sp: Space, dataLen: nat): nat {
    TotalLen(s, sp, dataLen) - (if sp == App then 1 else 0)
  }

  /** The computed length is exact for long packets and one too many for short ones. */
  lemma TotalLenExact(s: Sender, sp: Space, dataLen: nat)
    requires s.Valid() && dataLen < TWO30
    ensures var n := s.pnLen + dataLen + TAG;
            |Head(s, sp, n)| + n == SealedLen(s, sp, dataLen)
  {}

  /** QuicFrameGetBuffLen; the source asserts that the result is positive. */
  function BuffLen(s: Sender, sp: Space, mss: nat): int {
    mss - (TotalLen(s, sp, mss) - mss)
  }

  /** A full buffer still makes a packet that fits. */
  lemma BuffLenFits(s: Sender, sp: Space, mss: nat, dataLen: nat)
    requires dataLen <= BuffLen(s, sp, mss)
    ensures TotalLen(s, sp, dataLen) <= mss
  {
    LenMonotone(dataLen + TAG + s.pnLen, mss + TAG + s.pnLen);
  }

  /** And it fills the segment: exactly for a short packet, up to what the Length field shrinks by for a
      long one. */
  lemma BuffLenFills(s: Sender, sp: Space, mss: nat)
    requires s.Valid() && mss < TWO30 && BuffLen(s, sp, mss) >= 0
    ensures var n := BuffLen(s, sp, mss);
            if sp == App then TotalLen(s, sp, n) == mss
            else TotalLen(s, sp, n) + VarLen(mss + TAG + s.pnLen) - VarLen(n + TAG + s.pnLen) == mss
  {}

  /** The zero bytes QuicLPacketBuild adds to the last long packet of a datagram. */
  function Padding(s: Sender, sp: Space, dataLen: nat, written: nat, end: bool): nat {
    var total := TotalLen(s, sp, dataLen) + written;
    if sp != App && end && total < DATAGRAM_MIN then DATAGRAM_MIN - total else 0
  }

  /** Exactly when the buffer has room for the padding. */
  lemma PaddingFitsIff(s: Sender, sp: Space, mss: nat, dataLen: nat, written: nat)
    requires sp != App && TotalLen(s, sp, dataLen) + written < DATAGRAM_MIN
    ensures dataLen + Padding(s, sp, dataLen, written, true) <= BuffLen(s, sp, mss) <==>
            DATAGRAM_MIN - written - VarLen(dataLen + TAG + s.pnLen) <= mss - VarLen(mss + TAG + s.pnLen)
  {}

  /** From a segment size of 1201 on there always is, and the padded datagram has 1200 or, when
      the padding lengthens the Length field, 1201 bytes. */
  lemma PaddingFits(s: Sender, sp: Space, mss: nat, dataLen: nat, written: nat)
    requires s.Valid() && sp != App && mss > DATAGRAM_MIN && dataLen < TWO30
    requires TotalLen(s, sp, dataLen) + written < DATAGRAM_MIN
    ensures var padded := dataLen + Padding(s, sp, dataLen, written, true);
            && padded <= BuffLen(s, sp, mss) && padded < TWO30
            && DATAGRAM_MIN <= written + SealedLen(s, sp, padded) <= DATAGRAM_MIN + 1
  {
    PaddingFitsIff(s, sp, mss, dataLen, written);
    var padded := dataLen + Padding(s, sp, dataLen, written, true);
    LenMonotone(dataLen + TAG + s.pnLen, padded + TAG + s.pnLen);
  }

  /** With 1200 bytes per datagram a short Handshake packet cannot be padded. */
  lemma PaddingCounterexample()
    ensures var s := Datagram.Sender(1, Zeros(8), Zeros(8), [], 1);
            4 + Padding(s, Handshake, 4, 0, true) > BuffLen(s, Handshake, 1200)
  {}
}

/** Which buffers share a datagram, for any way of computing packet lengths. */
module Coalescing {
  import opened Common
  import opened Bytes
  import opened Datagram
  import opened Queues

  type Cost = QBuff -> nat

  /** The test of QuicWritePkt: is the first buffer the last one of the datagram? */
  predicate Last(cost: Cost, mss: nat, tx: seq<QBuff>, written: nat)
    requires tx != []
  { |tx| == 1 || QuicGt(cost(tx[0]) + cost(tx[1]), mss - written) || tx[0].space == App }

  /** How many buffers the next datagram takes from the queue. */
  function Take(cost: Cost, mss: nat, tx: seq<QBuff>, written: nat): (k: nat)
    ensures k <= |tx| && (tx != [] ==> 0 < k)
    decreases |tx|
  {
    if tx == [] then 0
    else if Last(cost, mss, tx, written) then 1
    else 1 + Take(cost, mss, tx[1..], written + cost(tx[0]))
  }

  function Sum(cost: Cost, q: seq<QBuff>): nat {
    if q == [] then 0 else cost(q[0]) + Sum(cost, q[1..])
  }

  /** All but the last of a datagram's buffers are long. */
  ghost predicate LongButLast(q: seq<QBuff>) {
    |q| <= 1 || (q[0].space != App && LongButLast(q[1..]))
  }

  /** If the first packet fits, all that are taken fit together; short packets come last; and the
      choice is greedy, leaving a buffer only if it would not have fitted or a short one came. */
  lemma {:induction false} TakeFits(cost: Cost, mss: nat, tx: seq<QBuff>, written: nat)
    requires tx != [] && cost(tx[0]) + written <= mss < TWO30
    requires forall q :: q in tx ==> cost(q) < TWO30
    ensures var k := Take(cost, mss, tx, written);
            && written + Sum(cost, tx[..k]) <= mss && LongButLast(tx[..k])
            && (k < |tx| ==> tx[k - 1].space == App || written + Sum(cost, tx[..k]) + cost(tx[k]) > mss)
    decreases |tx|
  {
    var k := Take(cost, mss, tx, written);
    assert tx[..k][1..] == tx[1..][..k - 1];
    assert tx[..1][1..] == [];
    if !Last(cost, mss, tx, written) {
      TakeFits(cost, mss, tx[1..], written + cost(tx[0]));
    }
  }

  lemma {:induction false} SumLast(cost: Cost, q: seq<QBuff>)
    requires q != []
    ensures Sum(cost, q) == Sum(cost, q[..|q| - 1]) + cost(q[|q| - 1])
  {
    if |q| > 1 {
      SumLast(cost, q[1..]);
      assert q[1..][..|q| - 2] == q[..|q| - 1][1..];
    }
  }

  lemma TakeFitsAll(cost: Cost, mss: nat, tx: seq<QBuff>)
    requires tx != [] && mss < TWO30 && forall q :: q in tx ==> cost(q) <= mss
    ensures var k := Take(cost, mss, tx, 0);
            && Sum(cost, tx[..k - 1]) + cost(tx[k - 1]) <= mss && LongButLast(tx[..k])
            && (k < |tx| ==> tx[k - 1].space == App || Sum(cost, tx[..k]) + cost(tx[k]) > mss)
  {
    var k := Take(cost, mss, tx, 0);
    assert tx[0] in tx;
    TakeFits(cost, mss, tx, 0);
    SumLast(cost, tx[..k]);
    assert tx[..k][..k - 1] == tx[..k - 1];
  }

  /** The loop of QuicWritePkt, for any way of computing lengths and padding. */
  function PlanBy(cost: Cost, padOf: (QBuff, nat) -> nat, mss: nat, st: Spaces, tx: seq<QBuff>,
                  written: nat): (r: seq<QBuff>)
    ensures |r| <= |tx| && (tx != [] ==> r != [])
    decreases |tx|
  {
    if tx == [] then []
    else
      var last := Last(cost, mss, tx, written);
      var p := Stamp(st, tx[0], if last then padOf(tx[0], written) else 0);
      [p] + (if last then [] else PlanBy(cost, padOf, mss, Move(st, p), tx[1..], written + cost(tx[0])))
  }

  /** It sends as many buffers as share a datagram, numbered, and pads the last one. */
  ghost predicate Planned(cost: Cost, padOf: (QBuff, nat) -> nat, mss: nat, st: Spaces, tx: seq<QBuff>, written: nat,
                          k: nat, pad: nat) {
    && k == Take(cost, mss, tx, written) && 0 < k <= |tx|
    && pad == padOf(tx[k - 1], written + Sum(cost, tx[..k - 1]))
    && PlanBy(cost, padOf, mss, st, tx, written) == StampAll(st, tx[..k], pad)
  }

  lemma {:induction false} PlanByIs(cost: Cost, padOf: (QBuff, nat) -> nat, mss: nat, st: Spaces, tx: seq<QBuff>,
                                    written: nat) returns (k: nat, pad: nat)
    requires tx != []
    ensures Planned(cost, padOf, mss, st, tx, written, k, pad)
    decreases |tx|
  {
    if Last(cost, mss, tx, written) {
      k, pad := 1, padOf(tx[0], written);
      assert tx[..1] == [tx[0]] && tx[..0] == [] && [tx[0]][1..] == [];
    } else {
      k, pad := PlanByIs(cost, padOf, mss, Move(st, Stamp(st, tx[0], 0)), tx[1..], written + cost(tx[0]));
      PlannedMore(cost, padOf, mss, st, tx, written, k, pad);
      k := k + 1;
    }
  }

  lemma PlannedMore(cost: Cost, padOf: (QBuff, nat) -> nat, mss: nat, st: Spaces, tx: seq<QBuff>, written: nat,
                    k: nat, pad: nat)
    requires tx != [] && !Last(cost, mss, tx, written)
    requires Planned(cost, padOf, mss, Move(st, Stamp(st, tx[0], 0)), tx[1..], written + cost(tx[0]), k, pad)
    ensures Planned(cost, padOf, mss, st, tx, written, k + 1, pad)
  {
    PlanByCons(cost, padOf, mss, st, tx, written, k, pad);
    PrefixOfTail(cost, tx, k);
    TakeCons(cost, mss, tx, written, k);
  }

  lemma TakeCons(cost: Cost, mss: nat, tx: seq<QBuff>, written: nat, k: nat)
    requires tx != [] && !Last(cost, mss, tx, written) && Take(cost, mss, tx[1..], written + cost(tx[0])) == k
    ensures Take(cost, mss, tx, written) == k + 1
  {}

  lemma PlanByCons(cost: Cost, padOf: (QBuff, nat) -> nat, mss: nat, st: Spaces, tx: seq<QBuff>, written: nat,
                   k: nat, pad: nat)
    requires tx != [] && !Last(cost, mss, tx, written) && 0 < k < |tx|
    requires var p := Stamp(st, tx[0], 0);
             PlanBy(cost, padOf, mss, Move(st, p), tx[1..], written + cost(tx[0])) ==
             StampAll(Move(st, p), tx[1..][..k], pad)
    ensures PlanBy(cost, padOf, mss, st, tx, written) == StampAll(st, tx[..k + 1], pad)
  {
    StampAllCons(st, tx[..k + 1], pad);
    assert tx[..k + 1][1..] == tx[1..][..k];
  }

  lemma PrefixOfTail(cost: Cost, tx: seq<QBuff>, j: nat)
    requires 0 < j < |tx|
    ensures tx[j] == tx[1..][j - 1] && tx[..j + 1][1..] == tx[1..][..j] && tx[..j + 1][0] == tx[0]
    ensures Sum(cost, tx[..j]) == cost(tx[0]) + Sum(cost, tx[1..][..j - 1])
  {
    assert tx[..j][1..] == tx[1..][..j - 1];
  }

  lemma StampAllCons(st: Spaces, q: seq<QBuff>, pad: nat)
    requires |q| > 1
    ensures StampAll(st, q, pad) == [Stamp(st, q[0], 0)] + StampAll(Move(st, Stamp(st, q[0], 0)), q[1..], pad)
  {}

  /** The buffers as they are sent: numbered in their spaces, the last one padded. */
  function StampAll(st: Spaces, q: seq<QBuff>, pad: nat): (r: seq<QBuff>)
    ensures |r| == |q|
    decreases |q|
  {
    if q == [] then []
    else
      var p := Stamp(st, q[0], if |q| == 1 then pad else 0);
      [p] + StampAll(Move(st, p), q[1..], pad)
  }

  function Stamp(st: Spaces, q: QBuff, pad: nat): QBuff {
    q.(data := q.data + Zeros(pad), pktNum := st.Get(q.space).pktNum + 1)
  }

  /** Stamping changes the number and, for the last buffer, appends the padding; nothing else. */
  lemma {:induction false} StampAllAt(st: Spaces, q: seq<QBuff>, pad: nat, i: nat)
    requires i < |q|
    ensures var p := StampAll(st, q, pad)[i];
            && p == q[i].(data := p.data, pktNum := p.pktNum)
            && p.data == q[i].data + Zeros(if i == |q| - 1 then pad else 0)
    decreases |q|
  {
    if i > 0 {
      StampAllAt(Move(st, Stamp(st, q[0], 0)), q[1..], pad, i - 1);
    }
  }

  /** Each takes the number after those of its space that go before it. */
  lemma {:induction false} StampAllNumber(st: Spaces, q: seq<QBuff>, pad: nat, i: nat)
    requires i < |q|
    ensures var r := StampAll(st, q, pad);
            r[i].pktNum == MoveAll(st, r[..i]).Get(q[i].space).pktNum + 1
    decreases |q|
  {
    if i > 0 {
      var p := Stamp(st, q[0], 0);
      StampAllNumber(Move(st, p), q[1..], pad, i - 1);
      MoveFront(st, p, StampAll(Move(st, p), q[1..], pad), i);
    }
  }

  /** Sending any front part of the stamped buffers keeps the sent queues sorted by packet number. */
  lemma {:induction false} StampAllOrdered(st: Spaces, q: seq<QBuff>, pad: nat, j: nat)
    requires Ordered(st) && j <= |q|
    ensures Ordered(MoveAll(st, StampAll(st, q, pad)[..j]))
    decreases |q|
  {
    if j > 0 {
      var p := Stamp(st, q[0], if |q| == 1 then pad else 0);
      MoveOrdered(st, p);
      StampAllOrdered(Move(st, p), q[1..], pad, j - 1);
      MoveFront(st, p, StampAll(Move(st, p), q[1..], pad), j);
    }
  }

  /** No space goes back to an earlier number. */
  lemma {:induction false} StampAllRises(st: Spaces, q: seq<QBuff>, pad: nat, j: nat, sp: Space)
    requires j <= |q|
    ensures MoveAll(st, StampAll(st, q, pad)[..j]).Get(sp).pktNum >= st.Get(sp).pktNum
    decreases |q|
  {
    if j > 0 {
      var p := Stamp(st, q[0], if |q| == 1 then pad else 0);
      StampAllRises(Move(st, p), q[1..], pad, j - 1, sp);
      MoveFront(st, p, StampAll(Move(st, p), q[1..], pad), j);
    }
  }

  lemma MoveFront(st: Spaces, p: QBuff, r: seq<QBuff>, j: nat)
    requires 0 < j <= |r| + 1
    ensures MoveAll(st, ([p] + r)[..j]) == MoveAll(Move(st, p), r[..j - 1])
  {
    assert ([p] + r)[..j] == [p] + r[..j - 1];
    assert ([p] + r[..j - 1])[1..] == r[..j - 1];
  }

  /** It also conserves every line: each buffer is in its sent queue or still waits, in order. */
  lemma {:induction false} StampAllConserves(st: Spaces, q: seq<QBuff>, tx: seq<QBuff>, pad: nat, j: nat, sp: Space)
    requires j <= |q| <= |tx| && q == tx[..|q|]
    ensures Line(MoveAll(st, StampAll(st, q, pad)[..j]), tx[j..], sp) == Line(st, tx, sp)
    decreases |q|
  {
    if j == 0 {
      assert tx[0..] == tx;
    } else {
      var p := Stamp(st, q[0], if |q| == 1 then pad else 0);
      MoveConserves(st, tx, p, sp);
      Tail(tx, j);
      assert q[1..] == tx[1..][..|q| - 1];
      StampAllConserves(Move(st, p), q[1..], tx[1..], pad, j - 1, sp);
      var r := StampAll(Move(st, p), q[1..], pad);
      assert StampAll(st, q, pad) == [p] + r;
      MoveFront(st, p, r, j);
    }
  }

  lemma Tail<T>(tx: seq<T>, j: nat)
    requires 0 < j <= |tx|
    ensures tx[1..][j - 1..] == tx[j..]
  {}
}

module SendQueue {
  import opened Common
  import opened Bytes
  import opened Varint
  import opened Protection
  import opened Datagram
  import opened Queues
  import opened PacketLength
  import opened Coalescing

  const MSS_MAX := 65507

  datatype Conf = Conf(s: Sender, mss: nat, c: Codec) {
    ghost predicate Valid() {
      s.Valid() && DATAGRAM_MIN < mss <= MSS_MAX && GoodCodec(c, s.pnLen)
    }
  }

  /** QBufPktComputeTotalLen */
  function Costs(f: Conf): Cost { (q: QBuff) => TotalLen(f.s, q.space, |q.data|) }

  /** A queued buffer: sized by QuicFrameGetBuffLen and not overfull. */
  ghost predicate Good(f: Conf, q: QBuff) {
    q.bufLen == BuffLen(f.s, q.space, f.mss) && |q.data| <= q.bufLen
  }

  ghost predicate AllGood(f: Conf, tx: seq<QBuff>) {
    forall q :: q in tx ==> Good(f, q)
  }

  /** The padding of the last packet of a datagram. */
  function PadOf(f: Conf, q: QBuff, written: nat): nat {
    Padding(f.s, q.space, |q.data|, written, true)
  }

  function Pads(f: Conf): (QBuff, nat) -> nat { (q: QBuff, w: nat) => PadOf(f, q, w) }

  /** The buffers of the next datagram as they are sent, after `written` bytes. */
  function Plan(f: Conf, st: Spaces, tx: seq<QBuff>, written: nat): (r: seq<QBuff>)
    ensures |r| <= |tx| && (tx != [] ==> r != [])
  {
    PlanBy(Costs(f), Pads(f), f.mss, st, tx, written)
  }

  function PacketOf(q: QBuff): Packet { Packet(q.space, q.pktNum, q.data) }

  function PacketsOf(qs: seq<QBuff>): (r: seq<Packet>)
    ensures |r| == |qs| && forall i :: 0 <= i < |qs| ==> r[i] == PacketOf(qs[i])
  {
    if qs == [] then [] else [PacketOf(qs[0])] + PacketsOf(qs[1..])
  }

  /** How much the last packet of the next datagram is padded. */
  function PlanPad(f: Conf, tx: seq<QBuff>): nat
    requires tx != []
  {
    var k := Take(Costs(f), f.mss, tx, 0);
    PadOf(f, tx[k - 1], Sum(Costs(f), tx[..k - 1]))
  }

  /** The plan: as many buffers as share a datagram, numbered, the last one padded. */
  lemma PlanIs(f: Conf, st: Spaces, tx: seq<QBuff>)
    requires tx != []
    ensures var k := Take(Costs(f), f.mss, tx, 0);
            Plan(f, st, tx, 0) == StampAll(st, tx[..k], PlanPad(f, tx))
  {
    var k, pad := PlanByIs(Costs(f), Pads(f), f.mss, st, tx, 0);
  }

  /** A good buffer whose computed length fits makes a packet that fits, padded or not, and the
      padding has room in the buffer. */
  lemma PacketFits(f: Conf, q: QBuff, written: nat, end: bool)
    requires f.Valid() && Good(f, q) && Costs(f)(q) + written <= f.mss
    ensures var pad := Padding(f.s, q.space, |q.data|, written, end);
            && |q.data| + pad <= q.bufLen <= f.mss
            && written + SealedLen(f.s, q.space, |q.data| + pad) <= f.mss
            && (end && q.space != App ==> written + SealedLen(f.s, q.space, |q.data| + pad) >= DATAGRAM_MIN)
            && (!end && q.space != App ==> SealedLen(f.s, q.space, |q.data| + pad) == Costs(f)(q))
  {
    if Padding(f.s, q.space, |q.data|, written, end) != 0 {
      PaddingFits(f.s, q.space, f.mss, |q.data|, written);
    }
  }

  lemma GoodFits(f: Conf, q: QBuff)
    requires Good(f, q)
    ensures Costs(f)(q) <= f.mss
  {
    BuffLenFits(f.s, q.space, f.mss, |q.data|);
  }

  ghost predicate AllSealable(f: Conf, qs: seq<QBuff>) {
    qs == [] || (Sealable(f.s, qs[0].data) && AllSealable(f, qs[1..]))
  }

  /** The bytes of the datagram. */
  function Wire(f: Conf, qs: seq<QBuff>): Str
    requires AllSealable(f, qs)
  {
    if qs == [] then [] else SealPacket(f.c, f.s, PacketOf(qs[0])) + Wire(f, qs[1..])
  }

  ghost predicate Sealed(f: Conf, qs: seq<QBuff>, d: Str) { AllSealable(f, qs) && d == Wire(f, qs) }

  lemma {:induction false} WireSnoc(f: Conf, qs: seq<QBuff>, p: QBuff)
    requires AllSealable(f, qs) && Sealable(f.s, p.data)
    ensures AllSealable(f, qs + [p])
    ensures Wire(f, qs + [p]) == Wire(f, qs) + SealPacket(f.c, f.s, PacketOf(p))
  {
    if qs == [] {
      assert [p][1..] == [] && [] + [p] == [p];
    } else {
      WireSnoc(f, qs[1..], p);
      assert (qs + [p])[1..] == qs[1..] + [p];
      Assoc3(SealPacket(f.c, f.s, PacketOf(qs[0])), Wire(f, qs[1..]), SealPacket(f.c, f.s, PacketOf(p)));
    }
  }

  lemma Front<T>(a: seq<T>, b: seq<T>)
    ensures (a + b)[..|a|] == a && (b == [] ==> a + b == a)
  {}

  lemma Append0<T>(a: seq<T>)
    ensures a + [] == a
  {}

  lemma {:induction false} MoveAllReady(st: Spaces, qs: seq<QBuff>)
    ensures forall sp :: MoveAll(st, qs).Get(sp).ready == st.Get(sp).ready
    decreases |qs|
  {
    if qs != [] { MoveAllReady(Move(st, qs[0]), qs[1..]); }
  }

  lemma {:induction false} MoveSnoc(st: Spaces, qs: seq<QBuff>, p: QBuff)
    ensures MoveAll(st, qs + [p]) == Move(MoveAll(st, qs), p)
    decreases |qs|
  {
    if qs == [] {
      assert [p][1..] == [];
    } else {
      assert (qs + [p])[1..] == qs[1..] + [p];
      MoveSnoc(Move(st, qs[0]), qs[1..], p);
    }
  }

  // ---------------------------------------------------------------- what a datagram is worth

  lemma SealedSize(f: Conf, p: QBuff)
    requires f.Valid() && Sealable(f.s, p.data)
    ensures |SealPacket(f.c, f.s, PacketOf(p))| == SealedLen(f.s, p.space, |p.data|)
  {
    var n := f.s.pnLen + |p.data| + TAG;
    TotalLenExact(f.s, p.space, |p.data|);
    HeadParts(f.s, p.space, n);
    assert Inverts(f.c, p.space, Head(f.s, p.space, n), p.pktNum, p.data, f.s.pnLen);
  }

  /** The buffers taken fit with their computed lengths, and only the last may be short. */
  lemma TakeRoom(f: Conf, tx: seq<QBuff>)
    requires f.Valid() && AllGood(f, tx) && tx != []
    ensures var k := Take(Costs(f), f.mss, tx, 0);
            && Sum(Costs(f), tx[..k - 1]) + Costs(f)(tx[k - 1]) <= f.mss && LongButLast(tx[..k])
            && (k < |tx| ==> tx[k - 1].space == App || Sum(Costs(f), tx[..k]) + Costs(f)(tx[k]) > f.mss)
  {
    AllFit(f, tx);
    TakeFitsAll(Costs(f), f.mss, tx);
  }

  lemma AllFit(f: Conf, tx: seq<QBuff>)
    requires AllGood(f, tx)
    ensures forall q :: q in tx ==> Costs(f)(q) <= f.mss
  {
    forall q | q in tx ensures Costs(f)(q) <= f.mss { GoodFits(f, q); }
  }

  /** In front of the last buffer of a plan nothing is padded. */
  lemma PlanAt(f: Conf, st: Spaces, tx: seq<QBuff>, i: nat)
    requires f.Valid() && AllGood(f, tx) && tx != [] && i < |Plan(f, st, tx, 0)|
    ensures var k, p := Take(Costs(f), f.mss, tx, 0), Plan(f, st, tx, 0)[i];
            && k == |Plan(f, st, tx, 0)| && |p.data| <= tx[i].bufLen <= f.mss
            && p == tx[i].(data := p.data, pktNum := p.pktNum)
            && p.data == tx[i].data + Zeros(if i == k - 1 then PlanPad(f, tx) else 0)
            && (i < k - 1 ==> p.space != App && SealedLen(f.s, p.space, |p.data|) == Costs(f)(tx[i]))
  {
    PlanData(f, st, tx, i);
    PlanSize(f, tx, i);
  }

  lemma PlanData(f: Conf, st: Spaces, tx: seq<QBuff>, i: nat)
    requires tx != [] && i < |Plan(f, st, tx, 0)|
    ensures var k, p := Take(Costs(f), f.mss, tx, 0), Plan(f, st, tx, 0)[i];
            && k == |Plan(f, st, tx, 0)| && p == tx[i].(data := p.data, pktNum := p.pktNum)
            && p.data == tx[i].data + Zeros(if i == k - 1 then PlanPad(f, tx) else 0)
  {
    var k := Take(Costs(f), f.mss, tx, 0);
    PlanIs(f, st, tx);
    StampAllAt(st, tx[..k], PlanPad(f, tx), i);
  }

  lemma PlanSize(f: Conf, tx: seq<QBuff>, i: nat)
    requires f.Valid() && AllGood(f, tx) && tx != [] && i < Take(Costs(f), f.mss, tx, 0)
    ensures var k, n := Take(Costs(f), f.mss, tx, 0), |tx[i].data|;
            && n + (if i == k - 1 then PlanPad(f, tx) else 0) <= tx[i].bufLen <= f.mss
            && (i < k - 1 ==> tx[i].space != App && SealedLen(f.s, tx[i].space, n) == Costs(f)(tx[i]))
  {
    var k := Take(Costs(f), f.mss, tx, 0);
    assert Good(f, tx[i]);
    if i == k - 1 {
      LastRoom(f, tx, i);
      PacketFits(f, tx[i], Sum(Costs(f), tx[..i]), true);
    } else {
      FrontLong(f, tx, i);
      FrontSize(f, tx[i]);
    }
  }

  lemma FrontLong(f: Conf, tx: seq<QBuff>, i: nat)
    requires f.Valid() && AllGood(f, tx) && tx != [] && i + 1 < Take(Costs(f), f.mss, tx, 0)
    ensures tx[i].space != App
  {
    TakeRoom(f, tx);
    LongAt(tx[..Take(Costs(f), f.mss, tx, 0)], i);
  }

  lemma FrontSize(f: Conf, q: QBuff)
    requires f.Valid() && Good(f, q) && q.space != App
    ensures q.bufLen <= f.mss && SealedLen(f.s, q.space, |q.data|) == Costs(f)(q)
  {
    GoodFits(f, q);
    PacketFits(f, q, 0, false);
  }

  lemma {:induction false} LongAt(q: seq<QBuff>, i: nat)
    requires LongButLast(q) && i < |q| - 1
    ensures q[i].space != App
  {
    if i > 0 { LongAt(q[1..], i - 1); }
  }

  /** The wire takes what was computed for the buffers that are not padded. */
  lemma {:induction false} WireSum(f: Conf, qs: seq<QBuff>, tx: seq<QBuff>)
    requires f.Valid() && |qs| == |tx|
    requires forall i :: 0 <= i < |qs| ==> Sealable(f.s, qs[i].data)
    requires forall i :: 0 <= i < |qs| ==> SealedLen(f.s, qs[i].space, |qs[i].data|) == Costs(f)(tx[i])
    ensures AllSealable(f, qs) && |Wire(f, qs)| == Sum(Costs(f), tx)
  {
    if qs != [] {
      SealedSize(f, qs[0]);
      WireSum(f, qs[1..], tx[1..]);
    }
  }

  lemma {:induction false} AllSealableAt(f: Conf, qs: seq<QBuff>, i: nat)
    requires AllSealable(f, qs) && i < |qs|
    ensures Sealable(f.s, qs[i].data)
  {
    if i > 0 { AllSealableAt(f, qs[1..], i - 1); }
  }

  /** Buffers that have four bytes together with the packet number always make a datagram. */
  lemma FullIsSealable(f: Conf, st: Spaces, tx: seq<QBuff>)
    requires f.Valid() && AllGood(f, tx) && forall q :: q in tx ==> |q.data| + f.s.pnLen >= PN_MAX
    ensures AllSealable(f, Plan(f, st, tx, 0))
  {
    var plan := Plan(f, st, tx, 0);
    forall i | 0 <= i < |plan| ensures Sealable(f.s, plan[i].data) {
      PlanAt(f, st, tx, i);
      assert tx[i] in tx;
    }
    AllSealableIf(f, plan);
  }

  lemma {:induction false} AllSealableIf(f: Conf, qs: seq<QBuff>)
    requires forall i :: 0 <= i < |qs| ==> Sealable(f.s, qs[i].data)
    ensures AllSealable(f, qs)
  {
    if qs != [] { AllSealableIf(f, qs[1..]); }
  }

  lemma PlanFront(f: Conf, st: Spaces, tx: seq<QBuff>, plan: seq<QBuff>, i: nat)
    requires f.Valid() && AllGood(f, tx) && tx != [] && plan == Plan(f, st, tx, 0) && i + 1 == |plan| <= |tx|
    requires AllSealable(f, plan)
    ensures AllSealable(f, plan[..i]) && |Wire(f, plan[..i])| == Sum(Costs(f), tx[..i])
    ensures forall j :: 0 <= j < i ==> plan[j].space != App
  {
    forall j | 0 <= j < i
      ensures Sealable(f.s, plan[j].data) && plan[j].space != App
      ensures SealedLen(f.s, plan[j].space, |plan[j].data|) == Costs(f)(tx[j])
    {
      PlanAt(f, st, tx, j);
      AllSealableAt(f, plan, j);
    }
    WireSum(f, plan[..i], tx[..i]);
  }

  lemma PlanLast(f: Conf, st: Spaces, tx: seq<QBuff>, plan: seq<QBuff>, i: nat)
    requires f.Valid() && AllGood(f, tx) && tx != [] && plan == Plan(f, st, tx, 0) && i + 1 == |plan| <= |tx|
    ensures var size := Sum(Costs(f), tx[..i]) + SealedLen(f.s, plan[i].space, |plan[i].data|);
            && size <= f.mss && (plan[i].space != App ==> size >= DATAGRAM_MIN)
  {
    PlanAt(f, st, tx, i);
    LastRoom(f, tx, i);
    assert Good(f, tx[i]);
    LastSize(f, tx[i], plan[i], Sum(Costs(f), tx[..i]));
  }

  lemma LastRoom(f: Conf, tx: seq<QBuff>, i: nat)
    requires f.Valid() && AllGood(f, tx) && tx != [] && i + 1 == Take(Costs(f), f.mss, tx, 0)
    ensures Sum(Costs(f), tx[..i]) + Costs(f)(tx[i]) <= f.mss
    ensures PlanPad(f, tx) == PadOf(f, tx[i], Sum(Costs(f), tx[..i]))
  {
    TakeRoom(f, tx);
  }

  lemma LastSize(f: Conf, q: QBuff, p: QBuff, before: nat)
    requires f.Valid() && Good(f, q) && before + Costs(f)(q) <= f.mss
    requires p.space == q.space && p.data == q.data + Zeros(PadOf(f, q, before))
    ensures var size := before + SealedLen(f.s, p.space, |p.data|);
            size <= f.mss && (p.space != App ==> size >= DATAGRAM_MIN)
  {
    PacketFits(f, q, before, true);
  }

  lemma WireSplit(f: Conf, plan: seq<QBuff>, i: nat)
    requires f.Valid() && i + 1 == |plan| && AllSealable(f, plan[..i]) && Sealable(f.s, plan[i].data)
    ensures AllSealable(f, plan)
    ensures |Wire(f, plan)| == |Wire(f, plan[..i])| + SealedLen(f.s, plan[i].space, |plan[i].data|)
  {
    WireSnoc(f, plan[..i], plan[i]);
    SealedSize(f, plan[i]);
    assert plan == plan[..i] + [plan[i]];
  }

  /** Every datagram fits the segment size; only its last packet may be short; and one that ends in
      a long packet has at least 1200 bytes. */
  lemma DatagramFits(f: Conf, st: Spaces, tx: seq<QBuff>)
    requires f.Valid() && AllGood(f, tx) && tx != [] && AllSealable(f, Plan(f, st, tx, 0))
    ensures var plan, k := Plan(f, st, tx, 0), |Plan(f, st, tx, 0)|;
            && 0 < k <= |tx| && |Wire(f, plan)| <= f.mss
            && (forall i :: 0 <= i < k - 1 ==> plan[i].space != App)
            && (plan[k - 1].space != App ==> |Wire(f, plan)| >= DATAGRAM_MIN)
  {
    var plan := Plan(f, st, tx, 0);
    var i := |plan| - 1;
    PlanFront(f, st, tx, plan, i);
    AllSealableAt(f, plan, i);
    PlanLast(f, st, tx, plan, i);
    WireSplit(f, plan, i);
  }

  /** Coalescing is greedy: a buffer is left for the next datagram only behind a short packet, or
      when its packet does not fit behind the ones taken. */
  lemma DatagramIsMaximal(f: Conf, st: Spaces, tx: seq<QBuff>)
    requires f.Valid() && AllGood(f, tx) && tx != []
    ensures var plan, k := Plan(f, st, tx, 0), |Plan(f, st, tx, 0)|;
            0 < k < |tx| ==> plan[k - 1].space == App || Sum(Costs(f), tx[..k]) + Costs(f)(tx[k]) > f.mss
  {
    var i := |Plan(f, st, tx, 0)| - 1;
    PlanAt(f, st, tx, i);
    TakeRoom(f, tx);
  }

  /** A plan whose short packets come last is a coalesced datagram. */
  lemma {:induction false} WireIsSealAll(f: Conf, qs: seq<QBuff>)
    requires AllSealable(f, qs) && forall i :: 0 <= i < |qs| - 1 ==> qs[i].space != App
    ensures Coalescible(f.s, PacketsOf(qs)) && SealAll(f.c, f.s, PacketsOf(qs)) == Wire(f, qs)
  {
    if qs != [] {
      WireIsSealAll(f, qs[1..]);
      assert PacketsOf(qs)[1..] == PacketsOf(qs[1..]);
    }
  }

  /** What is sent is what is received: the peer's receive loop opens the datagram to the payloads
      of the buffers that were moved, in queue order, the last one followed by its padding. */
  lemma SentIsReceived(f: Conf, st: Spaces, tx: seq<QBuff>, r: Receiver)
    requires f.Valid() && AllGood(f, tx) && tx != [] && Matched(f.s, r) && AllSealable(f, Plan(f, st, tx, 0))
    ensures var plan := Plan(f, st, tx, 0);
            OpenAll(f.c, r, Wire(f, plan)) == Result(Payloads(PacketsOf(plan)), true)
  {
    DatagramFits(f, st, tx);
    var plan := Plan(f, st, tx, 0);
    WireIsSealAll(f, plan);
    CoalescedRoundTrip(f.c, f.s, r, PacketsOf(plan));
  }

  /** Whatever part of the plan is moved, the sent queues stay sorted and every line is conserved. */
  lemma PlanKeeps(f: Conf, st: Spaces, tx: seq<QBuff>, j: nat)
    requires Ordered(st) && j <= |Plan(f, st, tx, 0)|
    ensures var r := MoveAll(st, Plan(f, st, tx, 0)[..j]);
            j <= |tx| && Ordered(r) && forall sp :: Line(r, tx[j..], sp) == Line(st, tx, sp)
  {
    if tx != [] {
      var k := Take(Costs(f), f.mss, tx, 0);
      PlanIs(f, st, tx);
      StampAllOrdered(st, tx[..k], PlanPad(f, tx), j);
      forall sp ensures Line(MoveAll(st, Plan(f, st, tx, 0)[..j]), tx[j..], sp) == Line(st, tx, sp) {
        StampAllConserves(st, tx[..k], tx, PlanPad(f, tx), j, sp);
      }
    } else {
      assert tx[0..] == tx;
    }
  }

  lemma PlanTurn(f: Conf, st: Spaces, tx: seq<QBuff>, written: nat)
    requires tx != []
    ensures var last := Last(Costs(f), f.mss, tx, written);
            var p := Stamp(st, tx[0], if last then PadOf(f, tx[0], written) else 0);
            Plan(f, st, tx, written) ==
            [p] + if last then [] else Plan(f, Move(st, p), tx[1..], written + Costs(f)(tx[0]))
  {}

  lemma {:induction false} OfAppend(sp: Space, a: seq<QBuff>, b: seq<QBuff>)
    ensures Of(sp, a + b) == Of(sp, a) + Of(sp, b)
  {
    if a == [] {
      assert a + b == b;
    } else {
      assert (a + b)[1..] == a[1..] + b;
      OfAppend(sp, a[1..], b);
      Assoc3(if a[0].space == sp then [a[0].id] else [], Of(sp, a[1..]), Of(sp, b));
    }
  }

  /** The same with buffers queued behind those that still wait. */
  lemma PlanKeepsWith(f: Conf, st: Spaces, tx: seq<QBuff>, j: nat, more: seq<QBuff>)
    requires Ordered(st) && j <= |Plan(f, st, tx, 0)|
    ensures var r := MoveAll(st, Plan(f, st, tx, 0)[..j]);
            j <= |tx| && forall sp :: Line(r, tx[j..] + more, sp) == Line(st, tx, sp) + Of(sp, more)
  {
    PlanKeeps(f, st, tx, j);
    var r := MoveAll(st, Plan(f, st, tx, 0)[..j]);
    forall sp ensures Line(r, tx[j..] + more, sp) == Line(st, tx, sp) + Of(sp, more) {
      OfAppend(sp, tx[j..], more);
      Assoc3(Ids(r.Get(sp).sent), Of(sp, tx[j..]), Of(sp, more));
      assert Line(r, tx[j..], sp) == Line(st, tx, sp);
    }
  }

  // ---------------------------------------------------------------- emptying the queue

  /** A run of complete datagrams `ds` takes the queues from `st`, `tx` to `st1`, `tx1`. */
  ghost predicate Drains(f: Conf, st: Spaces, tx: seq<QBuff>, ds: seq<Str>, st1: Spaces, tx1: seq<QBuff>)
    decreases |ds|
  {
    if ds == [] then st1 == st && tx1 == tx
    else
      var plan := Plan(f, st, tx, 0);
      && |plan| <= |tx| && tx != [] && AllSealable(f, plan) && ds[0] == Wire(f, plan)
      && Drains(f, MoveAll(st, plan), tx[|plan|..], ds[1..], st1, tx1)
  }

  lemma {:induction false} DrainsSnoc(f: Conf, st: Spaces, tx: seq<QBuff>, ds: seq<Str>, st1: Spaces,
                                      tx1: seq<QBuff>, d: Str)
    requires Drains(f, st, tx, ds, st1, tx1) && tx1 != []
    requires var plan := Plan(f, st1, tx1, 0); |plan| <= |tx1| && AllSealable(f, plan) && d == Wire(f, plan)
    ensures var plan := Plan(f, st1, tx1, 0); Drains(f, st, tx, ds + [d], MoveAll(st1, plan), tx1[|plan|..])
    decreases |ds|
  {
    if ds == [] {
      assert [d][1..] == [] && ds + [d] == [d];
    } else {
      var plan := Plan(f, st, tx, 0);
      DrainsSnoc(f, MoveAll(st, plan), tx[|plan|..], ds[1..], st1, tx1, d);
      TailSnoc(ds, d);
    }
  }

  lemma TailSnoc<T>(a: seq<T>, x: T)
    requires a != []
    ensures (a + [x])[1..] == a[1..] + [x] && (a + [x])[0] == a[0]
  {}

  /** A run of datagrams keeps the order of the sent queues and every line. */
  lemma {:induction false} DrainsKeeps(f: Conf, st: Spaces, tx: seq<QBuff>, ds: seq<Str>, st1: Spaces,
                                       tx1: seq<QBuff>)
    requires Ordered(st) && Drains(f, st, tx, ds, st1, tx1)
    ensures Ordered(st1) && forall sp :: Line(st1, tx1, sp) == Line(st, tx, sp)
    decreases |ds|
  {
    if ds != [] {
      var plan := Plan(f, st, tx, 0);
      PlanKeeps(f, st, tx, |plan|);
      assert plan[..|plan|] == plan;
      DrainsKeeps(f, MoveAll(st, plan), tx[|plan|..], ds[1..], st1, tx1);
    }
  }

  /** What a peer opens in a run of datagrams. */
  function Got(c: Codec, r: Receiver, ds: seq<Str>): seq<(Space, Str)>
    requires r.Valid()
  {
    if ds == [] then [] else OpenAll(c, r, ds[0]).packets + Got(c, r, ds[1..])
  }

  /** The buffers of `tx` arrived: in order, each in its space, followed by padding at most. */
  ghost predicate Arrived(got: seq<(Space, Str)>, tx: seq<QBuff>) {
    |got| == |tx| && forall i :: 0 <= i < |got| ==>
      got[i].0 == tx[i].space && |tx[i].data| <= |got[i].1|
      && got[i].1 == tx[i].data + Zeros(|got[i].1| - |tx[i].data|)
  }

  lemma ArrivedPlan(f: Conf, st: Spaces, tx: seq<QBuff>, r: Receiver)
    requires f.Valid() && AllGood(f, tx) && tx != [] && Matched(f.s, r) && AllSealable(f, Plan(f, st, tx, 0))
    ensures var plan := Plan(f, st, tx, 0);
            && 0 < |plan| <= |tx| && |Wire(f, plan)| <= f.mss
            && Arrived(OpenAll(f.c, r, Wire(f, plan)).packets, tx[..|plan|])
  {
    var plan := Plan(f, st, tx, 0);
    DatagramFits(f, st, tx);
    SentIsReceived(f, st, tx, r);
    PlanPads(f, st, tx);
    ArrivedPayloads(plan, tx[..|plan|]);
  }

  /** The same buffer, followed by padding at most. */
  ghost predicate PadsTo(p: QBuff, q: QBuff) {
    p.space == q.space && |q.data| <= |p.data| && p.data == q.data + Zeros(|p.data| - |q.data|)
  }

  ghost predicate Padded(plan: seq<QBuff>, tx: seq<QBuff>) {
    |plan| == |tx| && forall i :: 0 <= i < |plan| ==> PadsTo(plan[i], tx[i])
  }

  lemma PlanPads(f: Conf, st: Spaces, tx: seq<QBuff>)
    requires tx != []
    ensures Padded(Plan(f, st, tx, 0), tx[..|Plan(f, st, tx, 0)|])
  {
    forall i | 0 <= i < |Plan(f, st, tx, 0)| ensures PadsTo(Plan(f, st, tx, 0)[i], tx[i]) { PlanData(f, st, tx, i); }
  }

  lemma ArrivedPayloads(plan: seq<QBuff>, tx: seq<QBuff>)
    requires Padded(plan, tx)
    ensures Arrived(Payloads(PacketsOf(plan)), tx)
  {
    var got := Payloads(PacketsOf(plan));
    forall i | 0 <= i < |plan| ensures |got| == |plan| && got[i] == (plan[i].space, plan[i].data) {
      PayloadsAt(PacketsOf(plan), i);
    }
    assert |plan| == 0 ==> got == [];
  }

  lemma {:induction false} PayloadsAt(ps: seq<Packet>, i: nat)
    requires i < |ps|
    ensures |Payloads(ps)| == |ps| && Payloads(ps)[i] == (ps[i].space, ps[i].payload)
  {
    if i > 0 { PayloadsAt(ps[1..], i - 1); }
    else if |ps| > 1 { PayloadsAt(ps[1..], 0); }
  }

  lemma ArrivedAppend(a: seq<(Space, Str)>, b: seq<(Space, Str)>, tx: seq<QBuff>, tx1: seq<QBuff>,
                      got: seq<(Space, Str)>)
    requires |a| <= |tx| && Arrived(a, tx[..|a|]) && got == a + b
    requires |b| <= |tx| - |a| && Arrived(b, tx[|a|..][..|b|]) && tx1 == tx[|a|..][|b|..]
    ensures |got| <= |tx| && tx1 == tx[|got|..] && Arrived(got, tx[..|got|])
  {
    forall i | 0 <= i < |b|
      ensures tx[..|got|][|a| + i] == tx[|a|..][..|b|][i] && got[|a| + i] == b[i]
    {}
  }

  /** Over a whole run: every datagram fits the segment size, and what the peer opens is exactly
      the buffers that left the queue, in order, none lost, doubled or mixed up. */
  lemma {:induction false} DrainedIsReceived(f: Conf, st: Spaces, tx: seq<QBuff>, ds: seq<Str>, st1: Spaces,
                                             tx1: seq<QBuff>, r: Receiver)
    requires f.Valid() && AllGood(f, tx) && Matched(f.s, r) && Drains(f, st, tx, ds, st1, tx1)
    ensures forall d :: d in ds ==> |d| <= f.mss
    ensures var got := Got(f.c, r, ds);
            |got| <= |tx| && tx1 == tx[|got|..] && Arrived(got, tx[..|got|])
    decreases |ds|
  {
    var got := Got(f.c, r, ds);
    if ds == [] {
      assert tx[0..] == tx;
    } else {
      var plan := Plan(f, st, tx, 0);
      ArrivedPlan(f, st, tx, r);
      DrainedIsReceived(f, MoveAll(st, plan), tx[|plan|..], ds[1..], st1, tx1, r);
      ArrivedAppend(OpenAll(f.c, r, ds[0]).packets, Got(f.c, r, ds[1..]), tx, tx1, got);
    }
  }

  // ---------------------------------------------------------------- calls that fail

  /** A packet can be built if its space has keys and it is long enough for a header protection sample. */
  predicate Passes(f: Conf, st: Spaces, p: QBuff) {
    st.Get(p.space).ready && |p.data| + f.s.pnLen >= PN_MAX
  }

  /** How many buffers of a plan are moved when flow control refuses the one at `blockedAt`. */
  function Moves(f: Conf, st: Spaces, plan: seq<QBuff>, blockedAt: nat): (m: nat)
    ensures m <= |plan| && m <= blockedAt
  {
    if plan == [] || blockedAt == 0 || !Passes(f, st, plan[0]) then 0
    else 1 + Moves(f, st, plan[1..], blockedAt - 1)
  }

  /** A build that gets past the keys has taken a packet number, whatever becomes of it. */
  function UsedUp(st: Spaces, p: QBuff): Spaces {
    if st.Get(p.space).ready then st.Put(p.space, st.Get(p.space).(pktNum := p.pktNum)) else st
  }

  /** The buffer `q` after it was built as `p`, or after that failed: it has the padding in any case, and
      the number if the space has keys. */
  function Left(st: Spaces, q: QBuff, p: QBuff): QBuff {
    if st.Get(p.space).ready then p else q.(data := p.data)
  }

  datatype End = Complete | Refused | Failed

  /** How a call ended, how many buffers it moved, and the queues after it. */
  datatype Call = Call(end: End, moved: nat, spaces: Spaces, tx: seq<QBuff>)

  /** One call of QuicWritePkt, where flow control refuses the buffer at `blockedAt` and queues `notice`. */
  function WriteCall(f: Conf, st: Spaces, tx: seq<QBuff>, blockedAt: nat, notice: seq<QBuff>): Call {
    var plan := Plan(f, st, tx, 0);
    var m := Moves(f, st, plan, blockedAt);
    var st1 := MoveAll(st, plan[..m]);
    if m == |plan| then Call(Complete, m, st1, tx[m..])
    else if m == blockedAt then Call(Refused, m, st1, tx[m..] + notice)
    else Call(Failed, m, UsedUp(st1, plan[m]), [Left(st1, tx[m], plan[m])] + tx[m + 1..])
  }

  function Added(c: Call, notice: seq<QBuff>): seq<QBuff> { if c.end.Refused? then notice else [] }

  /** The buffers in front of the end passed; the one it ends at was refused or did not pass. */
  lemma {:induction false} MovesIs(f: Conf, st: Spaces, plan: seq<QBuff>, blockedAt: nat)
    ensures var m := Moves(f, st, plan, blockedAt);
            && (forall i :: 0 <= i < m ==> Passes(f, st, plan[i]))
            && (m < |plan| ==> m == blockedAt || !Passes(f, st, plan[m]))
  {
    if plan != [] && blockedAt > 0 && Passes(f, st, plan[0]) { MovesIs(f, st, plan[1..], blockedAt - 1); }
  }

  /** A buffer of the plan is the one that waits, with the next number of its space. */
  lemma PlanEntry(f: Conf, st: Spaces, tx: seq<QBuff>, i: nat)
    requires i < |Plan(f, st, tx, 0)|
    ensures var plan := Plan(f, st, tx, 0);
            && plan[i] == tx[i].(data := plan[i].data, pktNum := plan[i].pktNum)
            && plan[i].pktNum == MoveAll(st, plan[..i]).Get(tx[i].space).pktNum + 1
  {
    var k := Take(Costs(f), f.mss, tx, 0);
    PlanIs(f, st, tx);
    StampAllAt(st, tx[..k], PlanPad(f, tx), i);
    StampAllNumber(st, tx[..k], PlanPad(f, tx), i);
  }

  lemma UsedUpOrdered(st: Spaces, p: QBuff)
    requires Ordered(st) && p.pktNum >= st.Get(p.space).pktNum
    ensures Ordered(UsedUp(st, p))
  {
    forall sp ensures SentSorted(UsedUp(st, p).Get(sp).sent, UsedUp(st, p).Get(sp).pktNum) {
      assert SentSorted(st.Get(sp).sent, st.Get(sp).pktNum);
    }
  }

  lemma LeftLine(st: Spaces, tx: seq<QBuff>, m: nat, p: QBuff, sp: Space)
    requires m < |tx| && p.id == tx[m].id && p.space == tx[m].space
    ensures Line(UsedUp(st, p), [Left(st, tx[m], p)] + tx[m + 1..], sp) == Line(st, tx[m..], sp)
  {
    assert ([Left(st, tx[m], p)] + tx[m + 1..])[1..] == tx[m..][1..];
  }

  /** Whatever stops a call, the sent queues stay sorted, and each buffer waits or was moved: none is
      lost or overtaken, and only a refusal adds one. */
  lemma CallKeeps(f: Conf, st: Spaces, tx: seq<QBuff>, blockedAt: nat, notice: seq<QBuff>)
    requires Ordered(st)
    ensures var c := WriteCall(f, st, tx, blockedAt, notice);
            && Ordered(c.spaces)
            && forall sp :: Line(c.spaces, c.tx, sp) == Line(st, tx, sp) + Of(sp, Added(c, notice))
  {
    var plan, c := Plan(f, st, tx, 0), WriteCall(f, st, tx, blockedAt, notice);
    var m := c.moved;
    PlanKeeps(f, st, tx, m);
    PlanKeepsWith(f, st, tx, m, Added(c, notice));
    Append0(tx[m..]);
    if c.end.Failed? {
      var st1 := MoveAll(st, plan[..m]);
      PlanEntry(f, st, tx, m);
      UsedUpOrdered(st1, plan[m]);
      forall sp ensures Line(c.spaces, c.tx, sp) == Line(st1, tx[m..], sp) { LeftLine(st1, tx, m, plan[m], sp); }
    }
  }

  /** How many of these buffers belong to a space. */
  function CountOf(q: seq<QBuff>, sp: Space): nat {
    if q == [] then 0 else CountOf(q[..|q| - 1], sp) + if q[|q| - 1].space == sp then 1 else 0
  }

  /** Moving a front part of the plan uses one number for each buffer of a space. */
  lemma {:induction false} PlanNumbers(f: Conf, st: Spaces, tx: seq<QBuff>, m: nat, sp: Space)
    requires m <= |Plan(f, st, tx, 0)|
    ensures MoveAll(st, Plan(f, st, tx, 0)[..m]).Get(sp).pktNum == st.Get(sp).pktNum + CountOf(tx[..m], sp)
    decreases m
  {
    if m > 0 {
      var plan := Plan(f, st, tx, 0);
      PlanNumbers(f, st, tx, m - 1, sp);
      PlanEntry(f, st, tx, m - 1);
      assert plan[..m] == plan[..m - 1] + [plan[m - 1]];
      MoveSnoc(st, plan[..m - 1], plan[m - 1]);
      assert tx[..m][..m - 1] == tx[..m - 1];
    }
  }

  /** The numbers after a call: one for each buffer that was moved, and one more for a build that failed
      behind the keys. */
  lemma CallNumbers(f: Conf, st: Spaces, tx: seq<QBuff>, blockedAt: nat, notice: seq<QBuff>, sp: Space)
    ensures var c := WriteCall(f, st, tx, blockedAt, notice);
            && c.moved <= |tx| && (c.end.Failed? ==> c.moved < |tx|)
            && c.spaces.Get(sp).pktNum == st.Get(sp).pktNum + CountOf(tx[..c.moved], sp) +
                 if c.end.Failed? && tx[c.moved].space == sp && st.Get(sp).ready then 1 else 0
  {
    var c := WriteCall(f, st, tx, blockedAt, notice);
    PlanNumbers(f, st, tx, c.moved, sp);
    MoveAllReady(st, Plan(f, st, tx, 0)[..c.moved]);
    if c.end.Failed? { PlanEntry(f, st, tx, c.moved); }
  }

  /** What a failed build leaves: all other buffers as they were; its own with the padding if it would have
      been the last of the datagram, and with the number it used up if there were keys. */
  lemma FailedLeaves(f: Conf, st: Spaces, tx: seq<QBuff>, blockedAt: nat, notice: seq<QBuff>)
    requires WriteCall(f, st, tx, blockedAt, notice).end.Failed?
    ensures var c := WriteCall(f, st, tx, blockedAt, notice);
            var q, p, k := tx[c.moved], c.tx[0], Take(Costs(f), f.mss, tx, 0);
            && c.tx[1..] == tx[c.moved + 1..] && p == q.(data := p.data, pktNum := p.pktNum)
            && p.data == q.data + Zeros(if c.moved == k - 1 then PlanPad(f, tx) else 0)
            && p.pktNum == if st.Get(q.space).ready then st.Get(q.space).pktNum + CountOf(tx[..c.moved], q.space) + 1
                           else q.pktNum
  {
    var c, plan := WriteCall(f, st, tx, blockedAt, notice), Plan(f, st, tx, 0);
    PlanData(f, st, tx, c.moved);
    PlanEntry(f, st, tx, c.moved);
    PlanNumbers(f, st, tx, c.moved, tx[c.moved].space);
    MoveAllReady(st, plan[..c.moved]);
    assert c.tx[1..] == tx[c.moved + 1..];
  }

  /** No call makes a buffer overfull. */
  lemma CallGood(f: Conf, st: Spaces, tx: seq<QBuff>, blockedAt: nat, notice: seq<QBuff>)
    requires f.Valid() && AllGood(f, tx) && AllGood(f, notice)
    ensures AllGood(f, WriteCall(f, st, tx, blockedAt, notice).tx)
  {
    var plan, m := Plan(f, st, tx, 0), Moves(f, st, Plan(f, st, tx, 0), blockedAt);
    if m < |plan| && m != blockedAt {
      PlanAt(f, st, tx, m);
      EntryGood(f, tx[m], plan[m], tx);
      GoodFront(f, Left(MoveAll(st, plan[..m]), tx[m], plan[m]), tx, m + 1);
    }
  }

  lemma EntryGood(f: Conf, q: QBuff, p: QBuff, tx: seq<QBuff>)
    requires AllGood(f, tx) && q in tx && |p.data| <= q.bufLen && p == q.(data := p.data, pktNum := p.pktNum)
    ensures Good(f, p) && Good(f, q.(data := p.data))
  {
    assert Good(f, q);
  }

  lemma GoodFront(f: Conf, b: QBuff, tx: seq<QBuff>, m: nat)
    requires Good(f, b) && AllGood(f, tx) && m <= |tx|
    ensures AllGood(f, [b] + tx[m..])
  {
    forall q | q in [b] + tx[m..] ensures Good(f, q) {
      if q != b { assert q in tx[m..] && q in tx; }
    }
  }

  /** Exactly when a call ends well: no buffer of its plan is refused and each passes. */
  lemma CompleteIff(f: Conf, st: Spaces, tx: seq<QBuff>, blockedAt: nat, notice: seq<QBuff>)
    ensures var plan := Plan(f, st, tx, 0);
            WriteCall(f, st, tx, blockedAt, notice).end.Complete? <==>
            |plan| <= blockedAt && forall i :: 0 <= i < |plan| ==> Passes(f, st, plan[i])
  {
    MovesIs(f, st, Plan(f, st, tx, 0), blockedAt);
  }

  /** No call lowers a packet number. */
  lemma CallRises(f: Conf, st: Spaces, tx: seq<QBuff>, blockedAt: nat, notice: seq<QBuff>, sp: Space)
    ensures WriteCall(f, st, tx, blockedAt, notice).spaces.Get(sp).pktNum >= st.Get(sp).pktNum
  {
    var plan := Plan(f, st, tx, 0);
    var m := Moves(f, st, plan, blockedAt);
    PlanRises(f, st, tx, m, sp);
    if m < |plan| { PlanEntry(f, st, tx, m); }
  }

  lemma PlanRises(f: Conf, st: Spaces, tx: seq<QBuff>, m: nat, sp: Space)
    requires m <= |Plan(f, st, tx, 0)|
    ensures MoveAll(st, Plan(f, st, tx, 0)[..m]).Get(sp).pktNum >= st.Get(sp).pktNum
  {
    if m > 0 {
      PlanIs(f, st, tx);
      StampAllRises(st, tx[..Take(Costs(f), f.mss, tx, 0)], PlanPad(f, tx), m, sp);
    }
  }

  /** A call that ends well has sealed its whole plan. */
  lemma CompleteCall(f: Conf, st: Spaces, tx: seq<QBuff>, blockedAt: nat, notice: seq<QBuff>)
    requires f.Valid() && AllGood(f, tx) && WriteCall(f, st, tx, blockedAt, notice).end.Complete?
    ensures AllSealable(f, Plan(f, st, tx, 0))
  {
    var plan := Plan(f, st, tx, 0);
    MovesIs(f, st, plan, blockedAt);
    forall i | 0 <= i < |plan| ensures Sealable(f.s, plan[i].data) { PlanAt(f, st, tx, i); }
    AllSealableIf(f, plan);
  }

  /** In the middle of a call: the buffers `done` of the plan have been moved, the buffers `rest` are to
      come, and the queues are `st1`, `tx1`. */
  ghost predicate Midway(f: Conf, st: Spaces, tx: seq<QBuff>, blockedAt: nat, done: seq<QBuff>, rest: seq<QBuff>,
                         st1: Spaces, tx1: seq<QBuff>) {
    && |done| <= |tx| && |done| <= blockedAt && Plan(f, st, tx, 0) == done + rest
    && tx1 == tx[|done|..] && st1 == MoveAll(st, done)
    && Moves(f, st, done + rest, blockedAt) == |done| + Moves(f, st, rest, blockedAt - |done|)
  }

  lemma MidwayStep(f: Conf, st: Spaces, tx: seq<QBuff>, blockedAt: nat, done: seq<QBuff>, p: QBuff, more: seq<QBuff>,
                   st1: Spaces, tx1: seq<QBuff>)
    requires Midway(f, st, tx, blockedAt, done, [p] + more, st1, tx1) && tx1 != [] && |done| < blockedAt
    requires Passes(f, st1, p)
    ensures Midway(f, st, tx, blockedAt, done + [p], more, Move(st1, p), tx1[1..])
  {
    MoveAllReady(st, done);
    MoveSnoc(st, done, p);
    Assoc3(done, [p], more);
    MovesMore(f, st, p, more, blockedAt - |done|);
  }

  lemma MidwayFailed(f: Conf, st: Spaces, tx: seq<QBuff>, blockedAt: nat, done: seq<QBuff>, p: QBuff,
                     more: seq<QBuff>, st1: Spaces, tx1: seq<QBuff>)
    requires Midway(f, st, tx, blockedAt, done, [p] + more, st1, tx1) && tx1 != [] && |done| < blockedAt
    requires !Passes(f, st1, p)
    ensures WriteCall(f, st, tx, blockedAt, []) ==
            Call(Failed, |done|, UsedUp(st1, p), [Left(st1, tx1[0], p)] + tx1[1..])
  {
    MoveAllReady(st, done);
    Front(done, [p] + more);
    assert tx[|done|..][1..] == tx[|done| + 1..];
  }

  lemma MidwayRefused(f: Conf, st: Spaces, tx: seq<QBuff>, blockedAt: nat, done: seq<QBuff>, rest: seq<QBuff>,
                      st1: Spaces, tx1: seq<QBuff>)
    requires Midway(f, st, tx, blockedAt, done, rest, st1, tx1) && |done| == blockedAt && rest != []
    ensures WriteCall(f, st, tx, blockedAt, []) == Call(Refused, |done|, st1, tx1)
  {
    Front(done, rest);
    Append0(tx1);
  }

  lemma MidwayComplete(f: Conf, st: Spaces, tx: seq<QBuff>, blockedAt: nat, done: seq<QBuff>, st1: Spaces,
                       tx1: seq<QBuff>)
    requires Midway(f, st, tx, blockedAt, done, [], st1, tx1)
    ensures WriteCall(f, st, tx, blockedAt, []) == Call(Complete, |done|, st1, tx1) && done == Plan(f, st, tx, 0)
  {
    Front(done, []);
  }

  lemma CallNotice(f: Conf, st: Spaces, tx: seq<QBuff>, blockedAt: nat, notice: seq<QBuff>)
    ensures var c := WriteCall(f, st, tx, blockedAt, []);
            WriteCall(f, st, tx, blockedAt, notice) == c.(tx := c.tx + Added(c, notice))
  {
    var c := WriteCall(f, st, tx, blockedAt, []);
    Append0(c.tx);
    Append0(tx[c.moved..]);
  }

  /** A call that ends well continues a run of datagrams. */
  lemma DrainsCall(f: Conf, st: Spaces, tx: seq<QBuff>, ds: seq<Str>, st1: Spaces, tx1: seq<QBuff>, blockedAt: nat,
                   notice: seq<QBuff>, d: Str)
    requires Drains(f, st, tx, ds, st1, tx1) && tx1 != [] && WriteCall(f, st1, tx1, blockedAt, notice).end.Complete?
    requires Sealed(f, Plan(f, st1, tx1, 0), d)
    ensures var c := WriteCall(f, st1, tx1, blockedAt, notice);
            Drains(f, st, tx, ds + [d], c.spaces, c.tx) && |c.tx| < |tx1|
  {
    Append0(Plan(f, st1, tx1, 0));
    Front(Plan(f, st1, tx1, 0), []);
    DrainsSnoc(f, st, tx, ds, st1, tx1, d);
  }

  lemma MovesMore(f: Conf, st: Spaces, p: QBuff, more: seq<QBuff>, blockedAt: nat)
    requires blockedAt > 0 && Passes(f, st, p)
    ensures Moves(f, st, [p] + more, blockedAt) == 1 + Moves(f, st, more, blockedAt - 1)
  {
    assert ([p] + more)[1..] == more;
  }

  // ---------------------------------------------------------------- a packet too short to send

  /** The first packet of the next datagram is too short for a sample, padding included. */
  predicate Jammed(f: Conf, tx: seq<QBuff>) { tx != [] && Head0(f, tx) + f.s.pnLen < PN_MAX }

  function Head0(f: Conf, tx: seq<QBuff>): nat
    requires tx != []
  { |tx[0].data| + if Last(Costs(f), f.mss, tx, 0) then PadOf(f, tx[0], 0) else 0 }

  lemma HeadOfPlan(f: Conf, st: Spaces, tx: seq<QBuff>)
    requires tx != []
    ensures |Plan(f, st, tx, 0)[0].data| == Head0(f, tx) && Plan(f, st, tx, 0)[0].space == tx[0].space
  {
    PlanTurn(f, st, tx, 0);
  }

  /** That is exactly when a call fails at the first buffer although nothing is wrong with it. */
  lemma JammedIff(f: Conf, st: Spaces, tx: seq<QBuff>, blockedAt: nat, notice: seq<QBuff>)
    requires tx != [] && st.Get(tx[0].space).ready && blockedAt > 0
    ensures var c := WriteCall(f, st, tx, blockedAt, notice); Jammed(f, tx) <==> c.moved == 0
  {
    HeadOfPlan(f, st, tx);
  }

  /** And then every call fails, keys and flow control or not, and leaves the same buffer in front. */
  lemma JammedFails(f: Conf, st: Spaces, tx: seq<QBuff>, blockedAt: nat, notice: seq<QBuff>)
    requires Jammed(f, tx)
    ensures var c := WriteCall(f, st, tx, blockedAt, notice);
            && !c.end.Complete? && c.moved == 0 && |c.tx| >= |tx| && c.tx[0].id == tx[0].id && Jammed(f, c.tx)
  {
    var plan, c := Plan(f, st, tx, 0), WriteCall(f, st, tx, blockedAt, notice);
    HeadOfPlan(f, st, tx);
    assert plan[..0] == [] && tx[0..] == tx;
    if c.end.Refused? {
      JammedLonger(f, tx, notice);
    } else {
      PlanTurn(f, st, tx, 0);
      JammedTried(f, st, tx, plan[0]);
    }
  }

  /** Buffers queued behind do not help. */
  lemma JammedLonger(f: Conf, tx: seq<QBuff>, more: seq<QBuff>)
    requires Jammed(f, tx)
    ensures Jammed(f, tx + more)
  {}

  /** Nor does the padding that a failed build leaves behind. */
  lemma JammedTried(f: Conf, st: Spaces, tx: seq<QBuff>, p: QBuff)
    requires Jammed(f, tx)
    requires p == Stamp(st, tx[0], if Last(Costs(f), f.mss, tx, 0) then PadOf(f, tx[0], 0) else 0)
    ensures Jammed(f, [Left(st, tx[0], p)] + tx[1..])
  {
    var q := tx[0];
    LenMonotone(|q.data| + TAG + f.s.pnLen, |p.data| + TAG + f.s.pnLen);
  }

  lemma JammedNeverDrains(f: Conf, st: Spaces, tx: seq<QBuff>, ds: seq<Str>, st1: Spaces, tx1: seq<QBuff>)
    requires Jammed(f, tx) && Drains(f, st, tx, ds, st1, tx1)
    ensures ds == [] && st1 == st && tx1 == tx
  {
    if ds != [] { HeadOfPlan(f, st, tx); }
  }

  const TYPE_DATA_BLOCKED := 0x14

  /** QuicDataBlockedFrameBuild: what a refusal by the connection's limit queues. It names the bytes sent. */
  function BlockedNotice(f: Conf, id: nat, sent: nat): QBuff
    requires sent < TWO62
  {
    QBuff(id, App, Enc(TYPE_DATA_BLOCKED) + Enc(sent), Max(BuffLen(f.s, App, f.mss), 0), 0, -1, 0, false, false)
  }

  /** The notice jams the queue it heads exactly if fewer than 64 bytes were sent and packet numbers
      take one byte. */
  lemma NoticeJamsIff(f: Conf, id: nat, sent: nat, tx: seq<QBuff>)
    requires f.Valid() && sent < TWO62
    ensures Good(f, BlockedNotice(f, id, sent)) && BlockedNotice(f, id, sent).data == [0x14] + Enc(sent)
    ensures Jammed(f, [BlockedNotice(f, id, sent)] + tx) <==> sent < 64 && f.s.pnLen == 1
  {
    Capacities();
    assert Good(f, BlockedNotice(f, id, sent));
  }

  /** Nothing was sent when flow control refuses `q` and the notice is queued; the limit rises, `q` is
      sent, and the connection never sends again. */
  lemma JamCounterexample(f: Conf, st: Spaces, q: QBuff, id: nat)
    requires f.Valid() && f.s.pnLen == 1 && Good(f, q) && q.space == App && |q.data| >= 3 && st.app.ready
    ensures var notice := BlockedNotice(f, id, 0);
            var c := WriteCall(f, st, [q], 0, [notice]);
            var d := WriteCall(f, c.spaces, c.tx, 1, []);
            c.end.Refused? && d.end.Complete? && d.tx == [notice] && Jammed(f, d.tx)
  {
    var notice := BlockedNotice(f, id, 0);
    PlanTurn(f, st, [q], 0);
    PlanTurn(f, st, [q, notice], 0);
    NoticeJamsIff(f, id, 0, []);
  }

  /** The write state of the connection, as far as QuicSendPacket sets it. */
  datatype RwState = NothingToDo | Reading | Writing | Finished

  /** A short packet is not padded, so only a long one's padding depends on being last; and a long
      packet that is not last takes what was computed. */
  lemma EndPads(q: QBuff, f: Conf, written: nat, end: bool)
    requires f.Valid() && Good(f, q) && Costs(f)(q) + written <= f.mss
    ensures Padding(f.s, q.space, |q.data|, written, end) == if end || q.space == App then PadOf(f, q, written) else 0
    ensures !end && q.space != App ==> SealedLen(f.s, q.space, |q.data|) == Costs(f)(q)
  {}

  /** The queues of a connection and the loop that empties them. */
  class Endpoint {
    const f: Conf
    var tx: seq<QBuff>
    var spaces: Spaces
    var rw: RwState

    ghost predicate Valid()
      reads this
    { f.Valid() && AllGood(f, tx) && Ordered(spaces) }

    constructor (f: Conf, ready: Spaces)
      requires f.Valid() && forall sp :: ready.Get(sp).sent == []
      ensures Valid() && tx == [] && spaces == ready && this.f == f && rw == NothingToDo
    {
      this.f, tx, spaces, rw := f, [], ready, NothingToDo;
    }

    /** QuicAddQueue */
    method Add(q: QBuff)
      requires Valid() && Good(f, q)
      modifies this`tx
      ensures Valid() && tx == old(tx) + [q]
    {
      tx := tx + [q];
    }

    /** QuicPacketBuild with the header in front: it needs 20 bytes from the packet number on for
        the sample, and room for everything. */
    method PacketBuild(p: QBuff, written: nat) returns (ok: bool, x: Str)
      requires f.Valid() && |p.data| <= f.mss && written <= f.mss
      ensures ok <==> |p.data| + f.s.pnLen >= PN_MAX && written + SealedLen(f.s, p.space, |p.data|) <= f.mss
      ensures ok ==> Sealable(f.s, p.data)
      ensures ok ==> x == SealPacket(f.c, f.s, PacketOf(p)) && |x| == SealedLen(f.s, p.space, |p.data|)
    {
      var n := f.s.pnLen + |p.data| + TAG;
      TotalLenExact(f.s, p.space, |p.data|);
      var head := Head(f.s, p.space, n);
      x := [];
      ok := n >= PN_MAX + SAMPLE && |head| + n <= f.mss - written;
      if ok {
        HeadParts(f.s, p.space, n);
        x := f.c.seal(p.space, head, p.pktNum, p.data);
        assert Inverts(f.c, p.space, head, p.pktNum, p.data, f.s.pnLen);
      }
    }

    /** QuicLPacketBuild and QuicSPacketBuild. The buffer gets its padding first and, once the keys are
        found, its number; then the packet must be long enough for a sample. */
    method BuildPkt(q: QBuff, written: nat, end: bool) returns (ok: bool, b: QBuff, x: Str)
      requires f.Valid() && Good(f, q) && Costs(f)(q) + written <= f.mss
      modifies this`spaces
      ensures var p := Stamp(old(spaces), q, Padding(f.s, q.space, |q.data|, written, end));
              && (ok <==> old(spaces).Get(q.space).ready && |p.data| + f.s.pnLen >= PN_MAX)
              && b == Left(old(spaces), q, p) && |b.data| <= q.bufLen && spaces == UsedUp(old(spaces), p)
              && (ok ==> Sealable(f.s, p.data) && x == SealPacket(f.c, f.s, PacketOf(p))
                         && |x| == SealedLen(f.s, q.space, |p.data|))
    {
      var c := spaces.Get(q.space);
      ok, b := AddPadding(q, written, end);
      x := [];
      ok := ok && c.ready;
      if ok {
        b := b.(pktNum := c.pktNum + 1);
        spaces := spaces.Put(q.space, c.(pktNum := b.pktNum));
        ok, x := PacketBuild(b, written);
      }
    }

    /** The padding of QuicLPacketBuild; the buffer always has room for it, and the packet stays in the
        segment. */
    method AddPadding(q: QBuff, written: nat, end: bool) returns (ok: bool, p: QBuff)
      requires f.Valid() && Good(f, q) && Costs(f)(q) + written <= f.mss
      ensures ok && p == q.(data := q.data + Zeros(Padding(f.s, q.space, |q.data|, written, end)))
      ensures |p.data| <= q.bufLen <= f.mss && written + SealedLen(f.s, q.space, |p.data|) <= f.mss
    {
      var total := Costs(f)(q) + written;
      var pad := if q.space != App && end && QuicLt(total, DATAGRAM_MIN) then DATAGRAM_MIN - total else 0;
      PacketFits(f, q, written, end);
      ok, p := !QuicLt(q.bufLen - |q.data|, pad), q;
      if ok { p := q.(data := q.data + Zeros(pad)); }
    }

    /** One turn of the loop of QuicWritePkt: build the first buffer, the plan's `p`, and move it to its
        sent queue. */
    method Turn(written: nat) returns (ok: bool, last: bool, ghost p: QBuff, x: Str)
      requires f.Valid() && AllGood(f, tx) && tx != [] && Costs(f)(tx[0]) + written <= f.mss
      modifies this`tx, this`spaces
      ensures AllGood(f, tx)
      ensures last == Last(Costs(f), f.mss, old(tx), written)
      ensures p == Stamp(old(spaces), old(tx)[0], if last then PadOf(f, old(tx)[0], written) else 0)
      ensures ok <==> Passes(f, old(spaces), p)
      ensures !ok ==> spaces == UsedUp(old(spaces), p) && tx == [Left(old(spaces), old(tx)[0], p)] + old(tx)[1..]
      ensures ok ==> tx == old(tx)[1..] && spaces == Move(old(spaces), p)
      ensures ok ==> Sealable(f.s, p.data) && x == SealPacket(f.c, f.s, PacketOf(p))
      ensures ok && !last ==> |x| == Costs(f)(old(tx)[0]) && tx != [] && Costs(f)(tx[0]) + written + |x| <= f.mss
    {
      var q := tx[0];
      var end := IsEnd(written);
      var b;
      last := end || q.space == App;
      p := Stamp(spaces, q, if last then PadOf(f, q, written) else 0);
      EndPads(q, f, written, end);
      ok, b, x := BuildPkt(q, written, end);
      if ok {
        Unlink(b);
      } else {
        tx := [b] + tx[1..];
      }
    }

    /** Whether the first buffer ends the datagram, apart from being short. */
    method IsEnd(written: nat) returns (end: bool)
      requires AllGood(f, tx) && tx != [] && Costs(f)(tx[0]) + written <= f.mss <= MSS_MAX
      ensures Last(Costs(f), f.mss, tx, written) <==> end || tx[0].space == App
      ensures !end ==> |tx| > 1 && Costs(f)(tx[1]) + written + Costs(f)(tx[0]) <= f.mss
    {
      end := |tx| == 1;
      if !end {
        GoodFits(f, tx[1]);
        if QuicGt(Costs(f)(tx[0]) + Costs(f)(tx[1]), f.mss - written) { end := true; }
      }
    }

    /** QBuffQueueUnlink and QBuffQueueAdd: the built buffer leaves for its sent queue. */
    method Unlink(p: QBuff)
      requires tx != [] && p.pktNum == spaces.Get(p.space).pktNum
      modifies this`tx, this`spaces
      ensures tx == old(tx)[1..]
      ensures spaces == old(spaces).Put(p.space, old(spaces).Get(p.space).(sent := old(spaces).Get(p.space).sent + [p]))
    {
      var c := spaces.Get(p.space);
      spaces := spaces.Put(p.space, c.(sent := c.sent + [p]));
      tx := tx[1..];
    }

    /** The turn in terms of the plan. */
    method TurnOfPlan(written: nat)
      returns (ok: bool, last: bool, ghost p: QBuff, x: Str, next: nat, ghost more: seq<QBuff>)
      requires Valid() && tx != [] && Costs(f)(tx[0]) + written <= f.mss
      modifies this`tx, this`spaces
      ensures Valid()
      ensures Plan(f, old(spaces), old(tx), written) == [p] + more
      ensures ok <==> Passes(f, old(spaces), p)
      ensures ok && last ==> more == []
      ensures next == written + |x| && (ok && !last ==> more == Plan(f, spaces, tx, next))
      ensures ok ==> tx == old(tx)[1..] && spaces == Move(old(spaces), p)
      ensures !ok ==> spaces == UsedUp(old(spaces), p) && tx == [Left(old(spaces), old(tx)[0], p)] + old(tx)[1..]
      ensures ok ==> Sealable(f.s, p.data) && x == SealPacket(f.c, f.s, PacketOf(p))
      ensures ok && !last ==> tx != [] && Costs(f)(tx[0]) + next <= f.mss
    {
      PlanTurn(f, spaces, tx, written);
      ghost var plan := Plan(f, spaces, tx, written);
      ok, last, p, x := Turn(written);
      more, next := plan[1..], written + |x|;
      if ok { MoveOrdered(old(spaces), p); } else { UsedUpOrdered(old(spaces), p); }
    }

    /** A turn that nobody blocks takes the loop one buffer further, or ends the call. */
    method Advance(d: Str, written: nat, ghost st: Spaces, ghost q: seq<QBuff>, ghost blockedAt: nat,
                   ghost done: seq<QBuff>, ghost rest: seq<QBuff>)
      returns (ok: bool, last: bool, d1: Str, next: nat, ghost done1: seq<QBuff>, ghost more: seq<QBuff>)
      requires Valid() && tx != [] && rest == Plan(f, spaces, tx, written) && Costs(f)(tx[0]) + written <= f.mss
      requires Midway(f, st, q, blockedAt, done, rest, spaces, tx) && |done| < blockedAt && Sealed(f, done, d)
      modifies this`tx, this`spaces
      ensures Valid()
      ensures ok ==> |tx| < |old(tx)| && |done1| == |done| + 1 && Sealed(f, done1, d1)
      ensures ok ==> Midway(f, st, q, blockedAt, done1, more, spaces, tx)
      ensures ok ==> more == if last then [] else Plan(f, spaces, tx, next)
      ensures ok && !last ==> tx != [] && Costs(f)(tx[0]) + next <= f.mss
      ensures !ok ==> Call(Failed, |done|, spaces, tx) == WriteCall(f, st, q, blockedAt, [])
    {
      ghost var st0, q0 := spaces, tx;
      var x;
      ghost var p;
      ok, last, p, x, next, more := TurnOfPlan(written);
      d1, done1 := d + x, done + [p];
      if ok {
        WireSnoc(f, done, p);
        MidwayStep(f, st, q, blockedAt, done, p, more, st0, q0);
      } else {
        MidwayFailed(f, st, q, blockedAt, done, p, more, st0, q0);
      }
    }

    /** The body of the loop: what flow control refuses is not built. */
    method Next(d: Str, moved: nat, written: nat, blockedAt: nat, ghost st: Spaces, ghost q: seq<QBuff>,
                ghost done: seq<QBuff>, ghost rest: seq<QBuff>)
      returns (end: End, last: bool, d1: Str, moved1: nat, next: nat, ghost done1: seq<QBuff>, ghost more: seq<QBuff>)
      requires Valid() && tx != [] && rest == Plan(f, spaces, tx, written) && Costs(f)(tx[0]) + written <= f.mss
      requires Midway(f, st, q, blockedAt, done, rest, spaces, tx) && moved == |done| && Sealed(f, done, d)
      modifies this`tx, this`spaces
      ensures Valid()
      ensures end.Complete? ==> |tx| < |old(tx)| && moved1 == |done1| && Sealed(f, done1, d1)
      ensures end.Complete? ==> Midway(f, st, q, blockedAt, done1, more, spaces, tx)
      ensures end.Complete? ==> more == if last then [] else Plan(f, spaces, tx, next)
      ensures end.Complete? && !last ==> tx != [] && Costs(f)(tx[0]) + next <= f.mss
      ensures !end.Complete? ==> Call(end, moved1, spaces, tx) == WriteCall(f, st, q, blockedAt, [])
    {
      last, d1, moved1, next, done1, more := false, d, moved, written, done, rest;
      if moved == blockedAt {
        end := Refused;
        MidwayRefused(f, st, q, blockedAt, done, rest, spaces, tx);
      } else {
        var ok;
        ok, last, d1, next, done1, more := Advance(d, written, st, q, blockedAt, done, rest);
        end, moved1 := if ok then Complete else Failed, if ok then moved + 1 else moved;
      }
    }

    /** The loop of QuicWritePkt. It ends early at the buffer flow control refuses, or at one that cannot
        be built. */
    method WriteLoop(blockedAt: nat) returns (end: End, datagram: Str, moved: nat)
      requires Valid()
      modifies this`tx, this`spaces
      ensures Valid()
      ensures Call(end, moved, spaces, tx) == WriteCall(f, old(spaces), old(tx), blockedAt, [])
      ensures end.Complete? ==> Sealed(f, Plan(f, old(spaces), old(tx), 0), datagram)
    {
      ghost var st, q := spaces, tx;
      ghost var done, rest := [], Plan(f, spaces, tx, 0);
      var last, written: nat := false, 0;
      datagram, moved, end := [], 0, Complete;
      if tx != [] { GoodFits(f, tx[0]); }
      while tx != [] && !last && end.Complete?
        invariant Valid()
        invariant end.Complete? ==> moved == |done| && Sealed(f, done, datagram)
        invariant end.Complete? ==> Midway(f, st, q, blockedAt, done, rest, spaces, tx)
        invariant end.Complete? ==> rest == if last then [] else Plan(f, spaces, tx, written)
        invariant end.Complete? && tx != [] && !last ==> Costs(f)(tx[0]) + written <= f.mss
        invariant !end.Complete? ==> Call(end, moved, spaces, tx) == WriteCall(f, st, q, blockedAt, [])
        decreases if end.Complete? then |tx| + 1 else 0
      {
        end, last, datagram, moved, written, done, rest :=
          Next(datagram, moved, written, blockedAt, st, q, done, rest);
      }
      if end.Complete? { MidwayComplete(f, st, q, blockedAt, done, spaces, tx); }
    }

    /** QuicWritePkt. Flow control refuses the buffer at `blockedAt` and queues `notice`. What was
        moved before a refusal or a failure stays in the sent queues. */
    method WritePkt(blockedAt: nat, notice: seq<QBuff>) returns (end: End, datagram: Str, moved: nat)
      requires Valid() && AllGood(f, notice)
      modifies this`tx, this`spaces
      ensures Valid()
      ensures Call(end, moved, spaces, tx) == WriteCall(f, old(spaces), old(tx), blockedAt, notice)
      ensures end.Complete? ==> Sealed(f, Plan(f, old(spaces), old(tx), 0), datagram)
    {
      end, datagram, moved := WriteLoop(blockedAt);
      CallNotice(f, old(spaces), old(tx), blockedAt, notice);
      Append0(tx);
      if end.Refused? { tx := tx + notice; }
    }

    /** QuicSendPacket. `flow` gives for each datagram what flow control refuses, `failAt` the datagram the
        socket does not take. The datagrams `ds` went out and left the queues at `st1`, `tx1`; one more call
        failed, or its datagram was not taken, if the result is not `ok`. */
    method SendPacket(flow: nat -> (nat, seq<QBuff>), failAt: nat, fdMode: bool)
      returns (ok: bool, ghost ds: seq<Str>, ghost st1: Spaces, ghost tx1: seq<QBuff>)
      requires Valid() && forall n :: AllGood(f, flow(n).1)
      modifies this
      ensures Valid() && Drains(f, old(spaces), old(tx), ds, st1, tx1) && |ds| <= failAt
      ensures ok ==> spaces == st1 && tx == tx1 && (fdMode ==> tx == [])
      ensures !ok ==> tx1 != [] && var c := WriteCall(f, st1, tx1, flow(|ds|).0, flow(|ds|).1);
                                   spaces == c.spaces && tx == c.tx && (c.end.Complete? ==> |ds| == failAt)
      ensures ok && old(tx) != [] ==> |tx| < |old(tx)| && (!fdMode ==> |ds| == 1)
      ensures forall sp :: Line(st1, tx1, sp) == Line(old(spaces), old(tx), sp)
      ensures Jammed(f, old(tx)) ==> !ok && ds == []
      ensures var now := if old(tx) != [] then Writing else old(rw);
              rw == if ok && now == Writing && tx == [] then Finished else now
    {
      ok, ds, st1, tx1 := SendLoop(flow, failAt, fdMode);
      DrainsKeeps(f, old(spaces), old(tx), ds, st1, tx1);
      if Jammed(f, old(tx)) { JammedNeverDrains(f, old(spaces), old(tx), ds, st1, tx1); }
      if ok && rw == Writing && tx == [] { rw := Finished; }
    }

    /** The loop of QuicSendPacket; it stops at the first failure. */
    method SendLoop(flow: nat -> (nat, seq<QBuff>), failAt: nat, fdMode: bool)
      returns (ok: bool, ghost ds: seq<Str>, ghost st1: Spaces, ghost tx1: seq<QBuff>)
      requires Valid() && forall n :: AllGood(f, flow(n).1)
      modifies this
      ensures Valid() && Drains(f, old(spaces), old(tx), ds, st1, tx1) && |ds| <= failAt
      ensures ok ==> spaces == st1 && tx == tx1 && (fdMode ==> tx == [])
      ensures !ok ==> tx1 != [] && var c := WriteCall(f, st1, tx1, flow(|ds|).0, flow(|ds|).1);
                                   spaces == c.spaces && tx == c.tx && (c.end.Complete? ==> |ds| == failAt)
      ensures ok && old(tx) != [] ==> |tx| < |old(tx)| && (!fdMode ==> |ds| == 1)
      ensures rw == if old(tx) != [] then Writing else old(rw)
    {
      ds, ok := [], true;
      var n := 0;
      ghost var st, q := spaces, tx;
      ghost var c := Call(Complete, 0, spaces, tx);
      st1, tx1 := st, q;
      while tx != [] && ok && (fdMode || n == 0)
        invariant Valid() && Drains(f, st, q, ds, st1, tx1) && n == |ds| && n <= failAt
        invariant spaces == c.spaces && tx == c.tx
        invariant ok ==> st1 == c.spaces && tx1 == c.tx && (n > 0 ==> |tx1| < |q|)
        invariant !ok ==> tx1 != [] && c == WriteCall(f, st1, tx1, flow(n).0, flow(n).1)
        invariant !ok && c.end.Complete? ==> n == failAt
        invariant if n > 0 || !ok then rw == Writing && q != [] else tx1 == q && rw == old(rw)
        invariant fdMode || n <= 1
        decreases if ok then |tx1| + 1 else 0
      {
        var blockedAt, notice, taken := flow(n).0, flow(n).1, n != failAt;
        ok, ds, c := SendOne(blockedAt, notice, taken, st, q, ds);
        if ok { n, st1, tx1 := n + 1, c.spaces, c.tx; }
      }
    }

    /** One turn of that loop: a complete datagram that the socket takes continues the run. */
    method SendOne(blockedAt: nat, notice: seq<QBuff>, taken: bool, ghost st: Spaces, ghost q: seq<QBuff>,
                   ghost ds: seq<Str>)
      returns (ok: bool, ghost ds1: seq<Str>, ghost c: Call)
      requires Valid() && AllGood(f, notice) && tx != [] && Drains(f, st, q, ds, spaces, tx)
      modifies this
      ensures Valid() && rw == Writing && spaces == c.spaces && tx == c.tx
      ensures c == WriteCall(f, old(spaces), old(tx), blockedAt, notice) && (ok <==> c.end.Complete? && taken)
      ensures if ok then |ds1| == |ds| + 1 && Drains(f, st, q, ds1, spaces, tx) && |tx| < |old(tx)| else ds1 == ds
    {
      rw, ds1 := Writing, ds;
      var end, datagram, moved := WritePkt(blockedAt, notice);
      c := Call(end, moved, spaces, tx);
      ok := end.Complete? && taken;
      if ok {
        DrainsCall(f, st, q, ds, old(spaces), old(tx), blockedAt, notice, datagram);
        ds1 := ds + [datagram];
      }
    }
  }
}
