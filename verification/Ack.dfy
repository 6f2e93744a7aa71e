/** Acknowledgements and the sent queue: QBufAckSentPkt (quic/q_buff.c:205-231), the ACK parser and
    the ACK builder (quic/frame.c:371-437, 857-887). */
module AckRanges {
  import opened Common
  import opened Queues

  datatype Range = Range(smallest: nat, largest: nat)

  predicate Covers(r: Range, n: nat) { r.smallest <= n <= r.largest }

  predicate Acked(rs: seq<Range>, n: nat) {
    rs != [] && (Covers(rs[0], n) || Acked(rs[1..], n))
  }

  /** The packets that none of the ranges covers, in their old order. */
  function Unacked(q: seq<QBuff>, rs: seq<Range>): seq<QBuff> {
    if q == [] then []
    else Unacked(q[..|q| - 1], rs) + (if Acked(rs, q[|q| - 1].pktNum) then [] else [q[|q| - 1]])
  }

  /** Ranges as an ACK frame lists them: from the largest down, at least one number apart. */
  ghost predicate Descending(rs: seq<Range>) {
    rs == [] || (&& rs[0].smallest <= rs[0].largest < TWO31
                 && (|rs| > 1 ==> rs[1].largest + 2 <= rs[0].smallest)
                 && Descending(rs[1..]))
  }

  lemma AckedOne(r: Range)
    ensures forall n :: Acked([r], n) <==> Covers(r, n)
  {
    assert [r][1..] == [];
  }

  lemma {:induction false} DescendingDisjoint(rs: seq<Range>, i: nat, j: nat)
    requires Descending(rs) && i < j < |rs|
    ensures rs[j].smallest <= rs[j].largest && rs[j].largest + 1 < rs[i].smallest
  {
    if i > 0 {
      DescendingDisjoint(rs[1..], i - 1, j - 1);
    } else if j > 1 {
      DescendingDisjoint(rs[1..], 0, j - 1);
    } else {
      assert rs[1..][0] == rs[1];
    }
  }

  // ---------------------------------------------------------------- one range

  /** What a scan leaves, what it frees (newest first), and the index of the packet it returns as
      the place to go on from, -1 for NULL. */
  datatype Cut = Cut(keep: seq<QBuff>, acked: seq<QBuff>, hit: int)

  /** The scan of QBufAckSentPkt, from the last packet of `q` towards the front. */
  function Scan(q: seq<QBuff>, r: Range): Cut {
    if q == [] then Cut([], [], -1)
    else
      var n := |q| - 1;
      if QuicGt(q[n].pktNum, r.largest) then
        var c := Scan(q[..n], r);
        Cut(c.keep + [q[n]], c.acked, c.hit)
      else if QuicGt(r.smallest, q[n].pktNum) then Cut(q, [], n)
      else
        var c := Scan(q[..n], r);
        Cut(c.keep, [q[n]] + c.acked, c.hit)
  }

  /** The packets one range does not cover. */
  function Outside(q: seq<QBuff>, r: Range): seq<QBuff> {
    if q == [] then []
    else Outside(q[..|q| - 1], r) + (if Covers(r, q[|q| - 1].pktNum) then [] else [q[|q| - 1]])
  }

  lemma {:induction false} OutsideIs(q: seq<QBuff>, r: Range)
    ensures Unacked(q, [r]) == Outside(q, r)
    decreases |q|
  {
    if q != [] {
      OutsideIs(q[..|q| - 1], r);
      AckedOne(r);
      assert Acked([r], q[|q| - 1].pktNum) <==> Covers(r, q[|q| - 1].pktNum);
    }
  }

  lemma {:induction false} ScanKeeps(q: seq<QBuff>, bound: nat, r: Range)
    requires SentSorted(q, bound) && bound < TWO31 && r.smallest <= r.largest < TWO31
    ensures Scan(q, r).keep == Outside(q, r)
    decreases |q|
  {
    if q != [] {
      var n := |q| - 1;
      if q[n].pktNum < r.smallest {
        BelowAll(q, bound, r.smallest);
        NoneOutside(q, r);
      } else {
        SortedCut(q, bound);
        ScanKeeps(q[..n], bound, r);
      }
    }
  }

  lemma BelowAll(q: seq<QBuff>, bound: nat, smallest: nat)
    requires SentSorted(q, bound) && q != [] && q[|q| - 1].pktNum < smallest
    ensures forall i :: 0 <= i < |q| ==> q[i].pktNum < smallest
  {}

  lemma SortedCut(q: seq<QBuff>, bound: nat)
    requires SentSorted(q, bound) && q != []
    ensures SentSorted(q[..|q| - 1], bound)
  {}

  lemma {:induction false} NoneOutside(q: seq<QBuff>, r: Range)
    requires forall i :: 0 <= i < |q| ==> !Covers(r, q[i].pktNum)
    ensures Outside(q, r) == q
    decreases |q|
  {
    if q != [] {
      NoneOutside(q[..|q| - 1], r);
      assert q == q[..|q| - 1] + [q[|q| - 1]];
    }
  }

  lemma {:induction false} ScanHit(q: seq<QBuff>, bound: nat, r: Range)
    requires SentSorted(q, bound) && bound < TWO31 && r.smallest <= r.largest < TWO31
    ensures var c := Scan(q, r);
            && (c.hit == -1 <==> q == [] || q[0].pktNum >= r.smallest)
            && -1 <= c.hit < |c.keep|
            && forall i :: c.hit < i < |c.keep| ==> c.keep[i].pktNum > r.largest
    decreases |q|
  {
    if q != [] {
      var n := |q| - 1;
      if q[n].pktNum < r.smallest {
        assert q[0].pktNum <= q[n].pktNum;
      } else {
        assert SentSorted(q[..n], bound);
        ScanHit(q[..n], bound, r);
        assert n > 0 ==> q[..n][0] == q[0];
      }
    }
  }

  /** On a sorted queue the scan removes exactly the covered packets, stops at the last one below
      the range, and returns NULL just when the front packet is not below it. */
  lemma ScanIs(q: seq<QBuff>, bound: nat, r: Range)
    requires SentSorted(q, bound) && bound < TWO31 && r.smallest <= r.largest < TWO31
    ensures var c := Scan(q, r);
            && c.keep == Unacked(q, [r])
            && (c.hit == -1 <==> q == [] || q[0].pktNum >= r.smallest)
            && -1 <= c.hit < |c.keep|
            && forall i :: c.hit < i < |c.keep| ==> c.keep[i].pktNum > r.largest
  {
    ScanKeeps(q, bound, r);
    OutsideIs(q, r);
    ScanHit(q, bound, r);
  }

  /** The scan of a front part, by its last packet. */
  lemma ScanAt(q: seq<QBuff>, i: nat, r: Range)
    requires i < |q|
    ensures var c := Scan(q[..i], r);
            Scan(q[..i + 1], r) == if QuicGt(q[i].pktNum, r.largest) then Cut(c.keep + [q[i]], c.acked, c.hit)
                                   else if QuicGt(r.smallest, q[i].pktNum) then Cut(q[..i + 1], [], i)
                                   else Cut(c.keep, [q[i]] + c.acked, c.hit)
  {
    assert q[..i + 1][..i] == q[..i];
  }

  lemma NoneCovered(q: seq<QBuff>, r: Range)
    requires forall i :: 0 <= i < |q| ==> !Covers(r, q[i].pktNum)
    ensures Unacked(q, [r]) == q
  {
    OutsideIs(q, r);
    NoneOutside(q, r);
  }

  lemma KeepOne(q: seq<QBuff>, i: nat, kept: seq<QBuff>, keep: seq<QBuff>) returns (more: seq<QBuff>)
    requires i < |q|
    ensures more == [q[i]] + kept
    ensures q[..i + 1] + kept == q[..i] + more && keep + [q[i]] + kept == keep + more
  {
    more := [q[i]] + kept;
  }

  lemma FreeOne(q: seq<QBuff>, i: nat, kept: seq<QBuff>)
    requires i < |q|
    ensures var s := q[..i + 1] + kept; s[i] == q[i] && s[..i] + s[i + 1..] == q[..i] + kept
  {}

  lemma Ends(q: seq<QBuff>, c: Cut)
    ensures q[..|q|] == q && q + [] == q && Cut(c.keep + [], [] + c.acked, c.hit) == c
  {}

  /** Each packet is kept or freed, never both and never dropped. */
  lemma {:induction false} ScanConserves(q: seq<QBuff>, r: Range)
    ensures multiset(q) == multiset(Scan(q, r).keep) + multiset(Scan(q, r).acked)
    decreases |q|
  {
    if q != [] {
      assert q == q[..|q| - 1] + [q[|q| - 1]];
      ScanConserves(q[..|q| - 1], r);
    }
  }

  // ---------------------------------------------------------------- all ranges of a frame

  /** Fault: the scan starts from a cursor that was never set. */
  datatype Outcome = Outcome(keep: seq<QBuff>, acked: seq<QBuff>, fault: bool)

  /** The calls the ACK parser makes, `start` being what the call before returned. The cursor is set
      only if `start` is NULL. */
  function Calls(q: seq<QBuff>, rs: seq<Range>, start: int, acked: seq<QBuff>): Outcome
    decreases |rs|
  {
    if rs == [] then Outcome(q, acked, false)
    else if start != -1 then Outcome(q, acked, true)
    else
      var c := Scan(q, rs[0]);
      Calls(c.keep, rs[1..], c.hit, acked + c.acked)
  }

  lemma CallsCons(q: seq<QBuff>, r: Range, rs: seq<Range>, start: int, acked: seq<QBuff>)
    ensures Calls(q, [r] + rs, start, acked) ==
            if start != -1 then Outcome(q, acked, true)
            else Calls(Scan(q, r).keep, rs, Scan(q, r).hit, acked + Scan(q, r).acked)
  {
    assert ([r] + rs)[1..] == rs;
  }

  /** The calls as they are meant: a later scan goes on from where the one before stopped. */
  function ScanFrom(q: seq<QBuff>, r: Range, start: int): Cut
    requires -1 <= start < |q|
  {
    if start == -1 then Scan(q, r)
    else
      var c := Scan(q[..start + 1], r);
      Cut(c.keep + q[start + 1..], c.acked, c.hit)
  }

  ghost predicate CallsMeant(q: seq<QBuff>, rs: seq<Range>, start: int, left: seq<QBuff>)
    decreases |rs|
  {
    if rs == [] then left == q
    else
      && -1 <= start < |q|
      && CallsMeant(ScanFrom(q, rs[0], start).keep, rs[1..], ScanFrom(q, rs[0], start).hit, left)
  }

  lemma {:induction false} UnackedSplit(a: seq<QBuff>, b: seq<QBuff>, rs: seq<Range>)
    ensures Unacked(a + b, rs) == Unacked(a, rs) + Unacked(b, rs)
    decreases |b|
  {
    if b == [] {
      assert a + b == a;
    } else {
      var n := |b| - 1;
      UnackedSplit(a, b[..n], rs);
      assert (a + b)[..|a + b| - 1] == a + b[..n];
      Assoc3(Unacked(a, rs), Unacked(b[..n], rs), if Acked(rs, b[n].pktNum) then [] else [b[n]]);
    }
  }

  lemma Single(b: QBuff, rs: seq<Range>)
    ensures Unacked([b], rs) == if Acked(rs, b.pktNum) then [] else [b]
  {
    assert [b][..0] == [];
  }

  /** Ranges may be taken one after the other. */
  lemma {:induction false} UnackedCompose(q: seq<QBuff>, r: Range, rs: seq<Range>)
    ensures Unacked(Unacked(q, [r]), rs) == Unacked(q, [r] + rs)
    decreases |q|
  {
    if q != [] {
      var n := |q| - 1;
      var last := if Acked([r], q[n].pktNum) then [] else [q[n]];
      UnackedCompose(q[..n], r, rs);
      UnackedSplit(Unacked(q[..n], [r]), last, rs);
      AckedOne(r);
      assert ([r] + rs)[1..] == rs;
      Single(q[n], rs);
    }
  }

  /** Removing packets keeps the queue sorted and adds none. */
  lemma {:induction false} UnackedSorted(q: seq<QBuff>, bound: nat, rs: seq<Range>)
    requires SentSorted(q, bound)
    ensures SentSorted(Unacked(q, rs), bound)
    ensures forall b :: b in Unacked(q, rs) <==> b in q && !Acked(rs, b.pktNum)
    decreases |q|
  {
    if q != [] {
      var n := |q| - 1;
      assert SentSorted(q[..n], bound);
      UnackedSorted(q[..n], bound, rs);
      assert q == q[..n] + [q[n]];
      var k := Unacked(q[..n], rs);
      forall i | 0 <= i < |k| ensures k[i].pktNum < q[n].pktNum {
        assert k[i] in q[..n];
      }
    }
  }

  /** Packets above every range. */
  lemma {:induction false} AboveUnacked(q: seq<QBuff>, r: Range)
    requires forall i :: 0 <= i < |q| ==> q[i].pktNum > r.largest
    ensures Unacked(q, [r]) == q
  {
    NoneCovered(q, r);
  }

  /** If the first scan returned NULL nothing is left below its range. */
  lemma {:induction false} AllAbove(q: seq<QBuff>, bound: nat, rs: seq<Range>)
    requires SentSorted(q, bound) && Descending(rs) && |rs| > 1
    requires q == [] || q[0].pktNum >= rs[0].smallest
    ensures var k := Unacked(q, [rs[0]]); k == [] || k[0].pktNum >= rs[1].smallest
  {
    var k := Unacked(q, [rs[0]]);
    UnackedSorted(q, bound, [rs[0]]);
    DescendingDisjoint(rs, 0, 1);
    if k != [] { assert k[0] in q; }
  }

  /** The frame is processed without a fault exactly when it has a single range or no packet below
      its first range is in flight; and then exactly the packets outside all ranges stay. */
  lemma {:induction false} CallsExact(q: seq<QBuff>, bound: nat, rs: seq<Range>, acked: seq<QBuff>)
    requires SentSorted(q, bound) && bound < TWO31 && Descending(rs)
    ensures var r := Calls(q, rs, -1, acked);
            && (r.fault <==> |rs| > 1 && q != [] && q[0].pktNum < rs[0].smallest)
            && (!r.fault ==> r.keep == Unacked(q, rs))
    decreases |rs|
  {
    if rs == [] {
      NothingAcked(q);
    } else {
      ScanIs(q, bound, rs[0]);
      var c := Scan(q, rs[0]);
      UnackedSorted(q, bound, [rs[0]]);
      UnackedCompose(q, rs[0], rs[1..]);
      assert [rs[0]] + rs[1..] == rs;
      if |rs| == 1 {
        NothingAcked(c.keep);
      } else if c.hit == -1 {
        AllAbove(q, bound, rs);
        CallsExact(c.keep, bound, rs[1..], acked + c.acked);
      }
    }
  }

  /** A frame with the ranges 5 and 1, while packet 3 is in flight: the second scan has no cursor. */
  lemma CallsCounterexample(b: QBuff)
    requires b.pktNum == 3
    ensures Descending([Range(5, 5), Range(1, 1)]) && SentSorted([b], 5)
    ensures Calls([b], [Range(5, 5), Range(1, 1)], -1, []).fault
  {
    var rs := [Range(5, 5), Range(1, 1)];
    assert rs[1..] == [Range(1, 1)] && rs[1..][1..] == [];
    CallsExact([b], 5, rs, []);
  }

  lemma {:induction false} NothingAcked(q: seq<QBuff>)
    ensures Unacked(q, []) == q
    decreases |q|
  {
    if q != [] {
      NothingAcked(q[..|q| - 1]);
      assert q == q[..|q| - 1] + [q[|q| - 1]];
    }
  }

  /** A scan that goes on from a place above which nothing is covered removes what a full one does. */
  lemma ScanFromIs(q: seq<QBuff>, bound: nat, r: Range, start: int)
    requires SentSorted(q, bound) && bound < TWO31 && r.smallest <= r.largest < TWO31 && -1 <= start < |q|
    requires forall i :: start < i < |q| ==> q[i].pktNum > r.largest
    ensures var c := ScanFrom(q, r, start);
            && c.keep == Unacked(q, [r]) && -1 <= c.hit < |c.keep|
            && forall i :: c.hit < i < |c.keep| ==> c.keep[i].pktNum > r.largest
  {
    if start == -1 {
      ScanIs(q, bound, r);
    } else {
      var a, b := q[..start + 1], q[start + 1..];
      assert q == a + b;
      assert forall i :: 0 <= i < |b| ==> b[i] == q[start + 1 + i];
      ScanFront(a, b, bound, r);
    }
  }

  lemma ScanFront(a: seq<QBuff>, b: seq<QBuff>, bound: nat, r: Range)
    requires SentSorted(a + b, bound) && bound < TWO31 && r.smallest <= r.largest < TWO31
    requires forall i :: 0 <= i < |b| ==> b[i].pktNum > r.largest
    ensures var c := Scan(a, r); var keep := c.keep + b;
            && keep == Unacked(a + b, [r]) && -1 <= c.hit < |keep|
            && forall i :: c.hit < i < |keep| ==> keep[i].pktNum > r.largest
  {
    SortedFront(a, b, bound);
    ScanIs(a, bound, r);
    FrontUnacked(a, b, r);
    AllBehind(Scan(a, r).keep, b, Scan(a, r).hit, r.largest);
  }

  lemma FrontUnacked(a: seq<QBuff>, b: seq<QBuff>, r: Range)
    requires forall i :: 0 <= i < |b| ==> b[i].pktNum > r.largest
    ensures Unacked(a + b, [r]) == Unacked(a, [r]) + b
  {
    UnackedSplit(a, b, [r]);
    AboveUnacked(b, r);
  }

  lemma AllBehind(keep: seq<QBuff>, b: seq<QBuff>, hit: int, largest: nat)
    requires -1 <= hit < |keep| && forall i :: hit < i < |keep| ==> keep[i].pktNum > largest
    requires forall i :: 0 <= i < |b| ==> b[i].pktNum > largest
    ensures forall i :: hit < i < |keep + b| ==> (keep + b)[i].pktNum > largest
  {}

  lemma SortedFront(a: seq<QBuff>, b: seq<QBuff>, bound: nat)
    requires SentSorted(a + b, bound)
    ensures SentSorted(a, bound)
  {
    assert forall i :: 0 <= i < |a| ==> (a + b)[i] == a[i];
  }

  /** Resuming as meant would always leave exactly the packets outside every range. */
  lemma {:induction false} MeantExact(q: seq<QBuff>, bound: nat, rs: seq<Range>, start: int, left: seq<QBuff>)
    requires SentSorted(q, bound) && bound < TWO31 && Descending(rs) && -1 <= start < |q|
    requires rs != [] ==> forall i :: start < i < |q| ==> q[i].pktNum > rs[0].largest
    ensures CallsMeant(q, rs, start, left) <==> left == Unacked(q, rs)
    decreases |rs|
  {
    if rs == [] {
      NothingAcked(q);
    } else {
      ScanFromIs(q, bound, rs[0], start);
      UnackedSorted(q, bound, [rs[0]]);
      UnackedCompose(q, rs[0], rs[1..]);
      assert [rs[0]] + rs[1..] == rs;
      var c := ScanFrom(q, rs[0], start);
      if |rs| > 1 { DescendingDisjoint(rs, 0, 1); }
      MeantExact(c.keep, bound, rs[1..], c.hit, left);
    }
  }
}

module Ack {
  import opened Common
  import opened Bytes
  import opened Varint
  import opened VarintReader
  import opened PacketReader
  import opened Queues
  import opened AckRanges

  /** Subtraction of uint64_t. */
  function U64(x: int): nat { x % TWO64 }

  /** The start `a - b` of a range, if the parser lets it pass: its test for a range that starts below
      zero looks at bit 31 of the difference. */
  function Start(a: int, b: int): (r: Option<nat>)
    ensures 0 <= a - b < TWO31 ==> r == Some(a - b)
    ensures -TWO31 <= a - b < 0 ==> r == None
  { if QuicLt(U64(a - b), 0) then None else Some(U64(a - b)) }

  /** The test is right exactly when that bit tells the sign. */
  lemma SignTestIff(a: int, b: int)
    ensures Start(a, b).None? <==> (a - b) / TWO31 % 2 == 1
    ensures (Start(a, b).None? <==> a < b) <==> (a < b <==> (a - b) / TWO31 % 2 == 1)
  {
    var x := a - b;
    assert x == x / TWO64 * TWO64 + U64(x);
    var q, m := x / TWO31, x % TWO31;
    assert x == q * TWO31 + m;
    var h := q / 2;
    assert q == 2 * h + q % 2;
    assert U64(x) == (h - x / TWO64 * TWO32) * TWO32 + (q % 2 * TWO31 + m);
  }

  /** So it takes the range that starts 2^32 below zero and refuses one that starts at 2^31. */
  lemma SignTestCounterexample()
    ensures Start(0, TWO32) == Some(TWO64 - TWO32) && Start(TWO31, 0) == None
  {}

  /** What the parser makes of the numbers in front of it: the largest number if it got that far, and
      the ranges up to the end or the first defect. */
  datatype Frame = Frame(largest: Option<nat>, ranges: seq<Range>, ok: bool)

  datatype Tail = Tail(ranges: seq<Range>, ok: bool)

  /** The next range below `smallest`. */
  function NextRange(ns: seq<nat>, smallest: nat): Option<Range> {
    if |ns| < 2 then None
    else
      var hi := Start(smallest, ns[0] + 2);
      var lo := if hi.None? then None else Start(hi.value, ns[1]);
      if lo.None? then None else Some(Range(lo.value, hi.value))
  }

  /** The ranges after the first one. */
  function More(ns: seq<nat>, count: nat, smallest: nat): (m: Tail)
    ensures m.ok ==> |m.ranges| == count
    decreases count
  {
    if count == 0 then Tail([], true)
    else
      var r := NextRange(ns, smallest);
      if r.None? then Tail([], false)
      else
        var m := More(ns[2..], count - 1, r.value.smallest);
        Tail([r.value] + m.ranges, m.ok)
  }

  lemma MoreStep(ns: seq<nat>, count: nat, smallest: nat)
    requires count > 0
    ensures var r := NextRange(ns, smallest);
            if r.None? then More(ns, count, smallest) == Tail([], false)
            else
              |ns| >= 2 && var m := More(ns[2..], count - 1, r.value.smallest);
              More(ns, count, smallest) == Tail([r.value] + m.ranges, m.ok)
  {}

  /** QuicFrameAckParser, the frame type being read already: largest, delay, count, first range. */
  function Parse(ns: seq<nat>): Frame {
    if ns == [] then Frame(None, [], false)
    else if |ns| < 4 then Frame(Some(ns[0]), [], false)
    else
      var lo := Start(ns[0], ns[3]);
      if lo.None? then Frame(Some(ns[0]), [], false)
      else
        var m := More(ns[4..], ns[2], lo.value);
        Frame(Some(ns[0]), [Range(lo.value, ns[0])] + m.ranges, m.ok)
  }

  lemma NextRangeBelow(ns: seq<nat>, smallest: nat)
    requires NextRange(ns, smallest).Some? && smallest < TWO31 && ns[0] < TWO31 - 1 && ns[1] < TWO31 - 1
    ensures var r := NextRange(ns, smallest).value; r.smallest <= r.largest && r.largest + 2 <= smallest
  {}

  function FirstOf(ns: seq<nat>): Option<nat> { if ns == [] then None else Some(ns[0]) }

  lemma LargestIsFirst(ns: seq<nat>)
    ensures Parse(ns).largest == FirstOf(ns)
  {}

  lemma Slices(ns: seq<nat>)
    ensures |ns| >= 3 ==> ns[1..][2..] == ns[3..]
    ensures |ns| >= 4 ==> ns[1..][3..] == ns[4..]
  {}

  /** How many numbers a frame takes that is good to its end. */
  function Used(f: Frame): nat { if f.ranges == [] then 0 else 2 * (|f.ranges| - 1) + 4 }

  lemma UsedIs(ns: seq<nat>)
    requires Parse(ns).ok
    ensures |ns| >= 4 && Used(Parse(ns)) == 2 * ns[2] + 4
  {}

  /** From numbers below 2^31 - 1 the parser takes only ranges that are disjoint and descending. */
  lemma {:induction false} MoreDescending(ns: seq<nat>, count: nat, smallest: nat, largest: nat)
    requires smallest <= largest < TWO31 && forall n :: n in ns ==> n < TWO31 - 1
    ensures Descending([Range(smallest, largest)] + More(ns, count, smallest).ranges)
    decreases count
  {
    var more := More(ns, count, smallest).ranges;
    assert ([Range(smallest, largest)] + more)[1..] == more;
    if more != [] {
      assert ns[0] in ns && ns[1] in ns && forall n :: n in ns[2..] ==> n in ns;
      var r := NextRange(ns, smallest).value;
      NextRangeBelow(ns, smallest);
      MoreDescending(ns[2..], count - 1, r.smallest, r.largest);
    }
  }

  lemma ParseDescending(ns: seq<nat>)
    requires forall n :: n in ns ==> n < TWO31 - 1
    ensures Descending(Parse(ns).ranges)
  {
    if Parse(ns).ranges != [] {
      assert ns[0] in ns && ns[3] in ns && forall n :: n in ns[4..] ==> n in ns;
      MoreDescending(ns[4..], ns[2], Start(ns[0], ns[3]).value, ns[0]);
    }
  }

  // ---------------------------------------------------------------- what a peer writes

  lemma FitFront(a: nat, b: nat, ns: seq<nat>)
    requires a < TWO62 && b < TWO62 && AllFit(ns)
    ensures AllFit([a, b] + ns)
  {
    assert ([a, b] + ns)[1..] == [b] + ns && ([b] + ns)[1..] == ns;
  }

  /** The ranges below `smallest` as an ACK frame lists them. */
  function MoreNumbers(rs: seq<Range>, smallest: nat): (ns: seq<nat>)
    requires Descending(rs) && smallest < TWO31 && (rs != [] ==> rs[0].largest + 2 <= smallest)
    ensures AllFit(ns)
  {
    if rs == [] then []
    else
      var tail := MoreNumbers(rs[1..], rs[0].smallest);
      FitFront(smallest - rs[0].largest - 2, rs[0].largest - rs[0].smallest, tail);
      [smallest - rs[0].largest - 2, rs[0].largest - rs[0].smallest] + tail
  }

  /** The numbers of an ACK frame. QuicFrameAckGen writes it with one range. */
  function AckNumbers(rs: seq<Range>, delay: nat): (ns: seq<nat>)
    requires rs != [] && Descending(rs) && |rs| < TWO31 && delay < TWO62
    ensures AllFit(ns)
  {
    var tail := MoreNumbers(rs[1..], rs[0].smallest);
    FitFour(rs[0].largest, delay, |rs| - 1, rs[0].largest - rs[0].smallest, tail);
    Four(rs[0].largest, delay, |rs| - 1, rs[0].largest - rs[0].smallest, tail)
  }

  function Four(a: nat, b: nat, c: nat, d: nat, tail: seq<nat>): seq<nat> { [a, b] + ([c, d] + tail) }

  lemma FitFour(a: nat, b: nat, c: nat, d: nat, tail: seq<nat>)
    requires a < TWO62 && b < TWO62 && c < TWO62 && d < TWO62 && AllFit(tail)
    ensures AllFit(Four(a, b, c, d, tail))
  {
    FitFront(c, d, tail);
    FitFront(a, b, [c, d] + tail);
  }

  lemma TwoFront(a: nat, b: nat, tail: seq<nat>, after: seq<nat>)
    ensures var ns := [a, b] + tail + after;
            |ns| >= 2 && ns[0] == a && ns[1] == b && ns[2..] == tail + after
  {}

  lemma NextRangeBack(ns: seq<nat>, smallest: nat, r: Range)
    requires |ns| >= 2 && r.smallest <= r.largest && r.largest + 2 <= smallest < TWO31
    requires ns[0] == smallest - r.largest - 2 && ns[1] == r.largest - r.smallest
    ensures NextRange(ns, smallest) == Some(r)
  {}

  lemma MoreCons(ns: seq<nat>, tail: seq<nat>, after: seq<nat>, count: nat, smallest: nat, rs: seq<Range>)
    requires rs != [] && rs[0].smallest <= rs[0].largest && rs[0].largest + 2 <= smallest < TWO31
    requires ns == [smallest - rs[0].largest - 2, rs[0].largest - rs[0].smallest] + tail
    requires count > 0 && More(tail + after, count - 1, rs[0].smallest) == Tail(rs[1..], true)
    ensures More(ns + after, count, smallest) == Tail(rs, true)
  {
    TwoFront(smallest - rs[0].largest - 2, rs[0].largest - rs[0].smallest, tail, after);
    NextRangeBack(ns + after, smallest, rs[0]);
    assert [rs[0]] + rs[1..] == rs;
  }

  lemma {:induction false} MoreBack(rs: seq<Range>, smallest: nat, after: seq<nat>)
    requires Descending(rs) && smallest < TWO31 && (rs != [] ==> rs[0].largest + 2 <= smallest)
    ensures |MoreNumbers(rs, smallest)| == 2 * |rs|
    ensures More(MoreNumbers(rs, smallest) + after, |rs|, smallest) == Tail(rs, true)
    decreases |rs|
  {
    if rs != [] {
      MoreBack(rs[1..], rs[0].smallest, after);
      MoreCons(MoreNumbers(rs, smallest), MoreNumbers(rs[1..], rs[0].smallest), after, |rs|, smallest, rs);
    }
  }

  /** The parser recovers the ranges of every well-formed frame. */
  lemma ParseBack(rs: seq<Range>, delay: nat, after: seq<nat>)
    requires rs != [] && Descending(rs) && |rs| < TWO31 && delay < TWO62
    ensures |AckNumbers(rs, delay)| == 2 + 2 * |rs|
    ensures Parse(AckNumbers(rs, delay) + after) == Frame(Some(rs[0].largest), rs, true)
  {
    MoreBack(rs[1..], rs[0].smallest, after);
    AckNumbersAre(rs, delay, after);
    ParseFour(AckNumbers(rs, delay) + after, rs, MoreNumbers(rs[1..], rs[0].smallest) + after);
  }

  lemma AckNumbersAre(rs: seq<Range>, delay: nat, after: seq<nat>)
    requires rs != [] && Descending(rs) && |rs| < TWO31 && delay < TWO62
    ensures |AckNumbers(rs, delay)| == 4 + |MoreNumbers(rs[1..], rs[0].smallest)|
    ensures var ns := AckNumbers(rs, delay) + after;
            && ns[0] == rs[0].largest && ns[2] == |rs| - 1 && ns[3] == rs[0].largest - rs[0].smallest
            && ns[4..] == MoreNumbers(rs[1..], rs[0].smallest) + after
  {
    FourFront(rs[0].largest, delay, |rs| - 1, rs[0].largest - rs[0].smallest,
              MoreNumbers(rs[1..], rs[0].smallest), after);
  }

  lemma FourFront(a: nat, b: nat, c: nat, d: nat, tail: seq<nat>, after: seq<nat>)
    ensures |Four(a, b, c, d, tail)| == 4 + |tail|
    ensures var ns := Four(a, b, c, d, tail) + after;
            |ns| >= 4 && ns[0] == a && ns[2] == c && ns[3] == d && ns[4..] == tail + after
  {}

  lemma ParseFour(ns: seq<nat>, rs: seq<Range>, tail: seq<nat>)
    requires rs != [] && |ns| >= 4 && ns[4..] == tail
    requires rs[0].smallest <= rs[0].largest < TWO31
    requires ns[0] == rs[0].largest && ns[3] == rs[0].largest - rs[0].smallest
    requires More(tail, ns[2], rs[0].smallest) == Tail(rs[1..], true)
    ensures Parse(ns) == Frame(Some(rs[0].largest), rs, true)
  {
    assert [rs[0]] + rs[1..] == rs;
  }

  function AckBytes(rs: seq<Range>, delay: nat): Str
    requires rs != [] && Descending(rs) && |rs| < TWO31 && delay < TWO62
  { EncAll(AckNumbers(rs, delay)) }

  /** A well-formed ACK frame on the sent queue of a run: it leaves exactly the packets outside its
      ranges, or faults, under the exact condition of the scan. */
  lemma AckProcessing(q: seq<QBuff>, bound: nat, rs: seq<Range>, delay: nat, rest: Str)
    requires SentSorted(q, bound) && bound < TWO31
    requires rs != [] && Descending(rs) && |rs| < TWO31 && delay < TWO62
    ensures var s := AckBytes(rs, delay) + rest;
            var f := Parse(Numbers(s)); var r := Calls(q, f.ranges, -1, []);
            && f.ok && Drop(s, 2 + 2 * |rs|) == rest
            && (r.fault <==> |rs| > 1 && q != [] && q[0].pktNum < rs[0].smallest)
            && (!r.fault ==> r.keep == Unacked(q, rs) && SentSorted(r.keep, bound))
  {
    NumbersBack(AckNumbers(rs, delay), rest);
    ParseBack(rs, delay, Numbers(rest));
    CallsExact(q, bound, rs, []);
    UnackedSorted(q, bound, rs);
  }

  /** The sent queue and the largest acknowledged number of one packet number space. */
  class Acks {
    var sent: seq<QBuff>
    var largestAcked: nat

    constructor (q: seq<QBuff>, largest: nat)
      ensures sent == q && largestAcked == largest
    { sent, largestAcked := q, largest; }

    /** QBufAckSentPkt from a NULL start. `acked` are the buffers whose stream flags are processed,
        in that order. */
    method AckSentPkt(r: Range) returns (hit: int, acked: seq<QBuff>)
      modifies this`sent
      ensures Cut(sent, acked, hit) == Scan(old(sent), r)
    {
      var i := |sent|;
      ghost var q, kept := sent, [];
      acked, hit := [], -1;
      Ends(q, Scan(q, r));
      while i > 0 && hit == -1
        invariant 0 <= i <= |q|
        invariant if hit == -1 then
                    var c := Scan(q[..i], r);
                    sent == q[..i] + kept && Scan(q, r) == Cut(c.keep + kept, acked + c.acked, c.hit)
                  else Scan(q, r) == Cut(sent, acked, hit)
        decreases i
      {
        i := i - 1;
        ScanAt(q, i, r);
        var qb := sent[i];
        if QuicGt(qb.pktNum, r.largest) {
          kept := KeepOne(q, i, kept, Scan(q[..i], r).keep);
        } else if QuicGt(r.smallest, qb.pktNum) {
          hit := i;
          assert acked + [] == acked;
        } else {
          FreeOne(q, i, kept);
          Assoc3(acked, [qb], Scan(q[..i], r).acked);
          acked := acked + [qb];
          sent := sent[..i] + sent[i + 1..];
        }
      }
    }

    /** QuicFrameAckParser. After a fault nothing more is said. */
    method AckParser(pkt: RPacket) returns (ok: bool, fault: bool, acked: seq<QBuff>)
      requires pkt.Valid()
      modifies this, pkt
      ensures pkt.Valid()
      ensures var f := Parse(Numbers(old(pkt.Rest())));
              && Outcome(sent, acked, fault) == Calls(old(sent), f.ranges, -1, [])
              && (!fault ==> ok == f.ok)
              && (ok && !fault ==> pkt.Rest() == Drop(old(pkt.Rest()), Used(f)))
              && largestAcked == NewLargest(old(largestAcked), f.largest)
    {
      var largest, count, first;
      acked, fault := [], false;
      LargestIsFirst(Numbers(pkt.Rest()));
      ok, largest, count, first := ParseHead(pkt);
      if !ok { return; }
      var smallest := Start(largest, first);
      if smallest.None? {
        ok := false;
        return;
      }
      ghost var ns := Numbers(old(pkt.Rest()));
      if Parse(ns).ok {
        UsedIs(ns);
        DropAdd(old(pkt.Rest()), 4, 2 * count, Used(Parse(ns)));
      }
      ok, fault, acked := ParseRanges(pkt, Range(smallest.value, largest), count);
    }

    /** The four numbers every ACK frame has. */
    method ParseHead(pkt: RPacket) returns (ok: bool, largest: nat, count: nat, first: nat)
      requires pkt.Valid()
      modifies this`largestAcked, pkt
      ensures pkt.Valid()
      ensures largestAcked == NewLargest(old(largestAcked), FirstOf(Numbers(old(pkt.Rest()))))
      ensures ok <==> |Numbers(old(pkt.Rest()))| >= 4
      ensures ok ==> var ns := Numbers(old(pkt.Rest()));
                     largest == ns[0] && count == ns[2] && first == ns[3] && Numbers(pkt.Rest()) == ns[4..]
      ensures ok ==> pkt.Rest() == Drop(old(pkt.Rest()), 4)
    {
      ghost var s0, ns := pkt.Rest(), Numbers(pkt.Rest());
      count, first := 0, 0;
      ok, largest := ReadNumber(pkt);
      if ok {
        if QuicGe(largest, largestAcked) { largestAcked := largest; }
        DropAdd(s0, 1, 3, 4);
        ok, count, first := ParseCounts(pkt);
        Slices(ns);
      }
    }

    /** The delay, the number of ranges and the first range. */
    method ParseCounts(pkt: RPacket) returns (ok: bool, count: nat, first: nat)
      requires pkt.Valid()
      modifies pkt
      ensures pkt.Valid()
      ensures ok <==> |Numbers(old(pkt.Rest()))| >= 3
      ensures ok ==> var ns := Numbers(old(pkt.Rest()));
                     count == ns[1] && first == ns[2] && Numbers(pkt.Rest()) == ns[3..]
      ensures ok ==> pkt.Rest() == Drop(old(pkt.Rest()), 3)
    {
      ghost var s0, ns := pkt.Rest(), Numbers(pkt.Rest());
      var delay;
      count, first := 0, 0;
      ok, delay := ReadNumber(pkt);
      if ok {
        DropAdd(s0, 1, 2, 3);
        ok, count, first := ReadTwo(pkt);
        Slices(ns);
      }
    }

    /** The scans, for the first range and then for `count` more that are still to be read. */
    method ParseRanges(pkt: RPacket, r: Range, count: nat) returns (ok: bool, fault: bool, acked: seq<QBuff>)
      requires pkt.Valid()
      modifies this`sent, pkt
      ensures pkt.Valid()
      ensures var m := More(Numbers(old(pkt.Rest())), count, r.smallest);
              && Outcome(sent, acked, fault) == Calls(old(sent), [r] + m.ranges, -1, [])
              && (!fault ==> ok == m.ok) && (ok && !fault ==> pkt.Rest() == Drop(old(pkt.Rest()), 2 * count))
    {
      var start;
      ghost var s0, m := pkt.Rest(), More(Numbers(pkt.Rest()), count, r.smallest);
      ghost var all, okAll := Calls(sent, [r] + m.ranges, -1, []), m.ok;
      CallsCons(sent, r, m.ranges, -1, []);
      start, acked := AckSentPkt(r);
      assert [] + acked == acked;
      var i, smallest := 0, r.smallest;
      ghost var left := count;
      ok, fault := true, false;
      while i < count
        invariant pkt.Valid() && i + left == count && ok && !fault
        invariant m == More(Numbers(pkt.Rest()), left, smallest)
        invariant all == Calls(sent, m.ranges, start, acked) && okAll == m.ok
        invariant Drop(s0, 2 * count) == Drop(pkt.Rest(), 2 * left)
      {
        var next;
        ok, next, m, left := ParseRange(pkt, smallest, left, m);
        if !ok { break; }
        CallsCons(sent, next, m.ranges, start, acked);
        if start != -1 {
          fault := true;
          break;
        }
        var more;
        start, more := AckSentPkt(next);
        acked, smallest, i := acked + more, next.smallest, i + 1;
      }
    }

    /** One turn of the loop, in terms of what is still to be read. */
    method ParseRange(pkt: RPacket, smallest: nat, ghost count: nat, ghost m: Tail)
      returns (ok: bool, r: Range, ghost rest: Tail, ghost left: nat)
      requires pkt.Valid() && count > 0 && m == More(Numbers(pkt.Rest()), count, smallest)
      modifies pkt
      ensures pkt.Valid() && left == count - 1
      ensures !ok ==> m == Tail([], false) && rest == m
      ensures ok ==> m == Tail([r] + rest.ranges, rest.ok)
      ensures ok ==> rest == More(Numbers(pkt.Rest()), left, r.smallest)
      ensures ok ==> Drop(old(pkt.Rest()), 2 * count) == Drop(pkt.Rest(), 2 * left)
    {
      rest, left := m, count - 1;
      MoreStep(Numbers(pkt.Rest()), count, smallest);
      ok, r := ReadRange(pkt, smallest);
      if ok {
        rest := More(Numbers(pkt.Rest()), left, r.smallest);
        DropAdd(old(pkt.Rest()), 2, 2 * left, 2 * count);
      }
    }

    method ReadRange(pkt: RPacket, smallest: nat) returns (ok: bool, r: Range)
      requires pkt.Valid()
      modifies pkt
      ensures pkt.Valid()
      ensures var n := NextRange(Numbers(old(pkt.Rest())), smallest); ok == n.Some? && (ok ==> r == n.value)
      ensures ok ==> Numbers(pkt.Rest()) == Numbers(old(pkt.Rest()))[2..]
      ensures ok ==> pkt.Rest() == Drop(old(pkt.Rest()), 2)
    {
      var gap, len;
      r := Range(0, 0);
      ok, gap, len := ReadTwo(pkt);
      if ok {
        var hi := Start(smallest, gap + 2);
        var lo := if hi.None? then None else Start(hi.value, len);
        ok := lo.Some?;
        if ok { r := Range(lo.value, hi.value); }
      }
    }
  }

  /** The largest acknowledged number follows the frame even if the frame is refused later on. */
  function NewLargest(was: nat, la: Option<nat>): nat {
    if la.Some? && QuicGe(la.value, was) then la.value else was
  }

  /** It never falls while it moves by less than 2^31. */
  lemma LargestAckedGrows(was: nat, f: Frame)
    requires f.largest.Some? ==> -TWO31 <= f.largest.value - was < TWO31
    ensures NewLargest(was, f.largest) == if f.largest.Some? then Max(f.largest.value, was) else was
  {}

  /** An endpoint that answers with QuicFrameAckGen, whose first range is never set, acknowledges
      only the largest packet it has seen, and only that one leaves the peer's queue. */
  lemma OwnAcks(q: seq<QBuff>, bound: nat, largestPn: nat, delay: nat)
    requires SentSorted(q, bound) && bound < TWO31 && largestPn < TWO31 && delay < TWO62
    ensures var f := Parse(Numbers(AckBytes([Range(largestPn, largestPn)], delay)));
            var r := Calls(q, f.ranges, -1, []);
            && f.ok && !r.fault && SentSorted(r.keep, bound)
            && forall b :: b in r.keep <==> b in q && b.pktNum != largestPn
  {
    var rs := [Range(largestPn, largestPn)];
    assert rs[1..] == [];
    AckProcessing(q, bound, rs, delay, []);
    assert AckBytes(rs, delay) + [] == AckBytes(rs, delay);
    UnackedSorted(q, bound, rs);
    CallsExact(q, bound, rs, []);
    NumbersBack(AckNumbers(rs, delay), []);
    ParseBack(rs, delay, Numbers([]));
    AckedOne(rs[0]);
  }
}
