/** The queues of an endpoint over whole runs of queueing, writing and acknowledgements. */
module SentRuns {
  import opened Common
  import opened Bytes
  import opened Datagram
  import opened Queues
  import opened SendQueue
  import opened AckRanges
  import A = Ack

  /** The queues, what was acknowledged in each space, and the largest number an ACK frame named there. */
  datatype State = State(spaces: Spaces, tx: seq<QBuff>, acked: map<Space, seq<nat>>, largest: map<Space, nat>)

  /** Queue a buffer; one call of QuicWritePkt, whose datagram the socket may or may not take; an ACK frame
      with any ranges; the keys of a space. */
  datatype Event =
    | Enqueue(q: QBuff)
    | Write(blockedAt: nat, notice: seq<QBuff>, taken: bool)
    | AckFrame(sp: Space, frame: A.Frame)
    | Keys(sp: Space)

  function AckedIn(s: State, sp: Space): seq<nat> { if sp in s.acked then s.acked[sp] else [] }

  /** largest_acked of QUIC_CRYPTO */
  function LargestIn(s: State, sp: Space): nat { if sp in s.largest then s.largest[sp] else 0 }

  /** The call of QuicWritePkt that an event makes. */
  function CallOf(f: Conf, s: State, e: Event): Call
    requires e.Write?
  { WriteCall(f, s.spaces, s.tx, e.blockedAt, e.notice) }

  function Step(f: Conf, s: State, e: Event): State {
    match e
    case Enqueue(q) => s.(tx := s.tx + [q])
    case Write(_, _, _) => s.(spaces := CallOf(f, s, e).spaces, tx := CallOf(f, s, e).tx)
    case AckFrame(sp, frame) =>
      var r := Calls(s.spaces.Get(sp).sent, frame.ranges, -1, []);
      Pruned(s.(largest := s.largest[sp := A.NewLargest(LargestIn(s, sp), frame.largest)]), sp, r.keep, r.acked)
    case Keys(sp) => s.(spaces := s.spaces.Put(sp, s.spaces.Get(sp).(ready := true)))
  }

  function After(f: Conf, s: State, es: seq<Event>): State
    decreases |es|
  {
    if es == [] then s else After(f, Step(f, s, es[0]), es[1..])
  }

  /** The buffers an event queues in a space, notices included. */
  function Queued(f: Conf, s: State, e: Event, sp: Space): seq<nat> {
    match e
    case Enqueue(q) => Of(sp, [q])
    case Write(_, notice, _) => Of(sp, Added(CallOf(f, s, e), notice))
    case AckFrame(_, _) => []
    case Keys(_) => []
  }

  /** How often a buffer stands in a list. */
  function Tally(q: seq<nat>, id: nat): nat {
    if q == [] then 0 else (if q[0] == id then 1 else 0) + Tally(q[1..], id)
  }

  /** In how many places of a space a buffer is: sent, waiting, acknowledged. */
  function Places(s: State, sp: Space, id: nat): nat {
    Tally(Line(s.spaces, s.tx, sp), id) + Tally(AckedIn(s, sp), id)
  }

  lemma {:induction false} TallyAppend(a: seq<nat>, b: seq<nat>, id: nat)
    ensures Tally(a + b, id) == Tally(a, id) + Tally(b, id)
  {
    if a == [] {
      assert a + b == b;
    } else {
      assert (a + b)[1..] == a[1..] + b;
      TallyAppend(a[1..], b, id);
    }
  }

  lemma {:induction false} IdsAppend(a: seq<QBuff>, b: seq<QBuff>)
    ensures Ids(a + b) == Ids(a) + Ids(b)
    decreases |b|
  {
    if b == [] {
      assert a + b == a;
    } else {
      var n := |b| - 1;
      IdsAppend(a, b[..n]);
      assert (a + b)[..|a + b| - 1] == a + b[..n];
    }
  }

  /** Whatever the range, a scan keeps a sorted queue sorted and loses no packet. */
  lemma {:induction false} ScanSorted(q: seq<QBuff>, bound: nat, r: Range)
    requires SentSorted(q, bound)
    ensures var c := Scan(q, r); SentSorted(c.keep, bound) && forall b :: b in c.keep ==> b in q
    decreases |q|
  {
    if q != [] {
      var n := |q| - 1;
      assert SentSorted(q[..n], bound);
      ScanSorted(q[..n], bound, r);
      if QuicGt(q[n].pktNum, r.largest) { KeepLast(q, bound, Scan(q[..n], r).keep); }
    }
  }

  lemma {:induction false} ScanIds(q: seq<QBuff>, r: Range, id: nat)
    ensures Tally(Ids(q), id) == Tally(Ids(Scan(q, r).keep), id) + Tally(Ids(Scan(q, r).acked), id)
    decreases |q|
  {
    if q != [] {
      var n := |q| - 1;
      var c := Scan(q[..n], r);
      ScanIds(q[..n], r, id);
      LastIds(q[..n], q[n], id);
      assert q == q[..n] + [q[n]];
      if QuicGt(q[n].pktNum, r.largest) {
        LastIds(c.keep, q[n], id);
      } else if !QuicGt(r.smallest, q[n].pktNum) {
        FirstIds(q[n], c.acked, id);
      }
    }
  }

  lemma LastIds(q: seq<QBuff>, b: QBuff, id: nat)
    ensures Tally(Ids(q + [b]), id) == Tally(Ids(q), id) + if b.id == id then 1 else 0
  {
    assert (q + [b])[..|q|] == q;
    TallyAppend(Ids(q), [b.id], id);
  }

  lemma FirstIds(b: QBuff, q: seq<QBuff>, id: nat)
    ensures Tally(Ids([b] + q), id) == Tally(Ids(q), id) + if b.id == id then 1 else 0
  {
    IdsAppend([b], q);
    assert [b][..0] == [] && Ids([b]) == [b.id];
    TallyAppend([b.id], Ids(q), id);
  }

  lemma KeepLast(q: seq<QBuff>, bound: nat, keep: seq<QBuff>)
    requires SentSorted(q, bound) && q != [] && SentSorted(keep, bound)
    requires forall b :: b in keep ==> b in q[..|q| - 1]
    ensures SentSorted(keep + [q[|q| - 1]], bound)
  {
    var n := |q| - 1;
    forall i | 0 <= i < |keep| ensures keep[i].pktNum < q[n].pktNum {
      assert keep[i] in keep;
      var k :| 0 <= k < n && q[..n][k] == keep[i];
      assert q[k].pktNum < q[n].pktNum;
    }
  }

  lemma {:induction false} CallsSafe(q: seq<QBuff>, bound: nat, rs: seq<Range>, start: int, acked: seq<QBuff>, id: nat)
    requires SentSorted(q, bound)
    ensures var r := Calls(q, rs, start, acked);
            && SentSorted(r.keep, bound)
            && Tally(Ids(q), id) + Tally(Ids(acked), id) == Tally(Ids(r.keep), id) + Tally(Ids(r.acked), id)
    decreases |rs|
  {
    if rs != [] && start == -1 {
      var c := Scan(q, rs[0]);
      ScanSorted(q, bound, rs[0]);
      ScanIds(q, rs[0], id);
      CallsSafe(c.keep, bound, rs[1..], c.hit, acked + c.acked, id);
      IdsAppend(acked, c.acked);
      TallyAppend(Ids(acked), Ids(c.acked), id);
    }
  }

  /** What an acknowledgement does to the queues, whichever packets it takes. */
  function Pruned(s: State, sp: Space, keep: seq<QBuff>, acked: seq<QBuff>): State {
    s.(spaces := s.spaces.Put(sp, s.spaces.Get(sp).(sent := keep)), acked := s.acked[sp := AckedIn(s, sp) + Ids(acked)])
  }

  lemma PrunedOrdered(s: State, sp: Space, keep: seq<QBuff>, acked: seq<QBuff>)
    requires Ordered(s.spaces) && SentSorted(keep, s.spaces.Get(sp).pktNum)
    ensures Ordered(Pruned(s, sp, keep, acked).spaces)
  {
    var t := Pruned(s, sp, keep, acked);
    forall x ensures SentSorted(t.spaces.Get(x).sent, t.spaces.Get(x).pktNum) {
      assert SentSorted(s.spaces.Get(x).sent, s.spaces.Get(x).pktNum);
    }
  }

  lemma PrunedPlaces(s: State, sp: Space, keep: seq<QBuff>, acked: seq<QBuff>, other: Space, id: nat)
    requires Tally(Ids(s.spaces.Get(sp).sent), id) == Tally(Ids(keep), id) + Tally(Ids(acked), id)
    ensures Places(Pruned(s, sp, keep, acked), other, id) == Places(s, other, id)
  {
    if other == sp {
      TallyAppend(Ids(s.spaces.Get(sp).sent), Of(sp, s.tx), id);
      TallyAppend(Ids(keep), Of(sp, s.tx), id);
      TallyAppend(AckedIn(s, sp), Ids(acked), id);
    }
  }

  lemma AckOrdered(f: Conf, s: State, e: Event)
    requires Ordered(s.spaces) && e.AckFrame?
    ensures Ordered(Step(f, s, e).spaces)
  {
    var c := s.spaces.Get(e.sp);
    assert SentSorted(c.sent, c.pktNum);
    CallsSafe(c.sent, c.pktNum, e.frame.ranges, -1, [], 0);
    var r := Calls(c.sent, e.frame.ranges, -1, []);
    PrunedOrdered(s, e.sp, r.keep, r.acked);
  }

  lemma AckPlaces(f: Conf, s: State, e: Event, other: Space, id: nat)
    requires Ordered(s.spaces) && e.AckFrame?
    ensures Places(Step(f, s, e), other, id) == Places(s, other, id)
  {
    var c := s.spaces.Get(e.sp);
    assert SentSorted(c.sent, c.pktNum);
    CallsSafe(c.sent, c.pktNum, e.frame.ranges, -1, [], id);
    var r := Calls(c.sent, e.frame.ranges, -1, []);
    PrunedPlaces(s, e.sp, r.keep, r.acked, other, id);
  }

  lemma LineAppend(st: Spaces, tx: seq<QBuff>, more: seq<QBuff>, sp: Space)
    ensures Line(st, tx + more, sp) == Line(st, tx, sp) + Of(sp, more)
  {
    OfAppend(sp, tx, more);
    Assoc3(Ids(st.Get(sp).sent), Of(sp, tx), Of(sp, more));
  }

  lemma StepOrdered(f: Conf, s: State, e: Event)
    requires Ordered(s.spaces)
    ensures Ordered(Step(f, s, e).spaces)
  {
    match e {
      case Enqueue(_) =>
      case Write(blockedAt, notice, _) => CallKeeps(f, s.spaces, s.tx, blockedAt, notice);
      case AckFrame(_, _) => AckOrdered(f, s, e);
      case Keys(x) => KeysOrdered(f, s, x);
    }
  }

  lemma KeysOrdered(f: Conf, s: State, x: Space)
    requires Ordered(s.spaces)
    ensures Ordered(Step(f, s, Keys(x)).spaces)
  {
    var t := Step(f, s, Keys(x));
    forall sp ensures SentSorted(t.spaces.Get(sp).sent, t.spaces.Get(sp).pktNum) {
      assert SentSorted(s.spaces.Get(sp).sent, s.spaces.Get(sp).pktNum);
    }
  }

  lemma EnqueuePlaces(f: Conf, s: State, q: QBuff, sp: Space, id: nat)
    ensures Places(Step(f, s, Enqueue(q)), sp, id) == Places(s, sp, id) + Tally(Of(sp, [q]), id)
  {
    LineAppend(s.spaces, s.tx, [q], sp);
    TallyAppend(Line(s.spaces, s.tx, sp), Of(sp, [q]), id);
  }

  lemma KeysPlaces(f: Conf, s: State, x: Space, sp: Space, id: nat)
    ensures Places(Step(f, s, Keys(x)), sp, id) == Places(s, sp, id)
  {}

  lemma WritePlaces(f: Conf, s: State, e: Event, sp: Space, id: nat)
    requires Ordered(s.spaces) && e.Write?
    ensures Places(Step(f, s, e), sp, id) == Places(s, sp, id) + Tally(Queued(f, s, e, sp), id)
  {
    CallKeeps(f, s.spaces, s.tx, e.blockedAt, e.notice);
    TallyAppend(Line(s.spaces, s.tx, sp), Of(sp, Added(CallOf(f, s, e), e.notice)), id);
  }

  lemma StepPlaces(f: Conf, s: State, e: Event, sp: Space, id: nat)
    requires Ordered(s.spaces)
    ensures Places(Step(f, s, e), sp, id) == Places(s, sp, id) + Tally(Queued(f, s, e, sp), id)
  {
    match e {
      case Enqueue(q) => EnqueuePlaces(f, s, q, sp, id);
      case Write(_, _, _) => WritePlaces(f, s, e, sp, id);
      case AckFrame(_, _) => AckPlaces(f, s, e, sp, id);
      case Keys(x) => KeysPlaces(f, s, x, sp, id);
    }
  }

  function AllQueued(f: Conf, s: State, es: seq<Event>, sp: Space): seq<nat>
    decreases |es|
  {
    if es == [] then [] else Queued(f, s, es[0], sp) + AllQueued(f, Step(f, s, es[0]), es[1..], sp)
  }

  /** In every run the sent queues are strictly increasing and bounded, and a buffer is in as many
      places as it was queued: with distinct buffers, in exactly one. */
  lemma {:induction false} RunSafe(f: Conf, s: State, es: seq<Event>, sp: Space, id: nat)
    requires Ordered(s.spaces)
    ensures Ordered(After(f, s, es).spaces)
    ensures Places(After(f, s, es), sp, id) == Places(s, sp, id) + Tally(AllQueued(f, s, es, sp), id)
    decreases |es|
  {
    if es != [] {
      StepOrdered(f, s, es[0]);
      StepPlaces(f, s, es[0], sp, id);
      RunSafe(f, Step(f, s, es[0]), es[1..], sp, id);
      TallyAppend(Queued(f, s, es[0], sp), AllQueued(f, Step(f, s, es[0]), es[1..], sp), id);
    }
  }

  /** An ACK frame with disjoint descending ranges takes exactly the packets they cover out of the sent
      queue of its space, unless it faults, and leaves the rest of the state alone. */
  lemma AckTakes(f: Conf, s: State, e: Event)
    requires Ordered(s.spaces) && e.AckFrame? && Descending(e.frame.ranges) && s.spaces.Get(e.sp).pktNum < TWO31
    ensures var q, t := s.spaces.Get(e.sp).sent, Step(f, s, e);
            && t.tx == s.tx && t.spaces == s.spaces.Put(e.sp, s.spaces.Get(e.sp).(sent := t.spaces.Get(e.sp).sent))
            && (|e.frame.ranges| <= 1 || q == [] || q[0].pktNum >= e.frame.ranges[0].smallest ==>
                  t.spaces.Get(e.sp).sent == Unacked(q, e.frame.ranges))
  {
    var c := s.spaces.Get(e.sp);
    assert SentSorted(c.sent, c.pktNum);
    CallsExact(c.sent, c.pktNum, e.frame.ranges, []);
  }

  /** All three spaces get their keys. */
  function WithKeys(f: Conf, s: State): State {
    Step(f, Step(f, Step(f, s, Keys(Initial)), Keys(Handshake)), Keys(App))
  }

  /** Once the keys are there, a queue of buffers that are long enough is never stuck: a call that flow control
      does not stop sends a datagram. */
  lemma KeysUnblock(f: Conf, s: State)
    requires f.Valid() && s.tx != [] && forall q :: q in s.tx ==> |q.data| + f.s.pnLen >= 4
    ensures var t := WithKeys(f, s);
            var c := WriteCall(f, t.spaces, t.tx, |t.tx|, []);
            t.tx == s.tx && c.end.Complete? && c.moved > 0
  {
    var t := WithKeys(f, s);
    var plan := Plan(f, t.spaces, t.tx, 0);
    forall i | 0 <= i < |plan| ensures Passes(f, t.spaces, plan[i]) {
      PlanEntry(f, t.spaces, t.tx, i);
      PlanData(f, t.spaces, t.tx, i);
      assert t.tx[i] in s.tx;
      AllReady(f, s, plan[i].space);
    }
    CompleteIff(f, t.spaces, t.tx, |t.tx|, []);
  }

  lemma AllReady(f: Conf, s: State, sp: Space)
    ensures WithKeys(f, s).spaces.Get(sp).ready
  {}

  // ---------------------------------------------------------------- what gets to the wire

  /** The buffers that an event moves to the sent queues. */
  function MovedBy(f: Conf, s: State, e: Event): seq<QBuff> {
    if e.Write? then Plan(f, s.spaces, s.tx, 0)[..CallOf(f, s, e).moved] else []
  }

  /** Those whose datagram the socket takes. */
  function WiredBy(f: Conf, s: State, e: Event): seq<QBuff> {
    if e.Write? && CallOf(f, s, e).end.Complete? && e.taken then MovedBy(f, s, e) else []
  }

  function Moved(f: Conf, s: State, es: seq<Event>): seq<QBuff>
    decreases |es|
  {
    if es == [] then [] else MovedBy(f, s, es[0]) + Moved(f, Step(f, s, es[0]), es[1..])
  }

  function Wired(f: Conf, s: State, es: seq<Event>): seq<QBuff>
    decreases |es|
  {
    if es == [] then [] else WiredBy(f, s, es[0]) + Wired(f, Step(f, s, es[0]), es[1..])
  }

  /** Every call that failed, or whose datagram was not taken, had moved nothing. */
  predicate NoneStranded(f: Conf, s: State, es: seq<Event>)
    decreases |es|
  {
    es == [] || ((MovedBy(f, s, es[0]) == [] || WiredBy(f, s, es[0]) == MovedBy(f, s, es[0]))
                 && NoneStranded(f, Step(f, s, es[0]), es[1..]))
  }

  lemma {:induction false} WiredShorter(f: Conf, s: State, es: seq<Event>)
    ensures |Wired(f, s, es)| <= |Moved(f, s, es)|
    ensures |Wired(f, s, es)| == |Moved(f, s, es)| ==> NoneStranded(f, s, es)
    decreases |es|
  {
    if es != [] { WiredShorter(f, Step(f, s, es[0]), es[1..]); }
  }

  /** In every run the buffers that were moved are those that got to the wire exactly if every failing
      call had moved none. */
  lemma {:induction false} WiredIff(f: Conf, s: State, es: seq<Event>)
    ensures Moved(f, s, es) == Wired(f, s, es) <==> NoneStranded(f, s, es)
    decreases |es|
  {
    WiredShorter(f, s, es);
    if es != [] { WiredIff(f, Step(f, s, es[0]), es[1..]); }
  }

  lemma StrandedCall(f: Conf, st: Spaces, a: QBuff, b: QBuff)
    requires f.Valid() && Good(f, a) && Good(f, b) && a.space == Initial && b.space == Handshake
    requires st.initial.ready && !st.handshake.ready && |a.data| >= 4 && Costs(f)(a) + Costs(f)(b) <= f.mss
    ensures var c := WriteCall(f, st, [a, b], 2, []);
            c.end.Failed? && c.moved == 1 <= |Plan(f, st, [a, b], 0)| && c.tx[0].id == b.id
  {
    var p := a.(data := a.data + Zeros(0), pktNum := st.initial.pktNum + 1);
    PlanTurn(f, st, [a, b], 0);
    PlanTurn(f, Move(st, p), [b], Costs(f)(a));
    var plan := Plan(f, st, [a, b], 0);
    assert plan[0] == p && plan[1].space == Handshake && plan[1..][0] == plan[1];
    assert Moves(f, st, plan[1..], 1) == 0;
  }

  /** Two buffers share a datagram and the keys of the second are missing: the first is moved and never
      gets to the wire. */
  lemma StrandedCounterexample(f: Conf, s: State, a: QBuff, b: QBuff)
    requires f.Valid() && Good(f, a) && Good(f, b) && a.space == Initial && b.space == Handshake
    requires s.spaces.initial.ready && !s.spaces.handshake.ready && s.tx == [a, b]
    requires |a.data| >= 4 && Costs(f)(a) + Costs(f)(b) <= f.mss
    ensures var e := Write(2, [], true);
            |Moved(f, s, [e])| == 1 && Wired(f, s, [e]) == [] && Step(f, s, e).tx[0].id == b.id
  {
    StrandedCall(f, s.spaces, a, b);
  }

  ghost predicate GoodEvents(f: Conf, es: seq<Event>) {
    es == [] || ((es[0].Enqueue? ==> Good(f, es[0].q)) && (es[0].Write? ==> AllGood(f, es[0].notice))
                 && GoodEvents(f, es[1..]))
  }

  lemma StepGood(f: Conf, s: State, e: Event)
    requires f.Valid() && AllGood(f, s.tx) && GoodEvents(f, [e])
    ensures AllGood(f, Step(f, s, e).tx)
  {
    if e.Write? { CallGood(f, s.spaces, s.tx, e.blockedAt, e.notice); }
  }

  /** The datagrams the socket takes. */
  ghost function DatagramsBy(f: Conf, s: State, e: Event): seq<Str>
    requires f.Valid() && AllGood(f, s.tx)
  {
    if e.Write? && s.tx != [] && CallOf(f, s, e).end.Complete? && e.taken then
      CompleteCall(f, s.spaces, s.tx, e.blockedAt, e.notice);
      [Wire(f, Plan(f, s.spaces, s.tx, 0))]
    else []
  }

  ghost function Datagrams(f: Conf, s: State, es: seq<Event>): seq<Str>
    requires f.Valid() && AllGood(f, s.tx) && GoodEvents(f, es)
    decreases |es|
  {
    if es == [] then []
    else
      StepGood(f, s, es[0]);
      DatagramsBy(f, s, es[0]) + Datagrams(f, Step(f, s, es[0]), es[1..])
  }

  lemma {:induction false} GotAppend(c: Codec, r: Receiver, a: seq<Str>, b: seq<Str>)
    requires r.Valid()
    ensures Got(c, r, a + b) == Got(c, r, a) + Got(c, r, b)
  {
    if a == [] {
      assert a + b == b;
    } else {
      assert (a + b)[1..] == a[1..] + b;
      GotAppend(c, r, a[1..], b);
      Assoc3(OpenAll(c, r, a[0]).packets, Got(c, r, a[1..]), Got(c, r, b));
    }
  }

  lemma {:induction false} PayloadsAppend(a: seq<QBuff>, b: seq<QBuff>)
    ensures Payloads(PacketsOf(a + b)) == Payloads(PacketsOf(a)) + Payloads(PacketsOf(b))
  {
    if a == [] {
      assert a + b == b;
    } else {
      assert (a + b)[1..] == a[1..] + b;
      PayloadsAppend(a[1..], b);
      assert PacketsOf(a + b)[1..] == PacketsOf(a[1..] + b) && PacketsOf(a)[1..] == PacketsOf(a[1..]);
    }
  }

  lemma WriteReceived(f: Conf, s: State, e: Event, r: Receiver)
    requires f.Valid() && AllGood(f, s.tx) && Matched(f.s, r)
    ensures Got(f.c, r, DatagramsBy(f, s, e)) == Payloads(PacketsOf(WiredBy(f, s, e)))
    ensures forall d :: d in DatagramsBy(f, s, e) ==> |d| <= f.mss
  {
    if e.Write? && CallOf(f, s, e).end.Complete? {
      var plan := Plan(f, s.spaces, s.tx, 0);
      CompleteCall(f, s.spaces, s.tx, e.blockedAt, e.notice);
      assert MovedBy(f, s, e) == plan;
      if s.tx != [] { OneReceived(f, s.spaces, s.tx, r, plan); }
    }
  }

  lemma OneReceived(f: Conf, st: Spaces, tx: seq<QBuff>, r: Receiver, plan: seq<QBuff>)
    requires f.Valid() && AllGood(f, tx) && tx != [] && Matched(f.s, r)
    requires plan == Plan(f, st, tx, 0) && AllSealable(f, plan)
    ensures Got(f.c, r, [Wire(f, plan)]) == Payloads(PacketsOf(plan)) && |Wire(f, plan)| <= f.mss
  {
    DatagramFits(f, st, tx);
    SentIsReceived(f, st, tx, r);
    var d := Wire(f, plan);
    var none: seq<Str> := [];
    assert [d][1..] == none;
    Append0(OpenAll(f.c, r, d).packets);
  }

  /** In every run, whatever fails in it, what the peer opens is exactly what got to the wire, in order. */
  lemma {:induction false} WiredIsReceived(f: Conf, s: State, es: seq<Event>, r: Receiver)
    requires f.Valid() && AllGood(f, s.tx) && GoodEvents(f, es) && Matched(f.s, r)
    ensures Got(f.c, r, Datagrams(f, s, es)) == Payloads(PacketsOf(Wired(f, s, es)))
    ensures forall d :: d in Datagrams(f, s, es) ==> |d| <= f.mss
    decreases |es|
  {
    if es != [] {
      StepGood(f, s, es[0]);
      var t := Step(f, s, es[0]);
      WriteReceived(f, s, es[0], r);
      WiredIsReceived(f, t, es[1..], r);
      GotAppend(f.c, r, DatagramsBy(f, s, es[0]), Datagrams(f, t, es[1..]));
      PayloadsAppend(WiredBy(f, s, es[0]), Wired(f, t, es[1..]));
    }
  }

  // ---------------------------------------------------------------- a queue that is jammed

  lemma JammedStep(f: Conf, s: State, e: Event)
    requires Jammed(f, s.tx)
    ensures var t := Step(f, s, e); Jammed(f, t.tx) && t.tx[0].id == s.tx[0].id && MovedBy(f, s, e) == []
  {
    match e {
      case Enqueue(q) => JammedLonger(f, s.tx, [q]);
      case Write(blockedAt, notice, _) => JammedFails(f, s.spaces, s.tx, blockedAt, notice);
      case AckFrame(_, _) =>
      case Keys(_) =>
    }
  }

  /** A queue headed by a packet that is too short for a sample is stuck for good: in every run no call
      moves anything, and the same buffer stays in front. */
  lemma {:induction false} JammedForever(f: Conf, s: State, es: seq<Event>)
    requires Jammed(f, s.tx)
    ensures var t := After(f, s, es); Jammed(f, t.tx) && t.tx[0].id == s.tx[0].id && Moved(f, s, es) == []
    decreases |es|
  {
    if es != [] {
      JammedStep(f, s, es[0]);
      JammedForever(f, Step(f, s, es[0]), es[1..]);
    }
  }

  // ---------------------------------------------------------------- the assertion on packet numbers

  /** The assertion of QuicPktNumberEncode that the next build in a space meets. */
  predicate NextAsserts(s: State, sp: Space) {
    LargestIn(s, sp) == 0 || QuicGe(s.spaces.Get(sp).pktNum + 1, LargestIn(s, sp))
  }

  predicate AssertsHold(f: Conf, s: State, es: seq<Event>)
    decreases |es|
  {
    NextAsserts(s, Initial) && NextAsserts(s, Handshake) && NextAsserts(s, App)
    && (es == [] || AssertsHold(f, Step(f, s, es[0]), es[1..]))
  }

  /** An ACK frame names no number beyond the one that is used next. */
  predicate NamesUsed(s: State, e: Event) {
    e.AckFrame? && e.frame.largest.Some? ==> e.frame.largest.value <= s.spaces.Get(e.sp).pktNum + 1
  }

  predicate AllNamesUsed(f: Conf, s: State, es: seq<Event>)
    decreases |es|
  {
    es == [] || (NamesUsed(s, es[0]) && AllNamesUsed(f, Step(f, s, es[0]), es[1..]))
  }

  /** Numbers stay where the macros are exact. */
  predicate Small(s: State, sp: Space) {
    s.spaces.Get(sp).pktNum + 1 < TWO31 && LargestIn(s, sp) < TWO31
  }

  predicate AllSmall(f: Conf, s: State, es: seq<Event>)
    decreases |es|
  {
    Small(s, Initial) && Small(s, Handshake) && Small(s, App)
    && (es == [] || ((es[0].AckFrame? && es[0].frame.largest.Some? ==> es[0].frame.largest.value < TWO31)
                     && AllSmall(f, Step(f, s, es[0]), es[1..])))
  }

  lemma StepAsserts(f: Conf, s: State, e: Event, sp: Space)
    requires Small(s, sp) && Small(Step(f, s, e), sp) && NextAsserts(s, sp)
    requires e.AckFrame? && e.frame.largest.Some? ==> e.frame.largest.value < TWO31
    ensures NextAsserts(Step(f, s, e), sp) <==> NamesUsed(s, e) || (e.AckFrame? && e.sp != sp)
  {
    if e.Write? { CallRises(f, s.spaces, s.tx, e.blockedAt, e.notice, sp); }
  }

  /** In every run the assertion holds for each next build exactly if no ACK frame names a number
      beyond it. */
  lemma {:induction false} AssertsIff(f: Conf, s: State, es: seq<Event>)
    requires AllSmall(f, s, es) && AssertsHold(f, s, [])
    ensures AssertsHold(f, s, es) <==> AllNamesUsed(f, s, es)
    decreases |es|
  {
    if es != [] {
      var e, t := es[0], Step(f, s, es[0]);
      StepAsserts(f, s, e, Initial);
      StepAsserts(f, s, e, Handshake);
      StepAsserts(f, s, e, App);
      if NamesUsed(s, e) { AssertsIff(f, t, es[1..]); }
    }
  }

  /** One frame that names a number never sent is enough. */
  lemma AssertCounterexample(f: Conf, s: State)
    requires s.spaces.app.pktNum == 0 && LargestIn(s, App) == 0
    ensures !NextAsserts(Step(f, s, AckFrame(App, A.Parse([2, 0, 0, 0]))), App)
  {}
}
