/** The stream table of a connection: identifiers, opening, the two state machines and flow control
    (quic/stream.c:18-304, 556-668, quic/frame.c:290-369, 440-517, 545-666, 827-855, 895-1002 and
    quic/q_buff.c:179-203). */
module Streams {
  import opened Common
  import opened Receiving
  import Delivery

  datatype SendState = NoSend | NotOpen | Ready | Sending | DataSent | ResetSent | DataAcked | ResetAcked

  /** QuicStreamInstance: the receiving half, and the rest. */
  datatype Inst = Inst(rx: Stream, send: SendState, local: bool, uni: bool, maxData: nat, sent: nat, recvd: nat)

  /** The transport parameters that streams look at. Of the two limits for bidirectional streams,
      `dataBidi` is initial_max_stream_data_bidi_remote, for streams the other side opens. */
  datatype Params = Params(streamsBidi: nat, streamsUni: nat, data: nat, dataBidi: nat, dataUni: nat,
                           dataBidiLocal: nat)

  /** QuicStreamConf, with the parameters of both sides. */
  datatype Table = Table(server: bool, streams: seq<Inst>, bidi: nat, uni: nat, maxOpened: nat,
                         sent: nat, recvd: nat, own: Params, peer: Params)

  // ---------------------------------------------------------------- identifiers

  predicate IsUni(id: nat) { id / 2 % 2 == 1 }

  /** QuicStreamPeerOpened */
  predicate PeerOpened(id: nat, server: bool) { (id % 2 == 1) != server }

  function OrBit(v: nat, bit: nat): nat
    requires bit == 1 || bit == 2
  { if v / bit % 2 == 1 then v else v + bit }

  /** QuicStreamComputeMaxId */
  function MaxId(num: nat, uni: bool, server: bool): nat {
    var base := num % 4;
    var u := if uni then OrBit(base, 2) else base;
    (num - base) * 2 + (if server then OrBit(u, 1) else u)
  }

  function KindBits(uni: bool, server: bool): nat { (if uni then 2 else 0) + (if server then 1 else 0) }

  /** QuicStreamInstanceInit */
  function Fresh(id: nat, server: bool): Inst {
    var peer, u := PeerOpened(id, server), IsUni(id);
    Inst(Stream(if u && !peer then Disabled else Start, 0, []), if u && peer then NoSend else NotOpen, !peer, u,
         0, 0, 0)
  }

  /** QuicStreamInit and QuicStreamConfInit; the counts pass through 32-bit variables. */
  function Init(server: bool, own: Params, peer: Params): Table {
    var b := QuicMax(own.streamsBidi, peer.streamsBidi) % TWO32;
    var u := QuicMax(own.streamsUni, peer.streamsUni) % TWO32;
    var m := QuicMax(MaxId(b, false, server), MaxId(u, true, server));
    Table(server, seq(m, i requires 0 <= i < m => Fresh(i, server)), 0, 0, 0, 0, 0, own, peer)
  }

  function Alloced(t: Table, uni: bool): nat { if uni then t.uni else t.bidi }

  function PeerLimit(t: Table, uni: bool): nat { if uni then t.peer.streamsUni else t.peer.streamsBidi }

  /** QuicStreamIdGen */
  function IdGen(t: Table, uni: bool): Option<nat> {
    var id := Alloced(t, uni) * 4 + KindBits(uni, t.server);
    if Alloced(t, uni) >= PeerLimit(t, uni) || id >= |t.streams| then None else Some(id)
  }

  function RecvOpen(s: Inst): Inst {
    if s.rx.state == Start then s.(rx := s.rx.(state := Recv)) else s
  }

  /** QuicStreamOpen; its assertion is AssertHolds below. */
  function Open(t: Table, uni: bool): (Table, Option<nat>) {
    var id := IdGen(t, uni);
    if id.None? then (t, None)
    else
      var s := t.streams[id.value].(send := Ready);
      var done := if uni then s.(maxData := t.peer.dataUni) else RecvOpen(s.(maxData := t.peer.dataBidi));
      var u := if uni then t.(uni := t.uni + 1) else t.(bidi := t.bidi + 1);
      (u.(streams := t.streams[id.value := done]), id)
  }

  /** QuicStreamIdCheck; identifiers the endpoint opens itself are held against its own limits. */
  predicate IdCheck(t: Table, id: nat) {
    && (PeerOpened(id, t.server) ||
        id < if IsUni(id) then MaxId(t.own.streamsUni, true, t.server) else MaxId(t.own.streamsBidi, false, t.server))
    && id < |t.streams|
  }

  /** Whether QuicStreamGetInstance finds the stream. */
  predicate Found(t: Table, id: nat) {
    IdCheck(t, id) && (PeerOpened(id, t.server) || t.streams[id].send != NotOpen)
  }

  /** What QuicStreamGetInstance does on the way: all lower identifiers are opened too, except 0. */
  function Touch(t: Table, id: nat): Table {
    if Found(t, id) && id > t.maxOpened then
      t.(streams := seq(|t.streams|, i requires 0 <= i < |t.streams| =>
           if t.maxOpened < i <= id then RecvOpen(t.streams[i]) else t.streams[i]),
         maxOpened := id)
    else t
  }

  // ---------------------------------------------------------------- frames and builds

  function Set(t: Table, id: nat, s: Inst): Table
    requires id < |t.streams|
  { t.(streams := t.streams[id := s]) }

  /** The limit of QuicStreamRecvFlowCtrl for one stream. */
  function RecvLimit(t: Table, s: Inst): nat {
    if s.local then t.own.dataBidi else if s.uni then t.own.dataUni else t.peer.dataBidi
  }

  /** QuicStreamRecvFlowCtrl */
  predicate RecvAllowed(t: Table, s: Inst, len: nat) {
    !(s.local && s.uni) && !QuicGt(s.recvd + len, RecvLimit(t, s)) && !QuicGt(t.recvd + len, t.peer.data)
  }

  /** QuicStreamSendFlowCtrl for a stream that is found and a length that is not zero. */
  predicate SendAllowed(t: Table, s: Inst, len: nat) {
    !QuicGt(s.sent + len, s.maxData) && !QuicGt(t.sent + len, t.peer.data)
  }

  /** The calls and frames. A frame cut short fails, but not before it has changed something: CutStream
      ends before its data, CutStop before its error code, CutOther anywhere after the identifier. */
  datatype Action =
    | OpenStream(uni: bool)
    | StreamFrame(id: nat, sd: Seg, fin: bool)
    | ResetFrame(id: nat)
    | StopSending(id: nat)
    | CutStream(id: nat, fin: bool)
    | CutStop(id: nat)
    | CutOther(id: nat)
    | BlockedFrame(id: nat)
    | MaxStreamData(id: nat, max: nat)
    | MaxData(max: nat)
    | MaxStreams(uniStreams: bool, max: nat)
    | BuildStream(id: nat, fin: bool)
    | BuildReset(id: nat)
    | BuildBlocked(id: nat)
    | SendFlow(id: nat, len: nat)
    | AckedFlags(id: nat, fin: bool, reset: bool)
    | ReadCall(id: nat, len: nat)

  /** QuicStreamDataAdd with its flow control. */
  function AddData(t: Table, s: Inst, sd: Seg): (r: Inst)
    ensures s.recvd <= r.recvd
  {
    var w := Wanted(s.rx, sd);
    var ok := w.Some? && RecvAllowed(t, s, |w.value.data|);
    s.(rx := Add(s.rx, sd, ok), recvd := if ok then s.recvd + |w.value.data| else s.recvd)
  }

  /** QuicFrameStreamParser from line 482 on: the stream after the frame. */
  function Received(t: Table, s: Inst, sd: Seg, fin: bool): (r: Inst)
    ensures s.recvd <= r.recvd
  {
    if s.rx.state == Disabled then s
    else
      var o := s.(send := if s.send == NotOpen then Ready else s.send, rx := Opened(s.rx, fin));
      if Accepts(s.rx) then AddData(t, o, sd) else o
  }

  function OnStream(t: Table, id: nat, sd: Seg, fin: bool): Table
    requires id < |t.streams|
  {
    var s := t.streams[id];
    var r := Received(t, s, sd, fin);
    Set(t, id, r).(recvd := t.recvd + (r.recvd - s.recvd))
  }

  /** What the frame, builder or call does to the stream it found. */
  function Act(s: Inst, a: Action): Inst {
    match a
    case ResetFrame(_) => s.(rx := Reset(s.rx))
    case StopSending(_) =>
      if s.send == NotOpen || s.send == NoSend then s else RecvOpen(s.(send := NoSend))
    case CutStream(_, fin) =>
      if s.rx.state == Disabled then s
      else s.(send := if s.send == NotOpen then Ready else s.send, rx := CutShort(s.rx, fin))
    case CutStop(_) => if s.send == NotOpen || s.send == NoSend then s else s.(send := NoSend)
    case CutOther(_) => s
    case BlockedFrame(_) => RecvOpen(s)
    case MaxStreamData(_, max) =>
      if s.rx.state == Disabled || s.rx.state == Start || !QuicLt(s.maxData, max) then s else s.(maxData := max)
    case BuildStream(_, fin) =>
      if s.send == Ready || s.send == Sending then s.(send := if fin then DataSent else Sending) else s
    case BuildReset(_) =>
      if s.send == Ready || s.send == Sending || s.send == DataSent then s.(send := ResetSent) else s
    case BuildBlocked(_) => if s.send == Ready then s.(send := Sending) else s
    case AckedFlags(_, fin, reset) =>
      if fin && s.send == DataSent then s.(send := DataAcked)
      else if reset && s.send == ResetSent then s.(send := ResetAcked)
      else s
    case ReadCall(_, len) => s.(rx := Read(s.rx, len).s)
    case _ => s
  }

  function Raised(was: nat, max: nat): nat { if QuicGt(max, was) then max else was }

  /** One call, whatever it returns. */
  function Step(t: Table, a: Action): Table {
    match a
    case OpenStream(uni) => Open(t, uni).0
    case MaxData(max) => t.(peer := t.peer.(data := Raised(t.peer.data, max)))
    case MaxStreams(uni, max) =>
      if uni then t.(peer := t.peer.(streamsUni := Raised(t.peer.streamsUni, max)))
      else t.(peer := t.peer.(streamsBidi := Raised(t.peer.streamsBidi, max)))
    case SendFlow(id, len) =>
      var u := if len == 0 then t else Touch(t, id);
      if len == 0 || !Found(t, id) || !SendAllowed(u, u.streams[id], len) then u
      else Charged(u, id, len)
    case StreamFrame(id, sd, fin) => if Found(t, id) then OnStream(Touch(t, id), id, sd, fin) else t
    case _ => if Found(t, a.id) then Set(Touch(t, a.id), a.id, Act(Touch(t, a.id).streams[a.id], a)) else t
  }

  function Charged(t: Table, id: nat, len: nat): Table
    requires id < |t.streams|
  { Set(t, id, t.streams[id].(sent := t.streams[id].sent + len)).(sent := t.sent + len) }

  function Run(t: Table, acts: seq<Action>): Table
    decreases |acts|
  {
    if acts == [] then t else Run(Step(t, acts[0]), acts[1..])
  }

  // ---------------------------------------------------------------- the invariant

  /** What holds of stream `i` in every reachable table. */
  ghost predicate InstOk(t: Table, i: nat, s: Inst) {
    && s.local == !PeerOpened(i, t.server) && s.uni == IsUni(i)
    && (s.uni ==> if s.local then s.rx.state == Disabled else s.send == NoSend)
    && (s.local ==> (s.send == NotOpen <==> i / 4 >= Alloced(t, s.uni)))
    && (s.local && s.send == NotOpen ==> s.sent == 0 && s.maxData == 0)
    && (0 < i <= t.maxOpened ==> s.rx.state != Start)
    && s.sent <= s.maxData && s.recvd <= RecvLimit(t, s)
    && s.recvd == s.rx.offset + Delivery.Total(s.rx.queue)
  }

  function SumSent(ss: seq<Inst>): nat { if ss == [] then 0 else ss[0].sent + SumSent(ss[1..]) }
  function SumRecvd(ss: seq<Inst>): nat { if ss == [] then 0 else ss[0].recvd + SumRecvd(ss[1..]) }

  /** The counts of the streams add up to those of the connection, and each is within its limit. */
  ghost predicate Inv(t: Table) {
    && (forall i :: 0 <= i < |t.streams| ==> InstOk(t, i, t.streams[i]))
    && (t.maxOpened == 0 || t.maxOpened < |t.streams|)
    && t.sent == SumSent(t.streams) <= t.peer.data
    && t.recvd == SumRecvd(t.streams) <= t.peer.data
  }

  /** Send states only move up (section 3.1 of RFC 9000). STOP_SENDING takes a stream to the top. */
  function SendRank(st: SendState): nat {
    match st
    case NotOpen => 0
    case Ready => 1
    case Sending => 2
    case DataSent => 3
    case ResetSent => 4
    case DataAcked => 5
    case ResetAcked => 5
    case NoSend => 6
  }

  ghost predicate InstRises(s: Inst, u: Inst) {
    && SendRank(s.send) <= SendRank(u.send) && (SendRank(s.send) == 5 ==> u.send == s.send || u.send == NoSend)
    && Delivery.Rank(s.rx.state) <= Delivery.Rank(u.rx.state)
    && (Delivery.Rank(s.rx.state) == 4 ==> u.rx.state == s.rx.state)
    && s.maxData <= u.maxData && s.sent <= u.sent && s.recvd <= u.recvd && s.rx.offset <= u.rx.offset
  }

  ghost predicate Rises(t: Table, u: Table) {
    && |t.streams| == |u.streams| && t.server == u.server && t.own == u.own
    && t.peer.data <= u.peer.data && t.peer.streamsBidi <= u.peer.streamsBidi
    && t.peer.streamsUni <= u.peer.streamsUni && t.bidi <= u.bidi && t.uni <= u.uni && t.maxOpened <= u.maxOpened
    && forall i :: 0 <= i < |t.streams| ==> InstRises(t.streams[i], u.streams[i])
  }

  lemma {:induction false} SumSet(ss: seq<Inst>, i: nat, s: Inst)
    requires i < |ss|
    ensures SumSent(ss[i := s]) + ss[i].sent == SumSent(ss) + s.sent
    ensures SumRecvd(ss[i := s]) + ss[i].recvd == SumRecvd(ss) + s.recvd
    decreases i
  {
    if i == 0 {
      assert ss[0 := s][1..] == ss[1..];
    } else {
      assert ss[i := s][1..] == ss[1..][i - 1 := s];
      SumSet(ss[1..], i - 1, s);
    }
  }

  lemma {:induction false} SumSame(a: seq<Inst>, b: seq<Inst>)
    requires |a| == |b| && forall i :: 0 <= i < |a| ==> a[i].sent == b[i].sent && a[i].recvd == b[i].recvd
    ensures SumSent(a) == SumSent(b) && SumRecvd(a) == SumRecvd(b)
    decreases |a|
  {
    if a != [] { SumSame(a[1..], b[1..]); }
  }

  lemma {:induction false} SumZero(ss: seq<Inst>)
    requires forall i :: 0 <= i < |ss| ==> ss[i].sent == 0 && ss[i].recvd == 0
    ensures SumSent(ss) == 0 && SumRecvd(ss) == 0
    decreases |ss|
  {
    if ss != [] { SumZero(ss[1..]); }
  }

  lemma InitOk(server: bool, own: Params, peer: Params)
    ensures Inv(Init(server, own, peer))
  {
    SumZero(Init(server, own, peer).streams);
  }

  /** What a new table holds: no stream has data or limits; those only this endpoint sends on cannot
      receive, and those only the peer sends on cannot send. */
  lemma InitStreams(server: bool, own: Params, peer: Params, i: nat)
    requires i < |Init(server, own, peer).streams|
    ensures var s, mine := Init(server, own, peer).streams[i], i % 2 == if server then 1 else 0;
            && s.local == mine && s.uni == (i / 2 % 2 == 1) && s.maxData == 0 && s.sent == 0 && s.recvd == 0
            && s.rx == Stream(if s.uni && mine then Disabled else Start, 0, [])
            && s.send == if s.uni && !mine then NoSend else NotOpen
  {}

  lemma RisesTrans(t: Table, u: Table, v: Table)
    requires Rises(t, u) && Rises(u, v)
    ensures Rises(t, v)
  {
    forall i | 0 <= i < |t.streams| ensures InstRises(t.streams[i], v.streams[i]) {
      assert InstRises(t.streams[i], u.streams[i]) && InstRises(u.streams[i], v.streams[i]);
    }
  }

  /** Replacing one stream and counting what it sent or received. */
  lemma SetKeeps(t: Table, id: nat, s: Inst, sent: nat, recvd: nat)
    requires Inv(t) && id < |t.streams| && InstOk(t, id, s) && InstRises(t.streams[id], s)
    requires sent - t.sent == s.sent - t.streams[id].sent && recvd - t.recvd == s.recvd - t.streams[id].recvd
    requires sent <= t.peer.data && recvd <= t.peer.data
    ensures var u := Set(t, id, s).(sent := sent, recvd := recvd); Inv(u) && Rises(t, u)
  {
    SetInv(t, id, s, sent, recvd);
    SetRises(t, id, s);
  }

  lemma SetInv(t: Table, id: nat, s: Inst, sent: nat, recvd: nat)
    requires Inv(t) && id < |t.streams| && InstOk(t, id, s)
    requires sent - t.sent == s.sent - t.streams[id].sent && recvd - t.recvd == s.recvd - t.streams[id].recvd
    requires sent <= t.peer.data && recvd <= t.peer.data
    ensures Inv(Set(t, id, s).(sent := sent, recvd := recvd))
  {
    SumSet(t.streams, id, s);
    SetOk(t, id, s, sent, recvd);
  }

  lemma SetOk(t: Table, id: nat, s: Inst, sent: nat, recvd: nat)
    requires Inv(t) && id < |t.streams| && InstOk(t, id, s)
    ensures var u := Set(t, id, s).(sent := sent, recvd := recvd);
            forall i :: 0 <= i < |u.streams| ==> InstOk(u, i, u.streams[i])
  {
    var u := Set(t, id, s).(sent := sent, recvd := recvd);
    forall i | 0 <= i < |u.streams| ensures InstOk(u, i, u.streams[i]) {
      assert InstOk(t, i, t.streams[i]);
    }
  }

  lemma SetRises(t: Table, id: nat, s: Inst)
    requires id < |t.streams| && InstRises(t.streams[id], s)
    ensures Rises(t, Set(t, id, s))
  {
    var u := Set(t, id, s);
    forall i | 0 <= i < |u.streams| ensures InstRises(t.streams[i], u.streams[i]) {}
  }

  lemma TouchKeeps(t: Table, id: nat)
    requires Inv(t) && Found(t, id)
    ensures var u := Touch(t, id);
            && Inv(u) && Rises(t, u) && Found(u, id)
            && u == t.(streams := u.streams, maxOpened := Max(t.maxOpened, id))
            && (0 < id ==> u.streams[id].rx.state != Start)
  {
    TouchInv(t, id);
    TouchShape(t, id);
    TouchRises(t, id);
    assert InstOk(Touch(t, id), id, Touch(t, id).streams[id]);
  }

  lemma TouchShape(t: Table, id: nat)
    requires Found(t, id)
    ensures var u := Touch(t, id);
            && u == t.(streams := u.streams, maxOpened := Max(t.maxOpened, id))
            && |u.streams| == |t.streams| && Found(u, id)
  {}

  lemma TouchRises(t: Table, id: nat)
    requires Inv(t) && Found(t, id)
    ensures Rises(t, Touch(t, id))
  {
    TouchShape(t, id);
    forall i | 0 <= i < |t.streams| ensures InstRises(t.streams[i], Touch(t, id).streams[i]) { TouchOne(t, id, i); }
  }

  lemma TouchInv(t: Table, id: nat)
    requires Inv(t) && Found(t, id)
    ensures Inv(Touch(t, id))
  {
    var u := Touch(t, id);
    TouchShape(t, id);
    forall i | 0 <= i < |u.streams|
      ensures InstOk(u, i, u.streams[i])
      ensures t.streams[i].sent == u.streams[i].sent && t.streams[i].recvd == u.streams[i].recvd
    {
      TouchOne(t, id, i);
    }
    SumSame(t.streams, u.streams);
  }

  lemma TouchOne(t: Table, id: nat, i: nat)
    requires Inv(t) && Found(t, id) && i < |t.streams|
    ensures var u := Touch(t, id);
            && i < |u.streams| && InstOk(u, i, u.streams[i]) && InstRises(t.streams[i], u.streams[i])
            && t.streams[i].sent == u.streams[i].sent && t.streams[i].recvd == u.streams[i].recvd
  {
    assert InstOk(t, i, t.streams[i]);
  }

  lemma ReadRises(s: Stream, len: nat)
    ensures var r := Read(s, len).s;
            && s.offset <= r.offset && Delivery.Rank(s.state) <= Delivery.Rank(r.state)
            && (Delivery.Rank(s.state) == 4 ==> r.state == s.state)
    ensures s.state == Disabled || s.state == Start ==> Read(s, len).s.state == s.state
    ensures s.state != Start ==> Read(s, len).s.state != Start
    ensures var r := Read(s, len).s; r.offset + Delivery.Total(r.queue) == s.offset + Delivery.Total(s.queue)
  {
    Delivery.CopyConserves(s.queue, s.offset, len);
    Delivery.CopyForward(s.queue, s.offset, len);
  }

  /** Lengths as packets have them, and limits that do not fall back by 2^31 or more. */
  ghost predicate Bounded(t: Table, a: Action) {
    match a
    case MaxStreamData(id, max) => id < |t.streams| ==> t.streams[id].maxData - max < TWO31
    case MaxData(max) => t.peer.data - max < TWO31
    case MaxStreams(uni, max) => PeerLimit(t, uni) - max < TWO31
    case SendFlow(_, len) => len < TWO31
    case StreamFrame(_, sd, _) => |sd.data| < TWO31
    case _ => true
  }

  ghost predicate AllBounded(t: Table, acts: seq<Action>)
    decreases |acts|
  {
    acts == [] || (Bounded(t, acts[0]) && AllBounded(Step(t, acts[0]), acts[1..]))
  }

  lemma ActKeeps(t: Table, a: Action, id: nat)
    requires Inv(t) && id < |t.streams| && (!t.streams[id].local || t.streams[id].send != NotOpen)
    requires a.MaxStreamData? ==> t.streams[id].maxData - a.max < TWO31
    ensures var s, u := t.streams[id], Act(t.streams[id], a);
            InstOk(t, id, u) && InstRises(s, u) && u.sent == s.sent && u.recvd == s.recvd
  {
    var s := t.streams[id];
    assert InstOk(t, id, s);
    ActRises(s, a);
    ActOk(t, a, id, s);
  }

  lemma ActRises(s: Inst, a: Action)
    requires a.MaxStreamData? ==> s.maxData - a.max < TWO31
    ensures InstRises(s, Act(s, a)) && Act(s, a).sent == s.sent && Act(s, a).recvd == s.recvd
  {
    if a.ReadCall? { ReadRises(s.rx, a.len); }
  }

  lemma ActOk(t: Table, a: Action, id: nat, s: Inst)
    requires InstOk(t, id, s) && (s.local ==> s.send != NotOpen)
    requires s.maxData <= Act(s, a).maxData
    ensures InstOk(t, id, Act(s, a))
  {
    if a.ReadCall? { ReadRises(s.rx, a.len); }
  }

  /** What an arrival adds to the queue is what it wants to add, if that is allowed. */
  lemma AddTotal(s: Stream, sd: Seg, fin: bool)
    ensures var o := Opened(s, fin);
            && o.offset == s.offset && o.queue == s.queue
            && forall ok: bool :: Delivery.Total(Add(o, sd, ok).queue) ==
                 Delivery.Total(s.queue) + if ok && Wanted(o, sd).Some? then |Wanted(o, sd).value.data| else 0
  {
    var w := Wanted(Opened(s, fin), sd);
    if w.Some? { Delivery.TotalSnoc(s.queue, w.value); }
  }

  lemma ReceivedOk(t: Table, id: nat, sd: Seg, fin: bool)
    requires Inv(t) && id < |t.streams| && (t.streams[id].local ==> t.streams[id].send != NotOpen) && |sd.data| < TWO31
    ensures var s, r := t.streams[id], Received(t, t.streams[id], sd, fin);
            InstOk(t, id, r) && InstRises(s, r) && r.sent == s.sent && t.recvd + (r.recvd - s.recvd) <= t.peer.data
  {
    var s := t.streams[id];
    assert InstOk(t, id, s);
    AddTotal(s.rx, sd, fin);
    ReceivedRises(t, s, sd, fin);
    ReceivedCount(t, s, sd, fin);
  }

  lemma ReceivedRises(t: Table, s: Inst, sd: Seg, fin: bool)
    ensures var r := Received(t, s, sd, fin);
            && InstRises(s, r) && r.sent == s.sent && r.maxData == s.maxData && r.local == s.local && r.uni == s.uni
            && (s.rx.state == Disabled ==> r == s) && (s.send != NotOpen ==> r.send == s.send)
            && (s.send == NotOpen ==> r == s || r.send == Ready) && (s.rx.state != Start ==> r.rx.state != Start)
  {}

  lemma ReceivedCount(t: Table, s: Inst, sd: Seg, fin: bool)
    requires s.recvd <= RecvLimit(t, s) && t.recvd <= t.peer.data && |sd.data| < TWO31
    requires s.recvd == s.rx.offset + Delivery.Total(s.rx.queue)
    ensures var r := Received(t, s, sd, fin);
            && r.recvd <= RecvLimit(t, s) && t.recvd + (r.recvd - s.recvd) <= t.peer.data
            && r.recvd == r.rx.offset + Delivery.Total(r.rx.queue)
  {
    AddTotal(s.rx, sd, fin);
  }

  lemma StreamKeeps(t: Table, id: nat, sd: Seg, fin: bool)
    requires Inv(t) && Found(t, id) && |sd.data| < TWO31
    ensures var u := OnStream(t, id, sd, fin); Inv(u) && Rises(t, u)
  {
    assert InstOk(t, id, t.streams[id]);
    ReceivedOk(t, id, sd, fin);
    var r := Received(t, t.streams[id], sd, fin);
    SetKeeps(t, id, r, t.sent, t.recvd + (r.recvd - t.streams[id].recvd));
  }

  lemma OpenKeeps(t: Table, uni: bool)
    requires Inv(t)
    ensures Inv(Open(t, uni).0) && Rises(t, Open(t, uni).0)
  {
    var id, u := IdGen(t, uni), Open(t, uni).0;
    if id.Some? {
      OpensNext(t, uni);
      SumSame(t.streams, u.streams);
      forall i | 0 <= i < |u.streams| ensures InstOk(u, i, u.streams[i]) && InstRises(t.streams[i], u.streams[i]) {
        assert InstOk(t, i, t.streams[i]);
        if i != id.value { OthersOk(t, uni, i); }
      }
    }
  }

  lemma OthersOk(t: Table, uni: bool, i: nat)
    requires Inv(t) && IdGen(t, uni).Some? && i != IdGen(t, uni).value && i < |t.streams|
    ensures InstOk(Open(t, uni).0, i, t.streams[i])
  {
    var id := IdGen(t, uni).value;
    OpensNext(t, uni);
    assert InstOk(t, i, t.streams[i]);
    SameKind(i, id, t.server);
  }

  /** Two identifiers this endpoint opens, of one kind and with one index, are the same. */
  lemma SameKind(i: nat, j: nat, server: bool)
    ensures !PeerOpened(i, server) && !PeerOpened(j, server) && IsUni(i) == IsUni(j) && i / 4 == j / 4 ==> i == j
  {
    Bits(i);
    Bits(j);
  }

  lemma Bits(i: nat)
    ensures i == i / 4 * 4 + (if IsUni(i) then 2 else 0) + i % 2
  {}

  /** The assertion of QuicStreamOpen holds: the stream it is about to open was never opened. */
  lemma OpensNext(t: Table, uni: bool)
    requires Inv(t) && IdGen(t, uni).Some?
    ensures var id := IdGen(t, uni).value;
            && id < |t.streams| && t.streams[id].send == NotOpen && id / 4 == Alloced(t, uni)
            && IsUni(id) == uni && !PeerOpened(id, t.server) && id % 4 == KindBits(uni, t.server)
  {
    var id := IdGen(t, uni).value;
    IdParts(Alloced(t, uni), uni, t.server);
    assert InstOk(t, id, t.streams[id]);
  }

  lemma IdParts(n: nat, uni: bool, server: bool)
    ensures var id := n * 4 + KindBits(uni, server);
            id / 4 == n && IsUni(id) == uni && !PeerOpened(id, server) && id % 4 == KindBits(uni, server)
  {}

  lemma NotOpenYet(t: Table, uni: bool)
    requires Inv(t) && IdGen(t, uni).Some?
    ensures t.streams[IdGen(t, uni).value].send == NotOpen
  {
    OpensNext(t, uni);
  }

  lemma StepKeeps(t: Table, a: Action)
    requires Inv(t) && Bounded(t, a)
    ensures Inv(Step(t, a)) && Rises(t, Step(t, a))
  {
    match a {
      case OpenStream(uni) => OpenKeeps(t, uni);
      case MaxData(_) => ParamsKeep(t, Step(t, a));
      case MaxStreams(_, _) => ParamsKeep(t, Step(t, a));
      case SendFlow(id, len) => SendKeeps(t, id, len);
      case StreamFrame(_, _, _) => FrameKeeps(t, a);
      case _ => if Found(t, a.id) { ActStepKeeps(t, a); } else { StaysKept(t); }
    }
  }

  lemma StaysKept(t: Table)
    ensures Rises(t, t)
  {
    assert forall i :: 0 <= i < |t.streams| ==> InstRises(t.streams[i], t.streams[i]);
  }

  lemma FrameKeeps(t: Table, a: Action)
    requires Inv(t) && Bounded(t, a) && a.StreamFrame?
    ensures Inv(Step(t, a)) && Rises(t, Step(t, a))
  {
    if Found(t, a.id) {
      TouchKeeps(t, a.id);
      StreamKeeps(Touch(t, a.id), a.id, a.sd, a.fin);
      RisesTrans(t, Touch(t, a.id), OnStream(Touch(t, a.id), a.id, a.sd, a.fin));
    } else {
      StaysKept(t);
    }
  }

  lemma ParamsKeep(t: Table, u: Table)
    requires Inv(t) && u == t.(peer := u.peer)
    requires u.peer == t.peer.(data := u.peer.data, streamsBidi := u.peer.streamsBidi, streamsUni := u.peer.streamsUni)
    requires t.peer.data <= u.peer.data && t.peer.streamsBidi <= u.peer.streamsBidi
    requires t.peer.streamsUni <= u.peer.streamsUni
    ensures Inv(u) && Rises(t, u)
  {
    forall i | 0 <= i < |u.streams| ensures InstOk(u, i, u.streams[i]) {
      assert InstOk(t, i, t.streams[i]);
    }
  }

  lemma SendKeeps(t: Table, id: nat, len: nat)
    requires Inv(t) && len < TWO31
    ensures var u := Step(t, SendFlow(id, len)); Inv(u) && Rises(t, u)
  {
    if len != 0 && Found(t, id) {
      var u := Touch(t, id);
      TouchKeeps(t, id);
      if SendAllowed(u, u.streams[id], len) {
        ChargeKeeps(u, id, len);
        RisesTrans(t, u, Charged(u, id, len));
      }
    }
  }

  lemma ChargeKeeps(t: Table, id: nat, len: nat)
    requires Inv(t) && id < |t.streams| && len < TWO31 && SendAllowed(t, t.streams[id], len)
    requires t.streams[id].local ==> t.streams[id].send != NotOpen
    ensures Inv(Charged(t, id, len)) && Rises(t, Charged(t, id, len))
  {
    var s := t.streams[id];
    assert InstOk(t, id, s);
    var u := s.(sent := s.sent + len);
    assert InstOk(t, id, u) && InstRises(s, u) && t.sent + len <= t.peer.data;
    SetKeeps(t, id, u, t.sent + len, t.recvd);
    assert Charged(t, id, len) == Set(t, id, u).(sent := t.sent + len, recvd := t.recvd);
  }

  lemma ActStepKeeps(t: Table, a: Action)
    requires Inv(t) && Bounded(t, a) && !a.OpenStream? && !a.MaxData? && !a.MaxStreams? && Found(t, a.id)
    ensures var u := Touch(t, a.id); var v := Set(u, a.id, Act(u.streams[a.id], a)); Inv(v) && Rises(t, v)
  {
    var u := Touch(t, a.id);
    TouchKeeps(t, a.id);
    TouchMax(t, a.id, a.id);
    assert InstOk(u, a.id, u.streams[a.id]);
    ActKeeps(u, a, a.id);
    SetKeeps(u, a.id, Act(u.streams[a.id], a), u.sent, u.recvd);
    RisesTrans(t, u, Set(u, a.id, Act(u.streams[a.id], a)));
  }

  // ---------------------------------------------------------------- every run

  /** In every run the counts add up and stay within their limits, limits are only raised, and the
      states only move up. */
  lemma {:induction false} RunKeeps(t: Table, acts: seq<Action>)
    requires Inv(t) && AllBounded(t, acts)
    ensures Inv(Run(t, acts)) && Rises(t, Run(t, acts))
    decreases |acts|
  {
    if acts == [] {
      StaysKept(t);
    } else {
      var u := Step(t, acts[0]);
      StepKeeps(t, acts[0]);
      RunKeeps(u, acts[1..]);
      RisesTrans(t, u, Run(u, acts[1..]));
    }
  }

  /** The bytes a call is allowed to send. */
  function Granted(t: Table, a: Action): nat {
    if a.SendFlow? && Found(t, a.id) && SendAllowed(t, Touch(t, a.id).streams[a.id], a.len) then a.len else 0
  }

  function AllGranted(t: Table, acts: seq<Action>): nat
    decreases |acts|
  {
    if acts == [] then 0 else Granted(t, acts[0]) + AllGranted(Step(t, acts[0]), acts[1..])
  }

  /** The connection's count of sent bytes is the sum of what was granted. */
  lemma {:induction false} SentIsGranted(t: Table, acts: seq<Action>)
    ensures Run(t, acts).sent == t.sent + AllGranted(t, acts)
    decreases |acts|
  {
    if acts != [] {
      SentStep(t, acts[0]);
      SentIsGranted(Step(t, acts[0]), acts[1..]);
    }
  }

  lemma SentStep(t: Table, a: Action)
    ensures Step(t, a).sent == t.sent + Granted(t, a)
  {}

  // ---------------------------------------------------------------- what is received

  /** What of a frame's data goes through flow control: the bytes from the read offset on. */
  function Past(s: Inst, sd: Seg): int { sd.End() - Max(s.rx.offset, sd.offset) }

  /** Flow control allows a frame that has such bytes. */
  predicate Allows(t: Table, s: Inst, sd: Seg) { s.rx.offset < sd.End() && RecvAllowed(t, s, Past(s, sd)) }

  /** The bytes of a frame that are taken, given the stream it finds. */
  function TakenFrom(t: Table, s: Inst, sd: Seg): nat {
    if Accepts(s.rx) && Allows(t, s, sd) then Past(s, sd) else 0
  }

  function TakenBy(t: Table, a: Action): nat {
    if a.StreamFrame? && Found(t, a.id) then TakenFrom(Touch(t, a.id), Touch(t, a.id).streams[a.id], a.sd) else 0
  }

  /** A frame for a stream that is found and receives: if flow control allows the bytes from the read
      offset on, they are queued behind the others and counted for the stream and the connection; if not,
      nothing is queued or counted. The receiving half changes as an arrival with that verdict. */
  lemma FrameTaken(t: Table, id: nat, sd: Seg, fin: bool)
    requires Found(t, id) && Accepts(Touch(t, id).streams[id].rx)
    ensures var v, u := Touch(t, id), Step(t, StreamFrame(id, sd, fin));
            var s, r, n := v.streams[id], u.streams[id], TakenFrom(v, v.streams[id], sd);
            && u == v.(streams := v.streams[id := r], recvd := v.recvd + n) && r.recvd == s.recvd + n
            && r.rx == Arrive(s.rx, sd, fin, Allows(v, s, sd))
            && if Allows(v, s, sd) then
                 && |r.rx.queue| == |s.rx.queue| + 1 && r.rx.queue[..|s.rx.queue|] == s.rx.queue
                 && Delivery.Carries(r.rx.queue[|s.rx.queue|], sd, Max(s.rx.offset, sd.offset))
               else r.rx.queue == s.rx.queue
  {
    var v := Touch(t, id);
    var s := v.streams[id];
    FrameArrives(v, s, sd, fin);
    Delivery.ArrivalQueued(s.rx, sd, fin, Allows(v, s, sd));
  }

  lemma FrameArrives(t: Table, s: Inst, sd: Seg, fin: bool)
    requires Accepts(s.rx)
    ensures var r := Received(t, s, sd, fin);
            r.rx == Arrive(s.rx, sd, fin, Allows(t, s, sd)) && r.recvd == s.recvd + TakenFrom(t, s, sd)
  {
    var o := s.(send := if s.send == NotOpen then Ready else s.send, rx := Opened(s.rx, fin));
    PastIs(s, o, sd, fin);
    AddArrives(t, s, o, sd);
  }

  lemma PastIs(s: Inst, o: Inst, sd: Seg, fin: bool)
    requires o.rx == Opened(s.rx, fin)
    ensures var w := Wanted(o.rx, sd);
            (w.Some? <==> s.rx.offset < sd.End()) && (w.Some? ==> |w.value.data| == Past(s, sd))
  {}

  lemma AddArrives(t: Table, s: Inst, o: Inst, sd: Seg)
    requires o == s.(send := o.send, rx := o.rx) && Accepts(s.rx)
    requires var w := Wanted(o.rx, sd);
             (w.Some? <==> s.rx.offset < sd.End()) && (w.Some? ==> |w.value.data| == Past(s, sd))
    ensures var r := AddData(t, o, sd);
            r.rx == Add(o.rx, sd, Allows(t, s, sd)) && r.recvd == s.recvd + TakenFrom(t, s, sd)
  {
    if s.rx.offset < sd.End() { SameLimit(t, s, o, Past(s, sd)); }
  }

  lemma SameLimit(t: Table, s: Inst, o: Inst, n: nat)
    requires o == s.(send := o.send, rx := o.rx)
    ensures RecvAllowed(t, o, n) == RecvAllowed(t, s, n)
  {}

  function AllTaken(t: Table, acts: seq<Action>): nat
    decreases |acts|
  {
    if acts == [] then 0 else TakenBy(t, acts[0]) + AllTaken(Step(t, acts[0]), acts[1..])
  }

  /** The connection's count of received bytes is the sum of what was taken, over every run. */
  lemma {:induction false} ReceivedIsTaken(t: Table, acts: seq<Action>)
    ensures Run(t, acts).recvd == t.recvd + AllTaken(t, acts)
    decreases |acts|
  {
    if acts != [] {
      TakenStep(t, acts[0]);
      ReceivedIsTaken(Step(t, acts[0]), acts[1..]);
    }
  }

  lemma TakenStep(t: Table, a: Action)
    ensures Step(t, a).recvd == t.recvd + TakenBy(t, a)
  {
    if a.StreamFrame? && Found(t, a.id) {
      var v := Touch(t, a.id);
      if Accepts(v.streams[a.id].rx) { FrameArrives(v, v.streams[a.id], a.sd, a.fin); }
    }
  }

  // ---------------------------------------------------------------- every stream runs as one of Delivery

  /** Does a call look for a stream? */
  predicate LooksUp(t: Table, a: Action) {
    match a
    case OpenStream(_) => false
    case MaxData(_) => false
    case MaxStreams(_, _) => false
    case SendFlow(id, len) => len != 0 && Found(t, id)
    case _ => Found(t, a.id)
  }

  /** What the lookup is for a stream, and what comes after it. */
  function LookupEvents(t: Table, a: Action, id: nat): seq<Delivery.Event> {
    if LooksUp(t, a) && t.maxOpened < id <= a.id then [Delivery.Opening] else []
  }

  function OwnEvents(t: Table, a: Action, s: Inst): seq<Delivery.Event> {
    match a
    case StreamFrame(_, sd, fin) => [Delivery.Arrival(sd, fin, Allows(t, s, sd))]
    case CutStream(_, fin) => [Delivery.CutArrival(fin)]
    case ResetFrame(_) => [Delivery.ResetArrival]
    case StopSending(_) => if s.send == NotOpen || s.send == NoSend then [] else [Delivery.Opening]
    case BlockedFrame(_) => [Delivery.Opening]
    case ReadCall(_, len) => [Delivery.ReadCall(len)]
    case _ => []
  }

  function EventsOf(t: Table, a: Action, id: nat): seq<Delivery.Event>
    requires id < |t.streams|
  {
    if a.OpenStream? then if IdGen(t, a.uni) == Some(id) && !a.uni then [Delivery.Opening] else []
    else
      LookupEvents(t, a, id) +
      if LooksUp(t, a) && a.id == id then OwnEvents(Touch(t, id), a, Touch(t, id).streams[id]) else []
  }

  function AllEvents(t: Table, acts: seq<Action>, id: nat): seq<Delivery.Event>
    requires id < |t.streams|
    decreases |acts|
  {
    if acts == [] then []
    else
      StepLength(t, acts[0]);
      EventsOf(t, acts[0], id) + AllEvents(Step(t, acts[0]), acts[1..], id)
  }

  lemma StepLength(t: Table, a: Action)
    ensures |Step(t, a).streams| == |t.streams|
  {}

  lemma TouchRuns(t: Table, a: Action, id: nat)
    requires id < |t.streams| && LooksUp(t, a)
    ensures Touch(t, a.id).streams[id].rx == Delivery.Run(t.streams[id].rx, LookupEvents(t, a, id))
  {
    Delivery.RunOne(t.streams[id].rx, Delivery.Opening);
  }

  lemma ActRuns(t: Table, s: Inst, a: Action)
    requires !a.StreamFrame?
    ensures Act(s, a).rx == Delivery.Run(s.rx, OwnEvents(t, a, s))
  {
    if OwnEvents(t, a, s) != [] { Delivery.RunOne(s.rx, OwnEvents(t, a, s)[0]); }
  }

  lemma FrameRuns(t: Table, s: Inst, sd: Seg, fin: bool)
    ensures Received(t, s, sd, fin).rx == Delivery.Run(s.rx, [Delivery.Arrival(sd, fin, Allows(t, s, sd))])
  {
    Delivery.RunOne(s.rx, Delivery.Arrival(sd, fin, Allows(t, s, sd)));
    if Accepts(s.rx) { FrameArrives(t, s, sd, fin); }
  }

  lemma FoundRuns(t: Table, a: Action, id: nat)
    requires id < |t.streams| && LooksUp(t, a)
    ensures |Step(t, a).streams| == |t.streams|
    ensures Step(t, a).streams[id].rx ==
            Delivery.Run(Touch(t, a.id).streams[id].rx,
                         if a.id == id then OwnEvents(Touch(t, id), a, Touch(t, id).streams[id]) else [])
  {
    var v := Touch(t, a.id);
    if a.id == id {
      if a.StreamFrame? { FrameRuns(v, v.streams[id], a.sd, a.fin); } else { ActRuns(v, v.streams[id], a); }
    }
  }

  lemma StepRuns(t: Table, a: Action, id: nat)
    requires id < |t.streams|
    ensures |Step(t, a).streams| == |t.streams|
    ensures Step(t, a).streams[id].rx == Delivery.Run(t.streams[id].rx, EventsOf(t, a, id))
  {
    if LooksUp(t, a) {
      TouchRuns(t, a, id);
      FoundRuns(t, a, id);
      Delivery.RunAppend(t.streams[id].rx, LookupEvents(t, a, id),
                         if a.id == id then OwnEvents(Touch(t, id), a, Touch(t, id).streams[id]) else []);
    } else {
      Delivery.RunOne(t.streams[id].rx, Delivery.Opening);
    }
  }

  /** In every run of the table the receiving half of each stream runs as a stream by itself does, through
      the arrivals, resets, openings and reads that concern it, with the verdicts of flow control. What is
      proved of every run of one stream thus holds of each stream of a connection. */
  lemma {:induction false} StreamRuns(t: Table, acts: seq<Action>, id: nat)
    requires id < |t.streams|
    ensures id < |Run(t, acts).streams|
    ensures Run(t, acts).streams[id].rx == Delivery.Run(t.streams[id].rx, AllEvents(t, acts, id))
    decreases |acts|
  {
    if acts != [] {
      var u := Step(t, acts[0]);
      StepRuns(t, acts[0], id);
      StreamRuns(u, acts[1..], id);
      Delivery.RunAppend(t.streams[id].rx, EventsOf(t, acts[0], id), AllEvents(u, acts[1..], id));
    }
  }

  /** The edges of the sending state machine (section 3.1 of RFC 9000) and the call each needs. */
  predicate SendEdge(s: SendState, u: SendState, a: Action) {
    match a
    case OpenStream(_) => s == NotOpen && u == Ready
    case StreamFrame(_, _, _) => s == NotOpen && u == Ready
    case BuildStream(_, fin) => (s == Ready || s == Sending) && u == if fin then DataSent else Sending
    case BuildBlocked(_) => s == Ready && u == Sending
    case BuildReset(_) => (s == Ready || s == Sending || s == DataSent) && u == ResetSent
    case AckedFlags(_, fin, reset) =>
      (fin && s == DataSent && u == DataAcked) || (reset && s == ResetSent && u == ResetAcked)
    case StopSending(_) => s != NotOpen && u == NoSend
    case CutStream(_, _) => s == NotOpen && u == Ready
    case CutStop(_) => s != NotOpen && u == NoSend
    case _ => false
  }

  predicate About(t: Table, a: Action, id: nat) {
    match a
    case OpenStream(uni) => IdGen(t, uni) == Some(id)
    case MaxData(_) => false
    case MaxStreams(_, _) => false
    case _ => a.id == id
  }

  ghost predicate OnEdge(t: Table, u: Table, a: Action, id: nat)
    requires id < |t.streams| == |u.streams|
  {
    u.streams[id].send == t.streams[id].send
    || (SendEdge(t.streams[id].send, u.streams[id].send, a) && About(t, a, id))
  }

  /** A call changes the sending state of no stream but the one it is about, and only along an edge. */
  lemma SendEdges(t: Table, a: Action, id: nat)
    requires Inv(t) && id < |t.streams|
    ensures |Step(t, a).streams| == |t.streams| && OnEdge(t, Step(t, a), a, id)
  {
    match a {
      case OpenStream(uni) => OpenEdge(t, uni, id);
      case MaxData(_) =>
      case MaxStreams(_, _) =>
      case SendFlow(other, _) => SendFlowEdge(t, a, id);
      case StreamFrame(other, sd, fin) => FrameEdge(t, a, id);
      case _ => ActionEdge(t, a, id);
    }
  }

  /** And it takes every edge it asks for, if it finds the stream; a stream that cannot receive takes no
      STREAM frame. */
  lemma SendEdgeTaken(t: Table, a: Action, id: nat, to: SendState)
    requires Inv(t) && id < |t.streams| && About(t, a, id) && SendEdge(t.streams[id].send, to, a)
    requires a.OpenStream? || Found(t, a.id)
    requires a.StreamFrame? || a.CutStream? ==> t.streams[id].rx.state != Disabled
    ensures id < |Step(t, a).streams| && Step(t, a).streams[id].send == to
  {
    if a.OpenStream? { OpenedStream(t, a.uni); } else { TouchSend(t, id, id); }
    if a.StreamFrame? {
      FrameEdgeTaken(Touch(t, id), id, a.sd, a.fin);
    } else if !a.OpenStream? {
      ActEdgeTaken(Touch(t, id).streams[id], a, to);
    }
  }

  lemma FrameEdgeTaken(t: Table, id: nat, sd: Seg, fin: bool)
    requires id < |t.streams| && t.streams[id].send == NotOpen && t.streams[id].rx.state != Disabled
    ensures OnStream(t, id, sd, fin).streams[id].send == Ready
  {}

  lemma ActEdgeTaken(s: Inst, a: Action, to: SendState)
    requires SendEdge(s.send, to, a) && !a.OpenStream? && !a.StreamFrame?
    requires a.CutStream? ==> s.rx.state != Disabled
    ensures Act(s, a).send == to
  {}

  lemma OpenEdge(t: Table, uni: bool, id: nat)
    requires Inv(t) && id < |t.streams|
    ensures var u := Open(t, uni).0; |u.streams| == |t.streams| && OnEdge(t, u, OpenStream(uni), id)
  {
    if IdGen(t, uni).Some? { OpensNext(t, uni); }
  }

  lemma SendFlowEdge(t: Table, a: Action, id: nat)
    requires a.SendFlow? && id < |t.streams|
    ensures var u := Step(t, a); |u.streams| == |t.streams| && OnEdge(t, u, a, id)
  {
    TouchSend(t, a.id, id);
  }

  lemma FrameEdge(t: Table, a: Action, id: nat)
    requires a.StreamFrame? && id < |t.streams|
    ensures var u := Step(t, a); |u.streams| == |t.streams| && OnEdge(t, u, a, id)
  {
    TouchSend(t, a.id, id);
  }

  lemma ActionEdge(t: Table, a: Action, id: nat)
    requires !a.OpenStream? && !a.MaxData? && !a.MaxStreams? && !a.SendFlow? && !a.StreamFrame? && id < |t.streams|
    ensures var u := Step(t, a); |u.streams| == |t.streams| && OnEdge(t, u, a, id)
  {
    if Found(t, a.id) {
      TouchSend(t, a.id, id);
      ActEdge(Touch(t, a.id).streams[a.id], a);
    }
  }

  lemma TouchSend(t: Table, other: nat, id: nat)
    requires id < |t.streams|
    ensures |Touch(t, other).streams| == |t.streams| && Touch(t, other).streams[id].send == t.streams[id].send
  {}

  lemma ActEdge(s: Inst, a: Action)
    ensures Act(s, a).send == s.send || SendEdge(s.send, Act(s, a).send, a)
  {}

  ghost predicate FinAcked(acts: seq<Action>, id: nat) {
    exists i, j :: 0 <= i < j < |acts| && acts[i] == BuildStream(id, true)
                   && acts[j].AckedFlags? && acts[j].id == id && acts[j].fin
  }

  ghost predicate AckOf(acts: seq<Action>, id: nat) {
    exists j :: 0 <= j < |acts| && acts[j].AckedFlags? && acts[j].id == id && acts[j].fin
  }

  lemma {:induction false} AckedFromSent(t: Table, acts: seq<Action>, id: nat)
    requires Inv(t) && AllBounded(t, acts) && id < |t.streams| && t.streams[id].send == DataSent
    ensures id < |Run(t, acts).streams| && (Run(t, acts).streams[id].send == DataAcked ==> AckOf(acts, id))
    decreases |acts|
  {
    RunKeeps(t, acts);
    if acts != [] {
      var u := Step(t, acts[0]);
      StepKeeps(t, acts[0]);
      SendEdges(t, acts[0], id);
      if u.streams[id].send == DataSent {
        AckedFromSent(u, acts[1..], id);
        if AckOf(acts[1..], id) { LaterAck(acts, id); }
      } else if u.streams[id].send != DataAcked {
        NotAgain(u, acts[1..], id);
      }
    }
  }

  lemma LaterAck(acts: seq<Action>, id: nat)
    requires acts != [] && AckOf(acts[1..], id)
    ensures AckOf(acts, id)
  {
    var j :| 0 <= j < |acts[1..]| && acts[1..][j].AckedFlags? && acts[1..][j].id == id && acts[1..][j].fin;
    assert acts[j + 1] == acts[1..][j];
  }

  /** Above DATA_SENT only a stream that was acknowledged is in DATA_RECVD. */
  lemma {:induction false} NotAgain(t: Table, acts: seq<Action>, id: nat)
    requires Inv(t) && AllBounded(t, acts) && id < |t.streams|
    requires SendRank(t.streams[id].send) > 3 && t.streams[id].send != DataAcked
    ensures id < |Run(t, acts).streams| && Run(t, acts).streams[id].send != DataAcked
    decreases |acts|
  {
    RunKeeps(t, acts);
    if acts != [] {
      StepKeeps(t, acts[0]);
      SendEdges(t, acts[0], id);
      NotAgain(Step(t, acts[0]), acts[1..], id);
    }
  }

  /** In every run: FIN was sent on the stream, and acknowledged after that. */
  lemma {:induction false} AckedMeansSent(t: Table, acts: seq<Action>, id: nat)
    requires Inv(t) && AllBounded(t, acts) && id < |t.streams| && SendRank(t.streams[id].send) < 3
    ensures id < |Run(t, acts).streams| && (Run(t, acts).streams[id].send == DataAcked ==> FinAcked(acts, id))
    decreases |acts|
  {
    RunKeeps(t, acts);
    if acts != [] {
      var u := Step(t, acts[0]);
      StepKeeps(t, acts[0]);
      SendEdges(t, acts[0], id);
      if SendRank(u.streams[id].send) < 3 {
        AckedMeansSent(u, acts[1..], id);
        if FinAcked(acts[1..], id) { LaterBoth(acts, id); }
      } else if u.streams[id].send == DataSent {
        AckedFromSent(u, acts[1..], id);
        if AckOf(acts[1..], id) { FirstThenAck(acts, id); }
      } else {
        NotAgain(u, acts[1..], id);
      }
    }
  }

  lemma LaterBoth(acts: seq<Action>, id: nat)
    requires acts != [] && FinAcked(acts[1..], id)
    ensures FinAcked(acts, id)
  {
    var i, j :| 0 <= i < j < |acts[1..]| && acts[1..][i] == BuildStream(id, true)
                && acts[1..][j].AckedFlags? && acts[1..][j].id == id && acts[1..][j].fin;
    assert acts[i + 1] == acts[1..][i] && acts[j + 1] == acts[1..][j];
  }

  lemma FirstThenAck(acts: seq<Action>, id: nat)
    requires acts != [] && acts[0] == BuildStream(id, true) && AckOf(acts[1..], id)
    ensures FinAcked(acts, id)
  {
    var j :| 0 <= j < |acts[1..]| && acts[1..][j].AckedFlags? && acts[1..][j].id == id && acts[1..][j].fin;
    assert acts[j + 1] == acts[1..][j];
  }

  /** The identifiers QuicStreamOpen hands out in a run. */
  function OpenedIds(t: Table, acts: seq<Action>): seq<nat>
    decreases |acts|
  {
    if acts == [] then []
    else
      var id := if acts[0].OpenStream? then Open(t, acts[0].uni).1 else None;
      (if id.Some? then [id.value] else []) + OpenedIds(Step(t, acts[0]), acts[1..])
  }

  /** An identifier of this endpoint that was never opened. */
  ghost predicate Unused(t: Table, id: nat) {
    && id < |t.streams| && id % 4 == KindBits(IsUni(id), t.server)
    && !PeerOpened(id, t.server) && t.streams[id].send == NotOpen
  }

  lemma UnusedBefore(t: Table, u: Table, ids: seq<nat>)
    requires Rises(t, u) && forall id :: id in ids ==> Unused(u, id)
    ensures forall id :: id in ids ==> Unused(t, id)
  {
    forall id | id in ids ensures Unused(t, id) {
      assert InstRises(t.streams[id], u.streams[id]);
    }
  }

  ghost predicate Distinct(ids: seq<nat>) {
    ids == [] || (ids[0] !in ids[1..] && Distinct(ids[1..]))
  }

  /** They carry the right low bits, lie in the table, were never opened before, and are distinct. */
  lemma {:induction false} IdsDistinct(t: Table, acts: seq<Action>)
    requires Inv(t) && AllBounded(t, acts)
    ensures Distinct(OpenedIds(t, acts)) && forall id :: id in OpenedIds(t, acts) ==> Unused(t, id)
    decreases |acts|
  {
    if acts != [] {
      var a, u := acts[0], Step(t, acts[0]);
      var more := OpenedIds(u, acts[1..]);
      StepKeeps(t, a);
      IdsDistinct(u, acts[1..]);
      UnusedBefore(t, u, more);
      if a.OpenStream? && IdGen(t, a.uni).Some? {
        var id := IdGen(t, a.uni).value;
        OpensNext(t, a.uni);
        assert u.streams[id].send == Ready && !Unused(u, id);
        assert ([id] + more)[1..] == more;
      } else {
        assert [] + more == more;
      }
    }
  }

  /** What is opened: ready to send up to the peer's limit for its kind, and to receive if it is
      bidirectional; nothing else changes. */
  lemma OpenedStream(t: Table, uni: bool)
    requires Inv(t) && IdGen(t, uni).Some?
    ensures var u, id := Open(t, uni).0, IdGen(t, uni).value;
            && id < |u.streams| == |t.streams|
            && u.streams[id].send == Ready && u.streams[id].maxData == (if uni then t.peer.dataUni else t.peer.dataBidi)
            && (uni ==> u.streams[id].rx.state == Disabled) && (!uni ==> u.streams[id].rx.state != Start)
            && forall i :: 0 <= i < |t.streams| && i != id ==> u.streams[i] == t.streams[i]
  {
    OpensNext(t, uni);
    assert InstOk(t, IdGen(t, uni).value, t.streams[IdGen(t, uni).value]);
  }

  /** The length of the table, for any parameters below 2^29. */
  function TableLength(own: Params, peer: Params, server: bool): nat {
    Max(MaxId(Max(own.streamsBidi, peer.streamsBidi), false, server),
        MaxId(Max(own.streamsUni, peer.streamsUni), true, server))
  }

  ghost predicate Below29(p: Params) { p.streamsBidi < 0x2000_0000 && p.streamsUni < 0x2000_0000 }

  lemma TableLengthIs(own: Params, peer: Params, server: bool)
    requires Below29(own) && Below29(peer)
    ensures |Init(server, own, peer).streams| == TableLength(own, peer, server)
  {
    var b, u := Max(own.streamsBidi, peer.streamsBidi), Max(own.streamsUni, peer.streamsUni);
    assert QuicMax(own.streamsBidi, peer.streamsBidi) == b && QuicMax(own.streamsUni, peer.streamsUni) == u;
    assert b % TWO32 == b && u % TWO32 == u;
  }

  /** How many streams of a kind a table of this length has. */
  function Room(length: nat, uni: bool, server: bool): nat {
    if length <= KindBits(uni, server) then 0 else (length - KindBits(uni, server) + 3) / 4
  }

  /** The stream with index `k` can be opened if and only if the peer grants it and it has a place. */
  lemma RoomIff(t: Table, uni: bool)
    ensures IdGen(t, uni).Some? <==>
            Alloced(t, uni) < PeerLimit(t, uni) && Alloced(t, uni) < Room(|t.streams|, uni, t.server)
  {}

  /** So all streams the peer granted at the start can be opened exactly if the table has that many
      places, and it mostly does not. */
  lemma AllOpenIff(own: Params, peer: Params, uni: bool, server: bool)
    requires Below29(own) && Below29(peer)
    ensures var t, granted := Init(server, own, peer), if uni then peer.streamsUni else peer.streamsBidi;
            (forall k: nat :: k < granted ==> Opens(t, uni, k)) <==>
            granted <= Room(TableLength(own, peer, server), uni, server)
  {
    TableLengthIs(own, peer, server);
    var t, granted := Init(server, own, peer), if uni then peer.streamsUni else peer.streamsBidi;
    var room := Room(|t.streams|, uni, server);
    forall k: nat ensures Opens(t, uni, k) <==> k < granted && k < room {
      RoomIff(WithOpened(t, uni, k), uni);
    }
    if granted > room { assert !Opens(t, uni, room); }
  }

  function WithOpened(t: Table, uni: bool, k: nat): Table { if uni then t.(uni := k) else t.(bidi := k) }

  /** With `k` streams of the kind open already, one more can be opened. */
  ghost predicate Opens(t: Table, uni: bool, k: nat) { IdGen(WithOpened(t, uni, k), uni).Some? }

  /** With the same `n` granted for both kinds by both sides, the places are about half of `n`. */
  lemma RoomForHalf(n: nat, uni: bool, server: bool)
    requires n < 0x2000_0000
    ensures var p := Params(n, n, 0, 0, 0, 0); var room := Room(|Init(server, p, p).streams|, uni, server);
            n / 4 * 2 <= room <= n / 4 * 2 + 1
  {
    var p := Params(n, n, 0, 0, 0, 0);
    TableLengthIs(p, p, server);
    MaxIdParts(n, false, server);
    MaxIdParts(n, true, server);
    RoomOf(n / 4, TableLength(p, p, server) - n / 4 * 8, uni, server);
  }

  /** The largest identifier, bit by bit: the two low bits of the count with those of the kind set, and the
      rest of the count moved up by one more place than it should be. */
  lemma MaxIdBits(n: nat, uni: bool, server: bool)
    ensures var m := MaxId(n, uni, server);
            && (m % 2 == 1 <==> n % 2 == 1 || server) && (m / 2 % 2 == 1 <==> n / 2 % 2 == 1 || uni)
            && m / 4 % 2 == 0 && m / 8 == n / 4
  {
    var k, b := n / 4, n % 4;
    var o := MaxId(n, uni, server) - 8 * k;
    assert 0 <= o < 4;
    assert n % 2 == b % 2 && n / 2 % 2 == b / 2 % 2;
    Eights(k, o);
    if b == 0 {
    } else if b == 1 {
    } else if b == 2 {
    } else {
    }
  }

  lemma Eights(k: nat, o: nat)
    requires o < 4
    ensures var m := 8 * k + o; m % 2 == o % 2 && m / 2 % 2 == o / 2 && m / 4 % 2 == 0 && m / 8 == k
  {
    Doubles(4 * k, o);
    Doubles(2 * k, o / 2);
    Doubles(k, 0);
  }

  lemma Doubles(x: nat, o: nat)
    ensures (2 * x + o) / 2 == x + o / 2 && (2 * x + o) % 2 == o % 2
  {}

  lemma MaxIdParts(n: nat, uni: bool, server: bool)
    ensures n / 4 * 8 + KindBits(uni, server) <= MaxId(n, uni, server) <= n / 4 * 8 + 3
  {
    assert n - n % 4 == n / 4 * 4;
  }

  lemma RoomOf(m: nat, c: nat, uni: bool, server: bool)
    requires KindBits(uni, server) <= c <= 3
    ensures m * 2 <= Room(m * 8 + c, uni, server) <= m * 2 + 1
  {}

  /** With two streams of each kind granted a client can open no unidirectional stream. */
  lemma RoomCounterexample()
    ensures var p := Params(2, 2, 0, 0, 0, 0); IdGen(Init(false, p, p), true) == None
  {
    TableLengthIs(Params(2, 2, 0, 0, 0, 0), Params(2, 2, 0, 0, 0, 0), false);
  }

  /** A stream that was just opened is found exactly when it lies below the endpoint's own limit. */
  lemma OpenedUsableIff(t: Table, uni: bool)
    requires Inv(t) && IdGen(t, uni).Some?
    ensures var id := IdGen(t, uni).value;
            Found(Open(t, uni).0, id) <==>
            id < MaxId(if uni then t.own.streamsUni else t.own.streamsBidi, uni, t.server)
  {
    OpensNext(t, uni);
  }

  /** FIN on the first frame of a stream is recorded exactly when the stream is not number 0: that
      one is not opened on the way, and the parser looks at FIN before it opens it. */
  lemma FirstFinIff(t: Table, id: nat, sd: Seg)
    requires Inv(t) && Found(t, id) && t.streams[id].rx.state == Start
    ensures var st := Step(t, StreamFrame(id, sd, true)).streams[id].rx.state;
            && (st == SizeKnown || st == DataRecvd <==> id > 0)
            && (id == 0 ==> st == Recv)
  {
    TouchKeeps(t, id);
    assert InstOk(t, id, t.streams[id]);
  }

  /** MAX_STREAM_DATA for a stream the endpoint only sends on is refused, whatever it says: such a
      stream keeps the limit it was opened with through every run. */
  lemma {:induction false} SendOnlyLimitStays(t: Table, acts: seq<Action>, id: nat)
    requires Inv(t) && AllBounded(t, acts) && id < |t.streams|
    requires t.streams[id].local && t.streams[id].uni && t.streams[id].send != NotOpen
    ensures id < |Run(t, acts).streams| && Run(t, acts).streams[id].maxData == t.streams[id].maxData
    decreases |acts|
  {
    if acts != [] {
      var a, u := acts[0], Step(t, acts[0]);
      StepKeeps(t, a);
      assert InstRises(t.streams[id], u.streams[id]) && InstOk(t, id, t.streams[id]) && InstOk(u, id, u.streams[id]);
      LimitStays(t, a, id);
      SendOnlyLimitStays(u, acts[1..], id);
    }
  }

  /** A limit moves only when the stream is opened, and by MAX_STREAM_DATA. */
  lemma LimitStays(t: Table, a: Action, id: nat)
    requires Inv(t) && id < |t.streams|
    requires !t.streams[id].local || t.streams[id].send != NotOpen
    requires a.MaxStreamData? && a.id == id ==> t.streams[id].rx.state == Disabled
    ensures |Step(t, a).streams| == |t.streams| && Step(t, a).streams[id].maxData == t.streams[id].maxData
  {
    match a {
      case OpenStream(uni) => OpenLimit(t, uni, id);
      case MaxData(_) =>
      case MaxStreams(_, _) =>
      case SendFlow(_, _) => FrameLimit(t, a, id);
      case StreamFrame(_, _, _) => FrameLimit(t, a, id);
      case _ => ActionLimit(t, a, id);
    }
  }

  lemma OpenLimit(t: Table, uni: bool, id: nat)
    requires Inv(t) && id < |t.streams| && (!t.streams[id].local || t.streams[id].send != NotOpen)
    ensures var u := Open(t, uni).0; |u.streams| == |t.streams| && u.streams[id].maxData == t.streams[id].maxData
  {
    assert InstOk(t, id, t.streams[id]);
    if IdGen(t, uni).Some? { OpensNext(t, uni); }
  }

  lemma FrameLimit(t: Table, a: Action, id: nat)
    requires (a.StreamFrame? || a.SendFlow?) && id < |t.streams|
    ensures var u := Step(t, a); |u.streams| == |t.streams| && u.streams[id].maxData == t.streams[id].maxData
  {
    TouchMax(t, a.id, id);
  }

  lemma ActionLimit(t: Table, a: Action, id: nat)
    requires !a.OpenStream? && !a.MaxData? && !a.MaxStreams? && !a.SendFlow? && !a.StreamFrame? && id < |t.streams|
    requires a.MaxStreamData? && a.id == id ==> t.streams[id].rx.state == Disabled
    ensures var u := Step(t, a); |u.streams| == |t.streams| && u.streams[id].maxData == t.streams[id].maxData
  {
    if Found(t, a.id) {
      TouchMax(t, a.id, id);
      if a.id == id { ActLimit(Touch(t, id).streams[id], a); }
    }
  }

  lemma TouchMax(t: Table, other: nat, id: nat)
    requires id < |t.streams|
    ensures var u := Touch(t, other).streams;
            && |u| == |t.streams| && u[id].maxData == t.streams[id].maxData
            && (t.streams[id].rx.state == Disabled ==> u[id].rx.state == Disabled)
  {}

  lemma ActLimit(s: Inst, a: Action)
    requires a.MaxStreamData? ==> s.rx.state == Disabled
    ensures Act(s, a).maxData == s.maxData
  {}

  /** On any other stream that is found it sets the limit to the larger value exactly if the macro sees
      the two in their order. */
  lemma MaxStreamDataRaisesIff(t: Table, id: nat, max: nat)
    requires Inv(t) && Found(t, id)
    ensures var s, r := Touch(t, id).streams[id], Step(t, MaxStreamData(id, max)).streams[id];
            if s.rx.state == Disabled || s.rx.state == Start then r.maxData == s.maxData
            else r.maxData == Max(s.maxData, max) <==> (s.maxData < max <==> (s.maxData - max) % TWO32 >= TWO31)
  {
    TouchKeeps(t, id);
    LimitTaken(Touch(t, id).streams[id], id, max);
  }

  lemma LimitTaken(s: Inst, id: nat, max: nat)
    ensures var r := Act(s, MaxStreamData(id, max));
            if s.rx.state == Disabled || s.rx.state == Start then r.maxData == s.maxData
            else r.maxData == Max(s.maxData, max) <==> (s.maxData < max <==> (s.maxData - max) % TWO32 >= TWO31)
  {}

  /** MAX_DATA and MAX_STREAMS never lower a limit exactly if the macro does not take a smaller value for
      a larger one; then they set it to the larger of the two unless that is too far ahead. */
  lemma RaisedIff(was: nat, max: nat)
    ensures Raised(was, max) >= was <==> max >= was || !Over(max - was)
    ensures Raised(was, max) == Max(was, max) <==> (max > was <==> Over(max - was))
  {
    MacroAgreesIff(max, was);
  }

  /** In every reachable table a lookup finds exactly the streams that the peer may open, and of the others
      those that were opened and lie below the endpoint's own limit; in each case within the table. */
  lemma FoundIff(t: Table, id: nat)
    requires Inv(t)
    ensures Found(t, id) <==>
            id < |t.streams| &&
            (id % 2 == (if t.server then 0 else 1) ||
             (id / 4 < Alloced(t, IsUni(id)) &&
              id < MaxId(if IsUni(id) then t.own.streamsUni else t.own.streamsBidi, IsUni(id), t.server)))
  {
    if id < |t.streams| { assert InstOk(t, id, t.streams[id]); }
  }

  /** A frame that names a larger limit, by less than 2^31, sets that limit and nothing else; one that names a
      smaller one, by at most 2^31, changes nothing. */
  lemma LimitFrames(t: Table, uni: bool, max: nat)
    ensures var d := max - t.peer.data;
            && (0 < d < TWO31 ==> Step(t, MaxData(max)) == t.(peer := t.peer.(data := max)))
            && (-TWO31 <= d <= 0 ==> Step(t, MaxData(max)) == t)
    ensures var d, u := max - PeerLimit(t, uni), Step(t, MaxStreams(uni, max));
            && (0 < d < TWO31 ==> PeerLimit(u, uni) == max && PeerLimit(u, !uni) == PeerLimit(t, !uni)
                                  && u == t.(peer := t.peer.(streamsUni := u.peer.streamsUni,
                                                             streamsBidi := u.peer.streamsBidi)))
            && (-TWO31 <= d <= 0 ==> u == t)
  {}

  /** A frame that names 1 lowers a limit of 2^31 + 5. */
  lemma LoweredCounterexample()
    ensures Raised(TWO31 + 5, 1) == 1
  {
    MacroAgreesIff(1, TWO31 + 5);
  }

  // ---------------------------------------------------------------- the send limits

  /** The remainder at which the macro says that a count is above its limit. */
  predicate Over(excess: int) { 0 < excess % TWO32 < TWO31 }

  /** What flow control allows, exactly. */
  lemma SendAllowedIff(t: Table, s: Inst, len: nat)
    ensures SendAllowed(t, s, len) <==> !Over(s.sent + len - s.maxData) && !Over(t.sent + len - t.peer.data)
  {
    MacroAgreesIff(s.sent + len, s.maxData);
    MacroAgreesIff(t.sent + len, t.peer.data);
  }

  predicate SendPermitted(t: Table, s: Inst, len: nat) { s.sent + len <= s.maxData && t.sent + len <= t.peer.data }

  /** It never allows more than both limits permit; it allows all that they permit exactly if neither
      limit is so far ahead that the macro takes it for passed. */
  lemma SendRightIff(t: Table, s: Inst, len: nat)
    requires s.sent <= s.maxData && t.sent <= t.peer.data && len < TWO31
    ensures SendAllowed(t, s, len) ==> SendPermitted(t, s, len)
    ensures (SendAllowed(t, s, len) <==> SendPermitted(t, s, len)) <==>
            (SendPermitted(t, s, len) ==> !Over(s.sent + len - s.maxData) && !Over(t.sent + len - t.peer.data))
    ensures s.maxData - s.sent <= TWO31 && t.peer.data - t.sent <= TWO31 ==>
            (SendAllowed(t, s, len) <==> SendPermitted(t, s, len))
  {
    SendAllowedIff(t, s, len);
  }

  /** A peer that grants more than 2^31 bytes has the first one refused. */
  lemma RefusedCounterexample()
    ensures var s := Inst(Stream(Recv, 0, []), Ready, true, false, TWO31 + 2, 0, 0);
            var p := Params(1, 1, TWO31 + 2, TWO31 + 2, 0, 0);
            var t := Table(false, [s], 1, 0, 0, 0, 0, p, p);
            SendPermitted(t, s, 1) && !SendAllowed(t, s, 1)
  {
    var s := Inst(Stream(Recv, 0, []), Ready, true, false, TWO31 + 2, 0, 0);
    var p := Params(1, 1, TWO31 + 2, TWO31 + 2, 0, 0);
    SendAllowedIff(Table(false, [s], 1, 0, 0, 0, 0, p, p), s, 1);
  }

  /** A bidirectional stream that the peer opened starts with no limit of its own: until MAX_STREAM_DATA
      raises it, nothing can be sent on it, whatever the peer's parameters say. */
  lemma {:induction false} PeerStreamNeedsGrant(t: Table, acts: seq<Action>, id: nat, len: nat)
    requires Inv(t) && AllBounded(t, acts) && id < |t.streams| && 0 < len < TWO31
    requires !t.streams[id].local && t.streams[id].maxData == 0
    requires forall a :: a in acts ==> !(a.MaxStreamData? && a.id == id)
    ensures var u := Run(t, acts); id < |u.streams| && u.streams[id].maxData == 0 && !SendAllowed(u, u.streams[id], len)
    decreases |acts|
  {
    assert InstOk(t, id, t.streams[id]);
    if acts != [] {
      var a, u := acts[0], Step(t, acts[0]);
      StepKeeps(t, a);
      assert a in acts && InstOk(u, id, u.streams[id]);
      LimitStays(t, a, id);
      PeerStreamNeedsGrant(u, acts[1..], id, len);
    }
  }

  // ---------------------------------------------------------------- the receive limits

  lemma RecvAllowedIff(t: Table, s: Inst, len: nat)
    ensures RecvAllowed(t, s, len) <==>
            !(s.local && s.uni) && !Over(s.recvd + len - RecvLimit(t, s)) && !Over(t.recvd + len - t.peer.data)
  {
    MacroAgreesIff(s.recvd + len, RecvLimit(t, s));
    MacroAgreesIff(t.recvd + len, t.peer.data);
  }

  /** What this endpoint advertised for a stream (section 18.2 of RFC 9000). */
  function Advertised(t: Table, s: Inst): nat {
    if s.local then t.own.dataBidiLocal else if s.uni then t.own.dataUni else t.own.dataBidi
  }

  /** How many more bytes flow control takes on a stream, where the macros are exact. */
  function Takes(t: Table, s: Inst): int { Min(RecvLimit(t, s) - s.recvd, t.peer.data - t.recvd) }

  lemma TakesIs(t: Table, s: Inst, len: nat)
    requires !(s.local && s.uni) && s.recvd <= RecvLimit(t, s) < TWO31 && t.recvd <= t.peer.data < TWO31 && len < TWO31
    ensures RecvAllowed(t, s, len) <==> len <= Takes(t, s)
  {}

  /** A stream stays within what was advertised for it, whatever comes next, exactly if the limit the
      code compares with is not ahead of that, or the connection limit bites first. */
  lemma StreamAdvertisedIff(t: Table, s: Inst)
    requires !(s.local && s.uni) && s.recvd <= RecvLimit(t, s) < TWO31 && t.recvd <= t.peer.data < TWO31
    ensures (forall n: nat :: n < TWO31 && RecvAllowed(t, s, n) ==> s.recvd + n <= Advertised(t, s)) <==>
            s.recvd + Takes(t, s) <= Advertised(t, s)
  {
    forall n: nat | n < TWO31 ensures RecvAllowed(t, s, n) <==> n <= Takes(t, s) { TakesIs(t, s, n); }
    assert RecvAllowed(t, s, Takes(t, s));
  }

  /** The connection stays within what was advertised exactly if the peer's own limit is not ahead of
      that, or the stream's limit bites first. */
  lemma ConnectionAdvertisedIff(t: Table, s: Inst)
    requires !(s.local && s.uni) && s.recvd <= RecvLimit(t, s) < TWO31 && t.recvd <= t.peer.data < TWO31
    ensures (forall n: nat :: n < TWO31 && RecvAllowed(t, s, n) ==> t.recvd + n <= t.own.data) <==>
            t.recvd + Takes(t, s) <= t.own.data
  {
    forall n: nat | n < TWO31 ensures RecvAllowed(t, s, n) <==> n <= Takes(t, s) { TakesIs(t, s, n); }
    assert RecvAllowed(t, s, Takes(t, s));
  }

  /** In every reachable table the advertised limits are kept if the peer's parameters are not above
      them, and for streams only the peer sends on they always are. */
  lemma AdvertisedKept(t: Table, i: nat)
    requires Inv(t) && i < |t.streams|
    ensures t.peer.data <= t.own.data ==> t.recvd <= t.own.data
    ensures RecvLimit(t, t.streams[i]) <= Advertised(t, t.streams[i]) ==>
            t.streams[i].recvd <= Advertised(t, t.streams[i])
    ensures !t.streams[i].local && t.streams[i].uni ==> t.streams[i].recvd <= t.own.dataUni
  {
    assert InstOk(t, i, t.streams[i]);
  }

  /** An endpoint that advertised nothing takes five bytes from a peer that allows itself nine. */
  lemma AdvertisedCounterexample()
    ensures var s := Inst(Stream(Recv, 0, []), Ready, false, false, 0, 0, 0);
            var t := Table(true, [s], 0, 0, 0, 0, 0, Params(1, 1, 0, 0, 0, 0), Params(1, 1, 9, 9, 9, 9));
            RecvAllowed(t, s, 5) && t.recvd + 5 > t.own.data && s.recvd + 5 > Advertised(t, s)
  {}

  lemma SetThenAdd(t: Table, id: nat, o: Inst, sd: Seg)
    requires id < |t.streams| && o.recvd == t.streams[id].recvd
    ensures var r := AddData(Set(t, id, o), o, sd);
            && r == AddData(t, o, sd)
            && Set(Set(t, id, o), id, r).(recvd := t.recvd + (r.recvd - o.recvd)) ==
               Set(t, id, r).(recvd := t.recvd + (r.recvd - o.recvd))
  {
    AddDataSame(Set(t, id, o), t, o, sd);
    SetTwice(t, id, o, AddData(t, o, sd));
  }

  /** What arrives on a stream depends on the rest of the table only by its limits and its count. */
  lemma AddDataSame(t: Table, u: Table, s: Inst, sd: Seg)
    requires t.own == u.own && t.peer == u.peer && t.recvd == u.recvd
    ensures AddData(t, s, sd) == AddData(u, s, sd)
  {}

  lemma SetTwice(t: Table, id: nat, o: Inst, r: Inst)
    requires id < |t.streams|
    ensures Set(Set(t, id, o), id, r) == Set(t, id, r)
  {
    assert t.streams[id := o][id := r] == t.streams[id := r];
  }

  // ---------------------------------------------------------------- the object

  /** QuicStreamConf with its array. */
  class StreamTable {
    const server: bool
    var streams: seq<Inst>
    var bidi: nat
    var uni: nat
    var maxOpened: nat
    var sent: nat
    var recvd: nat
    var own: Params
    var peer: Params

    function Abs(): Table
      reads this
    { Table(server, streams, bidi, uni, maxOpened, sent, recvd, own, peer) }

    /** QuicStreamInit */
    constructor (server: bool, own: Params, peer: Params)
      ensures Abs() == Init(server, own, peer)
    {
      var b := QuicMax(own.streamsBidi, peer.streamsBidi) % TWO32;
      var u := QuicMax(own.streamsUni, peer.streamsUni) % TWO32;
      var m := QuicMax(MaxId(b, false, server), MaxId(u, true, server));
      var id, ss := 0, [];
      while id < m
        invariant id == |ss| <= m && forall i :: 0 <= i < id ==> ss[i] == Fresh(i, server)
      {
        ss := ss + [Fresh(id, server)];
        id := id + 1;
      }
      this.server, streams, bidi, uni, maxOpened := server, ss, 0, 0, 0;
      sent, recvd, this.own, this.peer := 0, 0, own, peer;
    }

    /** QuicStreamIdGen */
    method GenId(uniStream: bool) returns (id: Option<nat>)
      modifies this`bidi, this`uni
      ensures id == IdGen(old(Abs()), uniStream)
      ensures bidi == old(bidi) + (if id.Some? && !uniStream then 1 else 0)
      ensures uni == old(uni) + (if id.Some? && uniStream then 1 else 0)
    {
      var n := if uniStream then uni else bidi;
      var limit := if uniStream then peer.streamsUni else peer.streamsBidi;
      if n >= limit { return None; }
      var i := n * 4 + KindBits(uniStream, server);
      if i >= |streams| { return None; }
      if uniStream { uni := uni + 1; } else { bidi := bidi + 1; }
      id := Some(i);
    }

    /** QuicStreamOpen, with its assertion. */
    method OpenStream(uniStream: bool) returns (id: Option<nat>)
      requires Inv(Abs())
      modifies this
      ensures (Abs(), id) == Open(old(Abs()), uniStream)
    {
      ghost var t := Abs();
      id := GenId(uniStream);
      if id.None? { return; }
      NotOpenYet(t, uniStream);
      var s := streams[id.value];
      assert s.send == NotOpen;
      s := s.(send := Ready);
      if uniStream {
        s := s.(maxData := peer.dataUni);
      } else {
        s := RecvOpen(s.(maxData := peer.dataBidi));
      }
      streams := streams[id.value := s];
    }

    /** QuicStreamGetInstance */
    method GetInstance(id: nat) returns (found: bool)
      modifies this`streams, this`maxOpened
      ensures found == Found(old(Abs()), id) && Abs() == Touch(old(Abs()), id)
    {
      found := IdCheck(Abs(), id);
      if !found { return; }
      if !PeerOpened(id, server) && streams[id].send == NotOpen { return false; }
      if id > maxOpened {
        var i := maxOpened + 1;
        while i <= id
          invariant maxOpened == old(maxOpened) && maxOpened < i <= id + 1 && |streams| == |old(streams)|
          invariant forall j :: 0 <= j < |streams| ==>
                      streams[j] == if maxOpened < j < i then RecvOpen(old(streams[j])) else old(streams[j])
        {
          streams := streams[i := RecvOpen(streams[i])];
          i := i + 1;
        }
        assert streams == Touch(old(Abs()), id).streams;
        maxOpened := id;
      }
    }

    /** QuicStreamSendFlowCtrl */
    method SendFlowCtrl(id: nat, len: nat) returns (ok: bool)
      modifies this
      ensures Abs() == Step(old(Abs()), SendFlow(id, len))
      ensures ok <==> len == 0 || !Found(old(Abs()), id)
                      || SendAllowed(old(Abs()), Touch(old(Abs()), id).streams[id], len)
    {
      if len == 0 { return true; }
      var found := GetInstance(id);
      if !found { return true; }
      ok := Charge(id, len);
    }

    /** The two tests, and the counts if both pass. */
    method Charge(id: nat, len: nat) returns (ok: bool)
      requires id < |streams|
      modifies this`streams, this`sent
      ensures ok == SendAllowed(old(Abs()), old(streams[id]), len)
      ensures Abs() == if ok then Charged(old(Abs()), id, len) else old(Abs())
    {
      var s := streams[id];
      if QuicGt(s.sent + len, s.maxData) || QuicGt(sent + len, peer.data) { return false; }
      streams := streams[id := s.(sent := s.sent + len)];
      sent := sent + len;
      ok := true;
    }

    /** QuicStreamRecvFlowCtrl */
    method RecvFlowCtrl(id: nat, len: nat) returns (ok: bool)
      requires id < |streams|
      modifies this`streams, this`recvd
      ensures ok == RecvAllowed(old(Abs()), old(streams[id]), len)
      ensures var s := old(streams[id]);
              Abs() == if ok then Set(old(Abs()), id, s.(recvd := s.recvd + len)).(recvd := old(recvd) + len)
                       else old(Abs())
    {
      var s := streams[id];
      if s.local && s.uni { return false; }
      var limit := if s.local then own.dataBidi else if s.uni then own.dataUni else peer.dataBidi;
      if QuicGt(s.recvd + len, limit) || QuicGt(recvd + len, peer.data) { return false; }
      streams := streams[id := s.(recvd := s.recvd + len)];
      recvd := recvd + len;
      ok := true;
    }

    /** QuicFrameStreamParser once the frame is read. */
    method StreamParser(id: nat, sd: Seg, fin: bool) returns (ok: bool)
      modifies this
      ensures Abs() == Step(old(Abs()), StreamFrame(id, sd, fin))
      ensures ok <==> Found(old(Abs()), id) && Touch(old(Abs()), id).streams[id].rx.state != Disabled
    {
      ok := GetInstance(id);
      if !ok { return; }
      ok := TakeFrame(id, sd, fin);
    }

    /** The part of the parser that follows the lookup. */
    method TakeFrame(id: nat, sd: Seg, fin: bool) returns (ok: bool)
      requires id < |streams|
      modifies this`streams, this`recvd
      ensures Abs() == OnStream(old(Abs()), id, sd, fin) && ok == (old(streams[id]).rx.state != Disabled)
    {
      var s := streams[id];
      if s.rx.state == Disabled {
        assert streams == streams[id := s];
        return false;
      }
      if s.send == NotOpen { s := s.(send := Ready); }
      var accepts := Accepts(s.rx);
      s := s.(rx := Opened(s.rx, fin));
      streams := streams[id := s];
      if accepts {
        SetThenAdd(old(Abs()), id, s, sd);
        DataAdd(id, sd);
      }
      ok := true;
    }

    method DataAdd(id: nat, sd: Seg)
      requires id < |streams|
      modifies this`streams, this`recvd
      ensures var s := old(streams[id]); var r := AddData(old(Abs()), s, sd);
              Abs() == Set(old(Abs()), id, r).(recvd := old(recvd) + (r.recvd - s.recvd))
    {
      var s := streams[id];
      var w := Wanted(s.rx, sd);
      var ok := w.Some?;
      if ok { ok := RecvFlowCtrl(id, |w.value.data|); }
      streams := streams[id := streams[id].(rx := Add(s.rx, sd, ok))];
    }

    /** The other frames and builders look the stream up and change it alone. */
    method Apply(a: Action) returns (found: bool)
      requires !a.OpenStream? && !a.MaxData? && !a.MaxStreams? && !a.SendFlow? && !a.StreamFrame?
      modifies this
      ensures found == Found(old(Abs()), a.id) && Abs() == Step(old(Abs()), a)
    {
      found := GetInstance(a.id);
      if !found { return; }
      var s := Changed(streams[a.id], a);
      streams := streams[a.id := s];
    }

    /** The assignments to the fields of the stream. */
    static method Changed(was: Inst, a: Action) returns (s: Inst)
      ensures s == Act(was, a)
    {
      s := was;
      match a {
        case ResetFrame(_) =>
          if s.rx.state == Recv || s.rx.state == SizeKnown || s.rx.state == Receiving.DataRecvd {
            s := s.(rx := s.rx.(state := ResetRecvd));
          }
        case StopSending(_) =>
          if s.send != NotOpen && s.send != NoSend {
            s := s.(send := NoSend);
            if s.rx.state == Start { s := s.(rx := s.rx.(state := Recv)); }
          }
        case CutStream(_, fin) =>
          if s.rx.state != Disabled {
            if s.send == NotOpen { s := s.(send := Ready); }
            if fin && s.rx.state == Recv { s := s.(rx := s.rx.(state := SizeKnown)); }
          }
        case CutStop(_) =>
          if s.send != NotOpen && s.send != NoSend { s := s.(send := NoSend); }
        case BlockedFrame(_) =>
          if s.rx.state == Start { s := s.(rx := s.rx.(state := Recv)); }
        case MaxStreamData(_, max) =>
          if s.rx.state != Disabled && s.rx.state != Start && QuicLt(s.maxData, max) { s := s.(maxData := max); }
        case BuildStream(_, fin) =>
          if s.send == Ready { s := s.(send := Sending); }
          if fin && s.send == Sending { s := s.(send := DataSent); }
        case BuildReset(_) =>
          if s.send == Ready || s.send == Sending || s.send == DataSent { s := s.(send := ResetSent); }
        case BuildBlocked(_) =>
          if s.send == Ready { s := s.(send := Sending); }
        case AckedFlags(_, fin, reset) =>
          if fin && s.send == DataSent { s := s.(send := DataAcked); }
          if reset && s.send == ResetSent { s := s.(send := ResetAcked); }
        case ReadCall(_, len) =>
          s := s.(rx := Read(s.rx, len).s);
        case _ =>
      }
    }

    /** QuicFrameMaxDataParser and QuicFrameMaxStreams...Parser */
    method RaiseParam(a: Action)
      requires a.MaxData? || a.MaxStreams?
      modifies this`peer
      ensures Abs() == Step(old(Abs()), a)
    {
      match a {
        case MaxData(max) => if QuicGt(max, peer.data) { peer := peer.(data := max); }
        case MaxStreams(u, max) =>
          if u && QuicGt(max, peer.streamsUni) { peer := peer.(streamsUni := max); }
          if !u && QuicGt(max, peer.streamsBidi) { peer := peer.(streamsBidi := max); }
      }
    }
  }
}
