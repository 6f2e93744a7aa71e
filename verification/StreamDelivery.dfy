/** The receiving half of a stream: QuicFrameStreamParser, QuicFrameResetStreamParser,
    QuicStreamDataAdd and QuicStreamReadData (quic/frame.c:290-328, 482-528 and
    quic/stream.c:386-440, 670-748). */
module Receiving {
  import opened Common
  import opened Bytes

  datatype RecvState = Disabled | Start | Recv | SizeKnown | DataRecvd | ResetRecvd | DataRead

  /** QuicStreamData: the bytes stand at `at` in the datagram buffer `src`. */
  datatype Seg = Seg(offset: nat, data: Str, src: nat, at: nat) {
    function End(): nat { offset + |data| }

    /** The data pointer and the length move; the offset does not. */
    function Skip(n: nat): Seg
      requires n <= |data|
    { this.(data := data[n..], at := at + n) }
  }

  /** The receiving fields of QuicStreamInstance. */
  datatype Stream = Stream(state: RecvState, offset: nat, queue: seq<Seg>)

  /** QuicStreamOrdered */
  predicate Ordered(q: seq<Seg>, start: nat) {
    q == [] || (q[0].offset == start && Ordered(q[1..], q[0].End()))
  }

  /** What of a segment goes through flow control into the queue. */
  function Wanted(s: Stream, sd: Seg): Option<Seg> {
    if s.offset >= sd.End() then None
    else if s.offset <= sd.offset then Some(sd)
    else Some(sd.Skip(s.offset - sd.offset).(offset := s.offset))
  }

  /** QuicStreamDataAdd; `allowed` is what flow control says. Only a segment that starts at or below
      the read offset can complete the stream. */
  function Add(s: Stream, sd: Seg, allowed: bool): Stream {
    var w := Wanted(s, sd);
    if w.None? || !allowed then s
    else
      var q := s.queue + [w.value];
      s.(queue := q,
         state := if sd.offset <= s.offset && (s.state == SizeKnown || s.state == ResetRecvd) && Ordered(q, s.offset)
                  then DataRecvd else s.state)
  }

  /** The states in which QuicFrameStreamParser leaves the data to QuicStreamDataAdd. */
  predicate Accepts(s: Stream) { s.state == Start || s.state == Recv || s.state == SizeKnown }

  /** The parser's own state changes. */
  function Opened(s: Stream, fin: bool): Stream {
    match s.state
    case Recv => s.(state := if fin then SizeKnown else Recv)
    case Start => s.(state := Recv)
    case _ => s
  }

  /** A frame whose data is cut short fails, but its FIN has been seen. */
  function CutShort(s: Stream, fin: bool): Stream {
    if s.state == Recv && fin then s.(state := SizeKnown) else s
  }

  function Arrive(s: Stream, sd: Seg, fin: bool, allowed: bool): Stream {
    if Accepts(s) then Add(Opened(s, fin), sd, allowed) else s
  }

  /** QuicFrameResetStreamParser */
  function Reset(s: Stream): Stream {
    if s.state == Recv || s.state == SizeKnown || s.state == DataRecvd then s.(state := ResetRecvd) else s
  }

  /** What the copy loop returns; a fault is the failed assertion on the number of bytes to copy. */
  datatype Copied = Copied(data: Str, queue: seq<Seg>, offset: nat, fault: bool)

  /** The loop of QuicStreamReadData with `room` bytes to go. */
  function Copy(q: seq<Seg>, offset: nat, room: nat): Copied
    decreases |q|
  {
    if q == [] || q[0].offset != offset then Copied([], q, offset, false)
    else if |q[0].data| > room then
      if !QuicGt(room, 0) then Copied([], q, offset, true)
      else Copied(q[0].data[..room], [q[0].Skip(room)] + q[1..], offset + room, false)
    else if |q[0].data| == room then Copied(q[0].data, q[1..], q[0].End(), false)
    else
      var c := Copy(q[1..], q[0].End(), room - |q[0].data|);
      c.(data := q[0].data + c.data)
  }

  datatype ReadOut = ReadOut(s: Stream, data: Str, fin: bool, reset: bool, fault: bool)

  /** QuicStreamReadData */
  function Read(s: Stream, len: nat): ReadOut {
    var c := Copy(s.queue, s.offset, len);
    if c.fault then ReadOut(s, [], false, false, true)
    else
      var fin := c.queue == [] && s.state == DataRecvd;
      ReadOut(Stream(if fin then DataRead else s.state, c.offset, c.queue), c.data, fin, s.state == ResetRecvd, false)
  }

  // ---------------------------------------------------------------- what a read returns

  /** The leading segments that continue one another from `offset` on, and their bytes. */
  function Chain(q: seq<Seg>, offset: nat): (n: nat)
    ensures n <= |q|
  {
    if q == [] || q[0].offset != offset then 0 else 1 + Chain(q[1..], q[0].End())
  }

  function Joined(q: seq<Seg>): Str {
    if q == [] then [] else q[0].data + Joined(q[1..])
  }

  function Ready(q: seq<Seg>, offset: nat): Str { Joined(q[..Chain(q, offset)]) }

  lemma ReadyCons(q: seq<Seg>, offset: nat)
    requires q != [] && q[0].offset == offset
    ensures Ready(q, offset) == q[0].data + Ready(q[1..], q[0].End())
  {
    var n := Chain(q[1..], q[0].End());
    assert q[..n + 1][1..] == q[1..][..n];
  }

  lemma ReadyNone(q: seq<Seg>, offset: nat)
    requires q == [] || q[0].offset != offset
    ensures Ready(q, offset) == []
  {
    assert q[..0] == [];
  }

  /** A read returns as much of the bytes in line as was asked for; it fails an assertion exactly
      when nothing was asked for and there are bytes to give. */
  lemma {:induction false} CopyIs(q: seq<Seg>, offset: nat, room: nat)
    requires room < TWO31
    ensures var c, ready := Copy(q, offset, room), Ready(q, offset);
            && (c.fault <==> room == 0 && q != [] && q[0].offset == offset && q[0].data != [])
            && (!c.fault ==> c.data == ready[..Min(room, |ready|)] && c.offset == offset + |c.data|)
    decreases |q|
  {
    if q == [] || q[0].offset != offset {
      ReadyNone(q, offset);
    } else {
      ReadyCons(q, offset);
      if |q[0].data| < room {
        CopyIs(q[1..], q[0].End(), room - |q[0].data|);
        TakeBoth(q[0].data, Ready(q[1..], q[0].End()), room);
      }
    }
  }

  lemma TakeBoth(a: Str, b: Str, n: nat)
    requires |a| <= n
    ensures (a + b)[..Min(n, |a + b|)] == a + b[..Min(n - |a|, |b|)]
  {}

  /** QuicStreamInstance. */
  class RecvStream {
    var state: RecvState
    var offset: nat
    var queue: seq<Seg>

    function Abs(): Stream
      reads this
    { Stream(state, offset, queue) }

    constructor (isOpen: bool)
      ensures Abs() == Stream(if isOpen then Recv else Start, 0, [])
    { state, offset, queue := if isOpen then Recv else Start, 0, []; }

    method OrderedNow() returns (ordered: bool)
      ensures ordered <==> Ordered(queue, offset)
    {
      var start, i := offset, 0;
      ordered := true;
      while i < |queue|
        invariant 0 <= i <= |queue| && ordered
        invariant Ordered(queue, offset) <==> Ordered(queue[i..], start)
      {
        var sd := queue[i];
        if start != sd.offset {
          ordered := false;
          break;
        }
        assert queue[i..][1..] == queue[i + 1..];
        start, i := sd.End(), i + 1;
      }
    }

    method DataAdd(sd: Seg, allowed: bool)
      modifies this
      ensures Abs() == Add(old(Abs()), sd, allowed)
    {
      if offset >= sd.End() { return; }
      if offset < sd.offset {
        if allowed { queue := queue + [sd]; }
        return;
      }
      var t := sd;
      if offset > sd.offset {
        t := sd.Skip(offset - sd.offset).(offset := offset);
      }
      if allowed { AddInLine(t); }
    }

    /** The end of QuicStreamDataAdd. */
    method AddInLine(sd: Seg)
      modifies this`queue, this`state
      ensures queue == old(queue) + [sd]
      ensures state == if (old(state) == SizeKnown || old(state) == ResetRecvd) && Ordered(queue, offset) then DataRecvd
                       else old(state)
    {
      queue := queue + [sd];
      if state == SizeKnown || state == ResetRecvd {
        var done := OrderedNow();
        if done { state := DataRecvd; }
      }
    }

    /** QuicFrameStreamParser once the frame is read. */
    method StreamFrame(sd: Seg, fin: bool, allowed: bool) returns (ok: bool)
      modifies this
      ensures ok <==> old(state) != Disabled
      ensures Abs() == Arrive(old(Abs()), sd, fin, allowed)
    {
      if state == Disabled { return false; }
      if fin && state == Recv { state := SizeKnown; }
      if state == Start { state := Recv; }
      if state == Recv || state == SizeKnown { DataAdd(sd, allowed); }
      ok := true;
    }

    /** The same for a frame that ends before its data does. */
    method CutFrame(fin: bool)
      modifies this
      ensures Abs() == CutShort(old(Abs()), fin)
    {
      if fin && state == Recv { state := SizeKnown; }
    }

    method ResetFrame()
      modifies this
      ensures Abs() == Reset(old(Abs()))
    {
      if state == Recv || state == SizeKnown || state == DataRecvd { state := ResetRecvd; }
    }

    /** One turn of the copy loop, `room` being what is still asked for. */
    method CopyOne(room: nat) returns (data: Str, more: bool, fault: bool, left: nat)
      requires queue != [] && queue[0].offset == offset
      modifies this`queue, this`offset
      ensures var c := Copy(old(queue), old(offset), room);
              if more then
                var r := Copy(queue, offset, left);
                !fault && |queue| < |old(queue)| && c == r.(data := data + r.data)
              else c == Copied(data, queue, offset, fault)
    {
      var sd := queue[0];
      data, more, fault, left := [], false, false, 0;
      if |sd.data| > room {
        if !QuicGt(room, 0) {
          fault := true;
          return;
        }
        queue := [sd.Skip(room)] + queue[1..];
        data, offset := sd.data[..room], offset + room;
      } else {
        queue := queue[1..];
        data, offset, more, left := sd.data, offset + |sd.data|, |sd.data| < room, room - |sd.data|;
      }
    }

    /** The copy loop of QuicStreamReadData. */
    method CopyLoop(len: nat) returns (data: Str, fault: bool)
      modifies this`queue, this`offset
      ensures Copied(data, queue, offset, fault) == Copy(old(queue), old(offset), len)
    {
      ghost var all := Copy(queue, offset, len);
      var room, more := len, true;
      data, fault := [], false;
      assert [] + all.data == all.data;
      while more && queue != [] && queue[0].offset == offset
        invariant more ==> !fault && var r := Copy(queue, offset, room); all == r.(data := data + r.data)
        invariant !more ==> all == Copied(data, queue, offset, fault)
        decreases more, |queue|
      {
        var part;
        part, more, fault, room := CopyOne(room);
        if more { Assoc3(data, part, Copy(queue, offset, room).data); }
        data := data + part;
      }
      if more { Append(data); }
    }

    /** QuicStreamReadData */
    method ReadData(len: nat) returns (data: Str, fin: bool, reset: bool, fault: bool)
      modifies this
      ensures ReadOut(if fault then old(Abs()) else Abs(), data, fin, reset, fault) == Read(old(Abs()), len)
    {
      fin, reset := false, false;
      data, fault := CopyLoop(len);
      if fault {
        data := [];
        return;
      }
      if queue == [] && state == DataRecvd {
        state := DataRead;
        fin := true;
      }
      reset := state == ResetRecvd;
    }
  }

  lemma Append(a: Str)
    ensures a + [] == a
  {}
}

/** What holds over every run of arrivals, resets and reads. */
module Delivery {
  import opened Common
  import opened Bytes
  import opened Receiving

  /** A complete STREAM frame, one that ends before its data does, RESET_STREAM, a read, and whatever else
      opens a stream. */
  datatype Event =
    | Arrival(sd: Seg, fin: bool, allowed: bool)
    | CutArrival(fin: bool)
    | ResetArrival
    | Opening
    | ReadCall(len: nat)

  function Step(s: Stream, e: Event): Stream {
    match e
    case Arrival(sd, fin, allowed) => Arrive(s, sd, fin, allowed)
    case CutArrival(fin) => CutShort(s, fin)
    case ResetArrival => Reset(s)
    case Opening => s.(state := if s.state == Start then Recv else s.state)
    case ReadCall(len) => Read(s, len).s
  }

  function Out(s: Stream, e: Event): Str {
    if e.ReadCall? then Read(s, e.len).data else []
  }

  function Run(s: Stream, es: seq<Event>): Stream
    decreases |es|
  {
    if es == [] then s else Run(Step(s, es[0]), es[1..])
  }

  function Output(s: Stream, es: seq<Event>): Str
    decreases |es|
  {
    if es == [] then [] else Out(s, es[0]) + Output(Step(s, es[0]), es[1..])
  }

  lemma {:induction false} RunAppend(s: Stream, es: seq<Event>, fs: seq<Event>)
    ensures Run(s, es + fs) == Run(Run(s, es), fs)
    decreases |es|
  {
    if es == [] {
      assert es + fs == fs;
    } else {
      assert (es + fs)[1..] == es[1..] + fs;
      RunAppend(Step(s, es[0]), es[1..], fs);
    }
  }

  lemma RunOne(s: Stream, e: Event)
    ensures Run(s, [e]) == Step(s, e) && Run(s, []) == s
  {
    assert [e][1..] == [];
  }

  // ---------------------------------------------------------------- safety

  /** A segment of the sender's stream `all`. */
  ghost predicate Genuine(sd: Seg, all: Str) {
    sd.End() <= |all| && sd.data == all[sd.offset..sd.End()]
  }

  /** Entries that a partial read or a duplicate left behind the read offset may be anything. */
  ghost predicate Sound(s: Stream, all: Str) {
    && s.offset <= |all|
    && forall sd :: sd in s.queue && sd.offset >= s.offset ==> Genuine(sd, all)
  }

  /** FIN comes with the end of the stream, and reads ask for something. */
  ghost predicate Fair(e: Event, all: Str) {
    match e
    case Arrival(sd, fin, _) => Genuine(sd, all) && (fin ==> sd.End() == |all|)
    case CutArrival(_) => true
    case ResetArrival => true
    case Opening => true
    case ReadCall(len) => 0 < len < TWO31
  }

  lemma AddSound(s: Stream, sd: Seg, allowed: bool, all: Str)
    requires Sound(s, all) && Genuine(sd, all)
    ensures Sound(Add(s, sd, allowed), all)
  {}

  lemma {:induction false} CopyForward(q: seq<Seg>, offset: nat, room: nat)
    ensures offset <= Copy(q, offset, room).offset
    decreases |q|
  {
    if q != [] && |q[0].data| < room { CopyForward(q[1..], q[0].End(), room - |q[0].data|); }
  }

  /** What a read takes off the queue it adds to the offset. */
  lemma {:induction false} CopyConserves(q: seq<Seg>, offset: nat, room: nat)
    ensures var c := Copy(q, offset, room); c.offset + Total(c.queue) == offset + Total(q)
    decreases |q|
  {
    if q != [] && q[0].offset == offset {
      if |q[0].data| > room {
        TotalFront(q[0].Skip(room), q[1..]);
      } else if |q[0].data| < room {
        CopyConserves(q[1..], q[0].End(), room - |q[0].data|);
      }
    }
  }

  lemma TotalFront(sd: Seg, q: seq<Seg>)
    ensures Total([sd] + q) == |sd.data| + Total(q)
  {
    assert ([sd] + q)[1..] == q;
  }

  lemma {:induction false} TotalSnoc(q: seq<Seg>, sd: Seg)
    ensures Total(q + [sd]) == Total(q) + |sd.data|
  {
    if q == [] {
      assert q + [sd] == [sd] + [];
      TotalFront(sd, []);
    } else {
      assert (q + [sd])[1..] == q[1..] + [sd];
      TotalSnoc(q[1..], sd);
    }
  }

  /** What a read leaves at or above its offset was there before. */
  lemma {:induction false} CopyLeaves(q: seq<Seg>, offset: nat, room: nat)
    requires 0 < room < TWO31
    ensures var c := Copy(q, offset, room);
            forall sd :: sd in c.queue && sd.offset >= c.offset ==> sd in q && sd.offset >= offset
    decreases |q|
  {
    CopyForward(q, offset, room);
    if q != [] && q[0].offset == offset && |q[0].data| < room {
      CopyLeaves(q[1..], q[0].End(), room - |q[0].data|);
    }
  }

  lemma {:induction false} CopyGenuine(q: seq<Seg>, offset: nat, room: nat, all: Str)
    requires 0 < room < TWO31 && offset <= |all|
    requires forall sd :: sd in q && sd.offset >= offset ==> Genuine(sd, all)
    ensures var c := Copy(q, offset, room);
            !c.fault && offset <= c.offset <= |all| && c.data == all[offset..c.offset]
    decreases |q|
  {
    if q != [] && q[0].offset == offset {
      assert q[0] in q && Genuine(q[0], all);
      if |q[0].data| < room {
        assert forall sd :: sd in q[1..] ==> sd in q;
        CopyGenuine(q[1..], q[0].End(), room - |q[0].data|, all);
        SliceCat(all, offset, q[0].End(), Copy(q[1..], q[0].End(), room - |q[0].data|).offset);
      }
    }
  }

  lemma CopySound(q: seq<Seg>, offset: nat, room: nat, all: Str)
    requires 0 < room < TWO31 && offset <= |all|
    requires forall sd :: sd in q && sd.offset >= offset ==> Genuine(sd, all)
    ensures var c := Copy(q, offset, room);
            && !c.fault && offset <= c.offset <= |all| && c.data == all[offset..c.offset]
            && forall sd :: sd in c.queue && sd.offset >= c.offset ==> Genuine(sd, all)
  {
    CopyGenuine(q, offset, room, all);
    CopyLeaves(q, offset, room);
  }

  lemma StepSound(s: Stream, e: Event, all: Str)
    requires Sound(s, all) && Fair(e, all)
    ensures var t := Step(s, e);
            Sound(t, all) && s.offset <= t.offset && Out(s, e) == all[s.offset..t.offset]
  {
    if e.ReadCall? {
      CopySound(s.queue, s.offset, e.len, all);
    } else if e.Arrival? {
      AddSound(Opened(s, e.fin), e.sd, e.allowed, all);
    }
  }

  /** Whatever arrives in whatever order, overlapping or twice, and however it is read: the bytes
      handed out are the sender's stream up to the read offset. */
  lemma {:induction false} Safety(s: Stream, es: seq<Event>, all: Str)
    requires Sound(s, all) && forall e :: e in es ==> Fair(e, all)
    ensures var t := Run(s, es);
            Sound(t, all) && s.offset <= t.offset && Output(s, es) == all[s.offset..t.offset]
    decreases |es|
  {
    if es != [] {
      var t := Step(s, es[0]);
      StepSound(s, es[0], all);
      Safety(t, es[1..], all);
      SliceCat(all, s.offset, t.offset, Run(t, es[1..]).offset);
    }
  }

  lemma SliceCat(all: Str, a: nat, b: nat, c: nat)
    requires a <= b <= c <= |all|
    ensures all[a..b] + all[b..c] == all[a..c]
  {}

  /** From a new stream on, that is the prefix of the sender's stream. */
  lemma SafetyFromStart(isOpen: bool, es: seq<Event>, all: Str)
    requires forall e :: e in es ==> Fair(e, all)
    ensures var s := Stream(if isOpen then Recv else Start, 0, []);
            Run(s, es).offset <= |all| && Output(s, es) == all[..Run(s, es).offset]
  {
    Safety(Stream(if isOpen then Recv else Start, 0, []), es, all);
  }

  // ---------------------------------------------------------------- progress

  /** The next read has something to give as soon as anything is queued. */
  predicate Flows(s: Stream) { s.queue == [] || s.queue[0].offset == s.offset }

  /** A stream that does not flow never moves again: the queue is not sorted and its head stays. */
  lemma {:induction false} StuckForever(s: Stream, es: seq<Event>)
    requires !Flows(s)
    ensures !Flows(Run(s, es)) && Run(s, es).offset == s.offset && Output(s, es) == []
    decreases |es|
  {
    if es != [] {
      StuckForever(Step(s, es[0]), es[1..]);
    }
  }

  /** An arrival stops a flowing stream exactly when it is queued in front of a gap. */
  lemma ArrivalFlowsIff(s: Stream, sd: Seg, fin: bool, allowed: bool)
    requires Flows(s)
    ensures Flows(Arrive(s, sd, fin, allowed)) <==>
            s.queue != [] || sd.offset <= s.offset || !allowed || !Accepts(s)
  {}

  /** Both hold position `p` of the stream, with the same byte. */
  ghost predicate Agree(x: Seg, sd: Seg, p: nat) {
    x.offset <= p < x.End() && sd.offset <= p < sd.End() && x.data[p - x.offset] == sd.data[p - sd.offset]
  }

  /** The entry holds the bytes of `sd` from position `low` on, each in its place. */
  ghost predicate Carries(x: Seg, sd: Seg, low: nat) {
    x.offset == low && x.End() == sd.End() && forall p :: low <= p < sd.End() ==> Agree(x, sd, p)
  }

  /** What an arrival does to the queue, exactly: an accepted segment that flow control allows and that
      reaches past the read offset is queued behind the others, with all its bytes from that offset on;
      from any other nothing is queued. */
  lemma ArrivalQueued(s: Stream, sd: Seg, fin: bool, allowed: bool)
    ensures var t := Arrive(s, sd, fin, allowed);
            && t.offset == s.offset
            && if Accepts(s) && allowed && s.offset < sd.End() then
                 && |t.queue| == |s.queue| + 1 && t.queue[..|s.queue|] == s.queue
                 && Carries(t.queue[|s.queue|], sd, Max(s.offset, sd.offset))
               else t.queue == s.queue
  {}

  /** And to the state: the size is known from the FIN on, if one comes in RECV. */
  lemma ArrivalState(s: Stream, sd: Seg, fin: bool, allowed: bool)
    ensures var t := Arrive(s, sd, fin, allowed);
            if !Accepts(s) then t == s
            else if s.state == SizeKnown || (s.state == Recv && fin) then t.state == SizeKnown || t.state == DataRecvd
            else t.state == Recv
  {}

  /** Bytes 1 and on of a stream arrive first: they are queued in front of the gap, and nothing that comes
      later is ever handed out. */
  lemma StuckCounterexample(es: seq<Event>)
    ensures var s := Arrive(Stream(Recv, 0, []), Seg(1, [8], 0, 0), false, true);
            !Flows(s) && Output(s, es) == []
  {
    StuckForever(Arrive(Stream(Recv, 0, []), Seg(1, [8], 0, 0), false, true), es);
  }

  function Total(q: seq<Seg>): nat { |Joined(q)| }

  /** A read stops a flowing stream exactly when it ends inside a segment or takes all that is in
      line in front of a segment that does not continue it. */
  lemma ReadFlowsIff(s: Stream, len: nat)
    requires Flows(s) && 0 < len < TWO31
    ensures Flows(Read(s, len).s) <==> Edge(s.queue, Chain(s.queue, s.offset), len)
  {
    CopyIs(s.queue, s.offset, len);
    CopyFlowsIff(s.queue, s.offset, len);
  }

  /** `len` bytes end with one of the first `n` segments, all in line, or are more than those have;
      and what comes then continues them. */
  ghost predicate Edge(q: seq<Seg>, n: nat, len: nat)
    requires n <= |q|
  {
    if len > Total(q[..n]) then n == |q|
    else exists k: nat :: k <= n && Total(q[..k]) == len && (k == |q| || k < n)
  }

  lemma {:induction false} CopyFlowsIff(q: seq<Seg>, offset: nat, room: nat)
    requires 0 < room < TWO31 && (q == [] || q[0].offset == offset)
    ensures var c := Copy(q, offset, room);
            (c.queue == [] || c.queue[0].offset == c.offset) <==> Edge(q, Chain(q, offset), room)
    decreases |q|
  {
    if q == [] {
      assert q[..0] == [];
    } else {
      var n := Chain(q[1..], q[0].End());
      TotalCons(q);
      assert Chain(q, offset) == n + 1;
      var c := Copy(q, offset, room);
      if |q[0].data| > room {
        assert q[..n + 1] == [q[0]] + q[1..][..n];
      } else if |q[0].data| == room {
        assert q[..1] == [q[0]];
        assert Total(q[..1]) == room;
      } else {
        var more := room - |q[0].data|;
        EdgeCons(q, n, room);
        if q[1..] == [] || q[1..][0].offset == q[0].End() {
          CopyFlowsIff(q[1..], q[0].End(), more);
        } else {
          assert q[1..][..0] == [];
        }
      }
    }
  }

  lemma TotalCons(q: seq<Seg>)
    requires q != []
    ensures forall k: nat :: 0 < k <= |q| ==> Total(q[..k]) == |q[0].data| + Total(q[1..][..k - 1])
    ensures Total(q[..0]) == 0
  {
    assert q[..0] == [];
    forall k: nat | 0 < k <= |q| ensures Total(q[..k]) == |q[0].data| + Total(q[1..][..k - 1]) {
      assert q[..k][1..] == q[1..][..k - 1];
    }
  }

  lemma EdgeCons(q: seq<Seg>, n: nat, room: nat)
    requires q != [] && n < |q| && |q[0].data| < room
    ensures Edge(q, n + 1, room) <==> Edge(q[1..], n, room - |q[0].data|)
  {
    TotalCons(q);
    var more := room - |q[0].data|;
    if room <= Total(q[..n + 1]) {
      if Edge(q, n + 1, room) {
        var k: nat :| k <= n + 1 && Total(q[..k]) == room && (k == |q| || k < n + 1);
        assert k > 0 && Total(q[1..][..k - 1]) == more;
      }
      if Edge(q[1..], n, more) {
        var k: nat :| k <= n && Total(q[1..][..k]) == more && (k == |q[1..]| || k < n);
        assert Total(q[..k + 1]) == room;
      }
    }
  }

  /** The segment goes on where the bytes in line end; or nothing is in line, and it starts at or below
      the read offset and reaches past it. */
  predicate GoesOn(s: Stream, sd: Seg) {
    sd.offset == s.offset + Total(s.queue) || (Total(s.queue) == 0 && sd.offset <= s.offset < sd.End())
  }

  /** A segment that starts at or below the end of the bytes in line and reaches past it keeps the queue
      in line exactly if it goes on there: what overlaps bytes that wait to be read breaks the line. */
  lemma OverlapIff(s: Stream, sd: Seg, fin: bool)
    requires Ordered(s.queue, s.offset) && Accepts(s)
    requires sd.offset <= s.offset + Total(s.queue) < sd.End()
    ensures var t := Arrive(s, sd, fin, true); Ordered(t.queue, t.offset) <==> GoesOn(s, sd)
  {
    var x := Wanted(Opened(s, fin), sd).value;
    OrderedSnoc(s.queue, s.offset, x);
  }

  /** Three bytes wait to be read when bytes 1 to 4 come: the three are read, and the stream is stuck,
      though all five bytes have arrived. */
  lemma OverlapCounterexample(es: seq<Event>)
    ensures var s := Arrive(Stream(Recv, 0, [Seg(0, [1, 2, 3], 0, 0)]), Seg(1, [2, 3, 4, 5], 0, 0), false, true);
            var r := Read(s, 10);
            r.data == [1, 2, 3] && Output(r.s, es) == []
  {
    var s := Arrive(Stream(Recv, 0, [Seg(0, [1, 2, 3], 0, 0)]), Seg(1, [2, 3, 4, 5], 0, 0), false, true);
    assert s.queue[0].data + [] == [1, 2, 3];
    StuckForever(Read(s, 10).s, es);
  }

  /** An arrival that goes on, or a read that asks for all there is. */
  ghost predicate InLineNow(s: Stream, e: Event) {
    match e
    case Arrival(sd, _, allowed) => Accepts(s) && allowed && GoesOn(s, sd)
    case CutArrival(_) => false
    case ResetArrival => false
    case Opening => false
    case ReadCall(len) => Total(s.queue) <= len && 0 < len < TWO31
  }

  ghost predicate InLine(s: Stream, es: seq<Event>)
    decreases |es|
  {
    es == [] || (InLineNow(s, es[0]) && InLine(Step(s, es[0]), es[1..]))
  }

  /** The bytes of an arrival that are new: those behind the bytes in line. */
  function Data(s: Stream, e: Event): Str {
    if e.Arrival? && e.sd.offset <= s.offset + Total(s.queue) <= e.sd.End()
      then e.sd.data[s.offset + Total(s.queue) - e.sd.offset..] else []
  }

  function Arrived(s: Stream, es: seq<Event>): Str
    decreases |es|
  {
    if es == [] then [] else Data(s, es[0]) + Arrived(Step(s, es[0]), es[1..])
  }

  lemma {:induction false} CopyAll(q: seq<Seg>, offset: nat, room: nat)
    requires Ordered(q, offset) && 0 < room < TWO31 && Total(q) <= room
    ensures var c := Copy(q, offset, room);
            !c.fault && c.data == Joined(q) && Ordered(c.queue, c.offset) && Joined(c.queue) == []
    decreases |q|
  {
    if q != [] {
      if |q[0].data| == room {
        assert Joined(q) == q[0].data + Joined(q[1..]);
      } else {
        CopyAll(q[1..], q[0].End(), room - |q[0].data|);
      }
    }
  }

  lemma {:induction false} JoinedSnoc(q: seq<Seg>, offset: nat, sd: Seg)
    requires Ordered(q, offset) && sd.offset == offset + Total(q)
    ensures Ordered(q + [sd], offset) && Joined(q + [sd]) == Joined(q) + sd.data
    decreases |q|
  {
    if q == [] {
      assert [sd][1..] == [] && q + [sd] == [sd];
    } else {
      assert (q + [sd])[1..] == q[1..] + [sd];
      JoinedSnoc(q[1..], q[0].End(), sd);
      Assoc3(q[0].data, Joined(q[1..]), sd.data);
    }
  }

  /** What an arrival that goes on puts behind the others are the new bytes. */
  lemma NewBytes(s: Stream, sd: Seg, fin: bool)
    requires GoesOn(s, sd) && Accepts(s)
    ensures var w, e := Wanted(Opened(s, fin), sd), Arrival(sd, fin, true);
            if w.Some? then w.value.offset == s.offset + Total(s.queue) && w.value.data == Data(s, e)
                            && Arrive(s, sd, fin, true).queue == s.queue + [w.value]
            else Data(s, e) == [] && Arrive(s, sd, fin, true).queue == s.queue
  {
    WantedIs(s, sd, fin);
    Added(s, sd, fin);
  }

  lemma WantedIs(s: Stream, sd: Seg, fin: bool)
    ensures var w, low := Wanted(Opened(s, fin), sd), Max(s.offset, sd.offset);
            && (w.Some? <==> s.offset < sd.End())
            && (w.Some? ==> w.value.offset == low && w.value.data == sd.data[low - sd.offset..])
  {}

  lemma Added(s: Stream, sd: Seg, fin: bool)
    requires Accepts(s)
    ensures var w := Wanted(Opened(s, fin), sd);
            Arrive(s, sd, fin, true).queue == if w.Some? then s.queue + [w.value] else s.queue
  {}

  lemma InLineStep(s: Stream, e: Event)
    requires Ordered(s.queue, s.offset) && InLineNow(s, e)
    ensures var t := Step(s, e);
            Ordered(t.queue, t.offset) && Out(s, e) + Joined(t.queue) == Joined(s.queue) + Data(s, e)
  {
    if e.ReadCall? {
      CopyAll(s.queue, s.offset, e.len);
      Append(Joined(s.queue));
    } else {
      var w := Wanted(Opened(s, e.fin), e.sd);
      NewBytes(s, e.sd, e.fin);
      ArrivalQueued(s, e.sd, e.fin, true);
      if w.Some? { JoinedSnoc(s.queue, s.offset, w.value); } else { Append(Joined(s.queue)); }
    }
  }

  /** Then nothing is held back: what arrived has been handed out or is next in line. */
  lemma {:induction false} InLineDelivers(s: Stream, es: seq<Event>)
    requires Ordered(s.queue, s.offset) && InLine(s, es)
    ensures var t := Run(s, es);
            && Ordered(t.queue, t.offset)
            && Output(s, es) + Joined(t.queue) == Joined(s.queue) + Arrived(s, es)
    decreases |es|
  {
    if es == [] {
      Append(Joined(s.queue));
    } else {
      var t := Step(s, es[0]);
      InLineStep(s, es[0]);
      InLineDelivers(t, es[1..]);
      Regroup(Out(s, es[0]), Output(t, es[1..]), Joined(Run(t, es[1..]).queue), Joined(t.queue), Arrived(t, es[1..]),
              Joined(s.queue), Data(s, es[0]));
    }
  }

  lemma Regroup(a: Str, b: Str, c: Str, d: Str, e: Str, f: Str, g: Str)
    requires b + c == d + e && a + d == f + g
    ensures a + b + c == f + (g + e)
  {
    assert a + b + c == a + (d + e);
    assert a + (d + e) == (a + d) + e;
  }

  // ---------------------------------------------------------------- the end of the stream

  ghost predicate Stale(s: Stream) { exists sd :: sd in s.queue && sd.offset < s.offset }

  ghost predicate EndQueued(s: Stream, all: Str) {
    exists sd :: sd in s.queue && sd.offset >= s.offset && sd.End() == |all|
  }

  /** What each state knows of the end of the stream. */
  ghost predicate EndKnown(s: Stream, all: Str) {
    match s.state
    case SizeKnown => s.offset == |all| || Stale(s) || EndQueued(s, all)
    case DataRecvd => Stale(s) || (Ordered(s.queue, s.offset) && s.offset + Total(s.queue) == |all|)
    case DataRead => s.offset == |all|
    case _ => true
  }

  lemma {:induction false} OrderedEnd(q: seq<Seg>, offset: nat, all: Str, fin: Seg)
    requires Ordered(q, offset) && (forall sd :: sd in q ==> sd.End() <= |all|)
    requires fin in q && fin.End() == |all|
    ensures offset + Total(q) == |all|
    decreases |q|
  {
    if fin == q[0] {
      OrderedUpto(q[1..], q[0].End(), all);
    } else {
      OrderedEnd(q[1..], q[0].End(), all, fin);
    }
  }

  lemma {:induction false} OrderedUpto(q: seq<Seg>, offset: nat, all: Str)
    requires Ordered(q, offset) && offset == |all| && forall sd :: sd in q ==> sd.End() <= |all|
    ensures Total(q) == 0
    decreases |q|
  {
    if q != [] {
      assert q[0] in q;
      OrderedUpto(q[1..], q[0].End(), all);
    }
  }

  lemma {:induction false} OrderedNotStale(q: seq<Seg>, offset: nat)
    requires Ordered(q, offset)
    ensures forall sd :: sd in q ==> sd.offset >= offset
    decreases |q|
  {
    if q != [] { OrderedNotStale(q[1..], q[0].End()); }
  }

  lemma ArrivalEnd(s: Stream, sd: Seg, fin: bool, allowed: bool, all: Str)
    requires Sound(s, all) && EndKnown(s, all) && Genuine(sd, all)
    requires fin ==> sd.End() == |all| && allowed
    ensures EndKnown(Arrive(s, sd, fin, allowed), all)
  {
    if Accepts(s) {
      var o := Opened(s, fin);
      var w, t := Wanted(o, sd), Add(o, sd, allowed);
      if w.Some? && allowed {
        assert w.value in t.queue;
        assert forall x :: x in o.queue ==> x in t.queue;
        if t.state == DataRecvd {
          OrderedNotStale(t.queue, t.offset);
          AddSound(o, sd, allowed, all);
          var end :| end in t.queue && end.End() == |all|;
          OrderedEnd(t.queue, t.offset, all, end);
        }
      }
    }
  }

  /** What a read leaves of the three ways to know the end. */
  lemma {:induction false} CopyEnd(q: seq<Seg>, offset: nat, room: nat, all: Str)
    requires 0 < room < TWO31 && offset <= |all|
    requires forall sd :: sd in q && sd.offset >= offset ==> Genuine(sd, all)
    ensures var c := Copy(q, offset, room);
            && (forall sd :: sd in q && sd.offset < offset ==> sd in c.queue && sd.offset < c.offset)
            && (forall sd :: sd in q && sd.End() == |all| && sd.offset >= offset ==>
                  sd in c.queue || c.offset == |all| || exists x :: x in c.queue && x.offset < c.offset)
            && offset <= c.offset
    decreases |q|
  {
    var c := Copy(q, offset, room);
    CopySound(q, offset, room, all);
    if q != [] && q[0].offset == offset {
      assert q[0] in q && Genuine(q[0], all);
      if |q[0].data| > room {
        assert c.queue[0] in c.queue;
      } else if |q[0].data| < room {
        CopySound(q[1..], q[0].End(), room - |q[0].data|, all);
        CopyEnd(q[1..], q[0].End(), room - |q[0].data|, all);
      }
    }
  }

  lemma {:induction false} CopyOrdered(q: seq<Seg>, offset: nat, room: nat)
    requires 0 < room < TWO31 && Ordered(q, offset)
    ensures var c := Copy(q, offset, room);
            || (exists x :: x in c.queue && x.offset < c.offset)
            || (Ordered(c.queue, c.offset) && c.offset + Total(c.queue) == offset + Total(q))
    decreases |q|
  {
    if q != [] {
      var c := Copy(q, offset, room);
      if |q[0].data| > room {
        assert c.queue[0] in c.queue;
      } else if |q[0].data| < room {
        CopyOrdered(q[1..], q[0].End(), room - |q[0].data|);
      }
    }
  }

  lemma ReadEnd(s: Stream, len: nat, all: Str)
    requires 0 < len < TWO31 && Sound(s, all) && EndKnown(s, all)
    ensures var r := Read(s, len);
            EndKnown(r.s, all) && (r.fin ==> r.s.offset == |all|)
  {
    var c := Copy(s.queue, s.offset, len);
    CopySound(s.queue, s.offset, len, all);
    CopyEnd(s.queue, s.offset, len, all);
    if s.state == DataRecvd && !Stale(s) {
      CopyOrdered(s.queue, s.offset, len);
    }
  }

  // The end in an arbitrary run: who recognises it, and where it then is.

  /** The arrival that recognises the end leaves exactly its own end behind the last byte in line. */
  lemma RecognisedAt(s: Stream, sd: Seg, fin: bool, allowed: bool)
    requires s.state != DataRecvd && Arrive(s, sd, fin, allowed).state == DataRecvd
    ensures var t := Arrive(s, sd, fin, allowed);
            Ordered(t.queue, t.offset) && t.offset + Total(t.queue) == sd.End()
  {
    var o := Opened(s, fin);
    var w := Wanted(o, sd);
    OrderedSnoc(s.queue, s.offset, w.value);
    TotalSnoc(s.queue, w.value);
  }

  /** The segment that makes the stream DATA_RECVD, if one does. */
  function Recogniser(s: Stream, es: seq<Event>): Option<Seg>
    decreases |es|
  {
    if es == [] then None
    else if es[0].Arrival? && s.state != DataRecvd && Step(s, es[0]).state == DataRecvd then Some(es[0].sd)
    else Recogniser(Step(s, es[0]), es[1..])
  }

  /** The end is recognised and lies at `end`: it is next in line, cannot be read any more, or was read. */
  ghost predicate EndsAt(s: Stream, end: nat) {
    match s.state
    case DataRecvd => Stale(s) || (Ordered(s.queue, s.offset) && s.offset + Total(s.queue) == end)
    case DataRead => s.offset == end && s.queue == []
    case ResetRecvd => true
    case _ => false
  }

  lemma EndsAtRead(s: Stream, len: nat, end: nat)
    requires EndsAt(s, end) && 0 < len < TWO31
    ensures EndsAt(Read(s, len).s, end)
  {
    CopyIs(s.queue, s.offset, len);
    CopyStale(s.queue, s.offset, len);
    if s.state == DataRecvd && !Stale(s) { CopyOrdered(s.queue, s.offset, len); }
  }

  lemma {:induction false} CopyStale(q: seq<Seg>, offset: nat, room: nat)
    ensures var c := Copy(q, offset, room);
            offset <= c.offset && forall sd :: sd in q && sd.offset < offset ==> sd in c.queue
    decreases |q|
  {
    if q != [] && q[0].offset == offset && |q[0].data| < room {
      CopyStale(q[1..], q[0].End(), room - |q[0].data|);
    }
  }

  ghost predicate Reads(e: Event) { e.ReadCall? ==> 0 < e.len < TWO31 }

  lemma {:induction false} EndsAtForever(s: Stream, es: seq<Event>, end: nat)
    requires EndsAt(s, end) && forall e :: e in es ==> Reads(e)
    ensures EndsAt(Run(s, es), end)
    decreases |es|
  {
    if es != [] {
      assert Reads(es[0]);
      if es[0].ReadCall? { EndsAtRead(s, es[0].len, end); }
      EndsAtForever(Step(s, es[0]), es[1..], end);
    }
  }

  /** In every run, whatever arrives and whatever flow control says: a reported end lies exactly where
      the segment ends that made the stream DATA_RECVD. */
  lemma {:induction false} EndIsRecogniser(s: Stream, es: seq<Event>)
    requires s.state != DataRecvd && s.state != DataRead && forall e :: e in es ==> Reads(e)
    ensures Run(s, es).state == DataRead ==>
              Recogniser(s, es).Some? && Run(s, es).offset == Recogniser(s, es).value.End()
    decreases |es|
  {
    if es != [] {
      var t := Step(s, es[0]);
      if t.state == DataRecvd {
        RecognisedAt(s, es[0].sd, es[0].fin, es[0].allowed);
        EndsAtForever(t, es[1..], es[0].sd.End());
      } else {
        EndIsRecogniser(t, es[1..]);
      }
    }
  }

  /** So a reported end is complete if and only if the segment that was recognised ends the stream. */
  lemma EndCompleteIff(s: Stream, es: seq<Event>, all: Str)
    requires s.state != DataRecvd && s.state != DataRead && Sound(s, all) && forall e :: e in es ==> Fair(e, all)
    requires Run(s, es).state == DataRead
    ensures Recogniser(s, es).Some?
    ensures Output(s, es) == all[s.offset..] <==> Recogniser(s, es).value.End() == |all|
  {
    EndIsRecogniser(s, es);
    Safety(s, es, all);
    var end := Run(s, es).offset;
    assert |Output(s, es)| == end - s.offset;
    assert all[s.offset..|all|] == all[s.offset..];
  }

  /** In particular, if flow control never refuses a segment that carries FIN and none is cut short, a
      read that reports the end has handed out all of the stream. */
  lemma {:induction false} FinMeansAll(s: Stream, es: seq<Event>, all: Str)
    requires Sound(s, all) && EndKnown(s, all)
    requires forall e :: e in es ==> Fair(e, all) && (e.Arrival? && e.fin ==> e.allowed) && !e.CutArrival?
    ensures EndKnown(Run(s, es), all) && (Run(s, es).state == DataRead ==> Run(s, es).offset == |all|)
    decreases |es|
  {
    if es != [] {
      StepSound(s, es[0], all);
      match es[0] {
        case Arrival(sd, fin, allowed) => ArrivalEnd(s, sd, fin, allowed, all);
        case CutArrival(_) =>
        case ResetArrival =>
        case Opening =>
        case ReadCall(len) => ReadEnd(s, len, all);
      }
      FinMeansAll(Step(s, es[0]), es[1..], all);
    }
  }

  lemma {:induction false} OrderedSnoc(q: seq<Seg>, offset: nat, sd: Seg)
    ensures Ordered(q + [sd], offset) <==> Ordered(q, offset) && sd.offset == offset + Total(q)
  {
    if q == [] {
      assert q + [sd] == [sd] && [sd][1..] == [];
    } else {
      assert (q + [sd])[1..] == q[1..] + [sd];
      if q[0].offset == offset { OrderedSnoc(q[1..], q[0].End(), sd); }
    }
  }

  /** The end is recognised exactly when the size is known and a segment that is allowed reaches past
      the read offset with everything before it read: bytes that still wait make it pass unseen. */
  lemma EndRecognisedIff(s: Stream, sd: Seg, fin: bool, allowed: bool)
    requires s.state == Recv || s.state == SizeKnown
    ensures Arrive(s, sd, fin, allowed).state == DataRecvd <==>
            && (fin || s.state == SizeKnown) && allowed && sd.offset <= s.offset < sd.End()
            && Ordered(s.queue, s.offset) && Total(s.queue) == 0
  {
    var w := Wanted(s, sd);
    if w.Some? { OrderedSnoc(s.queue, s.offset, w.value); }
  }

  /** It is then reported by the read that takes the rest. */
  lemma {:induction false} CopyEmpties(q: seq<Seg>, offset: nat, room: nat)
    requires Ordered(q, offset) && Total(q) < room < TWO31
    ensures Copy(q, offset, room).queue == []
    decreases |q|
  {
    if q != [] { CopyEmpties(q[1..], q[0].End(), room - |q[0].data|); }
  }

  lemma EndReported(s: Stream, len: nat)
    requires s.state == DataRecvd && Ordered(s.queue, s.offset) && Total(s.queue) < len < TWO31
    ensures var r := Read(s, len); r.fin && r.data == Joined(s.queue) && r.s.state == DataRead
  {
    CopyEmpties(s.queue, s.offset, len);
    CopyAll(s.queue, s.offset, len);
  }

  /** The end went by: its segment waits, was read, or cannot be read any more. */
  ghost predicate Missed(s: Stream, all: Str) {
    (s.state == SizeKnown || s.state == ResetRecvd) && (s.offset == |all| || Stale(s) || EndQueued(s, all))
  }

  lemma MissedArrival(s: Stream, sd: Seg, fin: bool, allowed: bool, all: Str)
    requires Sound(s, all) && Missed(s, all) && Genuine(sd, all)
    ensures Missed(Arrive(s, sd, fin, allowed), all)
  {
    var t := Arrive(s, sd, fin, allowed);
    assert forall x :: x in s.queue ==> x in t.queue;
    if t.state == DataRecvd {
      EndRecognisedIff(s, sd, fin, allowed);
      OrderedNotStale(s.queue, s.offset);
      var end :| end in s.queue && end.End() == |all|;
      OrderedEnd(s.queue, s.offset, all, end);
    }
  }

  lemma MissedRead(s: Stream, len: nat, all: Str)
    requires Sound(s, all) && Missed(s, all) && 0 < len < TWO31
    ensures Missed(Read(s, len).s, all) && !Read(s, len).fin
  {
    CopySound(s.queue, s.offset, len, all);
    CopyEnd(s.queue, s.offset, len, all);
  }

  /** If the end is not recognised when its segment comes, it is never reported in any run, although
      every byte may be read. */
  lemma {:induction false} MissedForever(s: Stream, es: seq<Event>, all: Str)
    requires Sound(s, all) && Missed(s, all) && forall e :: e in es ==> Fair(e, all)
    ensures Missed(Run(s, es), all)
    decreases |es|
  {
    if es != [] {
      StepSound(s, es[0], all);
      match es[0] {
        case Arrival(sd, fin, allowed) => MissedArrival(s, sd, fin, allowed, all);
        case CutArrival(_) =>
        case ResetArrival =>
        case Opening =>
        case ReadCall(len) => MissedRead(s, len, all);
      }
      MissedForever(Step(s, es[0]), es[1..], all);
    }
  }

  /** After an arrival with FIN that was not refused, the end is recognised or missed. */
  lemma FinRecognisedOrMissed(s: Stream, sd: Seg, all: Str)
    requires Sound(s, all) && s.state == Recv && Genuine(sd, all) && sd.End() == |all|
    ensures var t := Arrive(s, sd, true, true); t.state == DataRecvd || Missed(t, all)
  {
    var t := Arrive(s, sd, true, true);
    var w := Wanted(s, sd);
    if w.Some? { assert w.value in t.queue; }
  }

  /** If it does refuse one, the end may be reported with the last bytes missing. */
  lemma FinCounterexample()
    ensures var s, all := Stream(Recv, 0, []), [7, 8];
            var es := [Arrival(Seg(1, [8], 0, 1), true, false), Arrival(Seg(0, [7], 0, 0), false, true), ReadCall(9)];
            && (forall e :: e in es ==> Fair(e, all))
            && Run(s, es).state == DataRead && Output(s, es) == [7]
  {
    var s, sd := Stream(Recv, 0, []), Seg(0, [7], 0, 0);
    RunThree(s, Arrival(Seg(1, [8], 0, 1), true, false), Arrival(sd, false, true), ReadCall(9));
    RefusedFin(s);
    AddFirst(Stream(SizeKnown, 0, []), sd);
  }

  lemma RunThree(s: Stream, a: Event, b: Event, c: Event)
    ensures var t, u := Step(s, a), Step(Step(s, a), b);
            && Run(s, [a, b, c]) == Step(u, c)
            && Output(s, [a, b, c]) == Out(s, a) + (Out(t, b) + Out(u, c))
  {
    var t, u := Step(s, a), Step(Step(s, a), b);
    assert [a, b, c][1..] == [b, c] && [b, c][1..] == [c] && [c][1..] == [];
    assert Run(t, [b, c]) == Run(u, [c]) == Run(Step(u, c), []);
    assert Output(t, [b, c]) == Out(t, b) + Output(u, [c]) && Output(u, [c]) == Out(u, c) + [];
  }

  lemma RefusedFin(s: Stream)
    requires s.state == Recv
    ensures Step(s, Arrival(Seg(1, [8], 0, 1), true, false)) == s.(state := SizeKnown)
  {}

  lemma AddFirst(s: Stream, sd: Seg)
    requires s.state == SizeKnown && s.queue == [] && sd.offset == s.offset && sd.data != []
    ensures Step(s, Arrival(sd, false, true)) == s.(state := DataRecvd, queue := [sd])
  {
    assert s.queue + [sd] == [sd] && [sd][1..] == [] && Ordered([sd], s.offset);
  }

  // ---------------------------------------------------------------- the states

  /** Receive states only move up, as in section 3.2 of RFC 9000. */
  function Rank(st: RecvState): nat {
    match st
    case Start => 0
    case Recv => 1
    case SizeKnown => 2
    case DataRecvd => 3
    case ResetRecvd => 4
    case DataRead => 4
    case Disabled => 4
  }

  lemma {:induction false} StatesOnlyRise(s: Stream, es: seq<Event>)
    ensures Rank(s.state) <= Rank(Run(s, es).state)
    ensures Rank(s.state) == 4 ==> Run(s, es).state == s.state
    decreases |es|
  {
    if es != [] { StatesOnlyRise(Step(s, es[0]), es[1..]); }
  }

  /** The segment finds everything before it read, reaches further, and is not refused. */
  ghost predicate Completes(s: Stream, sd: Seg, allowed: bool) {
    allowed && sd.offset <= s.offset < sd.End() && Ordered(s.queue, s.offset) && Total(s.queue) == 0
  }

  /** The edges of the receiving state machine, and what each needs. */
  ghost predicate RecvEdge(s: Stream, e: Event, u: RecvState) {
    match e
    case Arrival(sd, fin, allowed) =>
      var known := s.state == SizeKnown || (s.state == Recv && fin);
      (s.state == Start && u == Recv)
      || (known && u == if Completes(s, sd, allowed) then DataRecvd else SizeKnown)
    case CutArrival(fin) => s.state == Recv && fin && u == SizeKnown
    case ResetArrival => (s.state == Recv || s.state == SizeKnown || s.state == DataRecvd) && u == ResetRecvd
    case Opening => s.state == Start && u == Recv
    case ReadCall(len) =>
      s.state == DataRecvd && u == DataRead && !Read(s, len).fault && Copy(s.queue, s.offset, len).queue == []
  }

  /** A stream changes its state exactly along these edges. */
  lemma RecvEdgesIff(s: Stream, e: Event, u: RecvState)
    ensures u != s.state ==> (Step(s, e).state == u <==> RecvEdge(s, e, u))
  {
    if e.Arrival? && Accepts(s) && s.state != Start {
      EndRecognisedIff(s, e.sd, e.fin, e.allowed);
      ArrivalState(s, e.sd, e.fin, e.allowed);
    }
  }

  /** All reads of a run report the reset, and no arrival is queued. */
  ghost predicate AllReset(s: Stream, es: seq<Event>)
    decreases |es|
  {
    es == [] || (ResetSeen(s, es[0]) && AllReset(Step(s, es[0]), es[1..]))
  }

  predicate ResetSeen(s: Stream, e: Event) {
    if e.ReadCall? then Read(s, e.len).reset || Read(s, e.len).fault else Step(s, e).queue == s.queue
  }

  lemma {:induction false} ResetStays(s: Stream, es: seq<Event>)
    requires s.state == ResetRecvd
    ensures Run(s, es).state == ResetRecvd && AllReset(s, es)
    decreases |es|
  {
    if es != [] { ResetStays(Step(s, es[0]), es[1..]); }
  }

  /** RESET_STREAM ends a stream that still receives, or waits to be read, and no other; from then on, in
      every run, nothing that arrives is queued and every read reports the reset. */
  lemma ResetForever(s: Stream, es: seq<Event>)
    ensures s.state == Recv || s.state == SizeKnown || s.state == DataRecvd ==>
            Run(Reset(s), es).state == ResetRecvd && AllReset(Reset(s), es) && Reset(s).queue == s.queue
    ensures s.state == Disabled || s.state == Start || s.state == DataRead ==> Reset(s) == s
  {
    if Reset(s).state == ResetRecvd { ResetStays(Reset(s), es); }
  }

  /** QuicStreamDataAdd also asks for RESET_RECVD; from the parser that never happens, so the stream
      would run the same without that branch. */
  function AddWithoutReset(s: Stream, sd: Seg, allowed: bool): Stream {
    if s.state == ResetRecvd then s else Add(s, sd, allowed)
  }

  lemma ResetBranchIsDead(s: Stream, sd: Seg, fin: bool, allowed: bool)
    ensures Accepts(s) ==> Opened(s, fin).state == Recv || Opened(s, fin).state == SizeKnown
    ensures Arrive(s, sd, fin, allowed) == if Accepts(s) then AddWithoutReset(Opened(s, fin), sd, allowed) else s
  {}
}

/** The datagram buffers that queued segments point into: QUIC_DATA_BUF (quic/base.c:144-185) under
    QuicOneRttParse (quic/format.c:765-790), QuicStreamDataCreate and QuicStreamDataFree. */
module SharedBuffers {
  import opened Common
  import opened Bytes
  import opened Receiving
  import Delivery

  datatype Buf = Buf(data: Str, ref: nat, freed: bool)

  /** All buffers ever made; `bad` once one is touched after it was freed. */
  datatype Heap = Heap(bufs: seq<Buf>, bad: bool) {
    predicate Has(b: nat) { b < |bufs| && !bufs[b].freed }
  }

  /** QuicDataBufCreate */
  function Create(h: Heap, data: Str): Heap {
    h.(bufs := h.bufs + [Buf(data, 1, false)])
  }

  /** QuicDataBufGet */
  function Get(h: Heap, b: nat): Heap {
    if !h.Has(b) then h.(bad := true)
    else h.(bufs := h.bufs[b := h.bufs[b].(ref := h.bufs[b].ref + 1)])
  }

  /** QuicDataBufFree */
  function Free(h: Heap, b: nat): Heap {
    if !h.Has(b) || h.bufs[b].ref == 0 then h.(bad := true)
    else
      var n := h.bufs[b].ref - 1;
      h.(bufs := h.bufs[b := h.bufs[b].(ref := n, freed := n == 0)])
  }

  function FreeAll(h: Heap, q: seq<Seg>): Heap
    decreases |q|
  {
    if q == [] then h else FreeAll(Free(h, q[0].src), q[1..])
  }

  /** The buffer itself. */
  class DataBuf {
    var data: Str
    var ref: nat
    var freed: bool

    ghost function Abs(): Buf
      reads this
    { Buf(data, ref, freed) }

    constructor (bytes: Str)
      ensures Abs() == Buf(bytes, 1, false)
    { data, ref, freed := bytes, 1, false; }

    method Take()
      requires !freed
      modifies this
      ensures Heap([Abs()], false) == Get(Heap([old(Abs())], false), 0)
    { ref := ref + 1; }

    method Drop()
      requires !freed && ref > 0
      modifies this
      ensures Heap([Abs()], false) == Free(Heap([old(Abs())], false), 0)
    {
      ref := ref - 1;
      if ref == 0 { freed := true; }
    }
  }

  /** The receiving streams of a connection, the buffers, and the one the parser holds. */
  datatype Conn = Conn(streams: seq<Stream>, heap: Heap, hold: Option<nat>)

  /** Packet: a short packet is opened into a new buffer. Frame: a STREAM frame in it. Done: the
      parser lets go. Closing the streams frees every segment. */
  datatype Move =
    | Packet(data: Str)
    | Frame(i: nat, offset: nat, at: nat, len: nat, fin: bool, allowed: bool)
    | Done
    | ReadFrom(i: nat, len: nat)
    | ResetOf(i: nat)
    | Close(i: nat)

  predicate Possible(c: Conn, m: Move) {
    match m
    case Packet(_) => c.hold.None?
    case Frame(i, _, at, len, _, _) =>
      c.hold.Some? && i < |c.streams| && c.hold.value < |c.heap.bufs| && at + len <= |c.heap.bufs[c.hold.value].data|
    case Done => c.hold.Some?
    case ReadFrom(i, len) => i < |c.streams|
    case ResetOf(i) => i < |c.streams|
    case Close(i) => i < |c.streams|
  }

  function Segment(c: Conn, m: Move): Seg
    requires m.Frame? && Possible(c, m)
  {
    Seg(m.offset, c.heap.bufs[c.hold.value].data[m.at..m.at + m.len], c.hold.value, m.at)
  }

  /** The segment takes the buffer when it is made and gives it back if it is not queued. */
  function Perform(c: Conn, m: Move): Conn
    requires Possible(c, m)
  {
    match m
    case Packet(data) => c.(heap := Create(c.heap, data), hold := Some(|c.heap.bufs|))
    case Frame(i, _, _, _, fin, allowed) =>
      var s := c.streams[i];
      if !Accepts(s) then c
      else
        var t := Arrive(s, Segment(c, m), fin, allowed);
        var h := Get(c.heap, c.hold.value);
        c.(streams := c.streams[i := t], heap := if |t.queue| == |s.queue| then Free(h, c.hold.value) else h)
    case Done => c.(heap := Free(c.heap, c.hold.value), hold := None)
    case ReadFrom(i, len) =>
      var s := c.streams[i];
      var r := Read(s, len).s;
      c.(streams := c.streams[i := r], heap := FreeAll(c.heap, s.queue[..|s.queue| - Min(|r.queue|, |s.queue|)]))
    case ResetOf(i) => c.(streams := c.streams[i := Reset(c.streams[i])])
    case Close(i) =>
      c.(streams := c.streams[i := c.streams[i].(queue := [])], heap := FreeAll(c.heap, c.streams[i].queue))
  }

  // ---------------------------------------------------------------- the invariant

  function Count(q: seq<Seg>, b: nat): nat {
    if q == [] then 0 else (if q[0].src == b then 1 else 0) + Count(q[1..], b)
  }

  function CountAll(ss: seq<Stream>, b: nat): nat {
    if ss == [] then 0 else Count(ss[0].queue, b) + CountAll(ss[1..], b)
  }

  function Held(c: Conn, b: nat): nat { if c.hold == Some(b) then 1 else 0 }

  /** `ref` counts the parser's hold and the queued segments, and the buffer is freed with the last. */
  ghost predicate Counted(h: Heap, b: nat, n: int) {
    b < |h.bufs| ==> h.bufs[b].ref == n && (h.bufs[b].freed <==> n == 0)
  }

  /** A segment shows the bytes of its buffer. */
  ghost predicate Inside(h: Heap, sd: Seg) {
    && sd.src < |h.bufs| && sd.at + |sd.data| <= |h.bufs[sd.src].data|
    && sd.data == h.bufs[sd.src].data[sd.at..sd.at + |sd.data|]
  }

  ghost predicate AllInside(h: Heap, q: seq<Seg>) { forall sd :: sd in q ==> Inside(h, sd) }

  ghost predicate Inv(c: Conn) {
    && !c.heap.bad && (c.hold.Some? ==> c.hold.value < |c.heap.bufs|)
    && (forall b: nat :: Counted(c.heap, b, Held(c, b) + CountAll(c.streams, b)))
    && (forall i :: 0 <= i < |c.streams| ==> AllInside(c.heap, c.streams[i].queue))
  }

  lemma {:induction false} CountSplit(p: seq<Seg>, q: seq<Seg>, b: nat)
    ensures Count(p + q, b) == Count(p, b) + Count(q, b)
    decreases |p|
  {
    if p == [] {
      assert p + q == q;
    } else {
      assert (p + q)[1..] == p[1..] + q;
      CountSplit(p[1..], q, b);
    }
  }

  lemma {:induction false} CountSet(ss: seq<Stream>, i: nat, t: Stream, b: nat)
    requires i < |ss|
    ensures CountAll(ss[i := t], b) + Count(ss[i].queue, b) == CountAll(ss, b) + Count(t.queue, b)
    decreases i
  {
    if i == 0 {
      assert ss[0 := t][1..] == ss[1..];
    } else {
      assert ss[i := t][1..] == ss[1..][i - 1 := t];
      CountSet(ss[1..], i - 1, t, b);
    }
  }

  lemma {:induction false} CountIn(q: seq<Seg>, sd: Seg)
    requires sd in q
    ensures Count(q, sd.src) > 0
    decreases |q|
  {
    if q[0] != sd { CountIn(q[1..], sd); }
  }

  /** What a change of the counts leaves of the buffers. */
  ghost predicate Same(h: Heap, g: Heap) {
    |h.bufs| == |g.bufs| && forall b :: 0 <= b < |h.bufs| ==> h.bufs[b].data == g.bufs[b].data
  }

  /** Freeing segments takes their number off each count, and no buffer is freed twice. */
  lemma {:induction false} FreeAllIs(h: Heap, q: seq<Seg>, n: nat -> nat)
    requires !h.bad && forall b: nat :: Counted(h, b, n(b))
    requires forall sd :: sd in q ==> sd.src < |h.bufs|
    requires forall b: nat :: Count(q, b) <= n(b)
    ensures var g := FreeAll(h, q);
            !g.bad && Same(h, g) && forall b: nat :: Counted(g, b, n(b) - Count(q, b))
    decreases |q|
  {
    if q != [] {
      var src, g := q[0].src, Free(h, q[0].src);
      var m := (b: nat) => if b == src && n(b) > 0 then n(b) - 1 else n(b);
      assert q[0] in q && Count(q, src) <= n(src) && Counted(h, src, n(src));
      forall b: nat ensures Counted(g, b, m(b)) && Count(q[1..], b) <= m(b) {
        assert Counted(h, b, n(b)) && Count(q, b) <= n(b);
      }
      FreeAllIs(g, q[1..], m);
      forall b: nat ensures Counted(FreeAll(h, q), b, n(b) - Count(q, b)) {
        assert Counted(FreeAll(g, q[1..]), b, m(b) - Count(q[1..], b));
      }
    }
  }

  function Counts(c: Conn): nat -> nat { (b: nat) => Held(c, b) + CountAll(c.streams, b) }

  /** A step that changes one stream and the counts of the buffers accordingly keeps the invariant. */
  lemma Rebuild(c: Conn, i: nat, t: Stream, h: Heap)
    requires Inv(c) && i < |c.streams| && Same(c.heap, h) && !h.bad && AllInside(h, t.queue)
    requires forall b: nat :: Counted(h, b, Counts(c)(b) - Count(c.streams[i].queue, b) + Count(t.queue, b))
    ensures Inv(c.(streams := c.streams[i := t], heap := h))
  {
    var d := c.(streams := c.streams[i := t], heap := h);
    forall b: nat ensures Counted(h, b, Held(d, b) + CountAll(d.streams, b)) {
      CountSet(c.streams, i, t, b);
      assert Counted(h, b, Counts(c)(b) - Count(c.streams[i].queue, b) + Count(t.queue, b));
    }
    forall j | 0 <= j < |d.streams| ensures AllInside(h, d.streams[j].queue) {
      if j != i { assert AllInside(c.heap, c.streams[j].queue); }
    }
  }

  lemma {:induction false} CountAbsent(q: seq<Seg>, b: nat)
    requires forall sd :: sd in q ==> sd.src != b
    ensures Count(q, b) == 0
    decreases |q|
  {
    if q != [] {
      assert q[0] in q;
      CountAbsent(q[1..], b);
    }
  }

  lemma {:induction false} CountAllAbsent(ss: seq<Stream>, b: nat)
    requires forall i :: 0 <= i < |ss| ==> forall sd :: sd in ss[i].queue ==> sd.src != b
    ensures CountAll(ss, b) == 0
    decreases |ss|
  {
    if ss != [] {
      CountAbsent(ss[0].queue, b);
      CountAllAbsent(ss[1..], b);
    }
  }

  lemma PacketKeeps(c: Conn, data: Str)
    requires Inv(c) && c.hold.None?
    ensures Inv(Perform(c, Packet(data)))
  {
    var d, n := Perform(c, Packet(data)), |c.heap.bufs|;
    forall i | 0 <= i < |c.streams|
      ensures AllInside(d.heap, c.streams[i].queue) && forall sd :: sd in c.streams[i].queue ==> sd.src != n
    {
      assert AllInside(c.heap, c.streams[i].queue);
    }
    CountAllAbsent(c.streams, n);
    forall b: nat ensures Counted(d.heap, b, Held(d, b) + CountAll(d.streams, b)) {
      assert Counted(c.heap, b, Held(c, b) + CountAll(c.streams, b));
    }
  }

  /** A frame leaves the queue alone or appends a piece of its segment. */
  lemma ArriveQueue(s: Stream, sd: Seg, fin: bool, allowed: bool, h: Heap)
    requires Inside(h, sd) && AllInside(h, s.queue)
    ensures var t := Arrive(s, sd, fin, allowed);
            && AllInside(h, t.queue)
            && (t.queue == s.queue ||
                (|t.queue| == |s.queue| + 1 && t.queue[..|s.queue|] == s.queue && t.queue[|s.queue|].src == sd.src))
  {
    var o := Opened(s, fin);
    if Accepts(s) && Wanted(o, sd).Some? {
      var w := Wanted(o, sd).value;
      var k := |sd.data| - |w.data|;
      assert w.data == sd.data[k..] && w.at == sd.at + k;
      assert Inside(h, w);
    }
  }

  lemma CountSnoc(q: seq<Seg>, t: seq<Seg>, b: nat)
    requires |t| == |q| + 1 && t[..|q|] == q
    ensures Count(t, b) == Count(q, b) + if t[|q|].src == b then 1 else 0
  {
    CountSplit(q, [t[|q|]], b);
    assert t == q + [t[|q|]] && [t[|q|]][1..] == [];
  }

  /** Taking a buffer adds one to its count, and giving it back undoes that. */
  lemma Taken(h: Heap, hold: nat, n: nat -> nat)
    requires !h.bad && hold < |h.bufs| && n(hold) > 0 && forall b: nat :: Counted(h, b, n(b))
    ensures var g := Get(h, hold);
            && !g.bad && Same(h, g) && Free(g, hold) == h
            && forall b: nat :: Counted(g, b, n(b) + if b == hold then 1 else 0)
  {
    var g := Get(h, hold);
    assert Counted(h, hold, n(hold));
    forall b: nat ensures Counted(g, b, n(b) + if b == hold then 1 else 0) {
      assert Counted(h, b, n(b));
    }
    assert Free(g, hold).bufs == h.bufs;
  }

  lemma FrameKeeps(c: Conn, m: Move)
    requires Inv(c) && m.Frame? && Possible(c, m)
    ensures Inv(Perform(c, m))
  {
    var s, hold := c.streams[m.i], c.hold.value;
    if Accepts(s) {
      var t := Arrive(s, Segment(c, m), m.fin, m.allowed);
      var h := Get(c.heap, hold);
      var n := Counts(c);
      assert AllInside(c.heap, s.queue);
      ArriveQueue(s, Segment(c, m), m.fin, m.allowed, c.heap);
      var g := if |t.queue| == |s.queue| then Free(h, hold) else h;
      Taken(c.heap, hold, n);
      forall b: nat ensures Counted(g, b, n(b) - Count(s.queue, b) + Count(t.queue, b)) {
        assert Counted(c.heap, b, n(b));
        if t.queue != s.queue { CountSnoc(s.queue, t.queue, b); }
      }
      Rebuild(c, m.i, t, g);
    }
  }

  lemma DoneKeeps(c: Conn)
    requires Inv(c) && c.hold.Some?
    ensures Inv(Perform(c, Done))
  {
    var d, hold := Perform(c, Done), c.hold.value;
    assert Counted(c.heap, hold, Held(c, hold) + CountAll(c.streams, hold));
    forall b: nat ensures Counted(d.heap, b, Held(d, b) + CountAll(d.streams, b)) {
      assert Counted(c.heap, b, Held(c, b) + CountAll(c.streams, b));
    }
    forall i | 0 <= i < |c.streams| ensures AllInside(d.heap, c.streams[i].queue) {
      assert AllInside(c.heap, c.streams[i].queue);
    }
  }

  lemma SkipInside(h: Heap, sd: Seg, n: nat)
    requires Inside(h, sd) && n <= |sd.data|
    ensures Inside(h, sd.Skip(n)) && sd.Skip(n).src == sd.src
  {}

  /** A read takes segments off the front and moves the pointer into the one it stops in. */
  lemma {:induction false} CopyPops(q: seq<Seg>, offset: nat, room: nat, h: Heap)
    requires AllInside(h, q)
    ensures var c := Copy(q, offset, room);
            && |c.queue| <= |q| && AllInside(h, c.queue)
            && forall b: nat :: Count(q, b) == Count(q[..|q| - |c.queue|], b) + Count(c.queue, b)
    decreases |q|
  {
    var c := Copy(q, offset, room);
    var k := |q| - |c.queue|;
    if q == [] || q[0].offset != offset || (c.fault && |q[0].data| > room) {
      assert q[..0] == [];
    } else if |q[0].data| > room {
      SkipInside(h, q[0], room);
      assert q[..0] == [] && c.queue[1..] == q[1..];
    } else {
      if |q[0].data| == room {
        assert q[1..][..0] == [];
      } else {
        CopyPops(q[1..], q[0].End(), room - |q[0].data|, h);
      }
      assert q[..k][1..] == q[1..][..k - 1];
    }
  }

  lemma ReadKeeps(c: Conn, i: nat, len: nat)
    requires Inv(c) && i < |c.streams|
    ensures Inv(Perform(c, ReadFrom(i, len)))
  {
    var s := c.streams[i];
    var r := Read(s, len).s;
    assert AllInside(c.heap, s.queue);
    ReadPops(s, len, c.heap);
    var gone := s.queue[..|s.queue| - |r.queue|];
    Release(c, i, r, gone);
    assert Perform(c, ReadFrom(i, len)) == c.(streams := c.streams[i := r], heap := FreeAll(c.heap, gone));
  }

  lemma ReadPops(s: Stream, len: nat, h: Heap)
    requires AllInside(h, s.queue)
    ensures var r := Read(s, len).s;
            && |r.queue| <= |s.queue| && AllInside(h, r.queue) && AllInside(h, s.queue[..|s.queue| - |r.queue|])
            && forall b: nat :: Count(s.queue, b) == Count(s.queue[..|s.queue| - |r.queue|], b) + Count(r.queue, b)
  {
    CopyPops(s.queue, s.offset, len, h);
    assert s.queue[..0] == [];
  }

  lemma CloseKeeps(c: Conn, i: nat)
    requires Inv(c) && i < |c.streams|
    ensures Inv(Perform(c, Close(i)))
  {
    assert AllInside(c.heap, c.streams[i].queue);
    Release(c, i, c.streams[i].(queue := []), c.streams[i].queue);
  }

  lemma Release(c: Conn, i: nat, t: Stream, gone: seq<Seg>)
    requires Inv(c) && i < |c.streams| && AllInside(c.heap, gone) && AllInside(c.heap, t.queue)
    requires forall b: nat :: Count(c.streams[i].queue, b) == Count(gone, b) + Count(t.queue, b)
    ensures Inv(c.(streams := c.streams[i := t], heap := FreeAll(c.heap, gone)))
  {
    var n, h := Counts(c), FreeAll(c.heap, gone);
    forall b: nat ensures Counted(c.heap, b, n(b)) && Count(gone, b) <= n(b) {
      CountSet(c.streams, i, t, b);
    }
    FreeAllIs(c.heap, gone, n);
    forall b: nat ensures Counted(h, b, n(b) - Count(c.streams[i].queue, b) + Count(t.queue, b)) {
      assert Counted(h, b, n(b) - Count(gone, b));
    }
    Rebuild(c, i, t, h);
  }

  lemma MoveKeeps(c: Conn, m: Move)
    requires Inv(c) && Possible(c, m)
    ensures Inv(Perform(c, m))
  {
    match m
    case Packet(data) => PacketKeeps(c, data);
    case Frame(_, _, _, _, _, _) => FrameKeeps(c, m);
    case Done => DoneKeeps(c);
    case ReadFrom(i, len) => ReadKeeps(c, i, len);
    case ResetOf(i) =>
      assert AllInside(c.heap, c.streams[i].queue);
      forall b: nat ensures Counted(c.heap, b, Counts(c)(b)) {
        assert Counted(c.heap, b, Held(c, b) + CountAll(c.streams, b));
      }
      Rebuild(c, i, Reset(c.streams[i]), c.heap);
    case Close(i) => CloseKeeps(c, i);
  }

  ghost predicate Runs(c: Conn, ms: seq<Move>, d: Conn)
    decreases |ms|
  {
    if ms == [] then d == c else Possible(c, ms[0]) && Runs(Perform(c, ms[0]), ms[1..], d)
  }

  /** In every run no buffer is touched after it was freed, each count is the number of holders, and
      every queued segment lies in a live buffer. */
  lemma {:induction false} RunKeeps(c: Conn, ms: seq<Move>, d: Conn)
    requires Inv(c) && Runs(c, ms, d)
    ensures Inv(d)
    ensures forall i, sd :: 0 <= i < |d.streams| && sd in d.streams[i].queue ==>
              d.heap.Has(sd.src) && Inside(d.heap, sd)
    decreases |ms|
  {
    if ms == [] {
      forall i, sd | 0 <= i < |d.streams| && sd in d.streams[i].queue ensures d.heap.Has(sd.src) && Inside(d.heap, sd) {
        SegmentLive(d, i, sd);
      }
    } else {
      MoveKeeps(c, ms[0]);
      RunKeeps(Perform(c, ms[0]), ms[1..], d);
    }
  }

  lemma SegmentLive(c: Conn, i: nat, sd: Seg)
    requires Inv(c) && i < |c.streams| && sd in c.streams[i].queue
    ensures c.heap.Has(sd.src) && Inside(c.heap, sd)
  {
    assert AllInside(c.heap, c.streams[i].queue);
    assert Counted(c.heap, sd.src, Held(c, sd.src) + CountAll(c.streams, sd.src));
    CountIn(c.streams[i].queue, sd);
    CountSet(c.streams, i, c.streams[i].(queue := []), sd.src);
  }

  /** What a move is for the stream it names. */
  function EventOf(c: Conn, m: Move): Delivery.Event
    requires Possible(c, m) && !m.Packet? && !m.Done? && !m.Close?
  {
    match m
    case Frame(_, _, _, _, fin, allowed) => Delivery.Arrival(Segment(c, m), fin, allowed)
    case ReadFrom(_, len) => Delivery.ReadCall(len)
    case ResetOf(_) => Delivery.ResetArrival
  }

  /** A move is one step of the stream it names and leaves the others alone; closing empties the queue; the
      parser holds the new buffer from a packet until it is done. */
  lemma MoveIs(c: Conn, m: Move)
    requires Possible(c, m)
    ensures var d := Perform(c, m);
            && d.hold == (if m.Packet? then Some(|c.heap.bufs|) else if m.Done? then None else c.hold)
            && (m.Packet? ==> |d.heap.bufs| == |c.heap.bufs| + 1 && d.heap.bufs[|c.heap.bufs|].data == m.data)
            && d.streams == if m.Packet? || m.Done? then c.streams
                            else if m.Close? then c.streams[m.i := c.streams[m.i].(queue := [])]
                            else c.streams[m.i := Delivery.Step(c.streams[m.i], EventOf(c, m))]
  {
    if m.Frame? { assert c.streams[m.i := c.streams[m.i]] == c.streams; }
  }

  /** The segment of a frame shows the bytes of the packet from the frame's data on. */
  lemma SegmentShows(c: Conn, m: Move, i: nat)
    requires m.Frame? && Possible(c, m) && i < m.len
    ensures var sd := Segment(c, m);
            sd.offset == m.offset && |sd.data| == m.len && sd.data[i] == c.heap.bufs[c.hold.value].data[m.at + i]
  {}

  /** Closing the streams from `i` on, one after the other. */
  function CloseFrom(c: Conn, i: nat): Conn
    requires i <= |c.streams|
    decreases |c.streams| - i
  {
    if i == |c.streams| then c
    else
      MoveIs(c, Close(i));
      CloseFrom(Perform(c, Close(i)), i + 1)
  }

  lemma {:induction false} CloseEmpties(c: Conn, i: nat)
    requires Inv(c) && i <= |c.streams| && forall j :: 0 <= j < i ==> c.streams[j].queue == []
    ensures var d := CloseFrom(c, i);
            Inv(d) && d.hold == c.hold && forall j :: 0 <= j < |d.streams| ==> d.streams[j].queue == []
    decreases |c.streams| - i
  {
    if i < |c.streams| {
      MoveIs(c, Close(i));
      CloseKeeps(c, i);
      CloseEmpties(Perform(c, Close(i)), i + 1);
    }
  }

  /** From every reachable connection: once the parser lets go and the streams are closed, every buffer
      that was ever made is freed. */
  lemma ShutdownFreesAll(c: Conn)
    requires Inv(c)
    ensures var d := CloseFrom(if c.hold.Some? then Perform(c, Done) else c, 0);
            forall b :: 0 <= b < |d.heap.bufs| ==> d.heap.bufs[b].freed
  {
    var e := if c.hold.Some? then Perform(c, Done) else c;
    if c.hold.Some? {
      DoneKeeps(c);
      MoveIs(c, Done);
    }
    CloseEmpties(e, 0);
    NoLeak(CloseFrom(e, 0));
  }

  /** And no buffer is leaked: with the parser out and the queues empty, all are freed. */
  lemma NoLeak(c: Conn)
    requires Inv(c) && c.hold.None? && forall i :: 0 <= i < |c.streams| ==> c.streams[i].queue == []
    ensures forall b :: 0 <= b < |c.heap.bufs| ==> c.heap.bufs[b].freed
  {
    forall b: nat | b < |c.heap.bufs| ensures c.heap.bufs[b].freed {
      CountAllAbsent(c.streams, b);
      assert Counted(c.heap, b, Held(c, b) + CountAll(c.streams, b));
    }
  }
}
