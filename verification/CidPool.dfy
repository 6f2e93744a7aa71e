/** The pools of connection IDs (quic/connection.c:62-157, 176-183) and the frames that work on the
    peer's pool (quic/frame.c:668-749). */
module CidPool {
  import opened Common
  import opened Bytes

  datatype Cid = Cid(num: nat, id: Str)

  /** QuicCidPool */
  datatype Pool = Pool(queue: seq<Cid>, num: nat, maxSeq: nat)

  const EMPTY := Pool([], 0, 0)

  /** QuicCidAdd */
  function Add(p: Pool, c: Cid): Pool { p.(queue := p.queue + [c], num := p.num + 1) }

  /** QuicCidIssue with the identifier it drew. */
  function Issue(p: Pool, id: Str): Pool { Add(p, Cid(p.maxSeq, id)).(maxSeq := p.maxSeq + 1) }

  /** The scan of QuicCidFind. */
  function Position(q: seq<Cid>, num: nat): Option<nat> {
    if q == [] || QuicGt(q[0].num, num) then None
    else if q[0].num == num then Some(0)
    else
      var i := Position(q[1..], num);
      if i.None? then None else Some(i.value + 1)
  }

  function Find(p: Pool, num: nat): Option<nat> {
    if QuicGe(num, p.maxSeq) then None else Position(p.queue, num)
  }

  function Without(q: seq<Cid>, i: nat): seq<Cid>
    requires i < |q|
  { q[..i] + q[i + 1..] }

  /** QuicCidRetire */
  function Retire(p: Pool, num: nat): (Pool, bool) {
    var i := Find(p, num);
    if i.None? || i.value >= |p.queue| then (p, false)
    else (p.(queue := Without(p.queue, i.value), num := if p.num > 0 then p.num - 1 else 0), true)
  }

  /** The loop of QuicCidRetirePriorTo */
  function DropPrior(q: seq<Cid>, prior: nat): seq<Cid> {
    if q == [] || QuicGe(q[0].num, prior) then q else DropPrior(q[1..], prior)
  }

  function RetirePriorTo(p: Pool, prior: nat): Pool {
    var q := DropPrior(p.queue, prior);
    p.(queue := q, num := p.num - Min(p.num, |p.queue| - Min(|q|, |p.queue|)))
  }

  // ---------------------------------------------------------------- a pool and a map

  ghost predicate Sorted(q: seq<Cid>) {
    forall i, j :: 0 <= i < j < |q| ==> q[i].num < q[j].num
  }

  function View(q: seq<Cid>): map<nat, Str> {
    if q == [] then map[] else View(q[1..])[q[0].num := q[0].id]
  }

  lemma {:induction false} ViewKeys(q: seq<Cid>)
    ensures forall n: nat :: n in View(q) <==> exists i :: 0 <= i < |q| && q[i].num == n
    decreases |q|
  {
    if q != [] {
      ViewKeys(q[1..]);
      forall n: nat ensures n in View(q) <==> exists i :: 0 <= i < |q| && q[i].num == n {
        if n in View(q[1..]) {
          var i :| 0 <= i < |q[1..]| && q[1..][i].num == n;
          assert q[i + 1].num == n;
        }
      }
    }
  }

  lemma {:induction false} PositionExact(q: seq<Cid>, num: nat)
    ensures var i := Position(q, num); i.Some? ==> i.value < |q| && q[i.value].num == num
    decreases |q|
  {
    if q != [] { PositionExact(q[1..], num); }
  }

  /** The scan finds what the map holds: leaving early loses nothing on a sorted pool. */
  lemma {:induction false} PositionIs(q: seq<Cid>, num: nat)
    requires Sorted(q) && forall i :: 0 <= i < |q| ==> q[i].num < TWO31
    ensures var i := Position(q, num);
            && (i.Some? <==> num in View(q))
            && (i.Some? ==> i.value < |q| && q[i.value] == Cid(num, View(q)[num]))
    decreases |q|
  {
    ViewKeys(q);
    PositionExact(q, num);
    if q != [] && q[0].num < num < TWO31 { PositionIs(q[1..], num); }
  }

  lemma WithoutSorted(q: seq<Cid>, i: nat)
    requires Sorted(q) && i < |q|
    ensures Sorted(Without(q, i))
  {
    assert forall k :: 0 <= k < |q| - 1 ==> Without(q, i)[k] == q[if k < i then k else k + 1];
  }

  lemma {:induction false} WithoutIs(q: seq<Cid>, i: nat)
    requires Sorted(q) && i < |q|
    ensures View(Without(q, i)) == View(q) - {q[i].num}
    decreases |q|
  {
    ViewKeys(q[1..]);
    if i == 0 {
      assert Without(q, 0) == q[1..];
      SetThenRemove(View(q[1..]), q[0].num, q[0].id, q[0].num);
    } else {
      WithoutIs(q[1..], i - 1);
      WithoutTail(q, i);
      SetThenRemove(View(q[1..]), q[0].num, q[0].id, q[i].num);
    }
  }

  lemma SetThenRemove(m: map<nat, Str>, k: nat, v: Str, n: nat)
    ensures k != n ==> (m - {n})[k := v] == m[k := v] - {n}
    ensures k !in m ==> m[k := v] - {k} == m
  {}

  lemma WithoutTail(q: seq<Cid>, i: nat)
    requires 0 < i < |q|
    ensures Without(q, i)[1..] == Without(q[1..], i - 1) && Without(q, i)[0] == q[0] && q[1..][i - 1] == q[i]
  {}

  lemma {:induction false} SnocIs(q: seq<Cid>, c: Cid)
    requires forall i :: 0 <= i < |q| ==> q[i].num < c.num
    ensures View(q + [c]) == View(q)[c.num := c.id]
    decreases |q|
  {
    if q == [] {
      assert q + [c] == [c] && [c][1..] == [];
    } else {
      SnocIs(q[1..], c);
      assert (q + [c])[1..] == q[1..] + [c];
    }
  }

  function From(m: map<nat, Str>, prior: nat): map<nat, Str> { map n | n in m && n >= prior :: m[n] }

  lemma {:induction false} DropPriorShrinks(q: seq<Cid>, prior: nat)
    ensures var r := DropPrior(q, prior); |r| <= |q| && r == q[|q| - |r|..]
    decreases |q|
  {
    if q != [] && !QuicGe(q[0].num, prior) { DropPriorShrinks(q[1..], prior); }
  }

  lemma {:induction false} DropPriorIs(q: seq<Cid>, prior: nat)
    requires Sorted(q) && prior < TWO31 && forall i :: 0 <= i < |q| ==> q[i].num < TWO31
    ensures View(DropPrior(q, prior)) == From(View(q), prior)
    decreases |q|
  {
    if q != [] && q[0].num < prior {
      DropPriorIs(q[1..], prior);
    } else {
      AllFrom(q, prior);
    }
  }

  lemma AllFrom(q: seq<Cid>, prior: nat)
    requires forall i :: 0 <= i < |q| ==> q[i].num >= prior
    ensures From(View(q), prior) == View(q)
  {
    ViewKeys(q);
  }

  // ---------------------------------------------------------------- runs

  datatype Op = IssueOp(id: Str) | RetireOp(num: nat) | PriorOp(prior: nat)

  function Step(p: Pool, op: Op): Pool {
    match op
    case IssueOp(id) => Issue(p, id)
    case RetireOp(num) => Retire(p, num).0
    case PriorOp(prior) => RetirePriorTo(p, prior)
  }

  /** The map from sequence numbers to identifiers, and the next number. */
  datatype Spec = Spec(ids: map<nat, Str>, next: nat)

  function SpecStep(s: Spec, op: Op): Spec {
    match op
    case IssueOp(id) => Spec(s.ids[s.next := id], s.next + 1)
    case RetireOp(num) => s.(ids := s.ids - {num})
    case PriorOp(prior) => s.(ids := From(s.ids, prior))
  }

  function Run(p: Pool, ops: seq<Op>): Pool
    decreases |ops|
  { if ops == [] then p else Run(Step(p, ops[0]), ops[1..]) }

  function SpecRun(s: Spec, ops: seq<Op>): Spec
    decreases |ops|
  { if ops == [] then s else SpecRun(SpecStep(s, ops[0]), ops[1..]) }

  ghost predicate Refines(p: Pool, s: Spec) {
    && Sorted(p.queue) && (forall i :: 0 <= i < |p.queue| ==> p.queue[i].num < p.maxSeq)
    && p.num == |p.queue| && p.maxSeq == s.next && View(p.queue) == s.ids
  }

  ghost predicate Small(op: Op) {
    match op case IssueOp(_) => true case RetireOp(_) => true case PriorOp(n) => n < TWO31
  }

  lemma StepRefines(p: Pool, s: Spec, op: Op)
    requires Refines(p, s) && p.maxSeq < TWO31 && Small(op)
    ensures Refines(Step(p, op), SpecStep(s, op))
    ensures op.RetireOp? ==> (Retire(p, op.num).1 <==> op.num in s.ids)
  {
    ViewKeys(p.queue);
    match op {
      case IssueOp(id) => SnocIs(p.queue, Cid(p.maxSeq, id));
      case RetireOp(num) => RetireRefines(p, s, num);
      case PriorOp(prior) =>
        DropPriorShrinks(p.queue, prior);
        DropPriorIs(p.queue, prior);
    }
  }

  lemma RetireRefines(p: Pool, s: Spec, num: nat)
    requires Refines(p, s) && p.maxSeq < TWO31
    ensures Refines(Retire(p, num).0, s.(ids := s.ids - {num})) && (Retire(p, num).1 <==> num in s.ids)
  {
    FindRefines(p, s, num);
    var i := Find(p, num);
    if i.Some? {
      RemoveRefines(p, s, i.value);
    } else {
      assert s.ids - {num} == s.ids;
    }
  }

  lemma RemoveRefines(p: Pool, s: Spec, i: nat)
    requires Refines(p, s) && i < |p.queue|
    ensures Refines(p.(queue := Without(p.queue, i), num := p.num - 1), s.(ids := s.ids - {p.queue[i].num}))
  {
    WithoutIs(p.queue, i);
    WithoutSorted(p.queue, i);
    assert forall k :: 0 <= k < |p.queue| - 1 ==> Without(p.queue, i)[k] == p.queue[if k < i then k else k + 1];
  }

  /** In every run, a pool of issued identifiers behaves like the map, and `num` is its size. */
  lemma {:induction false} RunRefines(p: Pool, s: Spec, ops: seq<Op>)
    requires Refines(p, s) && p.maxSeq + |ops| < TWO31 && forall op :: op in ops ==> Small(op)
    ensures Refines(Run(p, ops), SpecRun(s, ops))
    decreases |ops|
  {
    if ops != [] {
      StepRefines(p, s, ops[0]);
      RunRefines(Step(p, ops[0]), SpecStep(s, ops[0]), ops[1..]);
    }
  }

  lemma FindRefines(p: Pool, s: Spec, num: nat)
    requires Refines(p, s) && p.maxSeq < TWO31
    ensures var i := Find(p, num);
            && (i.Some? <==> num in s.ids)
            && (i.Some? ==> i.value < |p.queue| && p.queue[i.value] == Cid(num, s.ids[num]))
  {
    ViewKeys(p.queue);
    PositionIs(p.queue, num);
  }

  // ---------------------------------------------------------------- the peer's identifiers

  /** QuicActiveCidLimitCheck */
  predicate LimitOk(p: Pool, limit: nat) { !QuicGe(p.num, limit) }

  /** What a frame does to the pool: NEW_CONNECTION_ID, with what could be read of the identifier and
      token, or RETIRE_CONNECTION_ID. */
  datatype Frame = NewCid(num: nat, prior: nat, id: Option<Str>) | RetireCid(num: nat)

  /** QuicFrameNewConnIdParser and QuicFrameRetireConnIdParser for a peer with a connection ID. */
  function OnFrame(p: Pool, limit: nat, f: Frame): (Pool, bool) {
    match f
    case NewCid(num, prior, id) =>
      var r := RetirePriorTo(p, prior);
      if !LimitOk(r, limit) || id.None? then (r, false) else (Add(r, Cid(num, id.value)), true)
    case RetireCid(num) => (Retire(p, num).0, true)
  }

  function Frames(p: Pool, limit: nat, fs: seq<Frame>): Pool
    decreases |fs|
  {
    if fs == [] then p else Frames(OnFrame(p, limit, fs[0]).0, limit, fs[1..])
  }

  ghost predicate PeerInv(p: Pool, limit: nat) { p.num == |p.queue| <= limit && p.maxSeq == 0 }

  lemma {:induction false} PositionInside(q: seq<Cid>, num: nat)
    ensures Position(q, num).Some? ==> Position(q, num).value < |q|
  {
    if q != [] { PositionInside(q[1..], num); }
  }

  lemma FrameKeeps(p: Pool, limit: nat, f: Frame)
    requires PeerInv(p, limit) && limit < TWO31
    ensures PeerInv(OnFrame(p, limit, f).0, limit)
  {
    match f {
      case NewCid(_, prior, _) => DropPriorShrinks(p.queue, prior);
      case RetireCid(num) => PositionInside(p.queue, num);
    }
  }

  /** In every run of frames `num` is the length of the queue and within the active limit, and the
      largest number issued stays 0, since only QuicCidIssue moves it. */
  lemma {:induction false} PeerPool(p: Pool, limit: nat, fs: seq<Frame>)
    requires PeerInv(p, limit) && limit < TWO31
    ensures PeerInv(Frames(p, limit, fs), limit)
    decreases |fs|
  {
    if fs != [] {
      FrameKeeps(p, limit, fs[0]);
      PeerPool(OnFrame(p, limit, fs[0]).0, limit, fs[1..]);
    }
  }

  /** So on the peer's pool a number is found only if the macro takes it for negative: of the numbers
      below 2^31 none is ever found or retired. */
  lemma PeerFindsIff(p: Pool, limit: nat, num: nat)
    requires PeerInv(p, limit)
    ensures Find(p, num).Some? <==> num / TWO31 % 2 == 1 && Position(p.queue, num).Some?
    ensures num < TWO31 ==> Retire(p, num) == (p, false)
  {
    MacroAgreesIff(num, 0);
  }

  /** The scan ends at the first entry with the number, unless one with a larger number stands before it. */
  lemma {:induction false} PositionIff(q: seq<Cid>, num: nat, i: nat)
    requires i < |q|
    ensures Position(q, num) == Some(i) <==>
            q[i].num == num && forall j :: 0 <= j < i ==> q[j].num != num && !QuicGt(q[j].num, num)
    decreases |q|
  {
    if i > 0 && !QuicGt(q[0].num, num) && q[0].num != num {
      PositionIff(q[1..], num, i - 1);
      assert forall j :: 0 < j < i ==> q[j] == q[1..][j - 1];
    }
  }

  /** Retire Prior To removes from the front, up to the first entry that is not below the number. */
  lemma {:induction false} PriorStops(q: seq<Cid>, prior: nat)
    requires prior < TWO31 && forall i :: 0 <= i < |q| ==> q[i].num < TWO31
    ensures var r := DropPrior(q, prior);
            && |r| <= |q| && r == q[|q| - |r|..] && (forall i :: 0 <= i < |q| - |r| ==> q[i].num < prior)
            && (r != [] ==> r[0].num >= prior)
    decreases |q|
  {
    if q != [] && q[0].num < prior { PriorStops(q[1..], prior); }
  }

  /** A NEW_CONNECTION_ID frame first retires and then adds its identifier at the end, exactly if it could be
      read and there is room below the limit. */
  lemma NewCidIff(p: Pool, limit: nat, num: nat, prior: nat, id: Option<Str>)
    requires PeerInv(p, limit) && limit < TWO31
    ensures var kept, r := DropPrior(p.queue, prior), OnFrame(p, limit, NewCid(num, prior, id));
            && (r.1 <==> id.Some? && |kept| < limit)
            && r.0.queue == if r.1 then kept + [Cid(num, id.value)] else kept
  {
    var kept, r := DropPrior(p.queue, prior), RetirePriorTo(p, prior);
    PriorCounts(p, prior);
    assert LimitOk(r, limit) <==> |kept| < limit;
  }

  lemma PriorCounts(p: Pool, prior: nat)
    requires p.num == |p.queue|
    ensures var r := RetirePriorTo(p, prior); r.queue == DropPrior(p.queue, prior) && r.num == |r.queue| <= p.num
  {
    DropPriorShrinks(p.queue, prior);
  }

  /** Retire Prior To takes all identifiers below the number exactly when none of them stands behind
      one that stays: frames add identifiers in the order in which they come. */
  lemma {:induction false} PriorLeavesNoneIff(q: seq<Cid>, prior: nat)
    requires prior < TWO31 && forall i :: 0 <= i < |q| ==> q[i].num < TWO31
    ensures (forall c :: c in DropPrior(q, prior) ==> c.num >= prior) <==>
            forall i, j :: 0 <= i < j < |q| && q[j].num < prior ==> q[i].num < prior
    decreases |q|
  {
    if q != [] {
      if q[0].num < prior {
        PriorLeavesNoneIff(q[1..], prior);
        assert forall i :: 0 < i < |q| ==> q[i] == q[1..][i - 1];
      } else {
        assert forall c :: c in q ==> exists i :: 0 <= i < |q| && q[i] == c;
      }
    }
  }

  lemma PriorCounterexample()
    ensures var q := [Cid(3, []), Cid(1, [])]; DropPrior(q, 2) == q
  {}

  /** A frame that comes twice adds its identifier twice. */
  lemma RepeatedFrame(p: Pool, limit: nat, num: nat, id: Str)
    requires PeerInv(p, limit) && |p.queue| + 2 <= limit < TWO31 && num < TWO31
    requires p.queue != [] ==> p.queue[0].num < TWO31
    ensures var f := NewCid(num, 0, Some(id));
            Frames(p, limit, [f, f]).queue == p.queue + [Cid(num, id), Cid(num, id)]
  {
    var f := NewCid(num, 0, Some(id));
    var p1 := OnFrame(p, limit, f).0;
    var p2 := OnFrame(p1, limit, f).0;
    assert DropPrior(p.queue, 0) == p.queue && p1 == Add(p, Cid(num, id));
    assert DropPrior(p1.queue, 0) == p1.queue && p2 == Add(p1, Cid(num, id));
    assert [f, f][1..] == [f] && [f][1..] == [];
    assert Frames(p, limit, [f, f]) == Frames(p1, limit, [f]) == Frames(p2, limit, []);
  }

  // ---------------------------------------------------------------- the object

  class CidQueue {
    var queue: seq<Cid>
    var num: nat
    var maxSeq: nat

    ghost function Abs(): Pool
      reads this
    { Pool(queue, num, maxSeq) }

    constructor ()
      ensures Abs() == EMPTY
    { queue, num, maxSeq := [], 0, 0; }

    method AddCid(c: Cid)
      modifies this
      ensures Abs() == Add(old(Abs()), c)
    { queue, num := queue + [c], num + 1; }

    method IssueCid(id: Str)
      modifies this
      ensures Abs() == Issue(old(Abs()), id)
    {
      AddCid(Cid(maxSeq, id));
      maxSeq := maxSeq + 1;
    }

    method FindCid(n: nat) returns (i: Option<nat>)
      ensures i == Find(Abs(), n)
    {
      if QuicGe(n, maxSeq) { return None; }
      var k := 0;
      assert queue[0..] == queue;
      while k < |queue|
        invariant k <= |queue|
        invariant var r := Position(queue[k..], n); Position(queue, n) == if r.None? then None else Some(r.value + k)
      {
        assert queue[k..][1..] == queue[k + 1..];
        if QuicGt(queue[k].num, n) { return None; }
        if queue[k].num == n { return Some(k); }
        k := k + 1;
      }
      i := None;
    }

    method RetireCid(n: nat) returns (ok: bool)
      requires num == |queue|
      modifies this
      ensures (Abs(), ok) == Retire(old(Abs()), n) && num == |queue|
    {
      PositionInside(queue, n);
      var i := FindCid(n);
      ok := i.Some?;
      if ok { queue, num := queue[..i.value] + queue[i.value + 1..], num - 1; }
    }

    method RetirePrior(prior: nat)
      requires num == |queue|
      modifies this
      ensures Abs() == RetirePriorTo(old(Abs()), prior) && num == |queue|
    {
      DropPriorShrinks(queue, prior);
      while queue != [] && !QuicGe(queue[0].num, prior)
        invariant num == |queue| <= |old(queue)| && maxSeq == old(maxSeq)
        invariant DropPrior(queue, prior) == DropPrior(old(queue), prior)
        decreases |queue|
      {
        queue, num := queue[1..], num - 1;
      }
    }

    /** QuicFrameNewConnIdParser, `id` being what could be read of the identifier and token. */
    method NewConnectionId(n: nat, prior: nat, id: Option<Str>, limit: nat) returns (ok: bool)
      requires num == |queue|
      modifies this
      ensures (Abs(), ok) == OnFrame(old(Abs()), limit, NewCid(n, prior, id)) && num == |queue|
    {
      RetirePrior(prior);
      ok := false;
      if QuicGe(num, limit) || id.None? { return; }
      AddCid(Cid(n, id.value));
      ok := true;
    }
  }
}
