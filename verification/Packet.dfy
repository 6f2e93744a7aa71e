/** The read cursor of quic/packet.c:18-288. */
module PacketReader {
  import opened Common
  import opened Bytes

  class RPacket {
    var mem: Str        // the memory the cursor points into
    var head: nat
    var curr: nat
    var total: nat
    var remaining: nat

    ghost predicate Valid()
      reads this
    {
      && head <= curr && curr + remaining <= |mem| < TWO31
      && total == curr - head + remaining
    }

    /** The bytes still to be read. */
    ghost function Rest(): Str
      requires Valid()
      reads this
    { mem[curr..curr + remaining] }

    /** Where the readable bytes end; reading never moves it. */
    ghost function End(): nat
      reads this
    { curr + remaining }

    /** RPacketBufInit */
    constructor (m: Str, at: nat, len: nat)
      requires at + len <= |m| < TWO31
      ensures Valid() && mem == m && head == curr == at && total == remaining == len
      ensures Rest() == m[at..at + len]
    {
      mem, head, curr, total, remaining := m, at, at, len, len;
    }

    /** RPacketForward */
    method Forward(n: nat)
      requires Valid() && n <= remaining
      modifies this
      ensures Valid() && mem == old(mem) && head == old(head) && curr == old(curr) + n && End() == old(End())
      ensures Rest() == old(Rest())[n..]
    {
      curr := curr + n;
      remaining := remaining - n;
    }

    /** RPacketHeadPush */
    method HeadPush(n: nat)
      requires Valid() && n <= head
      modifies this
      ensures Valid() && mem == old(mem) && head == old(head) - n && curr == old(curr)
      ensures Rest() == old(Rest())
    {
      head := head - n;
      total := total + n;
    }

    /** RPacketUpdate: start over at the current position. */
    method Update()
      requires Valid()
      modifies this
      ensures Valid() && mem == old(mem) && head == curr == old(curr)
      ensures Rest() == old(Rest())
    {
      head := curr;
      total := remaining;
    }

    /** RPacketPeekData and RPacketGetData: a big-endian number of `n` bytes. */
    method GetData(n: nat) returns (ok: bool, v: nat)
      requires Valid() && 1 <= n <= 4
      modifies this
      ensures Valid() && mem == old(mem) && head == old(head) && End() == old(End())
      ensures ok <==> n <= |old(Rest())|
      ensures !ok ==> Rest() == old(Rest())
      ensures ok ==> v == Fold(0, old(Rest())[..n]) && Rest() == old(Rest())[n..]
    {
      v := 0;
      if QuicLt(remaining, n) { return false, 0; }
      ghost var rest := Rest();
      v := mem[curr];
      assert rest[..1][..0] == [] && rest[..1][0] == v;
      var i := 1;
      while i < n
        invariant 1 <= i <= n
        invariant v == Fold(0, rest[..i])
      {
        assert rest[..i + 1][..i] == rest[..i];
        v := v * 256 + mem[curr + i];
        i := i + 1;
      }
      Forward(n);
      ok := true;
    }

    /** RPacketGetBytes */
    method GetBytes(n: nat) returns (ok: bool, s: Str)
      requires Valid() && n < TWO31
      modifies this
      ensures Valid() && mem == old(mem) && head == old(head) && End() == old(End())
      ensures ok <==> n <= |old(Rest())|
      ensures !ok ==> Rest() == old(Rest())
      ensures ok ==> s == old(Rest())[..n] && Rest() == old(Rest())[n..]
    {
      s := [];
      if QuicLt(remaining, n) { return false, []; }
      s := mem[curr..curr + n];
      Forward(n);
      ok := true;
    }

    /** RPacketGetLengthPrefixed1 and 2 */
    method GetLengthPrefixed(n: nat) returns (ok: bool, s: Str)
      requires Valid() && 1 <= n <= 2
      modifies this
      ensures Valid() && mem == old(mem) && head == old(head) && End() == old(End())
      ensures var r := ReadSub(old(Rest()), n);
              ok == r.Some? && (ok ==> s == r.value.0 && Rest() == r.value.1)
    {
      var len;
      ghost var rest := Rest();
      ok, len := GetData(n);
      if !ok { return false, []; }
      FoldBound(0, rest[..n], 1);
      assert Pow256(2) == 65536;
      ok, s := GetBytes(len);
    }
  }

  /** A length of `n` bytes and then that many bytes: the part and what follows it. */
  function ReadSub(s: Str, n: nat): Option<(Str, Str)> {
    if |s| < n then None
    else
      var len := Fold(0, s[..n]);
      if |s| < n + len then None else Some((s[n..n + len], s[n + len..]))
  }
}

/** The nested length-prefixed writer over a static buffer, quic/packet.c:366-651. */
module PacketWriter {
  import opened Common
  import opened Bytes
  import opened PacketReader

  /** An open sub-packet: where its length field is and how wide. A failed start leaves a
      record with no position behind. */
  datatype Sub = Sub(pos: nat, len: nat) | Broken

  /** The writer as a value: `mem` is the whole static buffer. */
  datatype W = W(mem: Str, written: nat, subs: seq<Sub>, max: nat) {
    ghost predicate Valid() {
      && written <= max <= |mem| < TWO31
      && (forall i :: 0 <= i < |subs| && subs[i].Sub? ==> subs[i].pos + subs[i].len <= written)
    }
  }

  datatype Out = Out(ok: bool, w: W)

  datatype Op = Copy(s: Str) | Number(v: nat, n: nat) | Open(n: nat) | Close

  /** WPacketReserveBytes refuses. Requests of 2^31 bytes or more are beyond the range of the
      macro and count as refused. */
  predicate NoRoom(w: W, n: nat)
    requires w.Valid()
    ensures NoRoom(w, n) <==> w.max - w.written < n
  { n >= TWO31 || QuicLt(w.max - w.written, n) }

  /** WPacketMemcpy, WPacketPutBytes, WPacketStartSubBytes and WPacketClose. */
  function Exec(w: W, op: Op): (o: Out)
    requires w.Valid()
    ensures o.w.Valid()
  {
    match op
    case Copy(s) =>
      if NoRoom(w, |s|) then Out(false, w)
      else Out(true, w.(mem := Overwrite(w.mem, w.written, s), written := w.written + |s|))
    case Number(v, n) =>
      if NoRoom(w, n) then Out(false, w)
      else Out(v < Pow256(n), w.(mem := Overwrite(w.mem, w.written, BigEndian(v, n)), written := w.written + n))
    case Open(n) =>
      if NoRoom(w, n) then Out(false, w.(subs := w.subs + [Broken]))
      else Out(true, w.(subs := w.subs + [Sub(w.written, n)], written := w.written + n))
    case Close =>
      if w.subs == [] then Out(false, w)
      else
        var sub := w.subs[|w.subs| - 1];
        if sub.Broken? then Out(false, w)
        else
          var len := w.written - sub.pos - sub.len;
          var mem := Overwrite(w.mem, sub.pos, BigEndian(len, sub.len));
          if len >= Pow256(sub.len) then Out(false, w.(mem := mem))
          else Out(true, w.(mem := mem, subs := w.subs[..|w.subs| - 1]))
  }

  /** Callers stop at the first failure. */
  function Run(w: W, ops: seq<Op>): (o: Out)
    requires w.Valid()
    ensures o.w.Valid()
    decreases |ops|
  {
    if ops == [] then Out(true, w)
    else
      var o := Exec(w, ops[0]);
      if o.ok then Run(o.w, ops[1..]) else o
  }

  lemma {:induction false} RunAppend(w: W, a: seq<Op>, b: seq<Op>)
    requires w.Valid()
    ensures Run(w, a + b) == var o := Run(w, a); if o.ok then Run(o.w, b) else o
    decreases |a|
  {
    if a == [] {
      assert a + b == b;
    } else {
      assert (a + b)[1..] == a[1..] + b;
      var o := Exec(w, a[0]);
      if o.ok { RunAppend(o.w, a[1..], b); }
    }
  }

  /** A nested message. */
  datatype Item = Raw(s: Str) | Num(v: nat, n: nat) | Nest(n: nat, body: Items)
  datatype Items = Nil | Cons(head: Item, tail: Items)

  /** The calls that write it, in order. */
  function Ops(t: Items): seq<Op> {
    match t
    case Nil => []
    case Cons(h, rest) => ItemOps(h) + Ops(rest)
  }

  function ItemOps(i: Item): seq<Op> {
    match i
    case Raw(s) => [Op.Copy(s)]
    case Num(v, n) => [Number(v, n)]
    case Nest(n, body) => [Open(n)] + Ops(body) + [Close]
  }

  /** Its serialisation: every nested part after its big-endian length. */
  function Ser(t: Items): Str {
    match t
    case Nil => []
    case Cons(h, rest) => ItemSer(h) + Ser(rest)
  }

  function ItemSer(i: Item): Str {
    match i
    case Raw(s) => s
    case Num(v, n) => BigEndian(v, n)
    case Nest(n, body) => BigEndian(|Ser(body)|, n) + Ser(body)
  }

  /** Every number and every length fits its field. */
  predicate Fits(t: Items) {
    match t
    case Nil => true
    case Cons(h, rest) => ItemFits(h) && Fits(rest)
  }

  predicate ItemFits(i: Item) {
    match i
    case Raw(_) => true
    case Num(v, n) => v < Pow256(n)
    case Nest(n, body) => Fits(body) && |Ser(body)| < Pow256(n)
  }

  ghost predicate Writes(w: W, o: Out, s: Str, fits: bool)
    requires w.Valid()
  {
    && (o.ok <==> fits && |s| <= w.max - w.written)
    && (o.ok ==> o.w == w.(mem := Overwrite(w.mem, w.written, s), written := w.written + |s|))
  }

  /** A well-bracketed run succeeds exactly when everything fits, and then the buffer holds the
      serialisation of the tree, every length patched in and nothing else changed. */
  lemma {:induction false} WriterCorrect(w: W, t: Items)
    requires w.Valid()
    ensures Writes(w, Run(w, Ops(t)), Ser(t), Fits(t))
    decreases t
  {
    match t
    case Nil =>
      assert Overwrite(w.mem, w.written, []) == w.mem;
    case Cons(h, rest) =>
      RunAppend(w, ItemOps(h), Ops(rest));
      ItemCorrect(w, h);
      var o := Run(w, ItemOps(h));
      if o.ok {
        WriterCorrect(o.w, rest);
        WritesBoth(w, o, Run(o.w, Ops(rest)), ItemSer(h), Ser(rest), ItemFits(h), Fits(rest));
      }
  }

  lemma WritesBoth(w: W, o: Out, p: Out, s: Str, t: Str, fits: bool, also: bool)
    requires w.Valid() && o.ok && Writes(w, o, s, fits) && o.w.Valid() && Writes(o.w, p, t, also)
    ensures Writes(w, p, s + t, fits && also)
  {
    if |s + t| <= w.max - w.written { OverwriteAppend(w.mem, w.written, s, t); }
  }

  lemma {:induction false} ItemCorrect(w: W, i: Item)
    requires w.Valid()
    ensures Writes(w, Run(w, ItemOps(i)), ItemSer(i), ItemFits(i))
    decreases i
  {
    match i
    case Raw(s) =>
      RunOne(w, Op.Copy(s));
    case Num(v, n) =>
      RunOne(w, Number(v, n));
    case Nest(n, body) =>
      var o := Exec(w, Open(n));
      if o.ok { WriterCorrect(o.w, body); }
      NestCorrect(w, n, body);
  }

  lemma NestCorrect(w: W, n: nat, body: Items)
    requires w.Valid()
    requires var o := Exec(w, Open(n)); o.ok ==> Writes(o.w, Run(o.w, Ops(body)), Ser(body), Fits(body))
    ensures Writes(w, Run(w, ItemOps(Nest(n, body))), ItemSer(Nest(n, body)), ItemFits(Nest(n, body)))
  {
    NestRun(w, n, body);
    var o := Exec(w, Open(n));
    if o.ok { NestBody(w, n, Ser(body), Fits(body), Run(o.w, Ops(body))); }
  }

  lemma NestRun(w: W, n: nat, body: Items)
    requires w.Valid()
    ensures var o := Exec(w, Open(n));
            Run(w, ItemOps(Nest(n, body))) ==
            if !o.ok then o else var p := Run(o.w, Ops(body)); if p.ok then Exec(p.w, Close) else p
  {
    assert ItemOps(Nest(n, body)) == [Open(n)] + (Ops(body) + [Close]);
    RunAppend(w, [Open(n)], Ops(body) + [Close]);
    RunOne(w, Open(n));
    var o := Exec(w, Open(n));
    if o.ok {
      RunAppend(o.w, Ops(body), [Close]);
      var p := Run(o.w, Ops(body));
      if p.ok { RunOne(p.w, Close); }
    }
  }

  lemma NestBody(w: W, n: nat, s: Str, fits: bool, p: Out)
    requires w.Valid() && Exec(w, Open(n)).ok && Writes(Exec(w, Open(n)).w, p, s, fits) && p.w.Valid()
    ensures Writes(w, if p.ok then Exec(p.w, Close) else p, BigEndian(|s|, n) + s, fits && |s| < Pow256(n))
  {
    OpenIs(w, n);
    if p.ok { NestClosed(w, n, s, p.w); }
  }

  lemma OpenIs(w: W, n: nat)
    requires w.Valid() && Exec(w, Open(n)).ok
    ensures w.written + n <= w.max
    ensures Exec(w, Open(n)).w == W(w.mem, w.written + n, w.subs + [Sub(w.written, n)], w.max)
  {}

  lemma NestClosed(w: W, n: nat, s: Str, p: W)
    requires w.Valid() && p.Valid() && w.written + n + |s| <= w.max
    requires p == W(Overwrite(w.mem, w.written + n, s), w.written + n + |s|, w.subs + [Sub(w.written, n)], w.max)
    ensures Writes(w, Exec(p, Close), BigEndian(|s|, n) + s, |s| < Pow256(n))
  {
    PatchFront(w.mem, w.written, BigEndian(|s|, n), s);
    CloseNest(w, n, s, p);
  }

  lemma RunOne(w: W, op: Op)
    requires w.Valid()
    ensures Run(w, [op]) == Exec(w, op)
  {
    var o := Exec(w, op);
    assert [op][1..] == [];
  }

  /** Closing after the body was written patches the length in front of it. */
  lemma CloseNest(w: W, n: nat, s: Str, p: W)
    requires w.Valid() && p.Valid() && w.written + n + |s| == p.written && w.max == p.max
    requires p.subs == w.subs + [Sub(w.written, n)]
    requires |p.mem| == |w.mem|
    requires Overwrite(p.mem, w.written, BigEndian(|s|, n)) == Overwrite(w.mem, w.written, BigEndian(|s|, n) + s)
    ensures Writes(w, Exec(p, Close), BigEndian(|s|, n) + s, |s| < Pow256(n))
  {
    var top := p.subs[|p.subs| - 1];
    assert top == Sub(w.written, n) && p.subs[..|p.subs| - 1] == w.subs;
    CloseTop(p, top, w.subs);
  }

  lemma CloseTop(p: W, top: Sub, below: seq<Sub>)
    requires p.Valid() && p.subs != [] && p.subs[|p.subs| - 1] == top && p.subs[..|p.subs| - 1] == below
    requires top.Sub? && top.pos + top.len <= p.written
    ensures var len := p.written - top.pos - top.len;
            var mem := Overwrite(p.mem, top.pos, BigEndian(len, top.len));
            Exec(p, Close) == if len >= Pow256(top.len) then Out(false, p.(mem := mem))
                              else Out(true, p.(mem := mem, subs := below))
  {}

  lemma PatchFront(mem: Str, pos: nat, a: Str, b: Str)
    requires pos + |a| + |b| <= |mem|
    ensures Overwrite(Overwrite(mem, pos + |a|, b), pos, a) == Overwrite(mem, pos, a + b)
  {}

  lemma OverwriteAppend(mem: Str, pos: nat, a: Str, b: Str)
    requires pos + |a| + |b| <= |mem|
    ensures Overwrite(Overwrite(mem, pos, a), pos + |a|, b) == Overwrite(mem, pos, a + b)
  {}

  /** The readers of a message of a known shape. */
  function ReadItems(shape: Items, s: Str): Option<(Items, Str)> {
    match shape
    case Nil => Some((Nil, s))
    case Cons(h, rest) =>
      var a := ReadItem(h, s);
      if a.None? then None
      else
        var b := ReadItems(rest, a.value.1);
        if b.None? then None else Some((Cons(a.value.0, b.value.0), b.value.1))
  }

  function ReadItem(shape: Item, s: Str): Option<(Item, Str)> {
    match shape
    case Raw(x) => if |s| < |x| then None else Some((Raw(s[..|x|]), s[|x|..]))
    case Num(_, n) => if |s| < n then None else Some((Num(Fold(0, s[..n]), n), s[n..]))
    case Nest(n, body) =>
      var part := ReadSub(s, n);
      if part.None? then None
      else
        var b := ReadItems(body, part.value.0);
        if b.None? || b.value.1 != [] then None else Some((Nest(n, b.value.0), part.value.1))
  }

  /** What the writer wrote, the length-prefixed readers take apart again. */
  lemma {:induction false} ReadBack(t: Items, rest: Str)
    requires Fits(t)
    ensures ReadItems(t, Ser(t) + rest) == Some((t, rest))
    decreases t
  {
    match t
    case Nil =>
      assert [] + rest == rest;
    case Cons(h, tail) =>
      assert Ser(t) + rest == ItemSer(h) + (Ser(tail) + rest);
      ReadItemBack(h, Ser(tail) + rest);
      ReadBack(tail, rest);
  }

  lemma {:induction false} ReadItemBack(i: Item, rest: Str)
    requires ItemFits(i)
    ensures ReadItem(i, ItemSer(i) + rest) == Some((i, rest))
    decreases i
  {
    match i
    case Raw(x) =>
    case Num(v, n) =>
      FoldBigEndianFits(v, n);
      assert (BigEndian(v, n) + rest)[..n] == BigEndian(v, n);
    case Nest(n, body) =>
      var s := ItemSer(i) + rest;
      var len := |Ser(body)|;
      FoldBigEndianFits(len, n);
      assert s[..n] == BigEndian(len, n);
      assert s[n..n + len] == Ser(body);
      assert Ser(body) + [] == Ser(body);
      ReadBack(body, []);
  }

  lemma CloseFirst(w: W, n: nat)
    requires w.Valid() && n > 0
    ensures var o := Exec(w, Close);
            Run(w, seq(n, _ => Op.Close)) == if !o.ok then o else Run(o.w, seq(n - 1, _ => Op.Close))
  {
    assert seq(n, _ => Op.Close)[1..] == seq(n - 1, _ => Op.Close);
  }

  lemma Written(was: Str, now: Str, at: nat, s: Str)
    requires |was| == |now| && at + |s| <= |was| && now[at..at + |s|] == s
    requires forall k :: 0 <= k < |was| && !(at <= k < at + |s|) ==> now[k] == was[k]
    ensures now == Overwrite(was, at, s)
  {
    assert now == now[..at] + now[at..at + |s|] + now[at + |s|..];
  }

  /** The writer object. */
  class WPacket {
    const buf: array<Byte>
    const maxsize: nat
    var written: nat
    var subs: seq<Sub>
    var closed: bool

    ghost predicate Valid()
      reads this, buf
    { Abs().Valid() }

    ghost function Abs(): W
      reads this, buf
    { W(buf[..], written, subs, maxsize) }

    /** WPacketStaticBufInit */
    constructor (b: array<Byte>, len: nat)
      requires len <= b.Length < TWO31
      ensures Valid() && buf == b && maxsize == len
      ensures Abs() == W(b[..], 0, [], len)
    {
      buf, maxsize, written, subs, closed := b, len, 0, [], false;
    }

    /** WPacketPutValue: the number is stored from its last byte backwards. */
    method PutValue(at: nat, value: nat, len: nat) returns (ok: bool)
      requires at + len <= buf.Length
      modifies buf
      ensures buf[..] == Overwrite(old(buf[..]), at, BigEndian(value, len))
      ensures ok <==> value < Pow256(len)
    {
      ok := PutDigits(at, value, len);
      Written(old(buf[..]), buf[..], at, BigEndian(value, len));
    }

    method PutDigits(at: nat, value: nat, len: nat) returns (ok: bool)
      requires at + len <= buf.Length
      modifies buf
      ensures buf[at..at + len] == BigEndian(value, len)
      ensures forall k :: 0 <= k < buf.Length && !(at <= k < at + len) ==> buf[k] == old(buf[k])
      ensures ok <==> value < Pow256(len)
    {
      var i, v: nat := len, value;
      while i > 0
        invariant 0 <= i <= len
        invariant BigEndian(value, len) == BigEndian(v, i) + buf[at + i..at + len]
        invariant value < Pow256(len) <==> v < Pow256(i)
        invariant forall k :: 0 <= k < buf.Length && !(at + i <= k < at + len) ==> buf[k] == old(buf[k])
      {
        ghost var tail := buf[at + i..at + len];
        buf[at + i - 1] := v % 256;
        assert buf[at + i - 1..at + len] == [v % 256] + tail;
        Assoc3(BigEndian(v / 256, i - 1), [v % 256], tail);
        v := v / 256;
        i := i - 1;
      }
      ok := v == 0;
    }

    /** WPacketMemcpy */
    method Copy(src: Str) returns (ok: bool)
      requires Valid() && |src| < TWO31
      modifies this`written, buf
      ensures Valid() && Out(ok, Abs()) == Exec(old(Abs()), Op.Copy(src))
    {
      if |src| == 0 {
        assert Overwrite(buf[..], written, src) == buf[..];
        return true;
      }
      if QuicLt(maxsize - written, |src|) { return false; }
      var i := 0;
      while i < |src|
        invariant 0 <= i <= |src| && written == old(written)
        invariant forall k :: 0 <= k < i ==> buf[written + k] == src[k]
        invariant forall k :: 0 <= k < buf.Length && !(written <= k < written + i) ==> buf[k] == old(buf[k])
      {
        buf[written + i] := src[i];
        i := i + 1;
      }
      assert buf[..] == Overwrite(old(buf[..]), written, src);
      written := written + |src|;
      ok := true;
    }

    /** WPacketPutBytes. Its argument is a 32-bit number: of a wider one only the low bits are seen. */
    method PutBytes(v: nat, n: nat) returns (ok: bool)
      requires Valid() && n < TWO31
      modifies this`written, buf
      ensures Valid() && Out(ok, Abs()) == Exec(old(Abs()), Number(v % TWO32, n))
    {
      if QuicLt(maxsize - written, n) { return false; }
      ok := PutValue(written, v % TWO32, n);
      written := written + n;
    }

    /** WPacketStartSubBytes */
    method StartSub(n: nat) returns (ok: bool)
      requires Valid() && n < TWO31
      modifies this`written, this`subs
      ensures Valid() && Out(ok, Abs()) == Exec(old(Abs()), Open(n))
    {
      if QuicLt(maxsize - written, n) {
        subs := subs + [Broken];
        return false;
      }
      subs := subs + [Sub(written, n)];
      written := written + n;
      ok := true;
    }

    /** WPacketClose with a sub-packet open. */
    method CloseSub() returns (ok: bool)
      requires Valid()
      modifies this`subs, buf
      ensures Valid()
      ensures old(subs) != [] ==> Out(ok, Abs()) == Exec(old(Abs()), Op.Close)
      ensures old(subs) == [] ==> Abs() == old(Abs()) && ok == closed
    {
      if subs == [] { return closed; }
      var sub := subs[|subs| - 1];
      if sub.Broken? { return false; }
      ok := PutValue(sub.pos, written - sub.pos - sub.len, sub.len);
      if ok { subs := subs[..|subs| - 1]; }
    }

    /** WPacketForceClose: every open part is closed, innermost first. */
    method ForceClose() returns (ok: bool)
      requires Valid()
      modifies this`subs, this`closed, buf
      ensures Valid()
      ensures Out(ok, Abs()) == Run(old(Abs()), seq(|old(subs)|, _ => Op.Close))
      ensures ok ==> subs == [] && closed
    {
      ghost var w := Abs();
      while subs != []
        invariant Valid() && |subs| <= |w.subs| && written == w.written
        invariant Run(w, seq(|w.subs|, _ => Op.Close)) == Run(Abs(), seq(|subs|, _ => Op.Close))
        decreases |subs|
      {
        CloseFirst(Abs(), |subs|);
        var r := CloseSub();
        if !r { return false; }
      }
      closed := true;
      ok := true;
    }
  }
}
