/** Transport parameters: the tables, the constructor and the parser (quic/transport.c:16-167,
    quic/tls/extension.c:202-349, quic/tls/extension_clnt.c:172-249 and
    quic/tls/extension_srvr.c:151-215, 731-758). */
module TransportParams {
  import opened Common
  import opened Bytes
  import opened PacketReader
  import opened Varint
  import opened VarintReader

  const MAX_IDLE_TIMEOUT := 0x01
  const STATELESS_RESET_TOKEN := 0x02
  const ACTIVE_CID_LIMIT := 0x0E
  const INITIAL_SCID := 0x0F
  const ACTIVE_LIMIT_MIN := 2

  /** The integer fields of QuicTransParams, named by the type that sets them. */
  const FIELDS: set<nat> := {0x01, 0x03, 0x04, 0x05, 0x06, 0x07, 0x08, 0x09, 0x0E, 0x20}

  type Params = map<nat, nat>

  function Value(p: Params, field: nat): nat { if field in p then p[field] else 0 }

  /** QuicTransParamGetOffset. The source connection ID has no field of its own; its definition names
      the first one. */
  function FieldOf(ty: nat): Option<nat> {
    if ty in FIELDS then Some(ty) else if ty == INITIAL_SCID then Some(MAX_IDLE_TIMEOUT) else None
  }

  /** QuicTransParamGet for the active connection ID limit. */
  function ActiveLimit(p: Params): (n: nat)
    ensures n >= ACTIVE_LIMIT_MIN
    ensures Value(p, ACTIVE_CID_LIMIT) >= ACTIVE_LIMIT_MIN ==> n == Value(p, ACTIVE_CID_LIMIT)
  { Max(Value(p, ACTIVE_CID_LIMIT), ACTIVE_LIMIT_MIN) }

  /** What an entry does: an integer field; bytes of its own, sent or not; and how it is read. */
  datatype Reader = Skip | Token | Cid
  datatype Body = Integer | Own(sent: Option<Str>, reader: Reader)
  datatype Def = Def(ty: nat, body: Body)

  /** The first entry of a type. */
  function Find(table: seq<Def>, ty: nat): Option<Def> {
    if table == [] then None else if table[0].ty == ty then Some(table[0]) else Find(table[1..], ty)
  }

  /** QuicVariableLengthValueWrite */
  function ValueBytes(v: nat): Str
    requires v < TWO62
  { Enc(VarLen(v)) + Enc(v) }

  /** One entry as it is written, or nothing if its check fails. */
  function EntryBytes(d: Def, p: Params): Option<Str>
    requires d.ty < TWO62
  {
    match d.body
    case Integer =>
      if Value(p, d.ty) == 0 then Some([])
      else if Value(p, d.ty) >= TWO62 then None
      else Some(Enc(d.ty) + ValueBytes(Value(p, d.ty)))
    case Own(sent, _) =>
      if sent.None? then Some([])
      else if |sent.value| >= TWO31 then None
      else Some(Enc(d.ty) + (Enc(|sent.value|) + sent.value))
  }

  ghost predicate TypesFit(table: seq<Def>) { forall d :: d in table ==> d.ty < TWO62 }

  /** TlsConstructQtpExtension */
  function Written(table: seq<Def>, p: Params): Option<Str>
    requires TypesFit(table)
  {
    if table == [] then Some([])
    else
      var first := EntryBytes(table[0], p);
      var rest := if first.None? then None else Written(table[1..], p);
      if rest.None? then None else Some(first.value + rest.value)
  }

  /** A reader's effect on the peer's parameters, and what is left to read. */
  function ReadEntry(d: Option<Def>, dcid: Str, ty: nat, len: nat, q: Params, s: Str): (r: Option<(Params, Str)>)
    ensures r.Some? ==> |r.value.1| <= |s|
  {
    var field := FieldOf(ty);
    if d.Some? && field.Some? && d.value.body.Integer? then
      var v := Next(s);
      if v.None? then None else Some((q[field.value := v.value.0], v.value.1))
    else if |s| < len then None
    else if d.None? || field.None? || d.value.body.reader != Cid || dcid == [] || s[..len] == dcid then
      Some((q, s[len..]))
    else None
  }

  /** TlsParseQtpExtension; `dcid` is the connection ID the peer is known by. */
  function Parsed(table: seq<Def>, dcid: Str, q: Params, s: Str): Option<Params>
    decreases |s|
  {
    if s == [] then Some(q)
    else
      var ty := Next(s);
      var len := if ty.None? then None else Next(ty.value.1);
      var r := if len.None? then None
               else ReadEntry(Find(table, ty.value.0), dcid, ty.value.0, len.value.0, q, len.value.1);
      if r.None? then None else Parsed(table, dcid, r.value.0, r.value.1)
  }

  // ---------------------------------------------------------------- round trip

  /** Writer and reader agree on an entry: an integer on both sides or unknown to the reader, and a
      connection ID that is the one the reader expects. */
  ghost predicate Agree(d: Def, table: seq<Def>, dcid: Str) {
    var e := Find(table, d.ty);
    if d.body.Integer? then d.ty in FIELDS && (e.None? || e.value.body.Integer?)
    else
      && (e.None? || !e.value.body.Integer?)
      && (d.body.sent.Some? ==>
            |d.body.sent.value| < TWO31 && (e.Some? && e.value.body.reader == Cid ==> d.body.sent.value == dcid))
  }

  ghost predicate AllAgree(sender: seq<Def>, receiver: seq<Def>, dcid: Str) {
    forall d :: d in sender ==> Agree(d, receiver, dcid)
  }

  predicate Transferred(d: Def, receiver: seq<Def>, p: Params) {
    d.body.Integer? && Find(receiver, d.ty).Some? && Value(p, d.ty) != 0
  }

  /** What reading the entries of `sender` makes of `q`. */
  function Merged(sender: seq<Def>, receiver: seq<Def>, p: Params, q: Params): Params
    decreases |sender|
  {
    if sender == [] then q
    else
      Merged(sender[1..], receiver, p,
             if Transferred(sender[0], receiver, p) then q[sender[0].ty := Value(p, sender[0].ty)] else q)
  }

  lemma ParseStep(table: seq<Def>, dcid: Str, q: Params, ty: nat, len: nat, s: Str)
    requires ty < TWO62 && len < TWO62
    ensures var r := ReadEntry(Find(table, ty), dcid, ty, len, q, s);
            Parsed(table, dcid, q, Enc(ty) + (Enc(len) + s)) ==
            if r.None? then None else Parsed(table, dcid, r.value.0, r.value.1)
  {
    NextEnc(ty, Enc(len) + s);
    NextEnc(len, s);
  }

  /** An entry the reader does not know, or has no field for, is skipped whatever is in it. */
  lemma UnknownSkipped(table: seq<Def>, dcid: Str, q: Params, ty: nat, x: Str, rest: Str)
    requires ty < TWO62 && |x| < TWO62 && (Find(table, ty).None? || FieldOf(ty).None?)
    ensures Parsed(table, dcid, q, Enc(ty) + (Enc(|x|) + (x + rest))) == Parsed(table, dcid, q, rest)
  {
    ParseStep(table, dcid, q, ty, |x|, x + rest);
    assert (x + rest)[|x|..] == rest;
  }

  lemma IntegerParsed(table: seq<Def>, dcid: Str, q: Params, ty: nat, v: nat, rest: Str)
    requires ty in FIELDS && v < TWO62 && (Find(table, ty).None? || Find(table, ty).value.body.Integer?)
    ensures Parsed(table, dcid, q, Enc(ty) + ValueBytes(v) + rest) ==
            Parsed(table, dcid, if Find(table, ty).Some? then q[ty := v] else q, rest)
  {
    var s := Enc(v) + rest;
    Assoc3(Enc(ty), ValueBytes(v), rest);
    Assoc3(Enc(VarLen(v)), Enc(v), rest);
    ParseStep(table, dcid, q, ty, VarLen(v), s);
    NextEnc(v, rest);
    assert s[VarLen(v)..] == rest;
  }

  lemma OwnParsed(table: seq<Def>, dcid: Str, q: Params, ty: nat, x: Str, rest: Str)
    requires ty < TWO62 && |x| < TWO31
    requires var e := Find(table, ty); e.None? || (!e.value.body.Integer? && (e.value.body.reader == Cid ==> x == dcid))
    ensures Parsed(table, dcid, q, Enc(ty) + (Enc(|x|) + x) + rest) == Parsed(table, dcid, q, rest)
  {
    Assoc3(Enc(ty), Enc(|x|) + x, rest);
    Assoc3(Enc(|x|), x, rest);
    ParseStep(table, dcid, q, ty, |x|, x + rest);
    assert (x + rest)[|x|..] == rest && (x + rest)[..|x|] == x;
  }

  lemma EntryParsed(d: Def, receiver: seq<Def>, dcid: Str, p: Params, q: Params, rest: Str)
    requires d.ty < TWO62 && Agree(d, receiver, dcid) && Value(p, d.ty) < TWO62
    ensures EntryBytes(d, p).Some?
    ensures Parsed(receiver, dcid, q, EntryBytes(d, p).value + rest) ==
            Parsed(receiver, dcid, if Transferred(d, receiver, p) then q[d.ty := Value(p, d.ty)] else q, rest)
  {
    assert [] + rest == rest;
    match d.body
    case Integer => if Value(p, d.ty) != 0 { IntegerParsed(receiver, dcid, q, d.ty, Value(p, d.ty), rest); }
    case Own(sent, _) => if sent.Some? { OwnParsed(receiver, dcid, q, d.ty, sent.value, rest); }
  }

  lemma {:induction false} MergedParsed(sender: seq<Def>, receiver: seq<Def>, dcid: Str, p: Params, q: Params)
    requires TypesFit(sender) && AllAgree(sender, receiver, dcid)
    requires forall d :: d in sender ==> Value(p, d.ty) < TWO62
    ensures Written(sender, p).Some?
    ensures Parsed(receiver, dcid, q, Written(sender, p).value) == Some(Merged(sender, receiver, p, q))
    decreases |sender|
  {
    if sender != [] {
      var d := sender[0];
      var r := if Transferred(d, receiver, p) then q[d.ty := Value(p, d.ty)] else q;
      MergedParsed(sender[1..], receiver, dcid, p, r);
      EntryParsed(d, receiver, dcid, p, q, Written(sender[1..], p).value);
    }
  }

  ghost predicate Distinct(table: seq<Def>) {
    table == [] || ((forall d :: d in table[1..] ==> d.ty != table[0].ty) && Distinct(table[1..]))
  }

  predicate Carries(sender: seq<Def>, receiver: seq<Def>, ty: nat) {
    Find(sender, ty).Some? && Find(sender, ty).value.body.Integer? && Find(receiver, ty).Some?
  }

  lemma {:induction false} FindIn(table: seq<Def>, ty: nat)
    ensures Find(table, ty).Some? ==> Find(table, ty).value in table && Find(table, ty).value.ty == ty
    ensures Find(table, ty).None? ==> forall d :: d in table ==> d.ty != ty
  {
    if table != [] && table[0].ty != ty { FindIn(table[1..], ty); }
  }

  /** The order of the table does not matter: a field has the sender's value if both tables have it and
      it is not zero, and keeps its own otherwise. */
  lemma {:induction false} MergedAt(sender: seq<Def>, receiver: seq<Def>, p: Params, q: Params, ty: nat)
    requires Distinct(sender)
    ensures Value(Merged(sender, receiver, p, q), ty) ==
            if Carries(sender, receiver, ty) && Value(p, ty) != 0 then Value(p, ty) else Value(q, ty)
    decreases |sender|
  {
    if sender != [] {
      var d := sender[0];
      MergedAt(sender[1..], receiver, p, if Transferred(d, receiver, p) then q[d.ty := Value(p, d.ty)] else q, ty);
      FindIn(sender[1..], ty);
    }
  }

  /** For every assignment of values below 2^62, parsing what was constructed restores each integer
      field that both tables have, and leaves those that are zero or not shared as they were. */
  lemma RoundTrip(sender: seq<Def>, receiver: seq<Def>, dcid: Str, p: Params, q: Params)
    requires TypesFit(sender) && AllAgree(sender, receiver, dcid) && Distinct(sender)
    requires forall ty :: Value(p, ty) < TWO62
    ensures Written(sender, p).Some?
    ensures var r := Parsed(receiver, dcid, q, Written(sender, p).value);
            && r.Some?
            && forall ty :: Value(r.value, ty) ==
                 if Carries(sender, receiver, ty) && Value(p, ty) != 0 then Value(p, ty) else Value(q, ty)
  {
    MergedParsed(sender, receiver, dcid, p, q);
    forall ty ensures Value(Merged(sender, receiver, p, q), ty) ==
                      if Carries(sender, receiver, ty) && Value(p, ty) != 0 then Value(p, ty) else Value(q, ty)
    {
      MergedAt(sender, receiver, p, q, ty);
    }
  }

  // ---------------------------------------------------------------- the tables

  /** The table of the client; the last two entries are sent or not as their checks decide. */
  function ClientTable(scid: Str, grease: Option<Str>, google: Option<Str>): seq<Def> {
    [Def(STATELESS_RESET_TOKEN, Own(None, Token)), Def(0x01, Integer), Def(0x03, Integer), Def(0x04, Integer),
     Def(0x05, Integer), Def(0x06, Integer), Def(0x07, Integer), Def(0x08, Integer), Def(0x09, Integer),
     Def(INITIAL_SCID, Own(Some(scid), Skip)), Def(0x20, Integer), Def(0x1CD4_C8D5_6414_22F0, Own(grease, Skip)),
     Def(0x4752, Own(google, Skip))]
  }

  function ServerTable(scid: Str): seq<Def> {
    [Def(0x00, Own(Some(scid), Skip)), Def(0x01, Integer), Def(0x03, Integer), Def(0x04, Integer), Def(0x05, Integer),
     Def(0x06, Integer), Def(0x07, Integer), Def(0x08, Integer), Def(0x09, Integer),
     Def(INITIAL_SCID, Own(Some(scid), Cid)), Def(0x20, Integer)]
  }

  predicate IsShared(ty: nat) { (1 <= ty <= 9 && ty != 2) || ty == 0x20 }

  lemma {:induction false} DistinctByIndex(table: seq<Def>)
    requires forall i, j :: 0 <= i < j < |table| ==> table[i].ty != table[j].ty
    ensures Distinct(table)
  {
    if table != [] { DistinctByIndex(table[1..]); }
  }

  ghost predicate ByIndex(table: seq<Def>) {
    forall i, j :: 0 <= i < j < |table| ==> table[i].ty != table[j].ty
  }

  /** A table has exactly the shared integers, where both tables have them. */
  ghost predicate Side(table: seq<Def>) {
    && TypesFit(table) && ByIndex(table) && |table| > 10
    && forall i :: 0 <= i < |table| ==> (table[i].body.Integer? <==> 0 < i < 9 || i == 10)
                                        && (0 < i < 9 || i == 10 ==> table[i].ty == SharedType(i))
  }

  function SharedType(i: nat): nat { if i == 1 then 1 else if i < 9 then i + 1 else 0x20 }

  lemma ClientSide(scid: Str, grease: Option<Str>, google: Option<Str>)
    ensures Side(ClientTable(scid, grease, google))
  {}

  lemma ServerSide(scid: Str)
    ensures Side(ServerTable(scid))
  {}

  lemma SideFinds(t: seq<Def>, ty: nat)
    requires Side(t)
    ensures Distinct(t)
    ensures Find(t, ty).Some? && Find(t, ty).value.body.Integer? <==> IsShared(ty)
    ensures Find(t, ty).Some? ==> Find(t, ty).value in t && Find(t, ty).value.ty == ty
  {
    DistinctByIndex(t);
    FindIn(t, ty);
    if IsShared(ty) {
      var i := if ty == 1 then 1 else if ty == 0x20 then 10 else ty - 1;
      assert t[i] in t && t[i].ty == ty && t[i].body.Integer?;
    }
  }

  /** What a side knows of the other's parameters once it has parsed them. */
  function Learned(p: Params, q: Params, ty: nat): nat {
    if IsShared(ty) && Value(p, ty) != 0 then Value(p, ty) else Value(q, ty)
  }

  lemma Exchange(t: seq<Def>, u: seq<Def>, dcid: Str, p: Params, q: Params)
    requires Side(t) && Side(u) && AllAgree(t, u, dcid) && forall ty :: Value(p, ty) < TWO62
    ensures Written(t, p).Some?
    ensures var r := Parsed(u, dcid, q, Written(t, p).value);
            r.Some? && forall ty :: Value(r.value, ty) == Learned(p, q, ty)
  {
    SideFinds(t, 0);
    RoundTrip(t, u, dcid, p, q);
    var r := Parsed(u, dcid, q, Written(t, p).value);
    forall ty ensures Value(r.value, ty) == Learned(p, q, ty) {
      SideFinds(t, ty);
      SideFinds(u, ty);
    }
  }

  ghost predicate Fits(x: Option<Str>) { x.Some? ==> |x.value| < TWO31 }

  predicate Checks(d: Def) { !d.body.Integer? && d.body.reader == Cid }

  /** The connection IDs in the tables are short, and a side that checks one knows it. */
  lemma Agreement(t: seq<Def>, u: seq<Def>, dcid: Str)
    requires Side(t) && Side(u)
    requires forall i :: 0 <= i < |t| && !t[i].body.Integer? ==> !IsShared(t[i].ty) && Fits(t[i].body.sent)
    requires forall i, j :: 0 <= i < |t| && 0 <= j < |u| && t[i].ty == u[j].ty && Checks(u[j]) ==>
               t[i].body.Integer? || t[i].body.sent == Some(dcid)
    ensures AllAgree(t, u, dcid)
  {
    forall d | d in t ensures Agree(d, u, dcid) {
      var i :| 0 <= i < |t| && t[i] == d;
      SideFinds(u, d.ty);
      SideFinds(t, d.ty);
    }
  }

  /** Every value of the client reaches the server, and the other way round, except for the active
      connection ID limit, which neither table has. */
  lemma ClientToServer(scid: Str, own: Str, grease: Option<Str>, google: Option<Str>, p: Params, q: Params)
    requires |scid| < TWO31 && Fits(grease) && Fits(google) && forall ty :: Value(p, ty) < TWO62
    ensures var t := ClientTable(scid, grease, google);
            && TypesFit(t) && Written(t, p).Some?
            && var r := Parsed(ServerTable(own), scid, q, Written(t, p).value);
               r.Some? && forall ty :: Value(r.value, ty) == Learned(p, q, ty)
  {
    ClientSide(scid, grease, google);
    ServerSide(own);
    Agreement(ClientTable(scid, grease, google), ServerTable(own), scid);
    Exchange(ClientTable(scid, grease, google), ServerTable(own), scid, p, q);
  }

  lemma ServerToClient(scid: Str, own: Str, dcid: Str, grease: Option<Str>, google: Option<Str>, p: Params, q: Params)
    requires |scid| < TWO31 && forall ty :: Value(p, ty) < TWO62
    ensures var t := ServerTable(scid);
            && TypesFit(t) && Written(t, p).Some?
            && var r := Parsed(ClientTable(own, grease, google), dcid, q, Written(t, p).value);
               r.Some? && forall ty :: Value(r.value, ty) == Learned(p, q, ty)
  {
    ClientSide(own, grease, google);
    ServerSide(scid);
    Agreement(ServerTable(scid), ClientTable(own, grease, google), dcid);
    Exchange(ServerTable(scid), ClientTable(own, grease, google), dcid, p, q);
  }

  /** The stateless reset token has an entry and a reader in the client's table, but no field: it is
      skipped unread. */
  lemma TokenIgnored(own: Str, dcid: Str, grease: Option<Str>, google: Option<Str>, q: Params, x: Str, rest: Str)
    requires |x| < TWO62
    ensures Parsed(ClientTable(own, grease, google), dcid, q, Enc(STATELESS_RESET_TOKEN) + (Enc(|x|) + (x + rest))) ==
            Parsed(ClientTable(own, grease, google), dcid, q, rest)
  {
    UnknownSkipped(ClientTable(own, grease, google), dcid, q, STATELESS_RESET_TOKEN, x, rest);
  }

  /** A server that knows its peer by a connection ID refuses parameters that name another one, and no
      others on that account. */
  lemma ForeignCid(own: Str, dcid: Str, q: Params, x: Str, rest: Str)
    requires |x| < TWO62
    ensures Parsed(ServerTable(own), dcid, q, Enc(INITIAL_SCID) + (Enc(|x|) + (x + rest))) ==
            if dcid == [] || x == dcid then Parsed(ServerTable(own), dcid, q, rest) else None
  {
    ScidEntry(own);
    CidChecked(ServerTable(own), dcid, q, x, rest);
  }

  lemma CidChecked(u: seq<Def>, dcid: Str, q: Params, x: Str, rest: Str)
    requires |x| < TWO62 && Find(u, INITIAL_SCID).Some? && Checks(Find(u, INITIAL_SCID).value)
    ensures Parsed(u, dcid, q, Enc(INITIAL_SCID) + (Enc(|x|) + (x + rest))) ==
            if dcid == [] || x == dcid then Parsed(u, dcid, q, rest) else None
  {
    ReadCid(Find(u, INITIAL_SCID).value, dcid, q, x, rest);
    ParseStep(u, dcid, q, INITIAL_SCID, |x|, x + rest);
  }

  lemma ReadCid(e: Def, dcid: Str, q: Params, x: Str, rest: Str)
    requires Checks(e)
    ensures ReadEntry(Some(e), dcid, INITIAL_SCID, |x|, q, x + rest) ==
            if dcid == [] || x == dcid then Some((q, rest)) else None
  {
    assert (x + rest)[|x|..] == rest && (x + rest)[..|x|] == x;
  }

  lemma ScidEntry(own: Str)
    ensures Find(ServerTable(own), INITIAL_SCID) == Some(Def(INITIAL_SCID, Own(Some(own), Cid)))
  {
    var t := ServerTable(own);
    ServerSide(own);
    SideFinds(t, INITIAL_SCID);
    assert t[9] in t && t[9] == Def(INITIAL_SCID, Own(Some(own), Cid));
    OneEntry(t, t[9]);
  }

  lemma OneEntry(table: seq<Def>, d: Def)
    requires Distinct(table) && d in table
    ensures Find(table, d.ty) == Some(d)
    decreases |table|
  {
    if table[0] != d { OneEntry(table[1..], d); }
  }

  /** The length of an integer parameter is not looked at: the value is what the varint behind it says. */
  lemma LengthIgnored(table: seq<Def>, dcid: Str, q: Params, ty: nat, len: nat, v: nat, rest: Str)
    requires ty in FIELDS && len < TWO62 && v < TWO62
    requires Find(table, ty).Some? && Find(table, ty).value.body.Integer?
    ensures Parsed(table, dcid, q, Enc(ty) + (Enc(len) + (Enc(v) + rest))) == Parsed(table, dcid, q[ty := v], rest)
  {
    ParseStep(table, dcid, q, ty, len, Enc(v) + rest);
    NextEnc(v, rest);
  }

  /** Any other parameter that is cut short is refused. */
  lemma CutRefused(table: seq<Def>, dcid: Str, q: Params, ty: nat, len: nat, s: Str)
    requires ty < TWO62 && len < TWO62 && |s| < len
    requires Find(table, ty).None? || FieldOf(ty).None? || !Find(table, ty).value.body.Integer?
    ensures Parsed(table, dcid, q, Enc(ty) + (Enc(len) + s)) == None
  {
    ParseStep(table, dcid, q, ty, len, s);
  }

  /** The constructor fails exactly for an integer of 2^62 or more, or bytes of 2^31 or more. */
  ghost predicate Writable(d: Def, p: Params) {
    match d.body
    case Integer => Value(p, d.ty) < TWO62
    case Own(sent, _) => sent.Some? ==> |sent.value| < TWO31
  }

  lemma {:induction false} WrittenIff(table: seq<Def>, p: Params)
    requires TypesFit(table)
    ensures Written(table, p).Some? <==> forall d :: d in table ==> Writable(d, p)
  {
    if table != [] {
      WrittenIff(table[1..], p);
      assert EntryBytes(table[0], p).Some? <==> Writable(table[0], p);
      assert table == [table[0]] + table[1..];
    }
  }

  lemma {:induction false} WrittenAppend(a: seq<Def>, b: seq<Def>, p: Params)
    requires TypesFit(a + b) && Written(a, p).Some? && Written(b, p).Some?
    ensures Written(a + b, p) == Some(Written(a, p).value + Written(b, p).value)
  {
    if a == [] {
      assert a + b == b && [] + Written(b, p).value == Written(b, p).value;
    } else {
      assert (a + b)[1..] == a[1..] + b;
      WrittenAppend(a[1..], b, p);
      Assoc3(EntryBytes(a[0], p).value, Written(a[1..], p).value, Written(b, p).value);
    }
  }

  /** Entries on which writer and reader agree are read, whatever follows them. */
  lemma {:induction false} FrontParsed(sender: seq<Def>, receiver: seq<Def>, dcid: Str, p: Params, q: Params,
                                       rest: Str)
    requires TypesFit(sender) && AllAgree(sender, receiver, dcid)
    requires forall d :: d in sender ==> Value(p, d.ty) < TWO62
    ensures Written(sender, p).Some?
    ensures Parsed(receiver, dcid, q, Written(sender, p).value + rest) ==
            Parsed(receiver, dcid, Merged(sender, receiver, p, q), rest)
    decreases |sender|
  {
    if sender != [] {
      var d := sender[0];
      var r := if Transferred(d, receiver, p) then q[d.ty := Value(p, d.ty)] else q;
      FrontParsed(sender[1..], receiver, dcid, p, r, rest);
      EntryParsed(d, receiver, dcid, p, q, Written(sender[1..], p).value + rest);
      Assoc3(EntryBytes(d, p).value, Written(sender[1..], p).value, rest);
    } else {
      assert [] + rest == rest;
    }
  }

  lemma ServerAgrees(d: Def, own: Str, dcid: Str)
    requires if d.body.Integer? then IsShared(d.ty) else !IsShared(d.ty) && d.ty != INITIAL_SCID && Fits(d.body.sent)
    ensures Agree(d, ServerTable(own), dcid)
  {
    ServerSide(own);
    SideFinds(ServerTable(own), d.ty);
    OnlyCid(own, d.ty);
  }

  lemma OnlyCid(own: Str, ty: nat)
    ensures var e := Find(ServerTable(own), ty); e.Some? && Checks(e.value) ==> ty == INITIAL_SCID
  {
    FindIn(ServerTable(own), ty);
    assert forall d :: d in ServerTable(own) && Checks(d) ==> d.ty == INITIAL_SCID;
  }

  /** The client's table in front of its connection ID, and behind it. */
  function ClientFront(): seq<Def> {
    [Def(STATELESS_RESET_TOKEN, Own(None, Token)), Def(0x01, Integer), Def(0x03, Integer), Def(0x04, Integer),
     Def(0x05, Integer), Def(0x06, Integer), Def(0x07, Integer), Def(0x08, Integer), Def(0x09, Integer)]
  }

  function ClientBack(grease: Option<Str>, google: Option<Str>): seq<Def> {
    [Def(0x20, Integer), Def(0x1CD4_C8D5_6414_22F0, Own(grease, Skip)), Def(0x4752, Own(google, Skip))]
  }

  lemma BothAgree(own: Str, dcid: Str, grease: Option<Str>, google: Option<Str>)
    requires Fits(grease) && Fits(google)
    ensures AllAgree(ClientFront(), ServerTable(own), dcid)
    ensures AllAgree(ClientBack(grease, google), ServerTable(own), dcid)
  {
    forall d | d in ClientFront() || d in ClientBack(grease, google) ensures Agree(d, ServerTable(own), dcid) {
      ServerAgrees(d, own, dcid);
    }
  }

  /** A server refuses the parameters a client constructs exactly if it knows that client by a connection ID
      other than the one the client names as its own. */
  lemma ScidRefusedIff(scid: Str, own: Str, dcid: Str, grease: Option<Str>, google: Option<Str>, p: Params, q: Params)
    requires |scid| < TWO31 && Fits(grease) && Fits(google) && forall ty :: Value(p, ty) < TWO62
    ensures var t := ClientTable(scid, grease, google);
            && TypesFit(t) && Written(t, p).Some?
            && (Parsed(ServerTable(own), dcid, q, Written(t, p).value).None? <==> dcid != [] && scid != dcid)
  {
    BothAgree(own, dcid, grease, google);
    var f, b := ClientBytes(scid, grease, google, p);
    ScidEntry(own);
    PartsParsed(ServerTable(own), ClientFront(), ClientBack(grease, google), scid, dcid, p, q, f, b);
  }

  /** What a client writes: the front of the table, its connection ID, and the rest. */
  lemma ClientBytes(scid: Str, grease: Option<Str>, google: Option<Str>, p: Params) returns (f: Str, b: Str)
    requires |scid| < TWO31 && Fits(grease) && Fits(google) && forall ty :: Value(p, ty) < TWO62
    ensures var t := ClientTable(scid, grease, google);
            && TypesFit(t) && Written(ClientFront(), p) == Some(f) && Written(ClientBack(grease, google), p) == Some(b)
            && Written(t, p) == Some(f + (Enc(INITIAL_SCID) + (Enc(|scid|) + (scid + b))))
  {
    var front, back, mid := ClientFront(), ClientBack(grease, google), Def(INITIAL_SCID, Own(Some(scid), Skip));
    assert ClientTable(scid, grease, google) == front + ([mid] + back);
    WrittenIff(front, p);
    WrittenIff(back, p);
    f, b := Written(front, p).value, Written(back, p).value;
    MidWritten(mid, back, p, scid, b);
    WrittenAppend(front, [mid] + back, p);
  }

  lemma PartsParsed(u: seq<Def>, front: seq<Def>, back: seq<Def>, scid: Str, dcid: Str, p: Params, q: Params, f: Str,
                    b: Str)
    requires |scid| < TWO31 && TypesFit(front) && TypesFit(back) && forall ty :: Value(p, ty) < TWO62
    requires AllAgree(front, u, dcid) && AllAgree(back, u, dcid)
    requires Find(u, INITIAL_SCID).Some? && Checks(Find(u, INITIAL_SCID).value)
    requires Written(front, p) == Some(f) && Written(back, p) == Some(b)
    ensures Parsed(u, dcid, q, f + (Enc(INITIAL_SCID) + (Enc(|scid|) + (scid + b)))).None? <==>
            dcid != [] && scid != dcid
  {
    var m := Merged(front, u, p, q);
    FrontParsed(front, u, dcid, p, q, Enc(INITIAL_SCID) + (Enc(|scid|) + (scid + b)));
    CidChecked(u, dcid, m, scid, b);
    FrontParsed(back, u, dcid, p, m, []);
    assert b + [] == b;
  }

  lemma MidWritten(mid: Def, back: seq<Def>, p: Params, scid: Str, rest: Str)
    requires mid == Def(INITIAL_SCID, Own(Some(scid), Skip)) && |scid| < TWO31 && TypesFit(back)
    requires Written(back, p) == Some(rest)
    ensures TypesFit([mid] + back)
    ensures Written([mid] + back, p) == Some(Enc(INITIAL_SCID) + (Enc(|scid|) + (scid + rest)))
  {
    assert ([mid] + back)[1..] == back;
    Assoc3(Enc(INITIAL_SCID), Enc(|scid|) + scid, rest);
    Assoc3(Enc(|scid|), scid, rest);
  }

  // ---------------------------------------------------------------- the loops

  /** TlsConstructQtpExtension */
  method Construct(table: seq<Def>, p: Params) returns (ok: bool, out: Str)
    requires TypesFit(table)
    ensures var w := Written(table, p); ok == w.Some? && (ok ==> out == w.value)
  {
    var i := 0;
    ok, out := true, [];
    assert table[0..] == table;
    if Written(table, p).Some? { assert [] + Written(table, p).value == Written(table, p).value; }
    while i < |table|
      invariant i <= |table| && ok && TypesFit(table[i..])
      invariant var w := Written(table[i..], p);
                Written(table, p) == if w.None? then None else Some(out + w.value)
    {
      var d := table[i];
      assert table[i..][1..] == table[i + 1..] && table[i..][0] == d;
      var x := EntryBytes(d, p);
      if x.None? { return false, []; }
      ghost var w := Written(table[i + 1..], p);
      if w.Some? { Assoc3(out, x.value, w.value); }
      out := out + x.value;
      i := i + 1;
    }
    assert out + [] == out;
  }

  class PeerParams {
    var params: Params

    constructor (q: Params)
      ensures params == q
    { params := q; }

    /** TlsParseQtpExtension */
    method Parse(table: seq<Def>, dcid: Str, pkt: RPacket) returns (ok: bool)
      requires pkt.Valid()
      modifies this, pkt
      ensures pkt.Valid()
      ensures var r := Parsed(table, dcid, old(params), old(pkt.Rest()));
              ok == r.Some? && (ok ==> params == r.value)
    {
      ghost var s0 := pkt.Rest();
      ok := true;
      while ok && pkt.remaining > 0
        invariant pkt.Valid()
        invariant if ok then Parsed(table, dcid, params, pkt.Rest()) == Parsed(table, dcid, old(params), s0)
                  else Parsed(table, dcid, old(params), s0).None?
        decreases ok, |pkt.Rest()|
      {
        var ty, len;
        ok, ty := Decode(pkt);
        if ok { ok, len := Decode(pkt); }
        if ok {
          var d := Lookup(table, ty);
          ok := Entry(d, dcid, ty, len, pkt);
        }
      }
    }

    static method Lookup(table: seq<Def>, ty: nat) returns (d: Option<Def>)
      ensures d == Find(table, ty)
    {
      var i := 0;
      assert table[0..] == table;
      while i < |table|
        invariant i <= |table| && Find(table, ty) == Find(table[i..], ty)
      {
        assert table[i..][1..] == table[i + 1..] && table[i..][0] == table[i];
        if table[i].ty == ty { return Some(table[i]); }
        i := i + 1;
      }
      d := None;
    }

    /** The body of one parameter. A length of 2^31 or more is refused here. */
    method Entry(d: Option<Def>, dcid: Str, ty: nat, len: nat, pkt: RPacket) returns (ok: bool)
      requires pkt.Valid()
      modifies this, pkt
      ensures pkt.Valid()
      ensures var r := ReadEntry(d, dcid, ty, len, old(params), old(pkt.Rest()));
              ok == r.Some? && (ok ==> (params, pkt.Rest()) == r.value)
    {
      var field := FieldOf(ty);
      if d.Some? && field.Some? && d.value.body.Integer? {
        var v;
        ok, v := Decode(pkt);
        if ok { params := params[field.value := v]; }
        return;
      }
      if len >= TWO31 { return false; }
      var x;
      ok, x := pkt.GetBytes(len);
      if ok && d.Some? && field.Some? && d.value.body.reader == Cid && dcid != [] { ok := x == dcid; }
    }
  }
}
