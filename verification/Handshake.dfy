/** The TLS 1.3 handshake engine: the tables of client and server and the loops that run them
    (quic/tls/tls.c:27-316, quic/tls/tls_clnt.c:40-131, 540-561 and quic/tls/tls_srvr.c:43-137,
    287-300, 578-587). Handlers decide freely whether they fail and whether they resume a session. */
module Handshake {
  import opened Common

  datatype St =
    | OK | CwClientHello | CwClientCert | CwCertVerify | CwFinished
    | CrServerHello | CrEncExt | CrCertRequest | CrServerCert | CrCertVerify | CrFinished | CrTicket
    | SrClientHello | SrClientCert | SrCertVerify | SrFinished
    | SwServerHello | SwEncExt | SwCertRequest | SwServerCert | SwCertVerify | SwFinished | SwTicket
    | SwHandshakeDone | HandshakeDone

  const ALL := [OK, CwClientHello, CwClientCert, CwCertVerify, CwFinished,
                CrServerHello, CrEncExt, CrCertRequest, CrServerCert, CrCertVerify, CrFinished, CrTicket,
                SrClientHello, SrClientCert, SrCertVerify, SrFinished,
                SwServerHello, SwEncExt, SwCertRequest, SwServerCert, SwCertVerify, SwFinished, SwTicket,
                SwHandshakeDone, HandshakeDone]

  datatype Flow = Nothing | Reading | Writing | Finished

  const CLIENT_HELLO := 1
  const SERVER_HELLO := 2
  const TICKET := 4
  const ENC_EXT := 8
  const CERT := 11
  const CERT_REQUEST := 13
  const CERT_VERIFY := 15
  const FINISHED := 20

  const TICKETS := 2

  /** TlsProcess: what to do in a state, the state after it, and the message type. */
  datatype Proc = Proc(flow: Flow, next: St, ty: nat)

  function Client(st: St): Proc {
    match st
    case OK => Proc(Nothing, CwClientHello, 0)
    case CwClientHello => Proc(Writing, CrServerHello, CLIENT_HELLO)
    case CrServerHello => Proc(Reading, CrEncExt, SERVER_HELLO)
    case CrEncExt => Proc(Reading, CrCertRequest, ENC_EXT)
    case CrCertRequest => Proc(Reading, CrServerCert, CERT_REQUEST)
    case CrServerCert => Proc(Reading, CrCertVerify, CERT)
    case CrCertVerify => Proc(Reading, CrFinished, CERT_VERIFY)
    case CrFinished => Proc(Reading, CwFinished, FINISHED)
    case CwClientCert => Proc(Writing, CwCertVerify, CERT)
    case CwCertVerify => Proc(Writing, CwFinished, CERT_VERIFY)
    case CwFinished => Proc(Writing, CrTicket, FINISHED)
    case CrTicket => Proc(Reading, CrTicket, TICKET)
    case HandshakeDone => Proc(Finished, HandshakeDone, 0)
    case _ => Proc(Nothing, OK, 0)
  }

  function Server(st: St): Proc {
    match st
    case OK => Proc(Nothing, SrClientHello, 0)
    case SrClientHello => Proc(Reading, SwServerHello, CLIENT_HELLO)
    case SwServerHello => Proc(Writing, SwEncExt, SERVER_HELLO)
    case SwEncExt => Proc(Writing, SwServerCert, ENC_EXT)
    case SwCertRequest => Proc(Writing, SwServerCert, CERT_REQUEST)
    case SwServerCert => Proc(Writing, SwCertVerify, CERT)
    case SwCertVerify => Proc(Writing, SwFinished, CERT_VERIFY)
    case SwFinished => Proc(Writing, SrFinished, FINISHED)
    case SrClientCert => Proc(Reading, SrCertVerify, CERT)
    case SrCertVerify => Proc(Reading, SrFinished, CERT_VERIFY)
    case SrFinished => Proc(Reading, SwTicket, FINISHED)
    case SwTicket => Proc(Writing, SwTicket, TICKET)
    case SwHandshakeDone => Proc(Finished, HandshakeDone, 0)
    case HandshakeDone => Proc(Finished, HandshakeDone, 0)
    case _ => Proc(Nothing, OK, 0)
  }

  function Table(server: bool, st: St): Proc { if server then Server(st) else Client(st) }

  /** The number of a state; it decides what counts as a retransmission. */
  function Index(st: St): (i: nat)
    ensures i < |ALL| && ALL[i] == st
  {
    match st
    case OK => 0
    case CwClientHello => 1
    case CwClientCert => 2
    case CwCertVerify => 3
    case CwFinished => 4
    case CrServerHello => 5
    case CrEncExt => 6
    case CrCertRequest => 7
    case CrServerCert => 8
    case CrCertVerify => 9
    case CrFinished => 10
    case CrTicket => 11
    case SrClientHello => 12
    case SrClientCert => 13
    case SrCertVerify => 14
    case SrFinished => 15
    case SwServerHello => 16
    case SwEncExt => 17
    case SwCertRequest => 18
    case SwServerCert => 19
    case SwCertVerify => 20
    case SwFinished => 21
    case SwTicket => 22
    case SwHandshakeDone => 23
    case HandshakeDone => 24
  }

  /** The skip checks of the client. */
  predicate Skips(server: bool, st: St, hit: bool) {
    !server && (st == CrCertRequest || (hit && (st == CrServerCert || st == CrCertVerify)))
  }

  /** Steps to the end of the handshake. */
  function Depth(server: bool, st: St): nat {
    match st
    case OK => 11
    case CwClientHello => if server then 12 else 10
    case CrServerHello => if server then 12 else 9
    case CrEncExt => if server then 12 else 8
    case CrCertRequest => if server then 12 else 7
    case CrServerCert => if server then 12 else 6
    case CrCertVerify => if server then 12 else 5
    case CrFinished => if server then 12 else 4
    case CwClientCert => if server then 12 else 5
    case CwCertVerify => if server then 12 else 4
    case CwFinished => if server then 12 else 3
    case CrTicket => if server then 12 else 2
    case SrClientHello => if server then 10 else 12
    case SwServerHello => if server then 9 else 12
    case SwEncExt => if server then 8 else 12
    case SwCertRequest => if server then 8 else 12
    case SwServerCert => if server then 7 else 12
    case SwCertVerify => if server then 6 else 12
    case SwFinished => if server then 5 else 12
    case SrClientCert => if server then 6 else 12
    case SrCertVerify => if server then 5 else 12
    case SrFinished => if server then 4 else 12
    case SwTicket => if server then 3 else 12
    case SwHandshakeDone => if server then 2 else 12
    case HandshakeDone => 1
  }

  predicate Reads(server: bool, st: St, ty: nat) { Table(server, st).flow == Reading && Table(server, st).ty == ty }

  /** The first of these states that reads this type. */
  function FirstReader(server: bool, ty: nat, ss: seq<St>): Option<nat> {
    if ss == [] then None
    else if Reads(server, ss[0], ty) then Some(0)
    else
      var i := FirstReader(server, ty, ss[1..]);
      if i.None? then None else Some(i.value + 1)
  }

  /** TlsHandshakeMsgRetrans: the first state that reads this type lies before `st`. */
  predicate Retransmitted(server: bool, ty: nat, st: St) {
    var i := FirstReader(server, ty, ALL);
    i.Some? && Index(st) > i.value
  }

  /** The skip loop of TlsHandshakeRead. */
  function SkipTo(server: bool, st: St, hit: bool, ty: nat): St
    decreases Depth(server, st)
  {
    if Table(server, st).ty != ty && Skips(server, st, hit) then SkipTo(server, Table(server, st).next, hit, ty) else st
  }

  /** A message in the read buffer: its type, and whether all of it is there. */
  datatype Msg = Msg(ty: nat, whole: bool)

  /** What handlers decide: `fail` an error, `hit` that the session is resumed, `post` that the work
      after the message fails. */
  datatype Verdict = Verdict(fail: bool, hit: bool, post: bool)

  type Oracle = nat -> Verdict

  datatype Entry = Entry(st: St, ty: nat)

  /** The fields of TLS the engine uses, and a record of the messages that were handled. */
  datatype Tls = Tls(server: bool, state: St, hit: bool, nonce: nat, trace: seq<Entry>)

  datatype Ret = Error | Next | WantRead | Continue | Finish | Drop | End

  /** Where a handler itself sends the engine. */
  function Jump(t: Tls): Option<St> {
    if t.server && t.state == SwEncExt && t.hit then Some(SwFinished)
    else if t.server && t.state == SwTicket && t.nonce + 1 >= TICKETS then Some(SwHandshakeDone)
    else None
  }

  /** A handler that succeeds, and TlsFlowFinish. */
  function Handle(t: Tls, hit: bool): Tls {
    var p, u := Table(t.server, t.state), t.(hit := t.hit || hit);
    var j := Jump(u);
    u.(state := if j.Some? then j.value else p.next,
       nonce := if t.server && t.state == SwTicket then t.nonce + 1 else t.nonce,
       trace := t.trace + [Entry(t.state, p.ty)])
  }

  /** What the handler of a state returns. */
  function RetOf(st: St): Ret {
    match st
    case CwClientHello => Next
    case CwClientCert => Next
    case CwCertVerify => Next
    case CwFinished => Next
    case SwServerHello => Next
    case SwFinished => Next
    case _ => Finish
  }

  datatype Out = Out(t: Tls, input: seq<Msg>, ret: Ret)

  /** TlsHandshakeRead */
  function Read(t: Tls, input: seq<Msg>, v: Verdict): Out {
    if input == [] then Out(t, input, WantRead)
    else
      var m, u := input[0], t.(state := SkipTo(t.server, t.state, t.hit, input[0].ty));
      if m.ty != Table(t.server, u.state).ty then
        if Retransmitted(t.server, m.ty, u.state) && m.whole then Out(u, input[1..], Drop) else Out(u, input, Error)
      else if !m.whole then Out(u, input, WantRead)
      else if v.fail then Out(u, input[1..], Error)
      else Out(Handle(u, v.hit), input[1..], RetOf(u.state))
  }

  /** TlsHandshakeWrite */
  function Write(t: Tls, input: seq<Msg>, v: Verdict): Out {
    if v.fail then Out(t, input, Error) else Out(Handle(t, v.hit), input, RetOf(t.state))
  }

  predicate HasPost(st: St) {
    st == CrEncExt || st == CwFinished || st == SrClientHello || st == SwServerHello || st == SwFinished
    || st == SrFinished
  }

  function Work(t: Tls, input: seq<Msg>, v: Verdict): Out {
    var p := Table(t.server, t.state);
    match p.flow
    case Nothing => Out(t.(state := p.next), input, Continue)
    case Finished => Out(t, input, End)
    case Reading => Read(t, input, v)
    case Writing => Write(t, input, v)
  }

  /** One turn of the loop of TlsHandshakeStatem: the work of the state, then what is to follow it. */
  function Turn(t: Tls, input: seq<Msg>, v: Verdict): Out {
    var r := Work(t, input, v);
    if (r.ret == Next || r.ret == Finish) && HasPost(t.state) && v.post then r.(ret := Error) else r
  }

  predicate GoesOn(r: Ret) { r == Continue || r == Finish }

  /** What is left to do in one call: messages, states, tickets. */
  function Left(t: Tls): nat { 3 * Depth(t.server, t.state) + (if t.nonce < 2 then 2 - t.nonce else 0) }

  lemma {:induction false} SkipDeepens(server: bool, st: St, hit: bool, ty: nat)
    ensures Depth(server, SkipTo(server, st, hit, ty)) <= Depth(server, st)
    ensures Table(server, st).flow == Reading ==> Table(server, SkipTo(server, st, hit, ty)).flow == Reading
    decreases Depth(server, st)
  {
    if Table(server, st).ty != ty && Skips(server, st, hit) {
      SkipDeepens(server, Table(server, st).next, hit, ty);
    }
  }

  /** Every turn that goes on reads a message or comes nearer to the end: the loop terminates. */
  lemma TurnShrinks(t: Tls, input: seq<Msg>, v: Verdict)
    requires GoesOn(Turn(t, input, v).ret)
    ensures var r := Turn(t, input, v);
            |r.input| < |input| || (r.input == input && Left(r.t) < Left(t))
  {}

  /** TlsHandshakeStatem; `n` counts the handlers called before. */
  function Statem(t: Tls, input: seq<Msg>, o: Oracle, n: nat): Out
    decreases |input|, Left(t)
  {
    var r := Turn(t, input, o(n));
    if GoesOn(r.ret) then
      TurnShrinks(t, input, o(n));
      Statem(r.t, r.input, o, n + 1)
    else r
  }

  /** TlsHandshake with what is in the buffer. */
  function Call(t: Tls, input: seq<Msg>, o: Oracle): Out {
    var r := Statem(t, input, o, 0);
    if r.t.state == SwHandshakeDone then r.(t := r.t.(state := HandshakeDone)) else r
  }

  function Start(server: bool): Tls { Tls(server, OK, false, 0, []) }

  /** Any number of calls, each with any input and any decisions. */
  function Calls(t: Tls, cs: seq<(seq<Msg>, Oracle)>): Tls
    decreases |cs|
  {
    if cs == [] then t else Calls(Call(t, cs[0].0, cs[0].1).t, cs[1..])
  }

  // ---------------------------------------------------------------- order

  /** The states a side can be in. */
  predicate OnPath(server: bool, st: St) {
    if server then
      st == OK || st == SrClientHello || st == SwServerHello || st == SwEncExt || st == SwServerCert
      || st == SwCertVerify
      || st == SwFinished || st == SrFinished || st == SwTicket || st == SwHandshakeDone || st == HandshakeDone
    else
      st == OK || st == CwClientHello || st == CrServerHello || st == CrEncExt || st == CrCertRequest
      || st == CrServerCert || st == CrCertVerify || st == CrFinished || st == CwFinished || st == CrTicket
  }

  /** The messages a handshake cannot do without. */
  predicate Must(server: bool, st: St, hit: bool) {
    if server then
      st == SrClientHello || st == SwServerHello || st == SwEncExt || st == SwFinished || st == SrFinished
      || (!hit && (st == SwServerCert || st == SwCertVerify))
    else
      st == CwClientHello || st == CrServerHello || st == CrEncExt || st == CrFinished || st == CwFinished
      || (!hit && (st == CrServerCert || st == CrCertVerify))
  }

  predicate Loops(st: St) { st == CrTicket || st == SwTicket }

  /** The path of a side: the states on it, how far they are from the end, what must be handled. */
  datatype Path = Path(on: St -> bool, depth: St -> nat, must: (St, bool) -> bool)

  function PathOf(server: bool): Path {
    Path((st: St) => OnPath(server, st), (st: St) => Depth(server, st), (st: St, hit: bool) => Must(server, st, hit))
  }

  ghost predicate Handled(tr: seq<Entry>, st: St) { exists e :: e in tr && e.st == st }

  /** Messages were handled in the order of the path, and none that is needed was left out. */
  ghost predicate InOrder(p: Path, tr: seq<Entry>, at: St, hit: bool) {
    && p.on(at)
    && (forall e :: e in tr ==> p.on(e.st) && (p.depth(e.st) > p.depth(at) || (e.st == at && Loops(at))))
    && (forall i, j :: 0 <= i < j < |tr| ==>
          p.depth(tr[i].st) > p.depth(tr[j].st) || (tr[i].st == tr[j].st && Loops(tr[i].st)))
    && (forall st :: p.must(st, hit) && p.depth(st) > p.depth(at) ==> Handled(tr, st))
  }

  function TicketsIn(tr: seq<Entry>): nat {
    if tr == [] then 0 else TicketsIn(tr[..|tr| - 1]) + if tr[|tr| - 1].st == SwTicket then 1 else 0
  }

  /** Each message had the type of its state. */
  ghost predicate Typed(server: bool, tr: seq<Entry>) {
    forall e :: e in tr ==> e.ty == Table(server, e.st).ty
  }

  ghost predicate TicketsOk(t: Tls) {
    && t.nonce == TicketsIn(t.trace)
    && (t.server ==>
          if t.state == SwHandshakeDone || t.state == HandshakeDone then t.nonce == TICKETS else t.nonce < TICKETS)
  }

  ghost predicate Inv(t: Tls) {
    InOrder(PathOf(t.server), t.trace, t.state, t.hit) && Typed(t.server, t.trace) && TicketsOk(t)
  }

  /** Moving on without handling anything, past nothing that is needed. */
  lemma PassOver(p: Path, tr: seq<Entry>, at: St, to: St, hit: bool)
    requires InOrder(p, tr, at, hit) && p.on(to) && p.depth(to) < p.depth(at) && !Loops(at)
    requires forall st :: p.must(st, hit) && p.depth(st) > p.depth(to) ==> p.depth(st) > p.depth(at)
    ensures InOrder(p, tr, to, hit)
  {}

  /** Handling the message of a state. */
  lemma Record(p: Path, tr: seq<Entry>, e: Entry, to: St, hit: bool, now: bool)
    requires InOrder(p, tr, e.st, hit) && p.on(to)
    requires p.depth(to) < p.depth(e.st) || (to == e.st && Loops(to))
    requires forall st :: p.must(st, now) && p.depth(st) > p.depth(to) ==>
               st == e.st || (p.must(st, hit) && p.depth(st) > p.depth(e.st))
    ensures InOrder(p, tr + [e], to, now)
  {
    var u := tr + [e];
    assert u[|tr|] == e;
    forall st | p.must(st, now) && p.depth(st) > p.depth(to) ensures Handled(u, st) {
      if st != e.st {
        assert Handled(tr, st);
        var x :| x in tr && x.st == st;
        assert x in u;
      }
    }
    forall i, j | 0 <= i < j < |u|
      ensures p.depth(u[i].st) > p.depth(u[j].st) || (u[i].st == u[j].st && Loops(u[i].st))
    {
      assert u[i] == tr[i] && tr[i] in tr;
      if j < |tr| { assert u[j] == tr[j]; }
    }
  }

  predicate Active(server: bool, st: St) {
    Table(server, st).flow == Reading || Table(server, st).flow == Writing
  }

  lemma ClientStep(st: St, x: St, hit: bool, now: bool)
    requires OnPath(false, st) && Active(false, st) && (hit ==> now)
    ensures var to := Client(st).next;
            && OnPath(false, to) && (Depth(false, to) < Depth(false, st) || (to == st && Loops(st)))
            && (Must(false, x, now) && Depth(false, x) > Depth(false, to) ==>
                  x == st || (Must(false, x, hit) && Depth(false, x) > Depth(false, st)))
  {
    ClientNext(st);
    if Must(false, x, now) && Depth(false, x) > Depth(false, Client(st).next) { ClientMust(st, x, hit, now); }
  }

  lemma ClientNext(st: St)
    requires OnPath(false, st) && Active(false, st)
    ensures var to := Client(st).next;
            OnPath(false, to) && (Depth(false, to) < Depth(false, st) || (to == st && Loops(st)))
  {}

  lemma ClientMust(st: St, x: St, hit: bool, now: bool)
    requires OnPath(false, st) && Active(false, st) && (hit ==> now)
    requires Must(false, x, now) && Depth(false, x) > Depth(false, Client(st).next)
    ensures x == st || (Must(false, x, hit) && Depth(false, x) > Depth(false, st))
  {}

  lemma ServerStep(st: St, x: St, hit: bool, now: bool, to: St)
    requires OnPath(true, st) && Active(true, st) && (hit ==> now)
    requires to == Server(st).next || (st == SwEncExt && now && to == SwFinished)
             || (st == SwTicket && to == SwHandshakeDone)
    ensures OnPath(true, to) && (Depth(true, to) < Depth(true, st) || (to == st && Loops(st)))
    ensures Must(true, x, now) && Depth(true, x) > Depth(true, to) ==>
            x == st || (Must(true, x, hit) && Depth(true, x) > Depth(true, st))
  {}

  lemma ClientSkip(st: St, x: St, hit: bool)
    requires OnPath(false, st) && Skips(false, st, hit)
    ensures var to := Client(st).next;
            && OnPath(false, to) && Depth(false, to) < Depth(false, st) && Active(false, to) && !Loops(st)
            && (Must(false, x, hit) && Depth(false, x) > Depth(false, to) ==> Depth(false, x) > Depth(false, st))
  {}

  lemma {:induction false} SkipKeeps(t: Tls, ty: nat)
    requires Inv(t)
    ensures Inv(t.(state := SkipTo(t.server, t.state, t.hit, ty)))
    decreases Depth(t.server, t.state)
  {
    if Table(t.server, t.state).ty != ty && Skips(t.server, t.state, t.hit) {
      var to := Client(t.state).next;
      forall x
        ensures Must(false, x, t.hit) && Depth(false, x) > Depth(false, to) ==> Depth(false, x) > Depth(false, t.state)
      {
        ClientSkip(t.state, x, t.hit);
      }
      ClientSkip(t.state, OK, t.hit);
      PassOver(PathOf(false), t.trace, t.state, to, t.hit);
      SkipKeeps(t.(state := to), ty);
    }
  }

  lemma TicketsSnoc(tr: seq<Entry>, e: Entry)
    ensures TicketsIn(tr + [e]) == TicketsIn(tr) + if e.st == SwTicket then 1 else 0
  {
    assert (tr + [e])[..|tr|] == tr;
  }

  lemma HandleOrder(t: Tls, hit: bool)
    requires InOrder(PathOf(t.server), t.trace, t.state, t.hit) && Active(t.server, t.state)
    ensures var u := Handle(t, hit); InOrder(PathOf(t.server), u.trace, u.state, u.hit)
  {
    var u, e := Handle(t, hit), Entry(t.state, Table(t.server, t.state).ty);
    assert OnPath(t.server, t.state);
    HandleStep(t, hit);
    Record(PathOf(t.server), t.trace, e, u.state, t.hit, u.hit);
  }

  lemma HandleStep(t: Tls, hit: bool)
    requires OnPath(t.server, t.state) && Active(t.server, t.state)
    ensures var u := Handle(t, hit);
            && OnPath(t.server, u.state)
            && (Depth(t.server, u.state) < Depth(t.server, t.state) || (u.state == t.state && Loops(t.state)))
            && forall x :: Must(t.server, x, u.hit) && Depth(t.server, x) > Depth(t.server, u.state) ==>
                 x == t.state || (Must(t.server, x, t.hit) && Depth(t.server, x) > Depth(t.server, t.state))
  {
    var to, now := Handle(t, hit).state, t.hit || hit;
    if t.server {
      forall x { ServerStep(t.state, x, t.hit, now, to); }
      ServerStep(t.state, OK, t.hit, now, to);
    } else {
      forall x { ClientStep(t.state, x, t.hit, now); }
      ClientStep(t.state, OK, t.hit, now);
    }
  }

  lemma NotDone(server: bool, st: St)
    requires Active(server, st)
    ensures Table(server, st).next != SwHandshakeDone && Table(server, st).next != HandshakeDone
    ensures st != SwHandshakeDone && st != HandshakeDone && (!server ==> st != SwTicket)
  {}

  lemma HandleTickets(t: Tls, hit: bool)
    requires TicketsOk(t) && Active(t.server, t.state)
    ensures TicketsOk(Handle(t, hit))
  {
    NotDone(t.server, t.state);
    TicketsSnoc(t.trace, Entry(t.state, Table(t.server, t.state).ty));
  }

  lemma HandleKeeps(t: Tls, hit: bool)
    requires Inv(t) && Active(t.server, t.state)
    ensures Inv(Handle(t, hit))
  {
    HandleOrder(t, hit);
    HandleTickets(t, hit);
  }

  lemma ReadKeeps(t: Tls, input: seq<Msg>, v: Verdict)
    requires Inv(t) && Table(t.server, t.state).flow == Reading
    ensures Inv(Read(t, input, v).t)
  {
    if input != [] {
      var u := t.(state := SkipTo(t.server, t.state, t.hit, input[0].ty));
      SkipKeeps(t, input[0].ty);
      SkipDeepens(t.server, t.state, t.hit, input[0].ty);
      if Table(u.server, u.state).ty == input[0].ty && input[0].whole && !v.fail { HandleKeeps(u, v.hit); }
    }
  }

  lemma StartKeeps(t: Tls)
    requires Inv(t) && Table(t.server, t.state).flow == Nothing
    ensures Inv(t.(state := Table(t.server, t.state).next))
  {
    StartIs(t.server, t.state, t.hit);
    PassOver(PathOf(t.server), t.trace, OK, Table(t.server, OK).next, t.hit);
  }

  lemma StartIs(server: bool, at: St, hit: bool)
    requires OnPath(server, at) && Table(server, at).flow == Nothing
    ensures var p, to := PathOf(server), Table(server, OK).next;
            && at == OK && p.on(to) && p.depth(to) < p.depth(OK) && !Loops(OK)
            && forall st :: p.must(st, hit) && p.depth(st) > p.depth(to) ==> p.depth(st) > p.depth(OK)
  {}

  lemma WorkKeeps(t: Tls, input: seq<Msg>, v: Verdict)
    requires Inv(t)
    ensures Inv(Work(t, input, v).t)
  {
    match Table(t.server, t.state).flow {
      case Nothing => StartKeeps(t);
      case Finished =>
      case Reading => ReadKeeps(t, input, v);
      case Writing => if !v.fail { HandleKeeps(t, v.hit); }
    }
  }

  lemma TurnKeeps(t: Tls, input: seq<Msg>, v: Verdict)
    requires Inv(t)
    ensures Inv(Turn(t, input, v).t)
  {
    WorkKeeps(t, input, v);
    assert Turn(t, input, v).t == Work(t, input, v).t;
  }

  lemma {:induction false} StatemKeeps(t: Tls, input: seq<Msg>, o: Oracle, n: nat)
    requires Inv(t)
    ensures Inv(Statem(t, input, o, n).t)
    decreases |input|, Left(t)
  {
    var r := Turn(t, input, o(n));
    TurnKeeps(t, input, o(n));
    if GoesOn(r.ret) {
      TurnShrinks(t, input, o(n));
      StatemKeeps(r.t, r.input, o, n + 1);
    }
  }

  lemma CallKeeps(t: Tls, input: seq<Msg>, o: Oracle)
    requires Inv(t)
    ensures Inv(Call(t, input, o).t)
  {
    StatemKeeps(t, input, o, 0);
    var r := Statem(t, input, o, 0).t;
    if r.state == SwHandshakeDone {
      DoneKeeps(r);
    }
  }

  lemma DoneKeeps(t: Tls)
    requires Inv(t) && t.state == SwHandshakeDone
    ensures Inv(t.(state := HandshakeDone))
  {
    DoneOrder(t.server, t.trace, t.hit);
  }

  lemma DoneOrder(server: bool, tr: seq<Entry>, hit: bool)
    requires InOrder(PathOf(server), tr, SwHandshakeDone, hit)
    ensures InOrder(PathOf(server), tr, HandshakeDone, hit)
  {
    PassOver(PathOf(server), tr, SwHandshakeDone, HandshakeDone, hit);
  }

  lemma {:induction false} CallsKeep(t: Tls, cs: seq<(seq<Msg>, Oracle)>)
    requires Inv(t)
    ensures Inv(Calls(t, cs))
    decreases |cs|
  {
    if cs != [] {
      CallKeeps(t, cs[0].0, cs[0].1);
      CallsKeep(Call(t, cs[0].0, cs[0].1).t, cs[1..]);
    }
  }

  /** `a` was handled, and `b` after it. */
  ghost predicate Before(t: Tls, a: St, b: St) {
    exists i, j :: 0 <= i < j < |t.trace| && t.trace[i].st == a && t.trace[j].st == b
  }

  lemma MustBefore(t: Tls, a: St, b: St)
    requires Inv(t) && Must(t.server, a, t.hit) && Must(t.server, b, t.hit)
    requires Depth(t.server, a) > Depth(t.server, b) > Depth(t.server, t.state)
    ensures Before(t, a, b)
  {
    var p := PathOf(t.server);
    assert p.must(a, t.hit) && p.must(b, t.hit);
    assert Handled(t.trace, a) && Handled(t.trace, b);
    DepthOrders(p, t, a, b);
  }

  lemma DepthOrders(p: Path, t: Tls, a: St, b: St)
    requires InOrder(p, t.trace, t.state, t.hit) && p.depth(a) > p.depth(b)
    requires Handled(t.trace, a) && Handled(t.trace, b)
    ensures Before(t, a, b)
  {
    var e :| e in t.trace && e.st == a;
    var f :| f in t.trace && f.st == b;
    var i :| 0 <= i < |t.trace| && t.trace[i] == e;
    var j :| 0 <= j < |t.trace| && t.trace[j] == f;
    assert i < j;
  }

  lemma CallsSameSide(t: Tls, cs: seq<(seq<Msg>, Oracle)>)
    ensures Calls(t, cs).server == t.server
    decreases |cs|
  {
    if cs != [] {
      StatemSameSide(t, cs[0].0, cs[0].1, 0);
      CallsSameSide(Call(t, cs[0].0, cs[0].1).t, cs[1..]);
    }
  }

  lemma StatemSameSide(t: Tls, input: seq<Msg>, o: Oracle, n: nat)
    ensures Statem(t, input, o, n).t.server == t.server
    decreases |input|, Left(t)
  {
    var r := Turn(t, input, o(n));
    if GoesOn(r.ret) {
      TurnShrinks(t, input, o(n));
      StatemSameSide(r.t, r.input, o, n + 1);
    }
  }

  /** ServerHello, then EncryptedExtensions, then Finished, and with a full handshake Certificate and
      CertificateVerify between them. */
  ghost predicate ClientDone(t: Tls) {
    && Before(t, CrServerHello, CrEncExt) && Before(t, CrEncExt, CrFinished)
    && (!t.hit ==> Before(t, CrEncExt, CrServerCert) && Before(t, CrServerCert, CrCertVerify)
                   && Before(t, CrCertVerify, CrFinished))
  }

  /** Of two needed messages that lie behind, the earlier one was handled first. */
  ghost predicate Chained(t: Tls) {
    forall a, b ::
      (Must(t.server, a, t.hit) && Must(t.server, b, t.hit)
       && Depth(t.server, a) > Depth(t.server, b) > Depth(t.server, t.state)) ==> Before(t, a, b)
  }

  lemma InvChained(t: Tls)
    requires Inv(t)
    ensures Chained(t)
  {
    forall a, b | Must(t.server, a, t.hit) && Must(t.server, b, t.hit)
                  && Depth(t.server, a) > Depth(t.server, b) > Depth(t.server, t.state)
      ensures Before(t, a, b)
    {
      MustBefore(t, a, b);
    }
  }

  lemma ClientDoneAt(t: Tls)
    requires Chained(t) && !t.server && (t.state == CwFinished || t.state == CrTicket)
    ensures ClientDone(t)
  {
    assert Must(false, CrServerHello, t.hit) && Must(false, CrEncExt, t.hit) && Must(false, CrFinished, t.hit);
    if !t.hit { assert Must(false, CrServerCert, t.hit) && Must(false, CrCertVerify, t.hit); }
  }

  /** In every run a client that gets to its own Finished has handled these messages in this order
      (section 4 of RFC 8446). */
  lemma ClientOrder(cs: seq<(seq<Msg>, Oracle)>)
    ensures var t := Calls(Start(false), cs);
            t.state == CwFinished || t.state == CrTicket ==> ClientDone(t)
  {
    RunInv(false, cs);
    var t := Calls(Start(false), cs);
    InvChained(t);
    if t.state == CwFinished || t.state == CrTicket { ClientDoneAt(t); }
  }

  lemma RunInv(server: bool, cs: seq<(seq<Msg>, Oracle)>)
    ensures Inv(Calls(Start(server), cs)) && Calls(Start(server), cs).server == server
  {
    StartInv(server);
    CallsKeep(Start(server), cs);
    CallsSameSide(Start(server), cs);
  }

  lemma StartInv(server: bool)
    ensures Inv(Start(server))
  {
    forall st ensures Must(server, st, false) ==> Depth(server, st) <= Depth(server, OK) { MustBelow(server, st); }
  }

  lemma MustBelow(server: bool, st: St)
    ensures Must(server, st, false) ==> Depth(server, st) <= Depth(server, OK)
  {}

  /** The whole of a server's handshake: with a full one the certificate too, then its Finished, the
      client's Finished, and exactly two tickets. */
  ghost predicate ServerDone(t: Tls) {
    && Before(t, SrClientHello, SwFinished) && Before(t, SwFinished, SrFinished)
    && TicketsIn(t.trace) == TICKETS
    && (!t.hit ==> Before(t, SwServerCert, SwCertVerify) && Before(t, SwCertVerify, SwFinished))
  }

  lemma ServerDoneAt(t: Tls)
    requires Chained(t) && TicketsOk(t) && t.server && (t.state == SwHandshakeDone || t.state == HandshakeDone)
    ensures ServerDone(t)
  {
    ServerPair(t, SrClientHello, SwFinished);
    ServerPair(t, SwFinished, SrFinished);
    if !t.hit {
      ServerPair(t, SwServerCert, SwCertVerify);
      ServerPair(t, SwCertVerify, SwFinished);
    }
  }

  lemma ServerPair(t: Tls, a: St, b: St)
    requires Chained(t) && t.server && (t.state == SwHandshakeDone || t.state == HandshakeDone)
    requires Must(true, a, t.hit) && Must(true, b, t.hit) && Depth(true, a) > Depth(true, b) > 2
    ensures Before(t, a, b)
  {}

  /** In every run a server is done only after all of that. */
  lemma ServerOrder(cs: seq<(seq<Msg>, Oracle)>)
    ensures var t := Calls(Start(true), cs);
            t.state == SwHandshakeDone || t.state == HandshakeDone ==> ServerDone(t)
  {
    RunInv(true, cs);
    var t := Calls(Start(true), cs);
    InvChained(t);
    if t.state == SwHandshakeDone || t.state == HandshakeDone { ServerDoneAt(t); }
  }

  /** The engine of a client never gets to the end: it waits for tickets for ever. */
  lemma ClientNeverDone(cs: seq<(seq<Msg>, Oracle)>)
    ensures Calls(Start(false), cs).state != HandshakeDone
  {
    RunInv(false, cs);
  }

  // ---------------------------------------------------------------- retransmissions

  lemma {:induction false} FirstReaderReads(server: bool, ty: nat, ss: seq<St>, k: nat)
    requires k < |ss| && Reads(server, ss[k], ty)
    ensures var i := FirstReader(server, ty, ss); i.Some? && i.value <= k && Reads(server, ss[i.value], ty)
  {
    if !Reads(server, ss[0], ty) { FirstReaderReads(server, ty, ss[1..], k - 1); }
  }

  lemma ReaderIndex(server: bool, st: St, ty: nat)
    requires Reads(server, st, ty)
    ensures FirstReader(server, ty, ALL) == Some(Index(st))
  {
    FirstReaderReads(server, ty, ALL, Index(st));
    var i := FirstReader(server, ty, ALL).value;
    OneReader(server, ALL[i], st, ty);
    IndexOf(i);
  }

  lemma OneReader(server: bool, a: St, b: St, ty: nat)
    requires Reads(server, a, ty) && Reads(server, b, ty)
    ensures a == b
  {}

  lemma LaterIsDeeper(server: bool, a: St, b: St)
    requires OnPath(server, a) && OnPath(server, b)
    requires Table(server, a).flow == Reading && Table(server, b).flow == Reading
    requires Index(a) < Index(b)
    ensures Depth(server, a) > Depth(server, b)
  {}

  /** On the way a message is dropped only if the state that reads it lies behind. */
  lemma DropIsOld(t: Tls, input: seq<Msg>, v: Verdict, st: St)
    requires Inv(t) && Table(t.server, t.state).flow == Reading && Read(t, input, v).ret == Drop
    requires OnPath(t.server, st) && Reads(t.server, st, input[0].ty)
    ensures Depth(t.server, st) > Depth(t.server, Read(t, input, v).t.state)
  {
    var u := t.(state := SkipTo(t.server, t.state, t.hit, input[0].ty));
    SkipKeeps(t, input[0].ty);
    SkipDeepens(t.server, t.state, t.hit, input[0].ty);
    DropIs(t, input, v);
    OldIsBehind(t.server, u.state, st, input[0].ty);
  }

  lemma DropIs(t: Tls, input: seq<Msg>, v: Verdict)
    requires Read(t, input, v).ret == Drop
    ensures input != []
    ensures var at := SkipTo(t.server, t.state, t.hit, input[0].ty);
            Read(t, input, v).t.state == at && Retransmitted(t.server, input[0].ty, at)
  {}

  lemma OldIsBehind(server: bool, at: St, st: St, ty: nat)
    requires OnPath(server, at) && Table(server, at).flow == Reading && Retransmitted(server, ty, at)
    requires OnPath(server, st) && Reads(server, st, ty)
    ensures Depth(server, st) > Depth(server, at)
  {
    ReaderIndex(server, st, ty);
    LaterIsDeeper(server, st, at);
  }

  lemma IndexOf(i: nat)
    requires i < |ALL|
    ensures Index(ALL[i]) == i
  {}

  /** A dropped message leaves the state as it was exactly when nothing can be skipped there. */
  lemma DropKeepsStateIff(t: Tls, input: seq<Msg>, v: Verdict)
    requires Inv(t) && Table(t.server, t.state).flow == Reading && Read(t, input, v).ret == Drop
    ensures Read(t, input, v).t == t <==> !Skips(t.server, t.state, t.hit)
  {
    SkipMovesIff(t.server, t.state, t.hit, input[0].ty);
  }

  lemma SkipMovesIff(server: bool, st: St, hit: bool, ty: nat)
    requires Table(server, SkipTo(server, st, hit, ty)).ty != ty
    ensures SkipTo(server, st, hit, ty) == st <==> !Skips(server, st, hit)
  {
    if Skips(server, st, hit) { SkipDeepens(server, Table(server, st).next, hit, ty); }
  }

  lemma DropAt(t: Tls, ty: nat, v: Verdict, at: St)
    requires SkipTo(t.server, t.state, t.hit, ty) == at && Table(t.server, at).ty != ty
    requires Retransmitted(t.server, ty, at)
    ensures Read(t, [Msg(ty, true)], v) == Out(t.(state := at), [], Drop)
  {}

  lemma Older(server: bool, st: St, at: St)
    requires Table(server, st).flow == Reading && Index(st) < Index(at)
    ensures Retransmitted(server, Table(server, st).ty, at)
  {
    ReaderIndex(server, st, Table(server, st).ty);
  }

  lemma SkipRequest(t: Tls, ty: nat)
    requires !t.server && !t.hit && t.state == CrCertRequest && ty != CERT_REQUEST
    ensures SkipTo(t.server, t.state, t.hit, ty) == CrServerCert
    ensures SkipTo(t.server, CrServerCert, t.hit, CERT_REQUEST) == CrServerCert
  {
    assert SkipTo(t.server, CrServerCert, t.hit, ty) == CrServerCert;
  }

  /** So a repeated ServerHello or EncryptedExtensions that arrives while the client waits for a
      certificate request makes it drop the request too, when that comes. */
  lemma DroppedRequest(t: Tls, past: St, v: Verdict)
    requires !t.server && !t.hit && t.state == CrCertRequest && (past == CrServerHello || past == CrEncExt)
    ensures var u := Read(t, [Msg(Client(past).ty, true)], v);
            var w := Read(u.t, [Msg(CERT_REQUEST, true)], v);
            && u.ret == Drop && w.ret == Drop && w.t == t.(state := CrServerCert)
    ensures !v.fail ==> Read(t, [Msg(CERT_REQUEST, true)], v).ret == Finish
  {
    var at := t.(state := CrServerCert);
    SkipRequest(t, Client(past).ty);
    Older(t.server, past, CrServerCert);
    Older(t.server, CrCertRequest, CrServerCert);
    DropAt(t, Client(past).ty, v, CrServerCert);
    DropAt(at, CERT_REQUEST, v, CrServerCert);
    assert SkipTo(t.server, t.state, t.hit, CERT_REQUEST) == CrCertRequest;
  }

  // ---------------------------------------------------------------- what counts

  /** The state of a side that waits for a type of message (section 4 of RFC 8446). */
  function ReaderOf(server: bool, ty: nat): Option<St> {
    if server then
      if ty == CLIENT_HELLO then Some(SrClientHello) else if ty == CERT then Some(SrClientCert)
      else if ty == CERT_VERIFY then Some(SrCertVerify) else if ty == FINISHED then Some(SrFinished) else None
    else
      if ty == SERVER_HELLO then Some(CrServerHello) else if ty == ENC_EXT then Some(CrEncExt)
      else if ty == CERT_REQUEST then Some(CrCertRequest) else if ty == CERT then Some(CrServerCert)
      else if ty == CERT_VERIFY then Some(CrCertVerify) else if ty == FINISHED then Some(CrFinished)
      else if ty == TICKET then Some(CrTicket) else None
  }

  /** From `st` the skip checks lead to `at`: nothing between them has to be waited for. */
  predicate LeadsTo(server: bool, st: St, at: St, hit: bool)
    decreases Depth(server, st)
  {
    st == at || (Skips(server, st, hit) && LeadsTo(server, Table(server, st).next, at, hit))
  }

  /** A message of this type is one that the engine waits for. */
  predicate Awaited(t: Tls, ty: nat) {
    var at := ReaderOf(t.server, ty); at.Some? && LeadsTo(t.server, t.state, at.value, t.hit)
  }

  /** What a turn is to record: the message of its state if its handler does not fail and, where the
      engine reads, a whole message is there that it waits for. */
  function Counted(t: Tls, input: seq<Msg>, v: Verdict): seq<Entry> {
    if v.fail then []
    else
      match Table(t.server, t.state).flow
      case Writing => [Entry(t.state, Table(t.server, t.state).ty)]
      case Reading =>
        if input != [] && input[0].whole && Awaited(t, input[0].ty)
          then [Entry(ReaderOf(t.server, input[0].ty).value, input[0].ty)] else []
      case _ => []
  }

  lemma ReaderReads(server: bool, ty: nat, at: St)
    ensures ReaderOf(server, ty) == Some(at) <==> Reads(server, at, ty)
  {}

  lemma {:induction false} SkipToIff(server: bool, st: St, hit: bool, ty: nat, at: St)
    requires Table(server, st).flow == Reading && Reads(server, at, ty)
    ensures LeadsTo(server, st, at, hit) <==> SkipTo(server, st, hit, ty) == at
    decreases Depth(server, st)
  {
    if Table(server, st).ty == ty {
      OneReader(server, st, at, ty);
    } else if Skips(server, st, hit) {
      SkipToIff(server, Table(server, st).next, hit, ty, at);
    }
  }

  /** The engine comes to a state that reads the type exactly if it waits for it. */
  lemma AwaitedIff(t: Tls, ty: nat)
    requires Table(t.server, t.state).flow == Reading
    ensures var at := SkipTo(t.server, t.state, t.hit, ty);
            && (Awaited(t, ty) <==> Table(t.server, at).ty == ty)
            && (Awaited(t, ty) ==> ReaderOf(t.server, ty) == Some(at))
  {
    var at := SkipTo(t.server, t.state, t.hit, ty);
    SkipDeepens(t.server, t.state, t.hit, ty);
    ReaderReads(t.server, ty, at);
    var r := ReaderOf(t.server, ty);
    if r.Some? {
      ReaderReads(t.server, ty, r.value);
      SkipToIff(t.server, t.state, t.hit, ty, r.value);
    }
  }

  /** A turn records what counts and nothing else, and what it reads it takes from the input. A handler
      that fails, a message that is cut short and one that is not awaited leave no trace. */
  lemma TurnRecords(t: Tls, input: seq<Msg>, v: Verdict)
    ensures var r, c := Turn(t, input, v), Counted(t, input, v);
            && r.t.trace == t.trace + c
            && (c == [] ==> r.t == t.(state := r.t.state))
            && (c != [] ==> r.t.hit == (t.hit || v.hit)
                            && r.input == if Table(t.server, t.state).flow == Reading then input[1..] else input)
  {
    if Table(t.server, t.state).flow == Reading && input != [] { AwaitedIff(t, input[0].ty); }
  }

  lemma OutOfTurn(t: Tls, input: seq<Msg>, v: Verdict, r: Out)
    requires r == Work(t, input, v)
    ensures (r.ret == Next || r.ret == Finish) && HasPost(t.state) && v.post ==> Turn(t, input, v) == r.(ret := Error)
    ensures !((r.ret == Next || r.ret == Finish) && HasPost(t.state) && v.post) ==> Turn(t, input, v) == r
  {}

  /** How a turn of reading ends, for every input and verdict. */
  lemma ReadEnds(t: Tls, input: seq<Msg>, v: Verdict)
    requires Table(t.server, t.state).flow == Reading
    ensures var r := Turn(t, input, v);
            if input == [] then r == Out(t, [], WantRead)
            else if !Awaited(t, input[0].ty) then
              var at := ReaderOf(t.server, input[0].ty);
              if input[0].whole && at.Some? && Index(at.value) < Index(r.t.state)
                then r.ret == Drop && r.input == input[1..] else r.ret == Error && r.input == input
            else if !input[0].whole then r.ret == WantRead && r.input == input
            else r.input == input[1..] &&
                 r.ret == if v.fail || (v.post && HasPost(t.state)) then Error else Finish
  {
    if input != [] {
      if Awaited(t, input[0].ty) { ReadTaken(t, input, v); } else { ReadRefused(t, input, v); }
    }
    OutOfTurn(t, input, v, Read(t, input, v));
  }

  lemma ReadTaken(t: Tls, input: seq<Msg>, v: Verdict)
    requires Table(t.server, t.state).flow == Reading && input != [] && Awaited(t, input[0].ty)
    ensures var r := Read(t, input, v);
            if !input[0].whole then r.ret == WantRead && r.input == input
            else r.input == input[1..] && r.ret == if v.fail then Error else Finish
  {
    AwaitedIff(t, input[0].ty);
    SkipDeepens(t.server, t.state, t.hit, input[0].ty);
  }

  lemma ReadRefused(t: Tls, input: seq<Msg>, v: Verdict)
    requires Table(t.server, t.state).flow == Reading && input != [] && !Awaited(t, input[0].ty)
    ensures var r, at := Read(t, input, v), ReaderOf(t.server, input[0].ty);
            if input[0].whole && at.Some? && Index(at.value) < Index(r.t.state)
            then r.ret == Drop && r.input == input[1..] else r.ret == Error && r.input == input
  {
    AwaitedIff(t, input[0].ty);
    RetransmittedIff(t.server, input[0].ty, SkipTo(t.server, t.state, t.hit, input[0].ty));
  }

  lemma {:induction false} FirstReaderIs(server: bool, ty: nat, ss: seq<St>)
    ensures var i := FirstReader(server, ty, ss); i.Some? ==> i.value < |ss| && Reads(server, ss[i.value], ty)
  {
    if ss != [] && !Reads(server, ss[0], ty) { FirstReaderIs(server, ty, ss[1..]); }
  }

  /** A type counts as seen before exactly if the state that reads it has a lower number. */
  lemma RetransmittedIff(server: bool, ty: nat, st: St)
    ensures Retransmitted(server, ty, st) <==>
            ReaderOf(server, ty).Some? && Index(ReaderOf(server, ty).value) < Index(st)
  {
    var r := ReaderOf(server, ty);
    FirstReaderIs(server, ty, ALL);
    if r.Some? {
      ReaderReads(server, ty, r.value);
      ReaderIndex(server, r.value, ty);
    } else if FirstReader(server, ty, ALL).Some? {
      ReaderReads(server, ty, ALL[FirstReader(server, ty, ALL).value]);
    }
  }

  /** Which messages have work after them: on a client the EncryptedExtensions and its own Finished, on a
      server the two hellos and the two Finished. */
  lemma PostWork(server: bool, st: St)
    requires OnPath(server, st) && Active(server, st)
    ensures var p := Table(server, st);
            HasPost(st) <==> if server then p.ty == CLIENT_HELLO || p.ty == SERVER_HELLO || p.ty == FINISHED
                             else p.ty == ENC_EXT || (p.ty == FINISHED && p.flow == Writing)
  {}

  /** A turn of writing: a handler that fails changes nothing. */
  lemma WriteEnds(t: Tls, input: seq<Msg>, v: Verdict)
    requires Table(t.server, t.state).flow == Writing
    ensures var r := Turn(t, input, v);
            && r.input == input && (v.fail ==> r == Out(t, input, Error))
            && (!v.fail && v.post && HasPost(t.state) ==> r.ret == Error)
            && (!v.fail && !v.post ==> r.ret == Next || r.ret == Finish)
  {}

  /** What all turns of a call are to record. */
  function AllCounted(t: Tls, input: seq<Msg>, o: Oracle, n: nat): seq<Entry>
    decreases |input|, Left(t)
  {
    var r := Turn(t, input, o(n));
    Counted(t, input, o(n)) +
    if GoesOn(r.ret) then
      TurnShrinks(t, input, o(n));
      AllCounted(r.t, r.input, o, n + 1)
    else []
  }

  function CallsCounted(t: Tls, cs: seq<(seq<Msg>, Oracle)>): seq<Entry>
    decreases |cs|
  {
    if cs == [] then []
    else AllCounted(t, cs[0].0, cs[0].1, 0) + CallsCounted(Call(t, cs[0].0, cs[0].1).t, cs[1..])
  }

  lemma {:induction false} StatemRecords(t: Tls, input: seq<Msg>, o: Oracle, n: nat)
    ensures Statem(t, input, o, n).t.trace == t.trace + AllCounted(t, input, o, n)
    ensures !GoesOn(Statem(t, input, o, n).ret)
    decreases |input|, Left(t)
  {
    var r := Turn(t, input, o(n));
    TurnRecords(t, input, o(n));
    if GoesOn(r.ret) {
      TurnShrinks(t, input, o(n));
      StatemRecords(r.t, r.input, o, n + 1);
      Assoc3(t.trace, Counted(t, input, o(n)), AllCounted(r.t, r.input, o, n + 1));
    }
  }

  /** In every run the record is exactly what counted, turn by turn: everything in it stems from a
      handler that did not fail. */
  lemma {:induction false} CallsRecord(t: Tls, cs: seq<(seq<Msg>, Oracle)>)
    ensures Calls(t, cs).trace == t.trace + CallsCounted(t, cs)
    decreases |cs|
  {
    if cs != [] {
      var u := Call(t, cs[0].0, cs[0].1).t;
      StatemRecords(t, cs[0].0, cs[0].1, 0);
      CallsRecord(u, cs[1..]);
      Assoc3(t.trace, AllCounted(t, cs[0].0, cs[0].1, 0), CallsCounted(u, cs[1..]));
    } else {
      assert t.trace + [] == t.trace;
    }
  }

  lemma {:induction false} NoneCounted(t: Tls, input: seq<Msg>, o: Oracle, n: nat)
    requires forall i :: o(i).fail
    ensures AllCounted(t, input, o, n) == []
    decreases |input|, Left(t)
  {
    var r := Turn(t, input, o(n));
    FailCounted(t, input, o, n, r);
    if GoesOn(r.ret) {
      TurnShrinks(t, input, o(n));
      NoneCounted(r.t, r.input, o, n + 1);
    }
  }

  lemma FailCounted(t: Tls, input: seq<Msg>, o: Oracle, n: nat, r: Out)
    requires o(n).fail && r == Turn(t, input, o(n))
    ensures AllCounted(t, input, o, n) == if GoesOn(r.ret) then AllCounted(r.t, r.input, o, n + 1) else []
  {}

  /** Where every handler fails, nothing is handled, whatever arrives. */
  lemma {:induction false} AllFail(t: Tls, cs: seq<(seq<Msg>, Oracle)>)
    requires forall c, i :: c in cs ==> c.1(i).fail
    ensures Calls(t, cs).trace == t.trace
    decreases |cs|
  {
    if cs != [] {
      var u := Call(t, cs[0].0, cs[0].1).t;
      assert cs[0] in cs;
      StatemRecords(t, cs[0].0, cs[0].1, 0);
      NoneCounted(t, cs[0].0, cs[0].1, 0);
      AllFail(u, cs[1..]);
    }
  }

  // ---------------------------------------------------------------- a handshake that succeeds

  /** No handler fails, and the session is resumed or not. */
  ghost predicate Willing(o: Oracle, hit: bool) { forall n :: o(n) == Verdict(false, hit, false) }

  /** A turn that handles the message of `at`. */
  lemma ReadsOne(t: Tls, rest: seq<Msg>, hit: bool, at: St)
    requires Table(t.server, t.state).flow == Reading && Table(t.server, at).flow == Reading && t.hit == hit
    requires LeadsTo(t.server, t.state, at, hit)
    ensures Turn(t, [Msg(Table(t.server, at).ty, true)] + rest, Verdict(false, hit, false)) ==
            Out(After1(t, at), rest, Finish)
  {
    var ty, v := Table(t.server, at).ty, Verdict(false, hit, false);
    var input := [Msg(ty, true)] + rest;
    ReaderReads(t.server, ty, at);
    AwaitedIff(t, ty);
    ReadEnds(t, input, v);
    assert input[1..] == rest;
    ReadState(t.(state := at), hit);
  }

  lemma ReadState(t: Tls, hit: bool)
    requires Table(t.server, t.state).flow == Reading
    ensures Handle(t, hit) == Tls(t.server, Table(t.server, t.state).next, t.hit || hit, t.nonce,
                                  t.trace + [Entry(t.state, Table(t.server, t.state).ty)])
  {}

  /** From `st` the engine can read the messages of these states one after the other. */
  predicate Follows(server: bool, st: St, hit: bool, ss: seq<St>)
    decreases |ss|
  {
    ss == [] ||
    (Table(server, st).flow == Reading && Reads(server, ss[0], Table(server, ss[0]).ty)
     && LeadsTo(server, st, ss[0], hit) && Follows(server, Table(server, ss[0]).next, hit, ss[1..]))
  }

  function Flight(server: bool, ss: seq<St>): seq<Msg> {
    if ss == [] then [] else [Msg(Table(server, ss[0]).ty, true)] + Flight(server, ss[1..])
  }

  function Entries(server: bool, ss: seq<St>): seq<Entry> {
    if ss == [] then [] else [Entry(ss[0], Table(server, ss[0]).ty)] + Entries(server, ss[1..])
  }

  /** The state after the last of these. */
  function Behind(server: bool, st: St, ss: seq<St>): St { if ss == [] then st else Table(server, ss[|ss| - 1]).next }

  /** Each of these follows from the one before by a turn, and only the last one, `z`, ends the call. */
  ghost predicate Chain(o: Oracle, n: nat, cs: seq<Out>, z: Out)
    decreases |cs|
  {
    cs != [] &&
    if |cs| == 1 then cs[0] == z && !GoesOn(z.ret)
    else GoesOn(cs[0].ret) && Turn(cs[0].t, cs[0].input, o(n)) == cs[1] && Chain(o, n + 1, cs[1..], z)
  }

  lemma {:induction false} ChainRuns(o: Oracle, n: nat, cs: seq<Out>, z: Out)
    requires Chain(o, n, cs, z) && |cs| > 1
    ensures Statem(cs[0].t, cs[0].input, o, n) == z
    decreases |cs|
  {
    if |cs| > 2 { ChainRuns(o, n + 1, cs[1..], z); }
  }

  lemma ChainCons(o: Oracle, n: nat, c: Out, cs: seq<Out>, z: Out)
    requires cs != [] && Chain(o, n + 1, cs, z) && GoesOn(c.ret) && Turn(c.t, c.input, o(n)) == cs[0]
    ensures Chain(o, n, [c] + cs, z)
  {
    assert ([c] + cs)[1..] == cs;
  }

  function After1(t: Tls, at: St): Tls {
    Tls(t.server, Table(t.server, at).next, t.hit, t.nonce, t.trace + [Entry(at, Table(t.server, at).ty)])
  }

  function AfterAll(t: Tls, ss: seq<St>): Tls
    decreases |ss|
  {
    if ss == [] then t else AfterAll(After1(t, ss[0]), ss[1..])
  }

  lemma {:induction false} AfterAllIs(t: Tls, ss: seq<St>)
    ensures AfterAll(t, ss) ==
            Tls(t.server, Behind(t.server, t.state, ss), t.hit, t.nonce, t.trace + Entries(t.server, ss))
    decreases |ss|
  {
    if ss == [] {
      assert t.trace + [] == t.trace;
    } else {
      AfterAllIs(After1(t, ss[0]), ss[1..]);
      Assoc3(t.trace, [Entry(ss[0], Table(t.server, ss[0]).ty)], Entries(t.server, ss[1..]));
    }
  }

  /** A call takes in any such flight, message by message, as long as no handler fails. */
  lemma {:induction false} FlightIsRead(t: Tls, ss: seq<St>, o: Oracle, n: nat, m: nat, hit: bool, cs: seq<Out>,
                                        z: Out)
    returns (ds: seq<Out>)
    requires Willing(o, hit) && t.hit == hit && Follows(t.server, t.state, hit, ss)
    requires cs != [] && m == n + |ss| && Chain(o, m, cs, z) && cs[0] == Out(AfterAll(t, ss), [], Finish)
    ensures |ds| >= |cs| && ds[0] == Out(t, Flight(t.server, ss), Finish) && Chain(o, n, ds, z)
    decreases |ss|
  {
    if ss == [] {
      ds := cs;
    } else {
      var es := FlightIsRead(After1(t, ss[0]), ss[1..], o, n + 1, m, hit, cs, z);
      ds := ReadLink(t, ss, o, n, hit, es, z);
    }
  }

  lemma ReadLink(t: Tls, ss: seq<St>, o: Oracle, n: nat, hit: bool, es: seq<Out>, z: Out)
    returns (ds: seq<Out>)
    requires Willing(o, hit) && t.hit == hit && ss != [] && Follows(t.server, t.state, hit, ss)
    requires es != [] && Chain(o, n + 1, es, z)
    requires es[0] == Out(After1(t, ss[0]), Flight(t.server, ss[1..]), Finish)
    ensures |ds| == |es| + 1 && ds[0] == Out(t, Flight(t.server, ss), Finish) && Chain(o, n, ds, z)
  {
    ReadsOne(t, Flight(t.server, ss[1..]), hit, ss[0]);
    ChainCons(o, n, Out(t, Flight(t.server, ss), Finish), es, z);
    ds := [Out(t, Flight(t.server, ss), Finish)] + es;
  }

  lemma CallIs(t: Tls, input: seq<Msg>, o: Oracle, r: Out)
    requires Statem(t, input, o, 0) == r
    ensures var at := r.t.state;
            Call(t, input, o) == r.(t := r.t.(state := if at == SwHandshakeDone then HandshakeDone else at))
  {}

  /** What a client reads in a full handshake, and in a resumed one. */
  function ServerFlight(hit: bool): seq<St> {
    [CrServerHello, CrEncExt] + (if hit then [] else [CrServerCert, CrCertVerify]) + [CrFinished]
  }

  lemma ServerFlightFollows(hit: bool)
    ensures Follows(false, CrServerHello, hit, ServerFlight(hit))
  {
    assert Follows(false, CwFinished, hit, []);
    assert Follows(false, CrFinished, hit, [CrFinished]) by { assert [CrFinished][1..] == []; }
    if hit {
      RequestSkipped(hit);
      assert Follows(false, CrCertRequest, hit, [CrFinished]) by { assert [CrFinished][1..] == []; }
      FollowsCons(CrEncExt, hit, [CrFinished]);
      FollowsCons(CrServerHello, hit, [CrEncExt] + [CrFinished]);
      assert ServerFlight(hit) == [CrServerHello] + ([CrEncExt] + [CrFinished]);
    } else {
      var c := [CrCertVerify] + [CrFinished];
      FollowsCons(CrCertVerify, hit, [CrFinished]);
      FollowsCons(CrServerCert, hit, c);
      RequestSkipped(hit);
      assert Follows(false, CrCertRequest, hit, [CrServerCert] + c) by { assert ([CrServerCert] + c)[1..] == c; }
      FollowsCons(CrEncExt, hit, [CrServerCert] + c);
      FollowsCons(CrServerHello, hit, [CrEncExt] + ([CrServerCert] + c));
      assert ServerFlight(hit) == [CrServerHello] + ([CrEncExt] + ([CrServerCert] + c));
    }
  }

  lemma RequestSkipped(hit: bool)
    ensures LeadsTo(false, CrCertRequest, if hit then CrFinished else CrServerCert, hit)
  {
    assert LeadsTo(false, CrFinished, CrFinished, hit) && LeadsTo(false, CrServerCert, CrServerCert, hit);
    assert hit ==> LeadsTo(false, CrCertVerify, CrFinished, hit);
    assert hit ==> LeadsTo(false, CrServerCert, CrFinished, hit);
  }

  lemma FollowsCons(st: St, hit: bool, ss: seq<St>)
    requires Client(st).flow == Reading && Follows(false, Client(st).next, hit, ss)
    ensures Follows(false, st, hit, [st] + ss)
  {
    assert ([st] + ss)[1..] == ss;
  }

  /** A client whose handlers do not fail sends its hello in one call; in the next it takes the server's
      flight, with every message handled, and sends its Finished. */
  lemma ClientCompletes(o: Oracle, hit: bool)
    requires Willing(o, hit)
    ensures var a := Call(Start(false), [], o);
            var b := Call(a.t, Flight(false, ServerFlight(hit)), o);
            && a == Out(Tls(false, CrServerHello, hit, 0, [Entry(CwClientHello, CLIENT_HELLO)]), [], Next)
            && b == Out(Tls(false, CrTicket, hit, 0, [Entry(CwClientHello, CLIENT_HELLO)] +
                            Entries(false, ServerFlight(hit)) + [Entry(CwFinished, FINISHED)]), [], Next)
  {
    ClientFirst(o, hit);
    ClientSecond(Call(Start(false), [], o).t, o, hit);
  }

  lemma ClientFirst(o: Oracle, hit: bool)
    requires Willing(o, hit)
    ensures Call(Start(false), [], o) ==
            Out(Tls(false, CrServerHello, hit, 0, [Entry(CwClientHello, CLIENT_HELLO)]), [], Next)
  {
    var t := Start(false).(state := CwClientHello);
    var cs := [Out(Start(false), [], Continue), Out(t, [], Continue), Out(Handle(t, hit), [], Next)];
    assert cs[1..] == [cs[1], cs[2]] && cs[1..][1..] == [cs[2]];
    ChainRuns(o, 0, cs, cs[2]);
    CallIs(Start(false), [], o, cs[2]);
  }

  lemma ClientSecond(t: Tls, o: Oracle, hit: bool)
    requires Willing(o, hit) && !t.server && t.hit == hit && t.state == CrServerHello
    ensures Call(t, Flight(false, ServerFlight(hit)), o) ==
            Out(Tls(false, CrTicket, hit, t.nonce,
                    t.trace + Entries(false, ServerFlight(hit)) + [Entry(CwFinished, FINISHED)]), [], Next)
  {
    var ss := ServerFlight(hit);
    var u := Tls(false, CwFinished, hit, t.nonce, t.trace + Entries(false, ss));
    var cs := FinishedSent(u, o, |ss|, hit);
    ServerFlightFollows(hit);
    AfterAllIs(t, ss);
    var ds := FlightIsRead(t, ss, o, 0, |ss|, hit, cs, cs[1]);
    ChainRuns(o, 0, ds, cs[1]);
    CallIs(t, Flight(false, ss), o, cs[1]);
  }

  lemma FinishedSent(u: Tls, o: Oracle, n: nat, hit: bool) returns (cs: seq<Out>)
    requires Willing(o, hit) && !u.server && u.hit == hit && u.state == CwFinished
    ensures |cs| == 2 && cs[0] == Out(u, [], Finish) && Chain(o, n, cs, cs[1])
    ensures cs[1] == Out(Tls(false, CrTicket, hit, u.nonce, u.trace + [Entry(CwFinished, FINISHED)]), [], Next)
  {
    cs := [Out(u, [], Finish), Out(Handle(u, hit), [], Next)];
    assert cs[1..] == [cs[1]];
  }

  function AfterSend(t: Tls, to: St, nonce: nat): Tls {
    Tls(t.server, to, t.hit, nonce, t.trace + [Entry(t.state, Table(t.server, t.state).ty)])
  }

  /** A turn of writing in a chain. */
  lemma WriteLink(t: Tls, o: Oracle, n: nat, u: Tls, es: seq<Out>, z: Out) returns (ds: seq<Out>)
    requires Willing(o, t.hit) && Table(t.server, t.state).flow == Writing && RetOf(t.state) == Finish
    requires es != [] && es[0] == Out(u, [], Finish) && Chain(o, n + 1, es, z) && u == Handle(t, t.hit)
    ensures |ds| > 1 && ds[0] == Out(t, [], Finish) && Chain(o, n, ds, z)
  {
    ChainCons(o, n, Out(t, [], Finish), es, z);
    ds := [Out(t, [], Finish)] + es;
  }

  lemma LastWrite(t: Tls, o: Oracle, n: nat, u: Tls) returns (cs: seq<Out>)
    requires Willing(o, t.hit) && Table(t.server, t.state).flow == Writing && RetOf(t.state) == Next
    requires u == Handle(t, t.hit)
    ensures |cs| == 2 && cs[0] == Out(t, [], Finish) && Chain(o, n, cs, Out(u, [], Next))
  {
    cs := [Out(t, [], Finish), Out(u, [], Next)];
    assert cs[1..] == [cs[1]];
  }

  lemma CertsSent(t: Tls, o: Oracle, n: nat, es: seq<Out>, z: Out) returns (ds: seq<Out>)
    requires Willing(o, t.hit) && t.server && t.state == SwServerCert
    requires es != [] && Chain(o, n + 2, es, z)
    requires es[0] == Out(AfterSend(AfterSend(t, SwCertVerify, t.nonce), SwFinished, t.nonce), [], Finish)
    ensures |ds| > 1 && ds[0] == Out(t, [], Finish) && Chain(o, n, ds, z)
  {
    var b := AfterSend(t, SwCertVerify, t.nonce);
    var cs := WriteLink(b, o, n + 1, AfterSend(b, SwFinished, t.nonce), es, z);
    ds := WriteLink(t, o, n, b, cs, z);
  }

  lemma ServerResumed(t: Tls, o: Oracle) returns (cs: seq<Out>)
    requires Willing(o, true) && t.server && t.state == SwEncExt && t.hit
    ensures |cs| > 1 && cs[0] == Out(t, [], Finish)
    ensures Chain(o, 0, cs, Out(AfterSend(AfterSend(t, SwFinished, t.nonce), SrFinished, t.nonce), [], Next))
  {
    var a := AfterSend(t, SwFinished, t.nonce);
    var z := AfterSend(a, SrFinished, t.nonce);
    cs := LastWrite(a, o, 1, z);
    cs := WriteLink(t, o, 0, a, cs, Out(z, [], Next));
  }

  function CertsDone(t: Tls): Tls {
    var a := AfterSend(t, SwServerCert, t.nonce);
    AfterSend(AfterSend(a, SwCertVerify, t.nonce), SwFinished, t.nonce)
  }

  lemma ServerFull(t: Tls, o: Oracle) returns (cs: seq<Out>)
    requires Willing(o, false) && t.server && t.state == SwEncExt && !t.hit
    ensures |cs| > 1 && cs[0] == Out(t, [], Finish)
    ensures Chain(o, 0, cs, Out(AfterSend(CertsDone(t), SrFinished, t.nonce), [], Next))
  {
    var a := AfterSend(t, SwServerCert, t.nonce);
    var es := CertsAndFinished(a, o);
    cs := WriteLink(t, o, 0, a, es, Out(AfterSend(CertsDone(t), SrFinished, t.nonce), [], Next));
  }

  lemma CertsAndFinished(a: Tls, o: Oracle) returns (cs: seq<Out>)
    requires Willing(o, false) && a.server && a.state == SwServerCert && !a.hit
    ensures |cs| > 1 && cs[0] == Out(a, [], Finish)
    ensures var d := AfterSend(AfterSend(a, SwCertVerify, a.nonce), SwFinished, a.nonce);
            Chain(o, 1, cs, Out(AfterSend(d, SrFinished, a.nonce), [], Next))
  {
    var d := AfterSend(AfterSend(a, SwCertVerify, a.nonce), SwFinished, a.nonce);
    var z := AfterSend(d, SrFinished, a.nonce);
    var es := LastWrite(d, o, 3, z);
    cs := CertsSent(a, o, 1, es, Out(z, [], Next));
  }

  /** What a server sends after its hello, up to its Finished. */
  lemma ServerRest(t: Tls, o: Oracle, hit: bool, z: Tls)
    requires Willing(o, hit) && t.server && t.state == SwEncExt && t.hit == hit
    requires z == if hit then AfterSend(AfterSend(t, SwFinished, t.nonce), SrFinished, t.nonce)
                  else AfterSend(CertsDone(t), SrFinished, t.nonce)
    ensures Call(t, [], o) == Out(z, [], Next)
  {
    ServerRestRuns(t, o, hit, z);
    CallIs(t, [], o, Out(z, [], Next));
  }

  lemma RestIs(t: Tls, hit: bool) returns (z: Tls)
    requires t.server && t.state == SwEncExt && t.hit == hit
    ensures z == if hit then AfterSend(AfterSend(t, SwFinished, t.nonce), SrFinished, t.nonce)
                 else AfterSend(CertsDone(t), SrFinished, t.nonce)
    ensures z == Tls(true, SrFinished, hit, t.nonce, t.trace + [Entry(SwEncExt, ENC_EXT)] +
                     (if hit then [] else [Entry(SwServerCert, CERT)] + [Entry(SwCertVerify, CERT_VERIFY)]) +
                     [Entry(SwFinished, FINISHED)])
  {
    if hit {
      z := AfterSend(AfterSend(t, SwFinished, t.nonce), SrFinished, t.nonce);
      AppendNone(t.trace + [Entry(SwEncExt, ENC_EXT)]);
    } else {
      z := AfterSend(CertsDone(t), SrFinished, t.nonce);
      CertsTrace(t);
    }
  }

  lemma AppendNone(tr: seq<Entry>)
    ensures tr + [] == tr
  {}

  lemma CertsTrace(t: Tls)
    requires t.server && t.state == SwEncExt
    ensures CertsDone(t).trace == t.trace + [Entry(SwEncExt, ENC_EXT)] +
                                  ([Entry(SwServerCert, CERT)] + [Entry(SwCertVerify, CERT_VERIFY)])
  {
    Assoc3(t.trace + [Entry(SwEncExt, ENC_EXT)], [Entry(SwServerCert, CERT)], [Entry(SwCertVerify, CERT_VERIFY)]);
  }

  lemma ServerRestRuns(t: Tls, o: Oracle, hit: bool, z: Tls)
    requires Willing(o, hit) && t.server && t.state == SwEncExt && t.hit == hit
    requires z == if hit then AfterSend(AfterSend(t, SwFinished, t.nonce), SrFinished, t.nonce)
                  else AfterSend(CertsDone(t), SrFinished, t.nonce)
    ensures Statem(t, [], o, 0) == Out(z, [], Next)
  {
    var cs;
    if hit { cs := ServerResumed(t, o); } else { cs := ServerFull(t, o); }
    ChainRuns(o, 0, cs, Out(z, [], Next));
  }

  lemma ServerReads(t: Tls, ty: nat, o: Oracle, n: nat, es: seq<Out>, z: Out) returns (ds: seq<Out>)
    requires Willing(o, t.hit) && t.server && Table(true, t.state).flow == Reading && Table(true, t.state).ty == ty
    requires es != [] && Chain(o, n + 1, es, z) && es[0] == Out(After1(t, t.state), [], Finish)
    ensures |ds| > 1 && ds[0] == Out(t, [Msg(ty, true)], Finish) && Chain(o, n, ds, z)
  {
    var c := Out(t, [Msg(ty, true)], Finish);
    OnlyMessage(t, ty, o(n));
    ChainCons(o, n, c, es, z);
    ds := [c] + es;
  }

  lemma OnlyMessage(t: Tls, ty: nat, v: Verdict)
    requires t.server && Table(true, t.state).flow == Reading && Table(true, t.state).ty == ty
    requires v == Verdict(false, t.hit, false)
    ensures Turn(t, [Msg(ty, true)], v) == Out(After1(t, t.state), [], Finish)
  {
    var none: seq<Msg> := [];
    assert [Msg(ty, true)] == [Msg(ty, true)] + none;
    ReadsOne(t, none, t.hit, t.state);
  }

  /** The client's Finished and the two tickets. */
  lemma ServerLast(t: Tls, o: Oracle, hit: bool)
    requires Willing(o, hit) && t.server && t.state == SrFinished && t.hit == hit && t.nonce == 0
    ensures Call(t, [Msg(FINISHED, true)], o) ==
            Out(Tls(true, HandshakeDone, hit, TICKETS, t.trace + [Entry(SrFinished, FINISHED)] +
                    [Entry(SwTicket, TICKET)] + [Entry(SwTicket, TICKET)]), [], End)
  {
    var a := After1(t, SrFinished);
    var z := AfterSend(AfterSend(a, SwTicket, 1), SwHandshakeDone, 2);
    var cs := LastChain(t, o, 0, a, z);
    LastRuns(t, o, cs, Out(z, [], End));
    TicketsIs(a);
  }

  lemma LastChain(t: Tls, o: Oracle, n: nat, a: Tls, z: Tls) returns (cs: seq<Out>)
    requires Willing(o, t.hit) && t.server && t.state == SrFinished && t.nonce == 0
    requires a == After1(t, SrFinished) && z == AfterSend(AfterSend(a, SwTicket, 1), SwHandshakeDone, 2)
    ensures |cs| > 1 && cs[0] == Out(t, [Msg(FINISHED, true)], Finish) && Chain(o, n, cs, Out(z, [], End))
  {
    var es := TicketsSent(a, o, n + 1, z);
    FinishedIs();
    cs := ServerReads(t, FINISHED, o, n, es, Out(z, [], End));
  }

  lemma FinishedIs()
    ensures Table(true, SrFinished) == Proc(Reading, SwTicket, FINISHED)
  {}

  lemma TicketsIs(a: Tls)
    requires a.server && a.state == SwTicket
    ensures AfterSend(AfterSend(a, SwTicket, 1), SwHandshakeDone, 2) ==
            Tls(true, SwHandshakeDone, a.hit, TICKETS, a.trace + [Entry(SwTicket, TICKET)] + [Entry(SwTicket, TICKET)])
  {}

  lemma LastRuns(t: Tls, o: Oracle, cs: seq<Out>, z: Out)
    requires |cs| > 1 && cs[0] == Out(t, [Msg(FINISHED, true)], Finish) && Chain(o, 0, cs, z)
    requires z.t.state == SwHandshakeDone
    ensures Call(t, [Msg(FINISHED, true)], o) == z.(t := z.t.(state := HandshakeDone))
  {
    ChainRuns(o, 0, cs, z);
    CallIs(t, [Msg(FINISHED, true)], o, z);
  }

  lemma TicketsSent(t: Tls, o: Oracle, n: nat, c: Tls) returns (cs: seq<Out>)
    requires Willing(o, t.hit) && t.server && t.state == SwTicket && t.nonce == 0
    requires c == AfterSend(AfterSend(t, SwTicket, 1), SwHandshakeDone, 2)
    ensures |cs| > 1 && cs[0] == Out(t, [], Finish) && Chain(o, n, cs, Out(c, [], End))
  {
    var b := AfterSend(t, SwTicket, 1);
    var es := LastTicket(b, o, n + 1, c);
    cs := WriteLink(t, o, n, b, es, Out(c, [], End));
  }

  lemma LastTicket(b: Tls, o: Oracle, n: nat, c: Tls) returns (cs: seq<Out>)
    requires Willing(o, b.hit) && b.server && b.state == SwTicket && b.nonce == 1
    requires c == AfterSend(b, SwHandshakeDone, 2)
    ensures |cs| > 1 && cs[0] == Out(b, [], Finish) && Chain(o, n, cs, Out(c, [], End))
  {
    var z := Out(c, [], End);
    var es := [Out(c, [], Finish), z];
    assert es[1..] == [z];
    cs := WriteLink(b, o, n, c, es, z);
  }

  /** The first call of a server: it reads a hello and writes its own. The session may be resumed. */
  lemma ServerFirst(o: Oracle, hit: bool)
    requires Willing(o, hit)
    ensures Call(Start(true), [Msg(CLIENT_HELLO, true)], o) ==
            Out(Tls(true, SwEncExt, hit, 0, [Entry(SrClientHello, CLIENT_HELLO)] +
                    [Entry(SwServerHello, SERVER_HELLO)]), [], Next)
  {
    var m := [Msg(CLIENT_HELLO, true)];
    var t := Start(true).(state := SrClientHello);
    var a := Tls(true, SwServerHello, hit, 0, [Entry(SrClientHello, CLIENT_HELLO)]);
    var z := Out(AfterSend(a, SwEncExt, 0), [], Next);
    var cs := [Out(a, [], Finish), z];
    assert cs[1..] == [z];
    assert Out(a, [], Finish) == Turn(t, m, o(1)) by { HelloRead(t, m, o(1), hit); }
    ChainCons(o, 1, Out(t, m, Continue), cs, z);
    cs := [Out(t, m, Continue)] + cs;
    ChainCons(o, 0, Out(Start(true), m, Continue), cs, z);
    cs := [Out(Start(true), m, Continue)] + cs;
    ChainRuns(o, 0, cs, z);
    CallIs(Start(true), m, o, z);
  }

  lemma HelloRead(t: Tls, m: seq<Msg>, v: Verdict, hit: bool)
    requires t == Start(true).(state := SrClientHello) && m == [Msg(CLIENT_HELLO, true)]
    requires v == Verdict(false, hit, false)
    ensures Turn(t, m, v) == Out(Tls(true, SwServerHello, hit, 0, [Entry(SrClientHello, CLIENT_HELLO)]), [], Finish)
  {
    assert SkipTo(true, SrClientHello, false, CLIENT_HELLO) == SrClientHello;
    assert m[1..] == [];
    ReadState(t, hit);
  }

  /** A server whose handlers do not fail answers a hello, sends the rest of its flight, and is done with
      the client's Finished, with every message handled. */
  lemma ServerCompletes(o: Oracle, hit: bool)
    requires Willing(o, hit)
    ensures var a := Call(Start(true), [Msg(CLIENT_HELLO, true)], o);
            var b := Call(a.t, [], o);
            var c := Call(b.t, [Msg(FINISHED, true)], o);
            && a.ret == Next && a.input == [] && b.ret == Next && c.ret == End && c.input == []
            && c.t == Tls(true, HandshakeDone, hit, TICKETS,
                          [Entry(SrClientHello, CLIENT_HELLO)] + [Entry(SwServerHello, SERVER_HELLO)] +
                          [Entry(SwEncExt, ENC_EXT)] +
                          (if hit then [] else [Entry(SwServerCert, CERT)] + [Entry(SwCertVerify, CERT_VERIFY)]) +
                          [Entry(SwFinished, FINISHED)] + [Entry(SrFinished, FINISHED)] +
                          [Entry(SwTicket, TICKET)] + [Entry(SwTicket, TICKET)])
  {
    ServerFirst(o, hit);
    var a := Call(Start(true), [Msg(CLIENT_HELLO, true)], o).t;
    var b := RestIs(a, hit);
    ServerRest(a, o, hit, b);
    ServerLast(b, o, hit);
  }

  // ---------------------------------------------------------------- the engine

  class Engine {
    const server: bool
    var state: St
    var hit: bool
    var nonce: nat
    var trace: seq<Entry>

    ghost function Abs(): Tls
      reads this
    { Tls(server, state, hit, nonce, trace) }

    /** TlsInit */
    constructor (server: bool)
      ensures Abs() == Start(server)
    { this.server, state, hit, nonce, trace := server, OK, false, 0, []; }

    /** TlsHandshakeMsgRetrans over the states in order. */
    method MsgRetrans(ty: nat, st: St, order: seq<St>) returns (retrans: bool)
      ensures var i := FirstReader(server, ty, order); retrans <==> i.Some? && Index(st) > i.value
    {
      var i := 0;
      retrans := false;
      assert order[0..] == order;
      while i < |order|
        invariant i <= |order| && !retrans
        invariant var f := FirstReader(server, ty, order[i..]);
                  FirstReader(server, ty, order) == if f.None? then None else Some(f.value + i)
      {
        var p := Table(server, order[i]);
        assert order[i..][1..] == order[i + 1..];
        if p.flow == Reading && p.ty == ty {
          retrans := Index(st) > i;
          return;
        }
        i := i + 1;
      }
    }

    /** A handler that succeeds, and TlsFlowFinish. */
    method Handler(resumed: bool)
      modifies this
      ensures Abs() == Handle(old(Abs()), resumed)
    {
      var prev, p := state, Table(server, state);
      if resumed { hit := true; }
      if server && prev == SwEncExt && hit { state := SwFinished; }
      if server && prev == SwTicket {
        nonce := nonce + 1;
        if nonce >= TICKETS { state := SwHandshakeDone; }
      }
      trace := trace + [Entry(prev, p.ty)];
      if prev == state { state := p.next; }
    }

    /** TlsHandshakeRead */
    method HandshakeRead(input: seq<Msg>, v: Verdict) returns (rest: seq<Msg>, ret: Ret)
      modifies this
      ensures Out(Abs(), rest, ret) == Read(old(Abs()), input, v)
    {
      rest, ret := input, WantRead;
      if input == [] { return; }
      var m, p := input[0], Table(server, state);
      while m.ty != p.ty && Skips(server, state, hit)
        invariant p == Table(server, state) && Abs() == old(Abs()).(state := state)
        invariant SkipTo(server, state, hit, m.ty) == SkipTo(server, old(state), hit, m.ty)
        decreases Depth(server, state)
      {
        state := p.next;
        p := Table(server, state);
      }
      if m.ty != p.ty {
        var retrans := MsgRetrans(m.ty, state, ALL);
        ret := Error;
        if retrans && m.whole { rest, ret := input[1..], Drop; }
        return;
      }
      if !m.whole { return; }
      rest, ret := input[1..], Error;
      if v.fail { return; }
      ret := RetOf(state);
      Handler(v.hit);
    }

    /** TlsHandshakeWrite */
    method HandshakeWrite(v: Verdict) returns (ret: Ret)
      modifies this
      ensures forall input :: Out(Abs(), input, ret) == Write(old(Abs()), input, v)
    {
      ret := Error;
      if v.fail { return; }
      ret := RetOf(state);
      Handler(v.hit);
    }

    /** One turn of the loop below. */
    method DoTurn(input: seq<Msg>, v: Verdict) returns (rest: seq<Msg>, ret: Ret)
      modifies this
      ensures Out(Abs(), rest, ret) == Turn(old(Abs()), input, v)
    {
      var prev, p := state, Table(server, state);
      rest := input;
      match p.flow {
        case Nothing => state, ret := p.next, Continue;
        case Finished => ret := End;
        case Reading => rest, ret := HandshakeRead(input, v);
        case Writing => ret := HandshakeWrite(v);
      }
      OutOfTurn(old(Abs()), input, v, Out(Abs(), rest, ret));
      if (ret == Next || ret == Finish) && HasPost(prev) && v.post { ret := Error; }
    }

    /** TlsHandshakeStatem */
    method RunStatem(input: seq<Msg>, o: Oracle) returns (rest: seq<Msg>, ret: Ret)
      modifies this
      ensures Out(Abs(), rest, ret) == Statem(old(Abs()), input, o, 0)
    {
      var n := 0;
      rest, ret := input, Continue;
      while GoesOn(ret)
        invariant if GoesOn(ret) then Statem(Abs(), rest, o, n) == Statem(old(Abs()), input, o, 0)
                  else Out(Abs(), rest, ret) == Statem(old(Abs()), input, o, 0)
        decreases GoesOn(ret), |rest|, Left(Abs())
      {
        ghost var t, was := Abs(), rest;
        rest, ret := DoTurn(rest, o(n));
        if GoesOn(ret) { TurnShrinks(t, was, o(n)); }
        n := n + 1;
      }
    }

    /** TlsHandshake */
    method DoHandshake(input: seq<Msg>, o: Oracle) returns (rest: seq<Msg>, ret: Ret)
      modifies this
      ensures Out(Abs(), rest, ret) == Call(old(Abs()), input, o)
    {
      rest, ret := RunStatem(input, o);
      if state == SwHandshakeDone { state := HandshakeDone; }
    }
  }
}
