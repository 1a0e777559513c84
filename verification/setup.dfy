/** How a client and a session come about, against servers that give out ids and take back only what they gave
    (sections 9.1.1 and 16.33 of RFC 7530, sections 18.35 and 18.36 of RFC 8881). */
module Setup {
  import opened Wire
  import opened Transport
  import opened Ops
  import opened OpResults
  import opened SessionResults
  import opened Compounds
  import opened Replies
  import opened Objects
  import opened WholeStack
  import Client40
  import Client41

  /* ----- a v4.0 server ----- */

  // "nfsclient-v4" and "nfsclient-v41"
  const OWNER40: bytes := [110, 102, 115, 99, 108, 105, 101, 110, 116, 45, 118, 52]
  const OWNER41: bytes := [110, 102, 115, 99, 108, 105, 101, 110, 116, 45, 118, 52, 49]

  /** How a client names itself: the verifier of its instance and its owner string. */
  datatype Name = Name(verf: verifier4, owner: bytes)

  /** The client id and the verifier that it gives out, whom it has given them to, and who has confirmed. */
  datatype Registry = Registry(clientid: u64, confirm: verifier4, given: Option<Name>, confirmed: Option<Name>)

  datatype Says = Gave | Took | Root | Fails(status: u32)

  function Register(s: Registry, m: Compound): (Registry, Says) {
    if m.minor != 0 then (s, Fails(NFS4ERR_MINOR_VERS_MISMATCH))
    else if |m.ops| == 1 && m.ops[0].SetClientId? then (s.(given := Some(Name(m.ops[0].verf, m.ops[0].owner))), Gave)
    else if |m.ops| == 1 && m.ops[0].SetClientIdConfirm? then
      if s.given.Some? && m.ops[0].clientid == s.clientid && m.ops[0].verf == s.confirm then (s.(confirmed := s.given), Took)
      else (s, Fails(NFS4ERR_STALE_CLIENTID))
    else if m.ops == [PutRootFh, GetFh] then (s, Root)
    else (s, Fails(NFS4ERR_OP_NOT_IN_SESSION))
  }

  /** What a server is free to put into its replies. */
  datatype Extra = Extra(x: Cover, root: bytes, id: ExchangeIdOk, sequence: u32, flags: u32, fore: Channel, back: Channel,
                         session: sessionid4, words: fivewords, rest: bytes)

  function SaysBody(s: Registry, a: Says, e: Extra): bytes {
    match a
    case Gave => PutReplyHeader(0, e.x.tag, e.x.n, PutSetClientId(35, s.clientid, s.confirm, []))
    case Took => PutFront(e.x.tag, e.x.n, 36, [])
    case Root => PutFront(e.x.tag, e.x.n, 24, PutGetFh(10, e.root, []))
    case Fails(status) => PutReplyHeader(status, e.x.tag, e.x.n, e.rest)
  }

  /** The server after some requests. */
  function RegisterAll(s: Registry, ms: seq<Compound>): Registry
    decreases |ms|
  {
    if ms == [] then s else RegisterAll(Register(s, ms[0]).0, ms[1..])
  }

  /** It answers each request as it comes, in one record. */
  ghost predicate Registers(s: Registry, ms: seq<Compound>, es: seq<Extra>, replies: seq<seq<bytes>>)
    decreases |ms|
  {
    && |ms| == |es| == |replies|
    && (ms != [] ==>
          && Wraps(replies[0], es[0].x, SaysBody(s, Register(s, ms[0]).1, es[0])) && |es[0].root| < TWO_32
          && Registers(Register(s, ms[0]).0, ms[1..], es[1..], replies[1..]))
  }

  /** Everything that the client sends is parsed off the connection, and everything that comes is an answer to it. */
  ghost predicate FairStart(s: Registry, c: Conn, ms: seq<Compound>, es: seq<Extra>, replies: seq<seq<bytes>>, k: bytes) {
    && AllSmall(MessagesOf(CallsOf(c, RequestsOf(ms))))
    && Brings(c.link, Load(c, RequestsOf(ms)), replies, k)
    && Registers(s, Received(c, ms), es, replies)
  }

  /** A request and the record that answers it. */
  lemma Answered(c: Conn, m: Compound, ms: seq<Compound>, x: Cover, body: bytes, replies: seq<seq<bytes>>, k: bytes)
    requires ms != [] && ms[0] == m && replies != [] && Wraps(replies[0], x, body)
    requires Brings(c.link, Load(c, RequestsOf(ms)), replies, k)
    ensures var (c', r) := Exchange(c, NfsRequest(PutCompound(m)));
            && r == Success(body) && |body| < TWO_32
            && Brings(c'.link, Load(c', RequestsOf(ms[1..])), replies[1..], k)
  {
    hide Wraps, PutCompound, Exchange, Load, TakeReply, Joined, Brings;
    FirstReply(c, RequestsOf(ms), replies, k);
    assert RequestsOf(ms)[1..] == RequestsOf(ms[1..]);
    Unwrapped(replies[0], x, body);
    WrapsSmall(replies[0], x, body);
  }

  lemma GaveRead(s: Registry, e: Extra)
    requires |SaysBody(s, Gave, e)| < TWO_32
    ensures Client40.TakeSetClientIdReply(SaysBody(s, Gave, e)) == Ok(ClientIdResult(s.clientid, s.confirm), [])
  {
    hide PutReplyHeader, TakeReplyHeader, PutSetClientId, TakeSetClientId;
    ReplyHeaderRoundTrip(0, e.x.tag, e.x.n, PutSetClientId(35, s.clientid, s.confirm, []));
    SetClientIdRoundTrip(35, s.clientid, s.confirm, []);
  }

  lemma TookRead(s: Registry, e: Extra)
    requires |SaysBody(s, Took, e)| < TWO_32
    ensures TakeFront(SaysBody(s, Took, e)) == Ok((), [])
  {
    hide PutFront, TakeFront;
    FrontRoundTrip(e.x.tag, e.x.n, 36, []);
  }

  lemma RootRead(s: Registry, e: Extra)
    requires |SaysBody(s, Root, e)| < TWO_32 && |e.root| < TWO_32
    ensures Client40.TakeRootReply(SaysBody(s, Root, e)) == Ok(e.root, [])
  {
    hide PutFront, TakeFront, PutGetFh, TakeGetFh;
    FrontRoundTrip(e.x.tag, e.x.n, 24, PutGetFh(10, e.root, []));
  }

  /** Against such a server the client gets the id that the server gave out, and the server has it confirmed. */
  lemma ClientStarts(s: Registry, c: Conn, verf: verifier4, es: seq<Extra>, replies: seq<seq<bytes>>, k: bytes)
    requires FairStart(s, c, Client40.ConnectSpec(c, verf).log, es, replies, k)
    ensures var o := Client40.ConnectSpec(c, verf);
            && o.result == Success(s.clientid)
            && RegisterAll(s, Received(c, o.log))
               == s.(given := Some(Name(verf, OWNER40)), confirmed := Some(Name(verf, OWNER40)))
  {
    hide Exchange, PutCompound, SaysBody, Wraps, Brings, Load, Received, CallsOf, MessagesOf, RequestsOf, Register;
    hide Client40.TakeSetClientIdReply, TakeFront, Client40.TakeRootReply, Client40.SetClientIdRequest, Client40.ConfirmRequest;
    var o := Client40.ConnectSpec(c, verf);
    var ms := o.log;
    ReceivedIsSent(c, ms);
    var m1 := Client40.SetClientIdRequest(verf);
    var s1 := s.(given := Some(Name(verf, OWNER40)));
    assert ms[0] == m1 && Register(s, m1) == (s1, Gave) by { FirstStep(s, verf); }
    Answered(c, m1, ms, es[0].x, SaysBody(s, Gave, es[0]), replies, k);
    GaveRead(s, es[0]);
    var c1 := Exchange(c, NfsRequest(PutCompound(m1))).0;
    var m2 := Client40.ConfirmRequest(ClientIdResult(s.clientid, s.confirm));
    var s2 := s1.(confirmed := s1.given);
    assert ms[1..][0] == m2 && Register(s1, m2) == (s2, Took) by { SecondStep(s1); }
    assert Registers(s1, ms[1..], es[1..], replies[1..]);
    Answered(c1, m2, ms[1..], es[1..][0].x, SaysBody(s1, Took, es[1..][0]), replies[1..], k);
    TookRead(s1, es[1..][0]);
    var c2 := Exchange(c1, NfsRequest(PutCompound(m2))).0;
    var m3 := Client40.ROOT_REQUEST;
    assert ms[1..][1..][0] == m3 && Register(s2, m3) == (s2, Root) by { ThirdStep(s2); }
    var e := es[1..][1..][0];
    assert Registers(s2, ms[1..][1..], es[1..][1..], replies[1..][1..]);
    Answered(c2, m3, ms[1..][1..], e.x, SaysBody(s2, Root, e), replies[1..][1..], k);
    RootRead(s2, e);
    assert ms[1..][1..][1..] == [];
    assert RegisterAll(s2, ms[1..][1..]) == RegisterAll(s2, []);
    assert RegisterAll(s1, ms[1..]) == RegisterAll(s2, ms[1..][1..]);
  }

  lemma FirstStep(s: Registry, verf: verifier4)
    ensures Register(s, Client40.SetClientIdRequest(verf)) == (s.(given := Some(Name(verf, OWNER40))), Gave)
  {
  }

  lemma SecondStep(s: Registry)
    requires s.given.Some?
    ensures Register(s, Client40.ConfirmRequest(ClientIdResult(s.clientid, s.confirm))) == (s.(confirmed := s.given), Took)
  {
  }

  lemma ThirdStep(s: Registry)
    ensures Register(s, Client40.ROOT_REQUEST) == (s, Root)
  {
  }

  /* ----- a v4.1 server ----- */

  /** The client id, the sequence and the session that it gives out, the client that it knows, the slot of the
      session once there is one, and whether the client has said that it has nothing to reclaim. */
  datatype Host = Host(clientid: u64, sequence: u32, session: sessionid4, known: Option<Name>, slot: Option<Client41.Slot>,
                       reclaimed: bool)

  datatype Says41 = IdGiven | SessionMade | Ran(ops: seq<Op>) | Fails41(status: u32)

  /** A session is made if and only if the client id and the sequence are those that were given out; then its
      requests run in slot 0. */
  function Admit(h: Host, m: Compound): (Host, Says41) {
    if m.minor != 1 then (h, Fails41(NFS4ERR_MINOR_VERS_MISMATCH))
    else if |m.ops| == 1 && m.ops[0].ExchangeId? then (h.(known := Some(Name(m.ops[0].verf, m.ops[0].owner))), IdGiven)
    else if |m.ops| == 1 && m.ops[0].CreateSession? then
      if h.known.None? || m.ops[0].clientid != h.clientid then (h, Fails41(NFS4ERR_STALE_CLIENTID))
      else if m.ops[0].sequence != h.sequence then (h, Fails41(NFS4ERR_SEQ_MISORDERED))
      else (h.(slot := Some(Client41.Slot(h.session, 0, []))), SessionMade)
    else if h.slot.None? then (h, Fails41(NFS4ERR_BADSESSION))
    else
      match Client41.Serve(h.slot.value, m)
      case Executed(slot) =>
        var ops := slot.executed[|slot.executed| - 1].ops;
        (h.(slot := Some(slot), reclaimed := h.reclaimed || ops == [ReclaimComplete(false)]), Ran(ops))
      case NotInSession => (h, Fails41(NFS4ERR_BADSESSION))
      case _ => (h, Fails41(NFS4ERR_SEQ_MISORDERED))
  }

  /** The results of the operations that the start of a session has. */
  function PutRan(ops: seq<Op>, root: bytes): bytes {
    if ops == [] then []
    else if ops[0].GetFh? then PutGetFh(10, root, PutRan(ops[1..], root))
    else PutStatus(OpCode(ops[0]), 0, PutRan(ops[1..], root))
  }

  function Body41(h: Host, a: Says41, e: Extra): bytes {
    match a
    case IdGiven =>
      PutReplyHeader(0, e.x.tag, e.x.n, PutExchangeId(42, e.id.(clientid := h.clientid, sequence := h.sequence), []))
    case SessionMade =>
      PutReplyHeader(0, e.x.tag, e.x.n, PutCreateSession(43, h.session, e.sequence, e.flags, e.fore, e.back, []))
    case Ran(ops) => PutReplyHeader(0, e.x.tag, e.x.n, PutSequence(53, e.session, e.words, PutRan(ops, e.root)))
    case Fails41(status) => PutReplyHeader(status, e.x.tag, e.x.n, e.rest)
  }

  function AdmitAll(h: Host, ms: seq<Compound>): Host
    decreases |ms|
  {
    if ms == [] then h else AdmitAll(Admit(h, ms[0]).0, ms[1..])
  }

  ghost predicate Admits(h: Host, ms: seq<Compound>, es: seq<Extra>, replies: seq<seq<bytes>>)
    decreases |ms|
  {
    && |ms| == |es| == |replies|
    && (ms != [] ==>
          && Wraps(replies[0], es[0].x, Body41(h, Admit(h, ms[0]).1, es[0])) && |es[0].root| < TWO_32
          && ChannelOk(es[0].fore) && ChannelOk(es[0].back)
          && Admits(Admit(h, ms[0]).0, ms[1..], es[1..], replies[1..]))
  }

  ghost predicate FairStart41(h: Host, c: Conn, ms: seq<Compound>, es: seq<Extra>, replies: seq<seq<bytes>>, k: bytes) {
    && AllSmall(MessagesOf(CallsOf(c, RequestsOf(ms))))
    && Brings(c.link, Load(c, RequestsOf(ms)), replies, k)
    && Admits(h, Received(c, ms), es, replies)
  }

  lemma IdGivenRead(h: Host, e: Extra)
    requires |Body41(h, IdGiven, e)| < TWO_32
    ensures Client41.TakeExchangeIdReply(Body41(h, IdGiven, e)) == Ok(ExchangeIdResult(h.clientid, h.sequence), [])
  {
    hide PutReplyHeader, TakeReplyHeader, PutExchangeId, TakeExchangeId;
    var id := e.id.(clientid := h.clientid, sequence := h.sequence);
    ReplyHeaderRoundTrip(0, e.x.tag, e.x.n, PutExchangeId(42, id, []));
    ExchangeIdAligned(42, id, []);
  }

  lemma SessionMadeRead(h: Host, e: Extra)
    requires |Body41(h, SessionMade, e)| < TWO_32 && ChannelOk(e.fore) && ChannelOk(e.back)
    ensures var p := Client41.TakeCreateSessionReply(Body41(h, SessionMade, e)); p.Ok? && p.value == h.session
  {
    hide PutReplyHeader, TakeReplyHeader, PutCreateSession, TakeCreateSession;
    ReplyHeaderRoundTrip(0, e.x.tag, e.x.n, PutCreateSession(43, h.session, e.sequence, e.flags, e.fore, e.back, []));
    CreateSessionAligned(43, h.session, e.sequence, e.flags, e.fore, e.back, []);
  }

  lemma ReclaimedRead(h: Host, e: Extra)
    requires |Body41(h, Ran([ReclaimComplete(false)]), e)| < TWO_32
    ensures Client41.TakeFront41(Body41(h, Ran([ReclaimComplete(false)]), e)) == Ok((), [])
  {
    hide PutReplyHeader, PutSequence, PutStatus, Client41.TakeFront41;
    assert [ReclaimComplete(false)][1..] == [] && OpCode(ReclaimComplete(false)) == 58;
    assert PutRan([ReclaimComplete(false)], e.root) == PutStatus(58, 0, PutRan([ReclaimComplete(false)][1..], e.root));
    Front41RoundTrip(e.x.tag, e.x.n, e.session, e.words, 58, []);
  }

  lemma RootRead41(h: Host, e: Extra)
    requires |Body41(h, Ran([PutRootFh, GetFh]), e)| < TWO_32 && |e.root| < TWO_32
    ensures Client41.TakeRootReply41(Body41(h, Ran([PutRootFh, GetFh]), e)) == Ok(e.root, [])
  {
    hide PutReplyHeader, PutSequence, PutStatus, Client41.TakeFront41, PutGetFh, TakeGetFh;
    assert [PutRootFh, GetFh][1..] == [GetFh] && [GetFh][1..] == [];
    assert PutRan([GetFh], e.root) == PutGetFh(10, e.root, PutRan([GetFh][1..], e.root));
    Front41RoundTrip(e.x.tag, e.x.n, e.session, e.words, 24, PutGetFh(10, e.root, []));
  }

  lemma FirstStep41(h: Host, verf: verifier4)
    ensures Admit(h, Client41.ExchangeIdRequest(verf)) == (h.(known := Some(Name(verf, OWNER41))), IdGiven)
  {
  }

  lemma SecondStep41(h: Host)
    requires h.known.Some?
    ensures Admit(h, Client41.CreateSessionRequest(ExchangeIdResult(h.clientid, h.sequence)))
            == (h.(slot := Some(Client41.Slot(h.session, 0, []))), SessionMade)
  {
  }

  lemma SlotStep(h: Host, n: nat, done: seq<Client41.Work>, w: Client41.Work)
    requires n < 100 && h.slot == Some(Client41.Slot(h.session, n, done))
    ensures Admit(h, Client41.InSession(h.session, n, w)) ==
            (h.(slot := Some(Client41.Slot(h.session, n + 1, done + [w])),
                reclaimed := h.reclaimed || w.ops == [ReclaimComplete(false)]), Ran(w.ops))
  {
    var m := Client41.InSession(h.session, n, w);
    assert m.ops[1..] == w.ops;
  }

  /** The two requests that a new session starts with. */
  lemma SessionRuns(h: Host, c: Conn, ms: seq<Compound>, es: seq<Extra>, replies: seq<seq<bytes>>, k: bytes)
    requires h.slot == Some(Client41.Slot(h.session, 0, []))
    requires var (m3, m4) := (Client41.InSession(h.session, 0, Client41.RECLAIM_WORK),
                              Client41.InSession(h.session, 1, Client41.ROOT_WORK));
             ms != [] && ms[0] == m3 && (Ask(c, m3, Client41.TakeFront41).1.Success? ==> ms == [m3, m4])
    requires Admits(h, ms, es, replies) && Brings(c.link, Load(c, RequestsOf(ms)), replies, k)
    ensures var (m3, m4) := (Client41.InSession(h.session, 0, Client41.RECLAIM_WORK),
                             Client41.InSession(h.session, 1, Client41.ROOT_WORK));
            var (c3, reclaimed) := Ask(c, m3, Client41.TakeFront41);
            reclaimed.Success? && Ask(c3, m4, Client41.TakeRootReply41).1.Success?
    ensures AdmitAll(h, ms) ==
            h.(reclaimed := true, slot := Some(Client41.Slot(h.session, 2, [Client41.RECLAIM_WORK, Client41.ROOT_WORK])))
  {
    hide Exchange, PutCompound, Body41, Wraps, Brings, Load, RequestsOf, Admit, Client41.InSession, ChannelOk;
    hide Client41.TakeFront41, Client41.TakeRootReply41;
    var m3 := Client41.InSession(h.session, 0, Client41.RECLAIM_WORK);
    var m4 := Client41.InSession(h.session, 1, Client41.ROOT_WORK);
    SlotStep(h, 0, [], Client41.RECLAIM_WORK);
    Answered(c, m3, ms, es[0].x, Body41(h, Ran([ReclaimComplete(false)]), es[0]), replies, k);
    ReclaimedRead(h, es[0]);
    var h3 := h.(slot := Some(Client41.Slot(h.session, 1, [] + [Client41.RECLAIM_WORK])), reclaimed := true);
    var ms1, es1, rs1 := ms[1..], es[1..], replies[1..];
    assert ms1 == [m4] && Admits(h3, ms1, es1, rs1);
    SlotStep(h3, 1, [] + [Client41.RECLAIM_WORK], Client41.ROOT_WORK);
    var c3 := Exchange(c, NfsRequest(PutCompound(m3))).0;
    Answered(c3, m4, ms1, es1[0].x, Body41(h3, Ran([PutRootFh, GetFh]), es1[0]), rs1, k);
    RootRead41(h3, es1[0]);
    assert [] + [Client41.RECLAIM_WORK] + [Client41.ROOT_WORK] == [Client41.RECLAIM_WORK, Client41.ROOT_WORK];
    assert AdmitAll(h, ms) == AdmitAll(h3, ms1);
    assert AdmitAll(h3, ms1) == AdmitAll(Admit(h3, m4).0, ms1[1..]);
    assert ms1[1..] == [];
  }

  /** Against such a server the session that the server made is started, both requests in it are executed, and the
      server knows that the client has nothing to reclaim. */
  lemma SessionStarts(h: Host, c: Conn, verf: verifier4, es: seq<Extra>, replies: seq<seq<bytes>>, k: bytes)
    requires FairStart41(h, c, Client41.ConnectSpec(c, verf).log, es, replies, k)
    ensures var o := Client41.ConnectSpec(c, verf);
            && o.result == Success((h.clientid, h.session))
            && AdmitAll(h, Received(c, o.log)) ==
               h.(known := Some(Name(verf, OWNER41)), reclaimed := true,
                  slot := Some(Client41.Slot(h.session, 2, [Client41.RECLAIM_WORK, Client41.ROOT_WORK])))
  {
    hide Exchange, PutCompound, Body41, Wraps, Brings, Load, Received, CallsOf, MessagesOf, RequestsOf, Admit, Client41.InSession;
    hide Client41.TakeExchangeIdReply, Client41.TakeCreateSessionReply, Client41.TakeFront41, Client41.TakeRootReply41;
    hide Client41.ExchangeIdRequest, Client41.CreateSessionRequest, ChannelOk;
    var o := Client41.ConnectSpec(c, verf);
    var ms := o.log;
    ReceivedIsSent(c, ms);
    var m1 := Client41.ExchangeIdRequest(verf);
    FirstStep41(h, verf);
    var h1 := h.(known := Some(Name(verf, OWNER41)));
    assert ms[0] == m1;
    Answered(c, m1, ms, es[0].x, Body41(h, IdGiven, es[0]), replies, k);
    IdGivenRead(h, es[0]);
    var c1 := Exchange(c, NfsRequest(PutCompound(m1))).0;
    var m2 := Client41.CreateSessionRequest(ExchangeIdResult(h.clientid, h.sequence));
    SecondStep41(h1);
    var h2 := h1.(slot := Some(Client41.Slot(h.session, 0, [])));
    var ms1, es1, rs1 := ms[1..], es[1..], replies[1..];
    assert ms1[0] == m2 && Admits(h1, ms1, es1, rs1);
    Answered(c1, m2, ms1, es1[0].x, Body41(h1, SessionMade, es1[0]), rs1, k);
    SessionMadeRead(h1, es1[0]);
    SessionRuns(h2, Exchange(c1, NfsRequest(PutCompound(m2))).0, ms1[1..], es1[1..], rs1[1..], k);
    assert AdmitAll(h1, ms1) == AdmitAll(h2, ms1[1..]);
  }
}
