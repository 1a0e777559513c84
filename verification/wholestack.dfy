/** From a call to what it returns: the operation list, the bytes on the connection, the server that parses and
    runs them, the bytes of its reply, and the client that reads these. */
module WholeStack {
  import opened Wire
  import opened Rpc
  import opened Transport
  import opened Ops
  import opened OpResults
  import opened Attributes
  import opened Paging
  import opened Compounds
  import opened Replies
  import opened FileTrees
  import opened Objects
  import opened Namespace
  import Bitmap
  import Client40
  import Client41
  import SessionResults

  /* ----- one reply ----- */

  type fivewords = w: seq<u32> | |w| == 5 witness [0, 0, 0, 0, 0]

  /** What a server is free to put into a reply. */
  datatype Trimmings = Trimmings(xid: u32, flavor: u32, verifier: bytes, tag: bytes, n: u32, code: u32,
                                 session: sessionid4, words: fivewords, change: ChangeInfo, change2: ChangeInfo,
                                 attrset: seq<u32>, rflags: u32, delegation: Delegation, bm: seq<u32>, committed: u32,
                                 state: Stateid4, rest: bytes)

  /** What a server says of the file that it has opened. */
  function Opening(stateid: Stateid4, x: Trimmings): OpenOk {
    OpenOk(stateid, x.change, x.rflags, x.attrset, x.delegation)
  }

  /** The results behind that of PUTFH in a good reply. */
  function PutResults(c: FsCall, w: Done, x: Trimmings): bytes {
    var h := if w.handle.Some? then w.handle.value else [];
    match w.said
    case Opened(stateid, _) => PutOpenResults(Opening(stateid, x), h)
    case Confirmed(stateid) => PutStateResult(20, stateid, [])
    case Values(m) => PutGetAttr(9, x.bm, m, [])
    case Rights(supported, granted) => PutAccess(3, supported, granted, [])
    case Contents(data, eof) => PutRead(25, eof, data, [])
    case Count(n, _) => PutWrite(38, n, x.committed, w.fs.boot, [])
    case Flushed => PutCommit(5, w.fs.boot, [])
    case Target(t) => PutGetFh(27, t, [])
    case Silent =>
      match c
      case Find(_, _) => PutStatus(15, 0, PutGetFh(GETFH_CODE, h, []))
      case MakeDir(_, _, _) => PutCreate(6, x.change, x.attrset, PutGetFh(GETFH_CODE, h, []))
      case MakeLink(_, _, _, _) => PutCreate(6, x.change, x.attrset, PutGetFh(GETFH_CODE, h, []))
      case Unlink(_, _) => PutStatus(28, 0, PutChangeInfo(x.change, []))
      case Move(_, _, _, _) => PutRenameResults(x.code, x.change, x.change2)
      case CloseFile(_, _, _) => PutStateResult(4, x.state, [])
      case Change(_, _) => PutSetAttr(34, x.attrset, [])
      case _ => []
  }

  function PutGood(v41: bool, c: FsCall, w: Done, x: Trimmings): bytes {
    var k := PutResults(c, w, x);
    if v41 then PutFront41(x.tag, x.n, x.session, x.words, x.code, k) else PutFront(x.tag, x.n, x.code, k)
  }

  function DoneBy(r: Ran): Done { Done(r.m.fs, r.m.got, r.m.said) }

  /** The reply to a run: its status and, if that is 0, the results. */
  function PutReplyTo(v41: bool, c: FsCall, r: Ran, x: Trimmings): bytes {
    if r.status != 0 then PutReplyHeader(r.status, x.tag, x.n, x.rest) else PutGood(v41, c, DoneBy(r), x)
  }

  /** What a caller gets besides a filehandle. */
  datatype News =
    | NoNews
    | NewState(stateid: Stateid4)
    | SomeAttrs(attrs: Fattr4)
    | Granted(rights: u32)
    | Data(data: bytes)
    | Amount(n: u32)
    | Stable(verf: verifier4)
    | Points(target: bytes)

  datatype Gift = Gift(handle: Option<bytes>, news: News)

  function Given<T>(p: Parsed<T>, f: T -> Gift): Result<Gift> { if p.Ok? then Success(f(p.value)) else Failure(p.error) }

  function Handle(h: bytes): Gift { Gift(Some(h), NoNews) }
  function Nothing(u: ()): Gift { Gift(None, NoNews) }
  function OpenedAs(p: (Open4Result, bytes)): Gift { Gift(Some(p.1), NewState(p.0.stateid)) }
  function ConfirmedAs(s: Stateid4): Gift { Gift(None, NewState(s)) }
  function WithAttrs(a: Fattr4): Gift { Gift(None, SomeAttrs(a)) }
  function WithRights(granted: u32): Gift { Gift(None, Granted(granted)) }
  function WithData(d: bytes): Gift { Gift(None, Data(d)) }
  function WithCount(n: u32): Gift { Gift(None, Amount(n)) }
  function WithVerf(v: verifier4): Gift { Gift(None, Stable(v)) }
  function WithTarget(t: bytes): Gift { Gift(None, Points(t)) }

  /** How the client reads the reply to a call. */
  function Told(v41: bool, c: FsCall, reply: bytes): Result<Gift> {
    if v41 then Told41(c, reply) else Told40(c, reply)
  }

  function Told40(c: FsCall, reply: bytes): Result<Gift> {
    match c
    case Find(_, _) => Given(TakeLookupReply(reply), Handle)
    case MakeDir(_, _, _) => Given(TakeCreateReply(reply), Handle)
    case MakeLink(_, _, _, _) => Given(TakeCreateReply(reply), Handle)
    case OpenNamed(_, _, _, _, _, _, _) => Given(TakeOpenReply(reply), OpenedAs)
    case Unlink(_, _) => Given(TakeRemoveReply(reply), Nothing)
    case Move(_, _, _, _) => Given(TakeRenameReply(reply), Nothing)
    case Inspect(_) => Given(TakeGetAttrReply(reply), WithAttrs)
    case MayDo(_, _) => Given(TakeAccessReply(reply), WithRights)
    case ConfirmFile(_, _, _) => Given(TakeConfirmReply(reply), ConfirmedAs)
    case CloseFile(_, _, _) => Given(TakeCloseReply(reply), Nothing)
    case ReadFile(_, _, _, _) => Given(TakeReadReply(reply), WithData)
    case WriteFile(_, _, _, _, _) => Given(TakeWriteReply(reply), WithCount)
    case FlushFile(_, _, _) => Given(TakeCommitReply(reply), WithVerf)
    case ReadTarget(_) => Given(TakeReadLinkReply(reply), WithTarget)
    case Change(_, _) => Given(TakeSetAttrReply(reply), Nothing)
    case KeepAlive(_) => Given(TakeFront(reply), Nothing)
  }

  /** Two calls are of v4.0 only; a reply to them in a session is never read. */
  function Told41(c: FsCall, reply: bytes): Result<Gift> {
    match c
    case Find(_, _) => Given(Client41.TakeLookupReply41(reply), Handle)
    case MakeDir(_, _, _) => Given(Client41.TakeCreateReply41(reply), Handle)
    case MakeLink(_, _, _, _) => Given(Client41.TakeCreateReply41(reply), Handle)
    case OpenNamed(_, _, _, _, _, _, _) => Given(Client41.TakeOpenReply41(reply), OpenedAs)
    case Unlink(_, _) => Given(Client41.TakeRemoveReply41(reply), Nothing)
    case Move(_, _, _, _) => Given(Client41.TakeRenameReply41(reply), Nothing)
    case Inspect(_) => Given(Client41.TakeGetAttrReply41(reply), WithAttrs)
    case MayDo(_, _) => Given(Client41.TakeAccessReply41(reply), WithRights)
    case CloseFile(_, _, _) => Given(Client41.TakeCloseReply41(reply), Nothing)
    case ReadFile(_, _, _, _) => Given(Client41.TakeReadReply41(reply), WithData)
    case WriteFile(_, _, _, _, _) => Given(Client41.TakeWriteReply41(reply), WithCount)
    case FlushFile(_, _, _) => Given(Client41.TakeCommitReply41(reply), WithVerf)
    case ReadTarget(_) => Given(Client41.TakeReadLinkReply41(reply), WithTarget)
    case Change(_, _) => Given(Client41.TakeSetAttrReply41(reply), Nothing)
    case ConfirmFile(_, _, _) => Failure(ProtocolError)
    case KeepAlive(_) => Failure(ProtocolError)
  }

  predicate Only40(c: FsCall) { c.ConfirmFile? || c.KeepAlive? }

  /** The part of what was said that the client hands on. */
  function NewsOf(w: Done): News {
    match w.said
    case Silent => NoNews
    case Opened(stateid, _) => NewState(stateid)
    case Confirmed(stateid) => NewState(stateid)
    case Values(m) => SomeAttrs(Exposed(m))
    case Rights(_, granted) => Granted(granted)
    case Contents(data, _) => Data(data)
    case Count(n, _) => Amount(n)
    case Flushed => Stable(w.fs.boot)
    case Target(t) => Points(t)
  }

  function AsTold(a: Answer<Done>): Result<Gift> {
    match a
    case Good(w) => Success(Gift(w.handle, NewsOf(w)))
    case Bad(code) => Failure(Status(code))
  }

  /** Sizes that fit their length words, values of the right kind, no delegation that the client cannot read, and bit 1
      of the flags for a file that is to be confirmed. */
  predicate Fits(c: FsCall, reply: bytes, w: Done, x: Trimmings) {
    && |reply| < TWO_32 && |x.attrset| < TWO_32 && (w.handle.Some? ==> |w.handle.value| < TWO_32)
    && (w.said.Values? ==> SendableAttrs(x.bm, w.said.attrs))
    && (w.said.Contents? ==> |w.said.data| < TWO_32)
    && (w.said.Target? ==> |w.said.t| < TWO_32)
    && (w.said.Opened? ==> !x.delegation.NoDelegationExt? && (x.rflags / 2 % 2 == 1 <==> w.said.confirm))
  }

  /** What a call that succeeds has to say. */
  predicate Apt(c: FsCall, w: Done) {
    && (w.handle.Some? <==> c.Find? || c.MakeDir? || c.MakeLink? || c.OpenNamed?)
    && (w.said.Opened? <==> c.OpenNamed?)
    && (w.said.Confirmed? <==> c.ConfirmFile?)
    && (w.said.Values? <==> c.Inspect?)
    && (w.said.Rights? <==> c.MayDo?)
    && (w.said.Contents? <==> c.ReadFile?)
    && (w.said.Count? <==> c.WriteFile?)
    && (w.said.Flushed? <==> c.FlushFile?)
    && (w.said.Target? <==> c.ReadTarget?)
  }

  lemma WantedIsApt(fs: Fs, c: FsCall, spare: Spare)
    requires Wanted(fs, c, spare).Good?
    ensures Apt(c, Wanted(fs, c, spare).value)
  {
    hide LookupAt, MakeAt, RemoveAt, RenameAt, OpenAt, Resolve, ReadAt, WriteAt, FlushAt, TargetAt, ChangeAt, ConfirmAt;
    hide CloseAt, NodeAt, RenewAt, AttrsOf, Chosen;
  }

  /** The results of the calls on one object, in v4.0 and in a session. */
  lemma ObjectResultsRead(c: FsCall, w: Done, x: Trimmings)
    requires Apt(c, w) && Fits(c, PutResults(c, w, x), w, x)
    ensures var k := PutResults(c, w, x);
            && (c.Inspect? ==> TakeGetAttr(k) == Ok(Exposed(w.said.attrs), []))
            && (c.MayDo? ==> TakeAccess(k) == Ok(Access4Result(w.said.supported, w.said.granted), []))
            && (c.ConfirmFile? ==> TakeOpenConfirm(k) == Ok(w.said.stateid, []))
            && (c.CloseFile? ==> TakeOpenConfirm(k) == Ok(x.state, []))
            && (c.ReadFile? ==> TakeRead(k) == Ok(w.said.data, []))
            && (c.WriteFile? ==> TakeWrite(k) == Ok(Write4Result(w.said.n, x.committed, w.fs.boot), []))
            && (c.FlushFile? ==> TakeCommit(k) == Ok(w.fs.boot, []))
            && (c.ReadTarget? ==> TakeGetFh(k) == Ok(w.said.t, []))
            && (c.Change? ==> TakeSetAttr(k) == Ok((), []))
            && (c.KeepAlive? ==> k == [])
  {
    hide PutGetAttr, PutAccess, PutRead, PutWrite, PutSetAttr, TakeGetAttr, TakeAccess, TakeRead, TakeWrite, TakeSetAttr;
    hide PutStateResult, TakeOpenConfirm, PutCommit, TakeCommit, PutGetFh, TakeGetFh, Exposed, SendableAttrs;
    match c {
      case Inspect(_) => GetAttrRoundTrip(9, x.bm, w.said.attrs, []);
      case MayDo(_, _) => AccessRoundTrip(3, w.said.supported, w.said.granted, []);
      case ReadFile(_, _, _, _) => ReadRoundTrip(25, w.said.eof, w.said.data, []);
      case WriteFile(_, _, _, _, _) => WriteRoundTrip(38, w.said.n, x.committed, w.fs.boot, []);
      case Change(_, _) => SetAttrRoundTrip(34, x.attrset, []);
      case _ =>
    }
  }

  predicate OnObject(c: FsCall) {
    !c.Find? && !c.MakeDir? && !c.MakeLink? && !c.OpenNamed? && !c.Unlink? && !c.Move?
  }

  lemma GivenObject(v41: bool, c: FsCall, w: Done, x: Trimmings)
    requires OnObject(c) && !(v41 && Only40(c)) && Apt(c, w) && Fits(c, PutGood(v41, c, w, x), w, x)
    ensures Told(v41, c, PutGood(v41, c, w, x)) == Success(Gift(w.handle, NewsOf(w)))
  {
    hide PutFront, PutFront41, PutResults, TakeGetAttr, TakeAccess, TakeRead, TakeWrite, TakeSetAttr, TakeOpenConfirm;
    hide TakeCommit, TakeGetFh, Exposed, SendableAttrs, TakeFront, Client41.TakeFront41;
    ObjectResultsRead(c, w, x);
    if v41 {
      Front41RoundTrip(x.tag, x.n, x.session, x.words, x.code, PutResults(c, w, x));
    } else {
      FrontRoundTrip(x.tag, x.n, x.code, PutResults(c, w, x));
    }
  }

  lemma GivenTree40(c: FsCall, w: Done, x: Trimmings)
    requires !OnObject(c) && Apt(c, w) && Fits(c, PutGood(false, c, w, x), w, x)
    ensures Told(false, c, PutGood(false, c, w, x)) == Success(Gift(w.handle, NewsOf(w)))
  {
    hide PutFront, PutStatus, PutGetFh, PutCreate, PutOpenResults, PutChangeInfo, PutRenameResults;
    hide TakeLookupReply, TakeCreateReply, TakeOpenReply, TakeRemoveReply, TakeRenameReply;
    match c {
      case Find(_, _) => LookupReplyRead(x.tag, x.n, x.code, w.handle.value);
      case MakeDir(_, _, _) => CreateReplyRead(x.tag, x.n, x.code, x.change, x.attrset, w.handle.value);
      case MakeLink(_, _, _, _) => CreateReplyRead(x.tag, x.n, x.code, x.change, x.attrset, w.handle.value);
      case OpenNamed(_, _, _, _, _, _, _) => OpenReplyRead(x.tag, x.n, x.code, Opening(w.said.stateid, x), w.handle.value);
      case Unlink(_, _) => RemoveReplyRead(x.tag, x.n, x.code, x.change);
      case Move(_, _, _, _) => RenameReplyRead(x.tag, x.n, x.code, x.change, x.change2);
    }
  }

  lemma GivenTree41(c: FsCall, w: Done, x: Trimmings)
    requires !OnObject(c) && Apt(c, w) && Fits(c, PutGood(true, c, w, x), w, x)
    ensures Told(true, c, PutGood(true, c, w, x)) == Success(Gift(w.handle, NewsOf(w)))
  {
    hide PutFront41, PutStatus, PutGetFh, PutCreate, PutOpenResults, PutChangeInfo, PutRenameResults;
    hide Client41.TakeLookupReply41, Client41.TakeCreateReply41, Client41.TakeOpenReply41;
    hide Client41.TakeRemoveReply41, Client41.TakeRenameReply41;
    match c {
      case Find(_, _) => LookupReply41Read(x.tag, x.n, x.session, x.words, x.code, w.handle.value);
      case MakeDir(_, _, _) =>
        CreateReply41Read(x.tag, x.n, x.session, x.words, x.code, x.change, x.attrset, w.handle.value);
      case MakeLink(_, _, _, _) =>
        CreateReply41Read(x.tag, x.n, x.session, x.words, x.code, x.change, x.attrset, w.handle.value);
      case OpenNamed(_, _, _, _, _, _, _) =>
        OpenReply41Read(x.tag, x.n, x.session, x.words, x.code, Opening(w.said.stateid, x), w.handle.value);
      case Unlink(_, _) => RemoveReply41Read(x.tag, x.n, x.session, x.words, x.code, x.change);
      case Move(_, _, _, _) => RenameReply41Read(x.tag, x.n, x.session, x.words, x.code, x.change, x.change2);
    }
  }

  lemma Refused(v41: bool, c: FsCall, status: u32, x: Trimmings)
    requires status != 0 && |PutReplyHeader(status, x.tag, x.n, x.rest)| < TWO_32 && !(v41 && Only40(c))
    ensures Told(v41, c, PutReplyHeader(status, x.tag, x.n, x.rest)) == Failure(Status(status))
  {
    hide PutReplyHeader, TakeFront, TakeStatus, TakeGetFh, TakeCreate, TakeOpen, TakeRemove, TakeRename, Client41.TakeFront41;
    hide TakeGetAttr, TakeAccess, TakeRead, TakeWrite, TakeSetAttr, TakeOpenConfirm, TakeCommit;
    FailedReplyRead(status, x.tag, x.n, x.rest);
  }

  /** From the operation list of a call, in v4.0 or in a session, through the server's machine and its reply to
      what the caller gets: the handle and the news that were wanted, or the first error. */
  lemma EndToEnd(fs: Fs, m: Compound, c: FsCall, spare: Spare, x: Trimmings)
    requires Asks(m, c) && !(InV41(m) && Only40(c))
    requires var r := RunRequest(fs, m, spare); Fits(c, PutReplyTo(InV41(m), c, r, x), DoneBy(r), x)
    ensures Told(InV41(m), c, PutReplyTo(InV41(m), c, RunRequest(fs, m, spare), x)) == AsTold(Wanted(fs, c, spare))
  {
    hide RunRequest, OpsOf, Asks, Told, PutGood, PutReplyHeader, Wanted, Apt, OnObject, Fits;
    var r := RunRequest(fs, m, spare);
    AskedRuns(fs, m, c, spare);
    if r.status != 0 {
      RefusalFits(c, PutReplyTo(InV41(m), c, r, x), DoneBy(r), x);
      Refused(InV41(m), c, r.status, x);
    } else {
      WantedIsApt(fs, c, spare);
      if OnObject(c) { GivenObject(InV41(m), c, DoneBy(r), x); }
      else if InV41(m) { GivenTree41(c, DoneBy(r), x); }
      else { GivenTree40(c, DoneBy(r), x); }
    }
  }

  lemma RefusalFits(c: FsCall, reply: bytes, w: Done, x: Trimmings)
    requires Fits(c, reply, w, x)
    ensures |reply| < TWO_32
  {
  }

  /* ----- a run on one connection ----- */

  function RequestsOf(ms: seq<Compound>): (r: seq<Request>)
    ensures |r| == |ms|
  {
    seq(|ms|, i requires 0 <= i < |ms| => NfsRequest(PutCompound(ms[i])))
  }

  /** The calls that a list of requests makes, and the messages. */
  function CallsOf(c: Conn, qs: seq<Request>): (r: seq<Call>)
    ensures |r| == |qs|
    decreases |qs|
  {
    if qs == [] then [] else [CallOf(c, qs[0])] + CallsOf(Conn(Next(c.xid), c.auth, c.link), qs[1..])
  }

  function MessagesOf(calls: seq<Call>): (r: seq<bytes>)
    ensures |r| == |calls|
  {
    seq(|calls|, i requires 0 <= i < |calls| => PutCall(calls[i]))
  }

  lemma {:induction false} CallsAreCompounds(c: Conn, ms: seq<Compound>, i: nat)
    requires i < |ms|
    ensures IsCompound(CallsOf(c, RequestsOf(ms))[i], ms[i])
    decreases |ms|
  {
    hide PutCompound;
    assert RequestsOf(ms)[1..] == RequestsOf(ms[1..]);
    if i > 0 { CallsAreCompounds(Conn(Next(c.xid), c.auth, c.link), ms[1..], i - 1); }
  }

  /** What a server parses out of all that the run sends. */
  function Received(c: Conn, ms: seq<Compound>): seq<Compound> {
    ReceivedCompounds(ReceivedCalls(Stream(MessagesOf(CallsOf(c, RequestsOf(ms))))))
  }

  /** The call of a request: the xids go up by one, and each call has the credential of the connection. */
  lemma {:induction false} CallAt(c: Conn, qs: seq<Request>, i: nat)
    requires i < |qs|
    ensures CallsOf(c, qs)[i] == Call.Call((c.xid + i) % TWO_32, qs[i].prog, qs[i].vers, qs[i].proc, c.auth, qs[i].args)
    decreases |qs|
  {
    if i > 0 { CallAt(Conn(Next(c.xid), c.auth, c.link), qs[1..], i - 1); }
  }

  /** What a server reads of a run of requests: every call with its own xid, the credential of the connection, and the
      program, version, procedure and arguments of the request. */
  lemma CredentialsArrive(c: Conn, qs: seq<Request>, i: nat)
    requires i < |qs| && AllSmall(MessagesOf(CallsOf(c, qs)))
    ensures var got := ReceivedCalls(Stream(MessagesOf(CallsOf(c, qs))));
            && |got| == |qs|
            && got[i] == Ok(Call.Call((c.xid + i) % TWO_32, qs[i].prog, qs[i].vers, qs[i].proc, c.auth, qs[i].args), [])
  {
    hide PutCall, CallsOf, Stream, ReceivedCalls;
    var calls := CallsOf(c, qs);
    CallsArrive(calls, MessagesOf(calls), Stream(MessagesOf(calls)));
    CallAt(c, qs, i);
  }

  lemma ReceivedIsSent(c: Conn, ms: seq<Compound>)
    requires forall m <- MessagesOf(CallsOf(c, RequestsOf(ms))) :: |m| < TWO_31
    ensures Received(c, ms) == ms
  {
    hide PutCall, IsCompound, Stream, ReceivedCalls, ReceivedCompounds, CallsOf;
    var calls := CallsOf(c, RequestsOf(ms));
    var msgs := MessagesOf(calls);
    forall i | 0 <= i < |ms| ensures IsCompound(calls[i], ms[i]) { CallsAreCompounds(c, ms, i); }
    RequestsArrive(calls, msgs, 0, ms, Stream(msgs), 1);
    var got := ReceivedCalls(Stream(msgs));
    assert got[0..] == got && ms[..|ms|] == ms;
  }

  /** The server runs the requests it has parsed, one after the other, and answers each run in one record, cut
      into any fragments. */
  ghost predicate Answered(fs: Fs, got: seq<Compound>, cs: seq<FsCall>, spares: seq<Spare>, xs: seq<Trimmings>,
                           replies: seq<seq<bytes>>) {
    && |got| == |cs| == |spares| == |xs| == |replies|
    && (forall i :: 0 <= i < |replies| ==> Cut(replies[i]))
    && forall i :: 0 <= i < |replies| ==> AnswersRun(got[i], cs[i], ServeRequests(fs, got, spares)[i], xs[i], replies[i])
  }

  predicate AnswersRun(m: Compound, c: FsCall, r: Ran, x: Trimmings, reply: seq<bytes>) {
    var body := PutReplyTo(InV41(m), c, r, x);
    && |x.verifier| < TWO_32 && !(InV41(m) && Only40(c)) && Fits(c, body, DoneBy(r), x)
    && Joined(reply) == PutReply(x.xid, x.flavor, x.verifier, body)
  }

  function ReadBy(m: Compound, c: FsCall, reply: Result<bytes>): Result<Gift> {
    match reply
    case Success(b) => Told(InV41(m), c, b)
    case Failure(e) => Failure(e)
  }

  lemma {:induction false} BodiesAt(replies: seq<seq<bytes>>, i: nat)
    requires i < |replies|
    ensures |Bodies(replies)| == |replies| && Bodies(replies)[i] == TakeReply(Joined(replies[i])).ToResult()
  {
    hide TakeReply, Joined;
    if i > 0 { BodiesAt(replies[1..], i - 1); } else if |replies| > 1 { BodiesAt(replies[1..], 0); }
  }

  /** The replies that answer the calls also answer what the server ran. */
  lemma {:induction false} RunsInTurn(fs: Fs, ms: seq<Compound>, cs: seq<FsCall>, spares: seq<Spare>, i: nat)
    requires |ms| == |cs| == |spares| && i < |ms| && forall j :: 0 <= j < |ms| ==> Asks(ms[j], cs[j])
    ensures |Trees(fs, cs, spares)| == |cs| + 1
    ensures ServeRequests(fs, ms, spares)[i] == RunRequest(Trees(fs, cs, spares)[i], ms[i], spares[i])
    decreases |ms|
  {
    hide RunRequest, Asks, TreeAfter;
    if i > 0 {
      assert Asks(ms[0], cs[0]);
      AskedRuns(fs, ms[0], cs[0], spares[0]);
      RunsInTurn(TreeAfter(fs, cs[0], spares[0]), ms[1..], cs[1..], spares[1..], i - 1);
    }
  }

  lemma OneReturns(fs: Fs, m: Compound, c: FsCall, spare: Spare, x: Trimmings, reply: seq<bytes>)
    requires Asks(m, c) && AnswersRun(m, c, RunRequest(fs, m, spare), x, reply)
    ensures ReadBy(m, c, TakeReply(Joined(reply)).ToResult()) == AsTold(Wanted(fs, c, spare))
  {
    hide Asks, RunRequest, PutReplyTo, Told, AsTold, Wanted, PutReply, TakeReply, Joined, Fits;
    EndToEnd(fs, m, c, spare, x);
  }

  /* ----- the methods of the clients ----- */

  /** What a method of a client promises of a call: the exchange of one request and the reading of its reply. */
  function Asked(c: Conn, m: Compound, call: FsCall): (Conn, Result<Gift>) {
    var (c', reply) := Exchange(c, NfsRequest(PutCompound(m)));
    (c', ReadBy(m, call, reply))
  }

  function Mapped<T>(r: Result<T>, f: T -> Gift): Result<Gift> {
    match r case Success(v) => Success(f(v)) case Failure(e) => Failure(e)
  }

  /** A method that sends the request of a call and reads the reply in the way of that call. */
  lemma AskIs<T>(c: Conn, m: Compound, call: FsCall, take: bytes -> Parsed<T>, f: T -> Gift)
    requires forall b: bytes :: Told(InV41(m), call, b) == Given(take(b), f)
    ensures var (c', r) := Ask(c, m, take); Asked(c, m, call) == (c', Mapped(r, f))
  {
    hide Exchange, PutCompound, Told, InV41;
  }

  /** A method that asks with this request and reads its reply so. */
  predicate Is<T(!new)>(c: Conn, m: Compound, call: FsCall, take: bytes -> Parsed<T>, f: T -> Gift) {
    var (c', r) := Ask(c, m, take); Asked(c, m, call) == (c', Mapped(r, f))
  }

  /** The contracts of the v4.0 methods are of this form. */
  lemma MethodsAsk(c: Conn, m: Compound, call: FsCall)
    requires !InV41(m)
    ensures call.Find? ==> Is(c, m, call, TakeLookupReply, Handle)
    ensures call.MakeDir? || call.MakeLink? ==> Is(c, m, call, TakeCreateReply, Handle)
    ensures call.Unlink? ==> Is(c, m, call, TakeRemoveReply, Nothing)
    ensures call.Move? ==> Is(c, m, call, TakeRenameReply, Nothing)
    ensures call.Inspect? ==> Is(c, m, call, TakeGetAttrReply, WithAttrs)
    ensures call.MayDo? ==> Is(c, m, call, TakeAccessReply, WithRights)
    ensures call.ConfirmFile? ==> Is(c, m, call, TakeConfirmReply, ConfirmedAs)
    ensures call.CloseFile? ==> Is(c, m, call, TakeCloseReply, Nothing)
    ensures call.ReadFile? ==> Is(c, m, call, TakeReadReply, WithData)
    ensures call.WriteFile? ==> Is(c, m, call, TakeWriteReply, WithCount)
    ensures call.FlushFile? ==> Is(c, m, call, TakeCommitReply, WithVerf)
    ensures call.ReadTarget? ==> Is(c, m, call, TakeReadLinkReply, WithTarget)
    ensures call.Change? ==> Is(c, m, call, TakeSetAttrReply, Nothing)
    ensures call.KeepAlive? ==> Is(c, m, call, TakeFront, Nothing)
  {
    hide Exchange, PutCompound, TakeLookupReply, TakeCreateReply, TakeRemoveReply, TakeRenameReply, TakeGetAttrReply;
    hide TakeAccessReply, TakeConfirmReply, TakeCloseReply, TakeReadReply, TakeWriteReply, TakeCommitReply, TakeReadLinkReply;
    hide TakeSetAttrReply, TakeFront;
  }

  /** And so are those of the v4.1 methods. */
  lemma MethodsAsk41(c: Conn, m: Compound, call: FsCall)
    requires InV41(m)
    ensures call.Find? ==> Is(c, m, call, Client41.TakeLookupReply41, Handle)
    ensures call.MakeDir? || call.MakeLink? ==> Is(c, m, call, Client41.TakeCreateReply41, Handle)
    ensures call.Unlink? ==> Is(c, m, call, Client41.TakeRemoveReply41, Nothing)
    ensures call.Move? ==> Is(c, m, call, Client41.TakeRenameReply41, Nothing)
    ensures call.Inspect? ==> Is(c, m, call, Client41.TakeGetAttrReply41, WithAttrs)
    ensures call.MayDo? ==> Is(c, m, call, Client41.TakeAccessReply41, WithRights)
    ensures call.CloseFile? ==> Is(c, m, call, Client41.TakeCloseReply41, Nothing)
    ensures call.ReadFile? ==> Is(c, m, call, Client41.TakeReadReply41, WithData)
    ensures call.WriteFile? ==> Is(c, m, call, Client41.TakeWriteReply41, WithCount)
    ensures call.FlushFile? ==> Is(c, m, call, Client41.TakeCommitReply41, WithVerf)
    ensures call.ReadTarget? ==> Is(c, m, call, Client41.TakeReadLinkReply41, WithTarget)
    ensures call.Change? ==> Is(c, m, call, Client41.TakeSetAttrReply41, Nothing)
  {
    hide Exchange, PutCompound, Client41.TakeLookupReply41, Client41.TakeCreateReply41, Client41.TakeGetAttrReply41;
    hide Client41.TakeRemoveReply41, Client41.TakeRenameReply41, Client41.TakeAccessReply41, Client41.TakeCloseReply41;
    hide Client41.TakeReadReply41, Client41.TakeWriteReply41, Client41.TakeCommitReply41, Client41.TakeReadLinkReply41;
    hide Client41.TakeSetAttrReply41;
  }

  /** Methods called one after the other on one connection return the results of the run. */
  function AskedInTurn(c: Conn, ms: seq<Compound>, cs: seq<FsCall>): (r: seq<Result<Gift>>)
    requires |ms| == |cs|
    ensures |r| == |cs|
    decreases |ms|
  {
    hide Asked;
    if ms == [] then []
    else
      var (c', r) := Asked(c, ms[0], cs[0]);
      [r] + AskedInTurn(c', ms[1..], cs[1..])
  }

  lemma {:induction false} AskedAreResults(c: Conn, ms: seq<Compound>, cs: seq<FsCall>, i: nat)
    requires |ms| == |cs| && i < |ms|
    ensures |Results(c, RequestsOf(ms))| == |ms|
    ensures AskedInTurn(c, ms, cs)[i] == ReadBy(ms[i], cs[i], Results(c, RequestsOf(ms))[i])
    decreases |ms|
  {
    hide Exchange, ReadBy, PutCompound;
    var qs := RequestsOf(ms);
    assert qs[1..] == RequestsOf(ms[1..]);
    var c' := Exchange(c, qs[0]).0;
    if i > 0 { AskedAreResults(c', ms[1..], cs[1..], i - 1); }
    else if |ms| > 1 { AskedAreResults(c', ms[1..], cs[1..], 0); }
    else { assert Results(c', RequestsOf(ms[1..])) == []; }
  }

  lemma {:induction false} BodiesLength(replies: seq<seq<bytes>>)
    ensures |Bodies(replies)| == |replies|
  {
    hide TakeReply, Joined;
    if replies != [] { BodiesLength(replies[1..]); }
  }

  ghost predicate AllSmall(msgs: seq<bytes>) { forall m <- msgs :: |m| < TWO_31 }

  /** Each call returns what was wanted of it on the tree that the calls before it left, and that is a tree. */
  ghost predicate AsWanted(fs: Fs, cs: seq<FsCall>, spares: seq<Spare>, rs: seq<Result<Gift>>)
    requires |spares| == |cs| == |rs|
  {
    var trees := Trees(fs, cs, spares);
    forall i :: 0 <= i < |cs| ==> Sound(trees[i]) && rs[i] == AsTold(Wanted(trees[i], cs[i], spares[i]))
  }

  /** Over any run of calls on one connection: if the server parses what was sent, runs it and answers, each call
      returns what was wanted of it on the tree that the calls before it left, and that is a tree. */
  lemma RunReturns(c: Conn, fs: Fs, ms: seq<Compound>, cs: seq<FsCall>, spares: seq<Spare>, xs: seq<Trimmings>,
                   replies: seq<seq<bytes>>, k: bytes)
    requires |ms| == |cs| == |spares| && forall i :: 0 <= i < |cs| ==> Asks(ms[i], cs[i])
    requires Sound(fs) && NewHandles(fs, spares)
    requires AllSmall(MessagesOf(CallsOf(c, RequestsOf(ms))))
    requires Answered(fs, Received(c, ms), cs, spares, xs, replies)
    requires Brings(c.link, Load(c, RequestsOf(ms)), replies, k)
    ensures AsWanted(fs, cs, spares, AskedInTurn(c, ms, cs))
  {
    hide Sound, Asks, NewHandles, Received, AnswersRun, Results, Load, PutReplies, Bodies, Wanted, Trees, ServeRequests;
    hide CallsOf, RequestsOf, MessagesOf, Joined, AsTold, RunRequest, ReadBy, AskedInTurn, Told;
    ReceivedIsSent(c, ms);
    RecordsInOrder(c, RequestsOf(ms), replies, k);
    WholeRun(fs, cs, ms, spares);
    BodiesLength(replies);
    forall i | 0 <= i < |cs|
      ensures AskedInTurn(c, ms, cs)[i] == AsTold(Wanted(Trees(fs, cs, spares)[i], cs[i], spares[i]))
    {
      BodiesAt(replies, i);
      AskedAreResults(c, ms, cs, i);
      RunsInTurn(fs, ms, cs, spares, i);
      assert AnswersRun(ms[i], cs[i], ServeRequests(fs, ms, spares)[i], xs[i], replies[i]);
      OneReturns(Trees(fs, cs, spares)[i], ms[i], cs[i], spares[i], xs[i], replies[i]);
    }
  }

  /* ----- OPEN ----- */

  function FileGift(f: Client40.Nfs4File): Gift { Gift(Some(f.fh), NewState(f.stateid)) }

  function FileGiven(r: Result<Client40.Nfs4File>): Result<Gift> { Mapped(r, FileGift) }

  /** The server is not in its grace period. */
  predicate NoGrace(reply: Result<bytes>) {
    reply.Success? ==> TakeReplyHeader(reply.value) != Err(Status(NFS4ERR_GRACE))
  }

  /** The server does not ask for OPEN_CONFIRM. */
  predicate NoConfirm(p: Parsed<(Open4Result, bytes)>) {
    p.Ok? ==> Bitmap.BitAnd(p.value.0.rflags, OPEN4_RESULT_CONFIRM) == 0
  }

  function OpenCall(clientid: u64, dir: bytes, name: bytes, access: u32, create: bool, seqid: u32): FsCall {
    OpenNamed(dir, seqid, access, clientid, Client40.OPEN_OWNER, create, name)
  }

  lemma OpenIsCall(clientid: u64, dir: bytes, name: bytes, access: u32, create: bool, seqid: u32)
    ensures var m := Client40.OpenRequest(clientid, dir, name, access, create, seqid);
            Asks(m, OpenCall(clientid, dir, name, access, create, seqid)) && !InV41(m)
  {
  }

  /** Out of the grace period and without OPEN_CONFIRM, opening a file is one request like the others. */
  lemma OpenAsks(c: Conn, last: u32, clientid: u64, dir: bytes, name: bytes, access: u32, create: bool)
    requires var reply := Exchange(c, NfsRequest(PutCompound(Client40.OpenRequest(clientid, dir, name, access,
             create, Next(last))))).1;
             NoGrace(reply) && (reply.Success? ==> NoConfirm(TakeOpenReply(reply.value)))
    ensures var o := Client40.OpenSpec(c, last, clientid, dir, name, access, create);
            (o.conn, FileGiven(o.file)) ==
            Asked(c, Client40.OpenRequest(clientid, dir, name, access, create, Next(last)),
                  OpenCall(clientid, dir, name, access, create, Next(last)))
  {
    hide Exchange, PutCompound, TakeReplyHeader, TakeOpenReply, Bitmap.BitAnd, Client40.ConfirmSpec, Client40.OpenRequest;
    hide Retry, InV41, Next, Client40.Repeat;
    var m := Client40.OpenRequest(clientid, dir, name, access, create, Next(last));
    OpenIsCall(clientid, dir, name, access, create, Next(last));
    FirstAttempt(c, Client40.SameRequest(m));
    var reply := Exchange(c, NfsRequest(PutCompound(m))).1;
    if reply.Success? { BadHeader(reply.value); }
  }

  lemma BadHeader(b: bytes)
    ensures TakeReplyHeader(b).Err? ==> TakeOpenReply(b) == Err(TakeReplyHeader(b).error)
    ensures TakeReplyHeader(b).Err? ==> Client41.TakeOpenReply41(b) == Err(TakeReplyHeader(b).error)
  {
    hide TakeReplyHeader;
  }

  lemma OpenAsks41(c: Conn, session: sessionid4, first: nat, clientid: u64, dir: bytes, name: bytes, access: u32,
                   create: bool, seqid: u32)
    requires var w := Client41.OpenWork(clientid, dir, name, access, create, seqid);
             var reply := Exchange(c, Client41.SessionRequest(session, first, w)).1;
             NoGrace(reply) && (reply.Success? ==> NoConfirm(Client41.TakeOpenReply41(reply.value)))
    ensures var w := Client41.OpenWork(clientid, dir, name, access, create, seqid);
            var m := Client41.InSession(session, first, w);
            var call := OpenNamed(dir, seqid, access, clientid, Client41.OPEN_OWNER, create, name);
            var a := Retry(c, Client41.SessionRequests(session, first, w), 0);
            Asks(m, call) && InV41(m) && Asked(c, m, call) == (a.conn, FileGiven(Client41.OpenedFile(a.reply, seqid)))
  {
    hide Exchange, PutCompound, TakeReplyHeader, SessionResults.TakeSequence, TakeStatus, TakeOpen, TakeGetFh;
    hide Bitmap.BitAnd, FhOp;
    var w := Client41.OpenWork(clientid, dir, name, access, create, seqid);
    FirstAttempt(c, Client41.SessionRequests(session, first, w));
    assert Client41.InSession(session, first, w).ops[1..] == w.ops;
  }

  function GoodHeader(reply: Result<bytes>): Result<bytes> {
    match reply
    case Failure(e) => Failure(e)
    case Success(b) => if TakeReplyHeader(b).Ok? then reply else Failure(TakeReplyHeader(b).error)
  }

  lemma FirstAttempt(c: Conn, request: nat -> Request)
    requires NoGrace(Exchange(c, request(0)).1)
    ensures var (c', reply) := Exchange(c, request(0)); Retry(c, request, 0) == Attempts(c', GoodHeader(reply), 1)
  {
    hide Exchange, TakeReplyHeader;
  }

  /* ----- listings ----- */

  /** The attributes that a server reports of an object: all, but for the type of some. */
  function Reported(fs: Fs, untyped: set<bytes>, h: bytes): Attrs {
    if h !in fs.nodes then map[] else if h in untyped then AttrsOf(fs.nodes[h]) - {1} else AttrsOf(fs.nodes[h])
  }

  /** A directory whose type is reported. */
  predicate HasType(fs: Fs, untyped: set<bytes>, h: bytes) { IsDir(fs, h) && h !in untyped }

  /** The ids of the attributes that a listing shows. */
  function ListedIds(): set<nat> { {1, 4, 20, 33, 53} }

  /** A listing of a directory: each entry once, in any order, with those of its attributes that a listing shows; "."
      and ".." may be there too. */
  ghost predicate Lists(fs: Fs, untyped: set<bytes>, d: bytes, es: seq<DirEntry4>) {
    && (forall i, j :: 0 <= i < j < |es| ==> es[i].name != es[j].name)
    && (forall i :: 0 <= i < |es| && !IsDots(es[i].name) ==>
          && es[i].name in Names(fs, d)
          && es[i].attrs == Exposed(Chosen(Reported(fs, untyped, fs.nodes[d].entries[es[i].name]), ListedIds())))
    && (forall n <- Names(fs, d) :: IsDots(n) || exists i :: 0 <= i < |es| && es[i].name == n)
  }

  /** What a server that holds the tree knows of the entries of a directory, each once, with all that it reports. */
  ghost predicate Describes(fs: Fs, untyped: set<bytes>, d: bytes, es: seq<ServerEntry>) {
    && (forall i, j :: 0 <= i < j < |es| ==> es[i].name != es[j].name)
    && (forall i :: 0 <= i < |es| && !IsDots(es[i].name) ==>
          es[i].name in Names(fs, d) && es[i].attrs == Reported(fs, untyped, fs.nodes[d].entries[es[i].name]))
    && (forall n <- Names(fs, d) :: IsDots(n) || exists i :: 0 <= i < |es| && es[i].name == n)
  }

  /** The entries with the attributes that were asked for. */
  function Shown(es: seq<ServerEntry>, request: seq<u32>): (r: seq<DirEntry4>)
    ensures |r| == |es|
  {
    seq(|es|, i requires 0 <= i < |es| => DirEntry4(es[i].cookie, es[i].name, Exposed(Requested(es[i].attrs, request))))
  }

  function ShownByDefault(es: seq<ServerEntry>): seq<DirEntry4> { Shown(es, Bitmap.BitmapOf(READDIR_IDS)) }

  /** The client asks for the attributes that a listing shows, and no others. */
  lemma RequestedAreListed(m: Attrs)
    ensures Requested(m, Bitmap.BitmapOf(READDIR_IDS)) == Chosen(m, ListedIds())
  {
    hide Bitmap.BitmapOf, Bitmap.Test;
    var bm := Bitmap.BitmapOf(READDIR_IDS);
    forall id: nat ensures (id < TWO_32 && Bitmap.Test(bm, id)) <==> id in ListedIds() {
      if id < TWO_32 { assert Bitmap.Test(bm, id) <==> id in READDIR_IDS; }
    }
  }

  lemma ShownLists(fs: Fs, untyped: set<bytes>, d: bytes, es: seq<ServerEntry>)
    requires Describes(fs, untyped, d, es)
    ensures Lists(fs, untyped, d, ShownByDefault(es))
  {
    hide Bitmap.BitmapOf, Requested, Chosen, Exposed, Reported, IsDots, Names;
    var seen := ShownByDefault(es);
    forall i | 0 <= i < |es| ensures seen[i].attrs == Exposed(Chosen(es[i].attrs, ListedIds())) {
      RequestedAreListed(es[i].attrs);
    }
    forall n | n in Names(fs, d) && !IsDots(n) ensures exists i :: 0 <= i < |seen| && seen[i].name == n {
      var i :| 0 <= i < |es| && es[i].name == n;
      assert seen[i].name == n;
    }
  }

  /** In such a listing an entry has the type 2 if and only if it is a directory whose type is reported. */
  lemma TypeListed(fs: Fs, untyped: set<bytes>, h: bytes)
    ensures Exposed(Chosen(Reported(fs, untyped, h), ListedIds())).kind == Some(2) <==> HasType(fs, untyped, h)
  {
    var m := Chosen(Reported(fs, untyped, h), ListedIds());
    assert 1 in m <==> h in fs.nodes && h !in untyped;
  }

  /** What the v4.0 client returns for a directory, against a server that describes it in pages cut anywhere, is a
      listing of the kind that the recursive removal works on. */
  lemma ReadDirLists(c: Conn, dir: bytes, fs: Fs, untyped: set<bytes>, d: bytes, es: seq<ServerEntry>, verf: verifier4,
                     pages: seq<Page<DirEntry4>>, replies: seq<seq<bytes>>, k: bytes)
    requires Describes(fs, untyped, d, es) && DistinctCookies(ShownByDefault(es), Client40.CookieOf)
    requires AllHonest(ShownByDefault(es), verf, Client40.CookieOf, START, pages) && Finished(pages)
    requires Answers(c.link, Load(c, Requests(Client40.ReadDirRequests(dir), Client40.CookieOf, 0, START, pages)),
                     TakeReadDirReply, pages, replies, k)
    ensures Outcome(Client40.FetchDir(c, dir, 0, START)) == Success(ShownByDefault(es))
    ensures Lists(fs, untyped, d, ShownByDefault(es))
  {
    hide Describes, Lists, DistinctCookies, AllHonest, Answers, Fetch, Finished, Load, Requests, TakeReadDirReply;
    hide ShownByDefault;
    ShownLists(fs, untyped, d, es);
    ListingComplete(c, Client40.ReadDirRequests(dir), TakeReadDirReply, Client40.CookieOf, ShownByDefault(es), verf, pages,
                    replies, k);
  }

  /** And the v4.1 client. */
  lemma ReadDirLists41(c: Conn, session: sessionid4, first: nat, dir: bytes, fs: Fs, untyped: set<bytes>, d: bytes,
                       es: seq<ServerEntry>, verf: verifier4, pages: seq<Page<DirEntry4>>, replies: seq<seq<bytes>>, k: bytes)
    requires Describes(fs, untyped, d, es) && DistinctCookies(ShownByDefault(es), Client40.CookieOf)
    requires AllHonest(ShownByDefault(es), verf, Client40.CookieOf, START, pages) && Finished(pages)
    requires Answers(c.link, Load(c, Requests(Client41.ReadDirRequests(session, first, dir), Client40.CookieOf, 0, START, pages)),
                     Client41.TakeReadDirReply41, pages, replies, k)
    ensures Outcome(Client41.FetchDir41(c, session, first, dir, 0, START)) == Success(ShownByDefault(es))
    ensures Lists(fs, untyped, d, ShownByDefault(es))
  {
    hide Describes, Lists, DistinctCookies, AllHonest, Answers, Fetch, Finished, Load, Requests, Client41.TakeReadDirReply41;
    hide ShownByDefault;
    ShownLists(fs, untyped, d, es);
    ListingComplete(c, Client41.ReadDirRequests(session, first, dir), Client41.TakeReadDirReply41, Client40.CookieOf,
                    ShownByDefault(es), verf, pages, replies, k);
  }

  /** The machine answers READDIR with these errors, and without touching anything. */
  lemma ReadDirRuns(fs: Fs, dir: bytes, cookie: u64, verf: verifier4, spare: Spare)
    ensures var r := Run(Start(fs), ReadDirOps(dir, cookie, verf), spare);
            var d := Resolve(fs, dir);
            && r.m.fs == fs
            && r.status == (if d.Bad? then d.code else if IsDir(fs, d.value) then 0 else NFS4ERR_NOTDIR)
  {
    hide FhOp, Run, Resolve, Bitmap.BitmapOf;
    RunTwo(Start(fs), dir, ReadDir(cookie, verf, 4096, 32768, Bitmap.BitmapOf(READDIR_IDS)), spare);
  }
}
