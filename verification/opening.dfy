/** Opening a file, from the replies of the server to the file that the caller gets: retries in the grace period,
    OPEN_CONFIRM and its new state id, and what the state id of the file is good for afterwards. */
module Opening {
  import opened Wire
  import opened Transport
  import opened Bitmap
  import opened Ops
  import opened OpResults
  import opened Compounds
  import opened Replies
  import opened Client40
  import Client41
  import opened FileTrees
  import opened Objects
  import opened Namespace
  import opened WholeStack

  /* ----- retries ----- */

  /** The record is a reply that refuses an OPEN because the server is in its grace period. */
  ghost predicate InGrace(reply: seq<bytes>, x: Cover, rest: bytes) {
    Wraps(reply, x, PutReplyHeader(10013, x.tag, x.n, rest))
  }

  function Tries(request: nat -> Request, n: nat, count: nat): (r: seq<Request>)
    ensures |r| == count
  {
    seq(count, i requires 0 <= i < count => request(n + i))
  }

  /** What some replies that refuse come to: as many retries, and the reply behind them decides. */
  lemma {:induction false} RetryReads(c: Conn, request: nat -> Request, n: nat, more: seq<Request>,
                                      refusals: seq<seq<bytes>>, xs: seq<Cover>, rests: seq<bytes>,
                                      reply: seq<bytes>, x: Cover, body: bytes, others: seq<seq<bytes>>, k: bytes)
    requires |xs| == |refusals| == |rests| && forall i :: 0 <= i < |xs| ==> InGrace(refusals[i], xs[i], rests[i])
    requires Wraps(reply, x, body) && TakeReplyHeader(body) != Err(Status(10013))
    requires Brings(c.link, Load(c, Tries(request, n, |refusals| + 1) + more), refusals + ([reply] + others), k)
    ensures var a := Retry(c, request, n);
            && a.count == |refusals| + 1 && a.reply == GoodHeader(Success(body))
            && Brings(a.conn.link, Load(a.conn, more), others, k)
    decreases |refusals|
  {
    hide Exchange, Wraps, Brings, Load, TakeReply, Joined, PutReplyHeader, TakeReplyHeader;
    var replies := refusals + ([reply] + others);
    var qs := Tries(request, n, |refusals| + 1) + more;
    assert qs[0] == request(n) && qs[1..] == Tries(request, n + 1, |refusals|) + more;
    FirstReply(c, qs, replies, k);
    var c' := Exchange(c, request(n)).0;
    if refusals == [] {
      assert replies[0] == reply && replies[1..] == others && qs[1..] == more;
      Unwrapped(reply, x, body);
    } else {
      assert InGrace(refusals[0], xs[0], rests[0]);
      assert replies[0] == refusals[0] && replies[1..] == refusals[1..] + ([reply] + others);
      GraceRead(refusals[0], xs[0], rests[0]);
      RetryReads(c', request, n + 1, more, refusals[1..], xs[1..], rests[1..], reply, x, body, others, k);
    }
  }

  lemma GraceRead(reply: seq<bytes>, x: Cover, rest: bytes)
    requires InGrace(reply, x, rest)
    ensures var r := TakeReply(Joined(reply)).ToResult();
            r.Success? && TakeReplyHeader(r.value) == Err(Status(10013))
  {
    hide TakeReply, PutReply, Joined, PutReplyHeader, TakeReplyHeader;
    ReplyHeaderRoundTrip(10013, x.tag, x.n, rest);
    Unwrapped(reply, x, PutReplyHeader(10013, x.tag, x.n, rest));
  }

  /* ----- the file that the caller gets ----- */

  /** Bit 1 of the flags asks for OPEN_CONFIRM. */
  lemma ConfirmFlag(rflags: u32)
    ensures BitAnd(rflags, OPEN4_RESULT_CONFIRM) != 0 <==> rflags / 2 % 2 == 1
  {
    assert Pow2(1) == 2 by { assert Pow2(0) == 1; }
    AndPow2(rflags, 1);
    assert Bit(rflags, 1) <==> Bit(rflags / 2, 0);
  }

  /** What a server answers to an OPEN that succeeds: some refusals, what it says of the file, and the new state id. */
  datatype Talk = Talk(refusals: seq<seq<bytes>>, xs: seq<Cover>, rests: seq<bytes>,
                       first: seq<bytes>, x: Cover, o: OpenOk, fh: bytes,
                       second: seq<bytes>, y: Cover, stateid: Stateid4)

  function FirstBody(t: Talk): bytes { PutFront(t.x.tag, t.x.n, t.x.code, PutOpenResults(t.o, t.fh)) }
  function SecondBody(t: Talk): bytes { PutFront(t.y.tag, t.y.n, t.y.code, PutStateResult(20, t.stateid, [])) }

  predicate ToConfirm(t: Talk) { t.o.rflags / 2 % 2 == 1 }

  ghost predicate Put(t: Talk) {
    && |t.xs| == |t.refusals| == |t.rests| && (forall i :: 0 <= i < |t.xs| ==> InGrace(t.refusals[i], t.xs[i], t.rests[i]))
    && Wraps(t.first, t.x, FirstBody(t)) && !t.o.delegation.NoDelegationExt?
    && (ToConfirm(t) ==> Wraps(t.second, t.y, SecondBody(t)))
  }

  function Records(t: Talk): seq<seq<bytes>> { t.refusals + ([t.first] + if ToConfirm(t) then [t.second] else []) }

  lemma FirstRead(t: Talk)
    requires |FirstBody(t)| < TWO_32 && !t.o.delegation.NoDelegationExt?
    ensures var body := FirstBody(t);
            && TakeOpenReply(body) == Ok((Open4Result(t.o.stateid, t.o.rflags), t.fh), [])
            && TakeReplyHeader(body).Ok? && GoodHeader(Success(body)) == Success(body)
  {
    hide PutOpenResults, PutReplyHeader, TakeReplyHeader, PutStatus, TakeOpenReply;
    OpenReplyRead(t.x.tag, t.x.n, t.x.code, t.o, t.fh);
    ReplyHeaderRoundTrip(0, t.x.tag, t.x.n, PutStatus(t.x.code, 0, PutOpenResults(t.o, t.fh)));
  }

  lemma SecondRead(t: Talk)
    requires |SecondBody(t)| < TWO_32
    ensures TakeConfirmReply(SecondBody(t)) == Ok(t.stateid, [])
  {
    hide PutFront, TakeFront, PutStateResult, TakeOpenConfirm;
    FrontRoundTrip(t.y.tag, t.y.n, t.y.code, PutStateResult(20, t.stateid, []));
  }

  /** The requests that opening a file makes of the connection. */
  function OpenRequests(clientid: u64, dir: bytes, name: bytes, access: u32, create: bool, last: u32, count: nat): seq<Request> {
    Tries(SameRequest(OpenRequest(clientid, dir, name, access, create, Next(last))), 0, count)
  }

  function ConfirmRequest(fh: bytes, stateid: Stateid4, seqid: u32): Request {
    NfsRequest(PutCompound(Request40(ConfirmOps(fh, stateid, seqid))))
  }

  /** The file has the handle of OPEN.  If the server asked for OPEN_CONFIRM, it has the state id that this returned and
      the second id; if not, it has those of OPEN. */
  lemma OpenReads(c: Conn, last: u32, clientid: u64, dir: bytes, name: bytes, access: u32, create: bool, t: Talk, k: bytes)
    requires Put(t)
    requires var more := if ToConfirm(t) then [ConfirmRequest(t.fh, t.o.stateid, Next(Next(last)))] else [];
             Brings(c.link, Load(c, OpenRequests(clientid, dir, name, access, create, last, |t.refusals| + 1) + more),
                    Records(t), k)
    ensures OpenSpec(c, last, clientid, dir, name, access, create).file ==
            Success(if ToConfirm(t) then Nfs4File(t.fh, t.stateid, Next(Next(last))) else Nfs4File(t.fh, t.o.stateid, Next(last)))
  {
    hide FirstBody, SecondBody, TakeOpenReply, TakeReplyHeader, OpenRequest, Retry, BitAnd, Wraps, InGrace, Load, Brings;
    hide Next, SameRequest, PutCompound, ConfirmOps, Exchange, TakeReply, Joined, TakeConfirmReply;
    var m := OpenRequest(clientid, dir, name, access, create, Next(last));
    WrapsSmall(t.first, t.x, FirstBody(t));
    FirstRead(t);
    ConfirmFlag(t.o.rflags);
    var qs := if ToConfirm(t) then [ConfirmRequest(t.fh, t.o.stateid, Next(Next(last)))] else [];
    var others := if ToConfirm(t) then [t.second] else [];
    RetryReads(c, SameRequest(m), 0, qs, t.refusals, t.xs, t.rests, t.first, t.x, FirstBody(t), others, k);
    if ToConfirm(t) {
      var a := Retry(c, SameRequest(m), 0);
      FirstReply(a.conn, qs, others, k);
      WrapsSmall(t.second, t.y, SecondBody(t));
      Unwrapped(t.second, t.y, SecondBody(t));
      SecondRead(t);
    }
  }

  /** In a session there is no OPEN_CONFIRM: a server that asks for it is told off, and any other gets its file. */
  lemma OpenReads41(tag: bytes, n: u32, session: sessionid4, words: fivewords, code: u32, o: OpenOk, fh: bytes, seqid: u32)
    requires |PutFront41(tag, n, session, words, code, PutOpenResults(o, fh))| < TWO_32 && !o.delegation.NoDelegationExt?
    ensures Client41.OpenedFile(Success(PutFront41(tag, n, session, words, code, PutOpenResults(o, fh))), seqid) ==
            if o.rflags / 2 % 2 == 1 then Failure(ProtocolError) else Success(Nfs4File(fh, o.stateid, seqid))
  {
    hide PutFront41, PutOpenResults, Client41.TakeOpenReply41, BitAnd;
    OpenReply41Read(tag, n, session, words, code, o, fh);
    ConfirmFlag(o.rflags);
  }

  /* ----- what the file is good for ----- */

  /** The state id stands for this file, with the access that was asked for, and is confirmed. */
  predicate InUse(fs: Fs, f: Nfs4File, access: u32, clientid: u64, owner: bytes) {
    f.stateid in fs.opens && fs.opens[f.stateid] == OpenFile(f.fh, access, clientid, owner, true)
  }

  /** The server runs OPEN and, if it asked for it, OPEN_CONFIRM, as they come, and answers each in one record. */
  ghost predicate ServesOpen(fs: Fs, log: seq<Compound>, call: FsCall, confirm: FsCall, spares: seq<Spare>,
                             xs: seq<Trimmings>, replies: seq<seq<bytes>>) {
    && 1 <= |log| == |spares| == |xs| == |replies| <= 2
    && var r := RunRequest(fs, log[0], spares[0]);
       && AnswersRun(log[0], call, r, xs[0], replies[0])
       && r.status != 10013
       && (|log| == 2 ==> AnswersRun(log[1], confirm, RunRequest(r.m.fs, log[1], spares[1]), xs[1], replies[1]))
  }

  ghost function ServerAfter(fs: Fs, log: seq<Compound>, spares: seq<Spare>): Fs
    requires |log| == |spares|
    decreases |log|
  {
    if log == [] then fs else ServerAfter(RunRequest(fs, log[0], spares[0]).m.fs, log[1..], spares[1..])
  }

  /** After an OPEN that succeeds the state id stands for the file. */
  lemma OpenIsInUse(fs: Fs, call: FsCall, spare: Spare)
    requires call.OpenNamed? && Wanted(fs, call, spare).Good?
    ensures var w := Wanted(fs, call, spare).value;
            && w.handle.Some? && w.said == Said.Opened(spare.stateid, spare.confirm)
            && spare.stateid in w.fs.opens
            && w.fs.opens[spare.stateid]
               == OpenFile(w.handle.value, call.access, call.clientid, call.owner, !spare.confirm)
  {
    hide AddAt, Changed;
  }

  /** The reply to an OPEN that has run: what the client reads of it. */
  lemma OpenTold(fs: Fs, m: Compound, call: FsCall, spare: Spare, x: Trimmings, body: bytes)
    requires call.OpenNamed? && Asks(m, call) && !InV41(m)
    requires var r := RunRequest(fs, m, spare); body == PutReplyTo(false, call, r, x) && Fits(call, body, DoneBy(r), x)
    ensures var r := RunRequest(fs, m, spare);
            var w := Wanted(fs, call, spare);
            && r.m.fs == TreeAfter(fs, call, spare)
            && (w.Bad? ==> r.status != 0 && TakeReplyHeader(body) == Err(Status(r.status)))
            && (w.Good? ==>
                  && w.value.handle.Some?
                  && TakeReplyHeader(body).Ok?
                  && TakeOpenReply(body) == Ok((Open4Result(spare.stateid, x.rflags), w.value.handle.value), [])
                  && (x.rflags / 2 % 2 == 1 <==> spare.confirm))
  {
    hide RunRequest, OpsOf, Asks, Wanted, PutReplyHeader, TakeReplyHeader, PutOpenResults, TakeOpenReply, PutStatus;
    AskedRuns(fs, m, call, spare);
    var r := RunRequest(fs, m, spare);
    if r.status != 0 {
      RefusalFits(call, body, DoneBy(r), x);
      ReplyHeaderRoundTrip(r.status, x.tag, x.n, x.rest);
    } else {
      OpenIsInUse(fs, call, spare);
      OpenReplyRead(x.tag, x.n, x.code, Opening(spare.stateid, x), r.m.got.value);
      ReplyHeaderRoundTrip(0, x.tag, x.n, PutStatus(x.code, 0, PutOpenResults(Opening(spare.stateid, x), r.m.got.value)));
    }
  }

  lemma FirstOfLog(c: Conn, last: u32, clientid: u64, dir: bytes, name: bytes, access: u32, create: bool)
    ensures var log := OpenSpec(c, last, clientid, dir, name, access, create).log;
            log != [] && log[0] == OpenRequest(clientid, dir, name, access, create, Next(last))
  {
    hide TakeOpenReply, TakeReplyHeader, Exchange, PutCompound, OpenRequest, BitAnd, Next, TakeConfirmReply, Retry;
  }

  /** The reply to an OPEN_CONFIRM that has run. */
  lemma ConfirmTold(fs: Fs, m: Compound, call: FsCall, spare: Spare, x: Trimmings, body: bytes, o: OpenFile)
    requires call.ConfirmFile? && Asks(m, call) && !InV41(m)
    requires var r := RunRequest(fs, m, spare); body == PutReplyTo(false, call, r, x) && Fits(call, body, DoneBy(r), x)
    requires call.stateid in fs.opens && fs.opens[call.stateid] == o && !o.confirmed
    ensures var r := RunRequest(fs, m, spare);
            TakeConfirmReply(body).Ok? ==>
              var s := TakeConfirmReply(body).value;
              s in r.m.fs.opens && r.m.fs.opens[s] == o.(confirmed := true)
  {
    hide RunRequest, Asks, PutReplyTo, Fits, TakeConfirmReply;
    EndToEnd(fs, m, call, spare, x);
    AskedRuns(fs, m, call, spare);
  }

  lemma ConfirmAsked(fh: bytes, stateid: Stateid4, seqid: u32, confirm: FsCall)
    requires confirm.ConfirmFile? && Asks(Request40(ConfirmOps(fh, stateid, seqid)), confirm)
    ensures confirm.stateid == stateid && !InV41(Request40(ConfirmOps(fh, stateid, seqid)))
  {
    var ops := ConfirmOps(fh, stateid, seqid);
    assert !ops[0].Sequence?;
    assert ops[1] == OpsOf(confirm)[1];
  }

  lemma TwoRuns(fs: Fs, log: seq<Compound>, spares: seq<Spare>)
    requires |log| == |spares| == 2
    ensures ServerAfter(fs, log, spares) == RunRequest(RunRequest(fs, log[0], spares[0]).m.fs, log[1], spares[1]).m.fs
  {
    hide RunRequest;
    assert log[1..] == [log[1]] && spares[1..] == [spares[1]] && log[1..][1..] == [];
    var fs1 := RunRequest(fs, log[0], spares[0]).m.fs;
    assert ServerAfter(fs1, log[1..], spares[1..])
        == ServerAfter(RunRequest(fs1, log[1], spares[1]).m.fs, log[1..][1..], spares[1..][1..]);
  }

  /** What opening a file comes to if its first attempt is not refused in the grace period. */
  lemma OneAttempt(c: Conn, last: u32, clientid: u64, dir: bytes, name: bytes, access: u32, create: bool, body: bytes)
    requires var m := OpenRequest(clientid, dir, name, access, create, Next(last));
             Exchange(c, NfsRequest(PutCompound(m))).1 == Success(body)
    requires TakeReplyHeader(body) != Err(Status(10013))
    ensures var m := OpenRequest(clientid, dir, name, access, create, Next(last));
            var c' := Exchange(c, NfsRequest(PutCompound(m))).0;
            var o := OpenSpec(c, last, clientid, dir, name, access, create);
            if TakeReplyHeader(body).Err? then o.log == [m] && o.file.Failure?
            else
              match TakeOpenReply(body)
              case Err(_) => o.log == [m] && o.file.Failure?
              case Ok((res, fh), _) =>
                if res.rflags / 2 % 2 == 0 then o.log == [m] && o.file == Success(Nfs4File(fh, res.stateid, Next(last)))
                else
                  var m2 := Request40(ConfirmOps(fh, res.stateid, Next(Next(last))));
                  var (c2, confirmed) := Ask(c', m2, TakeConfirmReply);
                  o.log == [m, m2] && (o.file.Success? <==> confirmed.Success?)
                    && (o.file.Success? ==> o.file.value == Nfs4File(fh, confirmed.value, Next(Next(last))))
  {
    hide TakeOpenReply, TakeReplyHeader, Exchange, PutCompound, OpenRequest, BitAnd, Next, ConfirmOps, TakeConfirmReply, Retry;
    var m := OpenRequest(clientid, dir, name, access, create, Next(last));
    FirstAttempt(c, SameRequest(m));
    if TakeOpenReply(body).Ok? { ConfirmFlag(TakeOpenReply(body).value.0.rflags); }
    assert Repeat(m, 1) == [m];
  }

  /** If a server runs what is sent and answers, and opening a file succeeds, then the state id of the file is one that
      the server knows: it stands for the object of the handle, with the access that was asked for, and needs no
      confirmation any more. */
  lemma OpenedOnServer(c: Conn, fs: Fs, last: u32, clientid: u64, dir: bytes, name: bytes, access: u32, create: bool,
                       confirm: FsCall, spares: seq<Spare>, xs: seq<Trimmings>, replies: seq<seq<bytes>>, k: bytes)
    requires var o := OpenSpec(c, last, clientid, dir, name, access, create);
             && o.file.Success?
             && ServesOpen(fs, o.log, OpenCall(clientid, dir, name, access, create, Next(last)), confirm, spares, xs, replies)
             && (|o.log| == 2 ==> confirm.ConfirmFile? && Asks(o.log[1], confirm))
             && Brings(c.link, Load(c, RequestsOf(o.log)), replies, k)
    ensures var o := OpenSpec(c, last, clientid, dir, name, access, create);
            InUse(ServerAfter(fs, o.log, spares), o.file.value, access, clientid, OPEN_OWNER)
  {
    hide RunRequest, Wanted, PutReplyTo, Fits, TakeOpenReply, TakeReplyHeader, TakeReply, PutReply, Joined, Exchange, Load;
    hide Brings, PutCompound, OpenRequest, BitAnd, Next, ConfirmOps, TakeConfirmReply, OpenSpec, Asks;
    var o := OpenSpec(c, last, clientid, dir, name, access, create);
    var call := OpenCall(clientid, dir, name, access, create, Next(last));
    var m := OpenRequest(clientid, dir, name, access, create, Next(last));
    assert o.log[0] == m by { FirstOfLog(c, last, clientid, dir, name, access, create); }
    OpenIsCall(clientid, dir, name, access, create, Next(last));
    var r := RunRequest(fs, m, spares[0]);
    var body := PutReplyTo(false, call, r, xs[0]);
    OpenTold(fs, m, call, spares[0], xs[0], body);
    FirstReply(c, RequestsOf(o.log), replies, k);
    OneAttempt(c, last, clientid, dir, name, access, create, body);
    OpenIsInUse(fs, call, spares[0]);
    if spares[0].confirm {
      var c' := Exchange(c, NfsRequest(PutCompound(m))).0;
      var res := TakeOpenReply(body).value;
      ConfirmAsked(res.1, res.0.stateid, Next(Next(last)), confirm);
      FirstReply(c', RequestsOf(o.log)[1..], replies[1..], k);
      var body2 := PutReplyTo(false, confirm, RunRequest(r.m.fs, o.log[1], spares[1]), xs[1]);
      assert Exchange(c', NfsRequest(PutCompound(o.log[1]))).1 == Success(body2);
      ConfirmTold(r.m.fs, o.log[1], confirm, spares[1], xs[1], body2,
                  OpenFile(o.file.value.fh, access, clientid, OPEN_OWNER, false));
      assert TakeConfirmReply(body2).Ok?;
      TwoRuns(fs, o.log, spares);
    }
  }
}
