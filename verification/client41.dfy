/** The NFSv4.1 client: every request runs in slot 0 of its session, numbered by SEQUENCE (section 2.10.6.1 of
    RFC 8881). */
module Client41 {
  import opened Wire
  import opened Xdr
  import opened Rpc
  import opened Transport
  import opened Bitmap
  import opened Attributes
  import opened Ops
  import opened OpResults
  import opened SessionResults
  import opened Paging
  import opened Compounds
  import Client40

  const OPEN_OWNER: bytes := [110, 102, 115, 99, 108, 105, 101, 110, 116, 45, 118, 52, 49]  // "nfsclient-v41"

  /** The part of a request that its caller chooses. */
  datatype Work = Work(tag: bytes, ops: seq<Op>)

  const RECLAIM_WORK := Work(INIT, [ReclaimComplete(false)])
  const ROOT_WORK := Work([], [PutRootFh, GetFh])

  /** The `n`-th request of a session: SEQUENCE, with ids that start at 1 and wrap, in front of the work. */
  function InSession(session: sessionid4, n: nat, w: Work): Compound {
    Compound(w.tag, 1, [Sequence(session, (1 + n) % TWO_32, 0, 0, false)] + w.ops)
  }

  function Sessioned(session: sessionid4, works: seq<Work>): (r: seq<Compound>)
    ensures |r| == |works| && forall i :: 0 <= i < |r| ==> r[i] == InSession(session, i, works[i])
  {
    seq(|works|, i requires 0 <= i < |works| => InSession(session, i, works[i]))
  }

  lemma SessionedSnoc(session: sessionid4, works: seq<Work>, w: Work)
    ensures Sessioned(session, works + [w]) == Sessioned(session, works) + [InSession(session, |works|, w)]
  {
    hide InSession;
  }

  /* ----- the slot of a server ----- */

  /** The id of the last request and everything that was executed. */
  datatype Slot = Slot(session: sessionid4, cached: u32, executed: seq<Work>)

  datatype Verdict = Executed(slot: Slot) | Replayed | Misordered | NotInSession | Refused

  /** A request is executed if its id is the cached one plus 1, answered from the cache if it is the cached one
      and refused otherwise. */
  function Serve(s: Slot, m: Compound): Verdict {
    if m.minor != 1 || m.ops == [] || !m.ops[0].Sequence? || m.ops[0].session != s.session || m.ops[0].slot != 0
       || m.ops[0].highestSlot != 0 then NotInSession
    else if m.ops[0].seqid == Next(s.cached) then
      Executed(Slot(s.session, Next(s.cached), s.executed + [Work(m.tag, m.ops[1..])]))
    else if m.ops[0].seqid == s.cached then Replayed
    else Misordered
  }

  /** A server that goes on only as long as it executes what it gets. */
  function ServeAll(s: Slot, ms: seq<Compound>): Verdict
    decreases |ms|
  {
    if ms == [] then Executed(s)
    else
      var v := Serve(s, ms[0]);
      if v.Executed? then ServeAll(v.slot, ms[1..]) else v
  }

  lemma NextModulo(x: nat)
    ensures Next(x % TWO_32) == (1 + x) % TWO_32
  {
  }

  lemma {:induction false} ServedFrom(session: sessionid4, works: seq<Work>, n: nat)
    requires n <= |works|
    ensures ServeAll(Slot(session, n % TWO_32, works[..n]), Sessioned(session, works)[n..])
            == Executed(Slot(session, |works| % TWO_32, works))
    decreases |works| - n
  {
    var ms := Sessioned(session, works);
    if n == |works| {
      assert ms[n..] == [] && works[..n] == works;
    } else {
      var m := InSession(session, n, works[n]);
      assert ms[n..][0] == m && ms[n..][1..] == ms[n + 1..];
      NextModulo(n);
      assert m.ops[1..] == works[n].ops && works[..n] + [works[n]] == works[..n + 1];
      ServedFrom(session, works, n + 1);
    }
  }

  /** However many requests there are, past the wrap of the ids too: a new slot executes every one of them,
      once and in the order they were issued; none is taken for a replay or refused. */
  lemma ExactlyOnce(session: sessionid4, works: seq<Work>)
    ensures ServeAll(Slot(session, 0, []), Sessioned(session, works)) == Executed(Slot(session, |works| % TWO_32, works))
  {
    hide ServeAll, Sessioned;
    ServedFrom(session, works, 0);
    assert Sessioned(session, works)[0..] == Sessioned(session, works) && works[..0] == [];
  }

  /* ----- a server that refuses ----- */

  datatype Served = Served(slot: Slot, verdicts: seq<Verdict>)

  /** SEQUENCE may refuse a request for a reason of its own, say that it is too big or that the server is busy,
      and leave the slot as it was.  The client has counted the request all the same.  Whatever becomes of a
      request the server goes on with the next. */
  function ServeSome(s: Slot, ms: seq<Compound>, refused: seq<bool>): (r: Served)
    requires |refused| == |ms|
    ensures |r.verdicts| == |ms|
    decreases |ms|
  {
    if ms == [] then Served(s, [])
    else
      var v := if refused[0] then Refused else Serve(s, ms[0]);
      var others := ServeSome(if v.Executed? then v.slot else s, ms[1..], refused[1..]);
      Served(others.slot, [v] + others.verdicts)
  }

  /** Every request that is not refused is executed. */
  predicate OthersExecuted(r: Served, refused: seq<bool>)
    requires |r.verdicts| == |refused|
  {
    forall i :: 0 <= i < |refused| && !refused[i] ==> r.verdicts[i].Executed?
  }

  /** How many of the first `n` requests are refused. */
  function RefusedBefore(refused: seq<bool>, n: nat): (r: nat)
    requires n <= |refused|
    ensures r <= n
  {
    if n == 0 then 0 else RefusedBefore(refused, n - 1) + (if refused[n - 1] then 1 else 0)
  }

  /** The client and the slot agree on the next id whenever a request is let through. */
  predicate InStep(refused: seq<bool>) {
    InStepFrom(refused, 0)
  }

  predicate InStepFrom(refused: seq<bool>, n: nat) {
    forall i :: n <= i < |refused| && !refused[i] ==> RefusedBefore(refused, i) % TWO_32 == 0
  }

  /** After a single refusal the next request is out of step: the slot stays at `n` and the client is at `n + 2`. */
  lemma OutOfStep(session: sessionid4, n: nat, done: seq<Work>, w: Work)
    ensures Serve(Slot(session, n % TWO_32, done), InSession(session, n + 1, w)) == Misordered
  {
  }

  lemma SameModulo(x: nat, d: nat)
    ensures (x + d) % TWO_32 == x % TWO_32 <==> d % TWO_32 == 0
  {
    var q, a := x / TWO_32, x % TWO_32;
    var p, b := d / TWO_32, d % TWO_32;
    assert x + d == (q + p) * TWO_32 + (a + b);
    assert (x + d) % TWO_32 == (a + b) % TWO_32;
  }

  /** A request with `r` refusals before it meets the slot that it expects, or it does not. */
  lemma MeetsSlot(session: sessionid4, n: nat, r: nat, done: seq<Work>, w: Work)
    requires r <= n
    ensures Serve(Slot(session, (n - r) % TWO_32, done), InSession(session, n, w))
            == if r % TWO_32 == 0 then Executed(Slot(session, (n + 1 - r) % TWO_32, done + [w]))
               else if (r + 1) % TWO_32 == 0 then Replayed else Misordered
  {
    NextModulo(n - r);
    SameModulo(1 + n - r, r);
    SameModulo(n - r, r + 1);
    var m := InSession(session, n, w);
    assert m.ops[1..] == w.ops;
  }

  lemma {:induction false} SomeFrom(session: sessionid4, works: seq<Work>, refused: seq<bool>, n: nat, done: seq<Work>)
    requires |refused| == |works| && n <= |works|
    ensures OthersExecuted(ServeSome(Slot(session, (n - RefusedBefore(refused, n)) % TWO_32, done),
                                     Sessioned(session, works)[n..], refused[n..]), refused[n..])
            <==> InStepFrom(refused, n)
    decreases |works| - n
  {
    hide Serve, InSession, OthersExecuted, InStepFrom;
    if n < |works| {
      var ms, r := Sessioned(session, works), RefusedBefore(refused, n);
      assert ms[n..][0] == InSession(session, n, works[n]) && ms[n..][1..] == ms[n + 1..];
      assert refused[n..][0] == refused[n] && refused[n..][1..] == refused[n + 1..];
      MeetsSlot(session, n, r, done, works[n]);
      StepByStep(refused, n);
      var s := Slot(session, (n - r) % TWO_32, done);
      var v := if refused[n] then Refused else Serve(s, ms[n]);
      var others := ServeSome(if v.Executed? then v.slot else s, ms[n + 1..], refused[n + 1..]);
      FirstAndOthers(v, others, refused, n);
      if refused[n] { SomeFrom(session, works, refused, n + 1, done); }
      else if v.Executed? { SomeFrom(session, works, refused, n + 1, done + [works[n]]); }
    } else {
      var s := Slot(session, (n - RefusedBefore(refused, n)) % TWO_32, done);
      NothingLeft(ServeSome(s, Sessioned(session, works)[n..], refused[n..]), refused);
    }
  }

  lemma NothingLeft(r: Served, refused: seq<bool>)
    requires r.verdicts == []
    ensures OthersExecuted(r, refused[|refused|..]) && InStepFrom(refused, |refused|)
  {
  }

  lemma StepByStep(refused: seq<bool>, n: nat)
    requires n < |refused|
    ensures InStepFrom(refused, n) <==> (refused[n] || RefusedBefore(refused, n) % TWO_32 == 0) && InStepFrom(refused, n + 1)
    ensures RefusedBefore(refused, n + 1) == RefusedBefore(refused, n) + (if refused[n] then 1 else 0)
  {
  }

  lemma FirstAndOthers(v: Verdict, others: Served, refused: seq<bool>, n: nat)
    requires n < |refused| && |others.verdicts| == |refused| - n - 1
    ensures OthersExecuted(Served(others.slot, [v] + others.verdicts), refused[n..])
            <==> (refused[n] || v.Executed?) && OthersExecuted(others, refused[n + 1..])
  {
    var all := [v] + others.verdicts;
    if (refused[n] || v.Executed?) && OthersExecuted(others, refused[n + 1..]) {
      forall i | 0 <= i < |all| && !refused[n..][i] ensures all[i].Executed? {
        if i > 0 { assert refused[n + 1..][i - 1] == refused[n..][i]; }
      }
    } else if refused[n] || v.Executed? {
      var i :| 0 <= i < |refused| - n - 1 && !refused[n + 1..][i] && !others.verdicts[i].Executed?;
      assert !refused[n..][i + 1] && !all[i + 1].Executed?;
    } else {
      assert !refused[n..][0] && !all[0].Executed?;
    }
  }

  /** Exactly once, whatever is refused: the requests that are let through are all executed exactly when each of
      them has a multiple of 2^32 refusals before it. */
  lemma ExactlyOnceIff(session: sessionid4, works: seq<Work>, refused: seq<bool>)
    requires |refused| == |works|
    ensures OthersExecuted(ServeSome(Slot(session, 0, []), Sessioned(session, works), refused), refused) <==> InStep(refused)
  {
    hide ServeSome, Sessioned, InStepFrom, OthersExecuted;
    SomeFrom(session, works, refused, 0, []);
    assert Sessioned(session, works)[0..] == Sessioned(session, works) && refused[0..] == refused;
  }

  /** Below 2^32 requests that is: once one is refused, so are all that follow it. */
  lemma OnceRefused(refused: seq<bool>)
    requires |refused| <= TWO_32
    ensures InStep(refused) <==> forall i, j :: 0 <= i < j < |refused| && refused[i] ==> refused[j]
  {
    hide RefusedBefore;
    if forall i, j :: 0 <= i < j < |refused| && refused[i] ==> refused[j] {
      forall i | 0 <= i < |refused| && !refused[i] ensures RefusedBefore(refused, i) % TWO_32 == 0 { NoneBefore(refused, i); }
    } else {
      var i, j :| 0 <= i < j < |refused| && refused[i] && !refused[j];
      SomeBefore(refused, i, j);
      assert 0 < RefusedBefore(refused, j) < TWO_32;
    }
  }

  lemma {:induction false} NoneBefore(refused: seq<bool>, n: nat)
    requires n <= |refused| && forall i :: 0 <= i < n ==> !refused[i]
    ensures RefusedBefore(refused, n) == 0
  {
    if n > 0 { NoneBefore(refused, n - 1); }
  }

  lemma {:induction false} SomeBefore(refused: seq<bool>, i: nat, n: nat)
    requires i < n <= |refused| && refused[i]
    ensures RefusedBefore(refused, n) > 0
  {
    if i < n - 1 { SomeBefore(refused, i, n - 1); }
  }

  /** The first request that is refused, or the number of requests. */
  function FirstRefused(refused: seq<bool>): (r: nat)
    ensures r <= |refused| && (r < |refused| ==> refused[r]) && forall i :: 0 <= i < r ==> !refused[i]
  {
    if refused == [] || refused[0] then 0 else 1 + FirstRefused(refused[1..])
  }

  lemma {:induction false} StuckFrom(session: sessionid4, works: seq<Work>, refused: seq<bool>, f: nat, n: nat)
    requires |refused| == |works| <= TWO_32 && f < n <= |works|
    ensures var s := Slot(session, f % TWO_32, works[..f]);
            ServeSome(s, Sessioned(session, works)[n..], refused[n..]).slot == s
    decreases |works| - n
  {
    hide Serve, InSession;
    if n < |works| {
      var ms := Sessioned(session, works);
      assert ms[n..][0] == InSession(session, n, works[n]) && ms[n..][1..] == ms[n + 1..]
           && refused[n..][1..] == refused[n + 1..];
      MeetsSlot(session, n, n - f, works[..f], works[n]);
      StuckFrom(session, works, refused, f, n + 1);
    }
  }

  lemma {:induction false} UntilRefused(session: sessionid4, works: seq<Work>, refused: seq<bool>, n: nat)
    requires |refused| == |works| <= TWO_32 && n <= FirstRefused(refused)
    ensures var f := FirstRefused(refused);
            ServeSome(Slot(session, n % TWO_32, works[..n]), Sessioned(session, works)[n..], refused[n..]).slot
            == Slot(session, f % TWO_32, works[..f])
    decreases |works| - n
  {
    hide Serve, InSession;
    if n < |works| {
      var ms := Sessioned(session, works);
      assert ms[n..][0] == InSession(session, n, works[n]) && ms[n..][1..] == ms[n + 1..]
           && refused[n..][1..] == refused[n + 1..];
      if n < FirstRefused(refused) {
        MeetsSlot(session, n, 0, works[..n], works[n]);
        assert works[..n] + [works[n]] == works[..n + 1];
        UntilRefused(session, works, refused, n + 1);
      } else {
        StuckFrom(session, works, refused, n, n + 1);
      }
    } else {
      assert works[..n] == works;
    }
  }

  /** After the first refusal nothing is executed any more, for 2^32 requests at least: the session is lost. */
  lemma StuckAfterRefusal(session: sessionid4, works: seq<Work>, refused: seq<bool>)
    requires |refused| == |works| <= TWO_32
    ensures var f := FirstRefused(refused);
            ServeSome(Slot(session, 0, []), Sessioned(session, works), refused).slot == Slot(session, f % TWO_32, works[..f])
  {
    hide ServeSome, Sessioned;
    UntilRefused(session, works, refused, 0);
    assert Sessioned(session, works)[0..] == Sessioned(session, works) && refused[0..] == refused && works[..0] == [];
  }

  /* ----- how replies are read ----- */

  /** The header and the results of SEQUENCE and of PUTFH or PUTROOTFH. */
  function TakeFront41(s: bytes): Parsed<()> {
    var (_, s) :- TakeReplyHeader(s);
    var (_, s) :- TakeSequence(s);
    TakeStatus(s)
  }

  function TakeRootReply41(s: bytes): Parsed<bytes> {
    var (_, s) :- TakeFront41(s);
    TakeGetFh(s)
  }

  function TakeLookupReply41(s: bytes): Parsed<bytes> {
    var (_, s) :- TakeFront41(s);
    var (_, s) :- TakeStatus(s);
    TakeGetFh(s)
  }

  function TakeOpenReply41(s: bytes): Parsed<(Open4Result, bytes)> {
    var (_, s) :- TakeFront41(s);
    var (o, s) :- TakeOpen(s);
    var (fh, s) :- TakeGetFh(s);
    Ok((o, fh), s)
  }

  function TakeRenameReply41(s: bytes): Parsed<()> {
    var (_, s) :- TakeFront41(s);
    var (_, s) :- TakeStatus(s);
    var (_, s) :- TakeStatus(s);
    TakeRename(s)
  }

  function TakeCreateReply41(s: bytes): Parsed<bytes> {
    var (_, s) :- TakeFront41(s);
    var (_, s) :- TakeCreate(s);
    TakeGetFh(s)
  }

  function TakeRemoveReply41(s: bytes): Parsed<()> {
    var (_, s) :- TakeFront41(s);
    TakeRemove(s)
  }

  function TakeReadDirReply41(s: bytes): Parsed<Page<DirEntry4>> {
    var (_, s) :- TakeFront41(s);
    TakeReadDir(s)
  }

  function TakeGetAttrReply41(s: bytes): Parsed<Fattr4> { var (_, s) :- TakeFront41(s); TakeGetAttr(s) }
  function TakeAccessReply41(s: bytes): Parsed<u32> {
    var (_, s) :- TakeFront41(s);
    var (a, s) :- TakeAccess(s);
    Ok(a.access, s)
  }
  function TakeCloseReply41(s: bytes): Parsed<()> { var (_, s) :- TakeFront41(s); Dropped(TakeOpenConfirm(s)) }
  function TakeReadReply41(s: bytes): Parsed<bytes> { var (_, s) :- TakeFront41(s); TakeRead(s) }
  function TakeWriteReply41(s: bytes): Parsed<u32> {
    var (_, s) :- TakeFront41(s);
    var (w, s) :- TakeWrite(s);
    Ok(w.count, s)
  }
  function TakeCommitReply41(s: bytes): Parsed<verifier4> { var (_, s) :- TakeFront41(s); TakeCommit(s) }
  function TakeReadLinkReply41(s: bytes): Parsed<bytes> { var (_, s) :- TakeFront41(s); TakeGetFh(s) }
  function TakeSetAttrReply41(s: bytes): Parsed<()> { var (_, s) :- TakeFront41(s); TakeSetAttr(s) }

  method CheckFront41(dec: XdrDecoder) returns (r: Result<()>)
    requires dec.Valid()
    modifies dec
    ensures dec.Reads(r, TakeFront41(old(dec.Rest())))
  {
    hide TakeReplyHeader, TakeSequence, TakeStatus;
    var _ :- CheckCompoundStatus(dec);
    var _ :- DecodeSequence(dec);
    r := CheckOpStatus(dec);
  }

  /* ----- OPEN ----- */

  function OpenWork(clientid: u64, dir: bytes, name: bytes, access: u32, create: bool, seqid: u32): Work {
    Work([], OpenOps(dir, seqid, access, clientid, OPEN_OWNER, create, name))
  }

  function SessionRequest(session: sessionid4, n: nat, w: Work): Request { NfsRequest(PutCompound(InSession(session, n, w))) }

  /** The same work, each time with the next slot id. */
  function SessionRequests(session: sessionid4, first: nat, w: Work): nat -> Request {
    (n: nat) => SessionRequest(session, first + n, w)
  }

  function OpenedFile(reply: Result<bytes>, seqid: u32): Result<Client40.Nfs4File> {
    match reply
    case Failure(e) => Failure(e)
    case Success(b) =>
      match TakeOpenReply41(b)
      case Err(e) => Failure(e)
      case Ok((o, fh), _) =>
        if BitAnd(o.rflags, OPEN4_RESULT_CONFIRM) != 0 then Failure(ProtocolError)
        else Success(Client40.Nfs4File(fh, o.stateid, seqid))
  }

  function RepeatWork(w: Work, n: nat): seq<Work> { seq(n, _ => w) }

  class Nfs41Client {
    const rpc: TcpRpcClient
    const clientid: u64
    const sessionid: sessionid4
    var slotSeqid: u32
    var openSeqid: u32
    /** The work of this session so far, and how many calls had been made before it. */
    ghost var issued: seq<Work>
    ghost const base: nat

    ghost predicate Valid()
      reads this, rpc, rpc.sock
    {
      && rpc.Valid()
      && Logged(rpc.calls, base, Sessioned(sessionid, issued))
      && slotSeqid == (1 + |issued|) % TWO_32
    }

    constructor (rpc: TcpRpcClient, clientid: u64, sessionid: sessionid4)
      requires rpc.Valid()
      ensures Valid() && this.rpc == rpc && this.clientid == clientid && this.sessionid == sessionid
      ensures base == |rpc.calls| && issued == [] && openSeqid == 0
    {
      hide PutCompound, Messages, Delivered, InSession;
      this.rpc := rpc;
      this.clientid := clientid;
      this.sessionid := sessionid;
      slotSeqid, openSeqid, issued, base := 1, 0, [], |rpc.calls|;
    }

    method Compound41(tag: bytes, ops: bytes, numOps: u32, ghost m: seq<Op>) returns (r: Result<bytes>)
      requires Valid()
      requires Holds(ops, m) && numOps == |m|
      modifies this`issued, this`slotSeqid, rpc, rpc.sock
      ensures Valid() && issued == old(issued) + [Work(tag, m)]
      ensures (rpc.View(), r) == Exchange(old(rpc.View()), SessionRequest(sessionid, |old(issued)|, Work(tag, m)))
      ensures rpc.calls == old(rpc.calls) + [CallOf(old(rpc.View()), SessionRequest(sessionid, |old(issued)|, Work(tag, m)))]
    {
      hide PutOp, PutHeader, PutCompound, PutCall, Exchange, CallOf, Delivered, Messages, Logged, InSession;
      var seqEnc := new XdrEncoder();
      EncodeSequence(seqEnc, sessionid, slotSeqid, 0, 0, false);
      var allOps := seqEnc.buf + ops;
      ghost var w := Work(tag, m);
      assert PutHeader(tag, 1, Next(numOps), allOps) == PutCompound(InSession(sessionid, |issued|, w)) by {
        SequencePrepended(sessionid, |issued|, w, ops, numOps, allOps);
      }
      NextModulo(1 + |issued|);
      SessionedSnoc(sessionid, issued, w);
      LoggedSnoc(rpc.calls, base, Sessioned(sessionid, issued), rpc.View(), InSession(sessionid, |issued|, w));
      slotSeqid := Next(slotSeqid);
      issued := issued + [w];
      r := CallCompound(rpc, tag, allOps, Next(numOps), 1);
    }

    method SendReclaimComplete() returns (r: Result<()>)
      requires Valid()
      modifies this`issued, this`slotSeqid, rpc, rpc.sock
      ensures Valid() && issued == old(issued) + [RECLAIM_WORK]
      ensures (rpc.View(), r) == Ask(old(rpc.View()), InSession(sessionid, |old(issued)|, RECLAIM_WORK), TakeFront41)
      ensures rpc.calls == old(rpc.calls) + [CallOf(old(rpc.View()), SessionRequest(sessionid, |old(issued)|, RECLAIM_WORK))]
    {
      hide CallOf, PutOp, PutOps, PutCompound, Exchange, Delivered, Messages, Logged, InSession, TakeFront41;
      var ops := new XdrEncoder();
      EncodeReclaimComplete(ops, false);
      OpsOne(ReclaimComplete(false), []);
      assert ops.buf + [] == ops.buf;
      var reply :- Compound41(INIT, ops.buf, 1, [ReclaimComplete(false)]);
      var dec := new XdrDecoder(reply);
      r := CheckFront41(dec);
    }

    method LookAtRoot() returns (r: Result<bytes>)
      requires Valid()
      modifies this`issued, this`slotSeqid, rpc, rpc.sock
      ensures Valid() && issued == old(issued) + [ROOT_WORK]
      ensures (rpc.View(), r) == Ask(old(rpc.View()), InSession(sessionid, |old(issued)|, ROOT_WORK), TakeRootReply41)
      ensures rpc.calls == old(rpc.calls) + [CallOf(old(rpc.View()), SessionRequest(sessionid, |old(issued)|, ROOT_WORK))]
    {
      hide CallOf, PutOp, PutCompound, Exchange, Delivered, Messages, Logged, Holds, InSession, TakeFront41, TakeGetFh;
      var ops := new XdrEncoder();
      EncodePutRootFh(ops);
      EncodeGetFh(ops);
      HoldsTwo(ops.buf, PutRootFh, GetFh);
      var reply :- Compound41([], ops.buf, 2, [PutRootFh, GetFh]);
      var dec := new XdrDecoder(reply);
      var _ :- CheckFront41(dec);
      r := DecodeGetFh(dec);
    }

    method Lookup(dir: bytes, name: bytes) returns (r: Result<bytes>)
      requires Valid()
      modifies this`issued, this`slotSeqid, rpc, rpc.sock
      ensures Valid() && issued == old(issued) + [Work([], LookupOps(dir, name))]
      ensures (rpc.View(), r) ==
              Ask(old(rpc.View()), InSession(sessionid, |old(issued)|, Work([], LookupOps(dir, name))), TakeLookupReply41)
    {
      hide PutOp, FhOp, PutCompound, Exchange, Delivered, Messages, Logged, Holds, InSession, TakeFront41, TakeStatus, TakeGetFh;
      var ops := new XdrEncoder();
      EncodeFh(ops, dir);
      EncodeLookup(ops, name);
      EncodeGetFh(ops);
      HoldsThree(ops.buf, FhOp(dir), Op.Lookup(name), GetFh);
      var reply :- Compound41([], ops.buf, 3, LookupOps(dir, name));
      var dec := new XdrDecoder(reply);
      var _ :- CheckFront41(dec);
      var _ :- CheckOpStatus(dec);
      r := DecodeGetFh(dec);
    }

    method Rename(srcDir: bytes, srcName: bytes, dstDir: bytes, dstName: bytes) returns (r: Result<()>)
      requires Valid()
      modifies this`issued, this`slotSeqid, rpc, rpc.sock
      ensures Valid() && issued == old(issued) + [Work([], RenameOps(srcDir, srcName, dstDir, dstName))]
      ensures (rpc.View(), r) ==
              Ask(old(rpc.View()),
                  InSession(sessionid, |old(issued)|, Work([], RenameOps(srcDir, srcName, dstDir, dstName))), TakeRenameReply41)
    {
      hide PutOp, FhOp, PutCompound, Exchange, Delivered, Messages, Logged, Holds, InSession, TakeFront41, TakeStatus, TakeRename;
      var ops := RenameBuffer(srcDir, srcName, dstDir, dstName);
      var reply :- Compound41([], ops, 4, RenameOps(srcDir, srcName, dstDir, dstName));
      var dec := new XdrDecoder(reply);
      var _ :- CheckFront41(dec);
      var _ :- CheckOpStatus(dec);
      var _ :- CheckOpStatus(dec);
      r := DecodeRename(dec);
    }

    method Mkdir(dir: bytes, name: bytes, attrs: Sattr4) returns (r: Result<bytes>)
      requires Valid()
      modifies this`issued, this`slotSeqid, rpc, rpc.sock
      ensures Valid() && issued == old(issued) + [Work([], MkdirOps(dir, name, attrs))]
      ensures (rpc.View(), r) ==
              Ask(old(rpc.View()), InSession(sessionid, |old(issued)|, Work([], MkdirOps(dir, name, attrs))), TakeCreateReply41)
    {
      hide PutOp, FhOp, PutCompound, Exchange, Delivered, Messages, Logged, Holds, InSession, TakeFront41, TakeCreate, TakeGetFh;
      var ops := new XdrEncoder();
      EncodeFh(ops, dir);
      EncodeCreateDir(ops, name, attrs);
      EncodeGetFh(ops);
      HoldsThree(ops.buf, FhOp(dir), CreateDir(name, attrs), GetFh);
      var reply :- Compound41([], ops.buf, 3, MkdirOps(dir, name, attrs));
      var dec := new XdrDecoder(reply);
      var _ :- CheckFront41(dec);
      var _ :- DecodeCreate(dec);
      r := DecodeGetFh(dec);
    }

    method Symlink(dir: bytes, name: bytes, target: bytes, attrs: Sattr4) returns (r: Result<bytes>)
      requires Valid()
      modifies this`issued, this`slotSeqid, rpc, rpc.sock
      ensures Valid() && issued == old(issued) + [Work([], SymlinkOps(dir, name, target, attrs))]
      ensures (rpc.View(), r) ==
              Ask(old(rpc.View()), InSession(sessionid, |old(issued)|, Work([], SymlinkOps(dir, name, target,
                   attrs))), TakeCreateReply41)
    {
      hide PutOp, FhOp, PutCompound, Exchange, Delivered, Messages, Logged, Holds, InSession, TakeFront41, TakeCreate, TakeGetFh;
      var ops := new XdrEncoder();
      EncodeFh(ops, dir);
      EncodeCreateSymlink(ops, name, target, attrs);
      EncodeGetFh(ops);
      HoldsThree(ops.buf, FhOp(dir), CreateSymlink(target, name, attrs), GetFh);
      var reply :- Compound41([], ops.buf, 3, SymlinkOps(dir, name, target, attrs));
      var dec := new XdrDecoder(reply);
      var _ :- CheckFront41(dec);
      var _ :- DecodeCreate(dec);
      r := DecodeGetFh(dec);
    }

    method Remove(dir: bytes, name: bytes) returns (r: Result<()>)
      requires Valid()
      modifies this`issued, this`slotSeqid, rpc, rpc.sock
      ensures Valid() && issued == old(issued) + [Work([], RemoveOps(dir, name))]
      ensures (rpc.View(), r) ==
              Ask(old(rpc.View()), InSession(sessionid, |old(issued)|, Work([], RemoveOps(dir, name))), TakeRemoveReply41)
    {
      hide PutOp, FhOp, PutCompound, Exchange, Delivered, Messages, Logged, Holds, InSession, TakeFront41, TakeRemove;
      var ops := new XdrEncoder();
      EncodeFh(ops, dir);
      EncodeRemove(ops, name);
      HoldsTwo(ops.buf, FhOp(dir), Op.Remove(name));
      var reply :- Compound41([], ops.buf, 2, RemoveOps(dir, name));
      var dec := new XdrDecoder(reply);
      var _ :- CheckFront41(dec);
      r := DecodeRemove(dec);
    }

    method GetAttr(fh: bytes) returns (r: Result<Fattr4>)
      requires Valid()
      modifies this`issued, this`slotSeqid, rpc, rpc.sock
      ensures Valid() && issued == old(issued) + [Work([], GetAttrOps(fh))]
      ensures (rpc.View(), r) ==
              Ask(old(rpc.View()), InSession(sessionid, |old(issued)|, Work([], GetAttrOps(fh))), TakeGetAttrReply41)
    {
      hide PutOp, FhOp, PutCompound, Exchange, Delivered, Messages, Logged, Holds, InSession, TakeFront41, TakeGetAttr, BitmapOf;
      var ops := new XdrEncoder();
      EncodeFh(ops, fh);
      EncodeGetAttr(ops, GETATTR_IDS);
      HoldsTwo(ops.buf, FhOp(fh), Op.GetAttr(BitmapOf(GETATTR_IDS)));
      var reply :- Compound41([], ops.buf, 2, GetAttrOps(fh));
      var dec := new XdrDecoder(reply);
      var _ :- CheckFront41(dec);
      r := DecodeGetAttr(dec);
    }

    method Access(fh: bytes, mask: u32) returns (r: Result<u32>)
      requires Valid()
      modifies this`issued, this`slotSeqid, rpc, rpc.sock
      ensures Valid() && issued == old(issued) + [Work([], AccessOps(fh, mask))]
      ensures (rpc.View(), r) ==
              Ask(old(rpc.View()), InSession(sessionid, |old(issued)|, Work([], AccessOps(fh, mask))), TakeAccessReply41)
    {
      hide PutOp, FhOp, PutCompound, Exchange, Delivered, Messages, Logged, Holds, InSession, TakeFront41, TakeAccess;
      var ops := new XdrEncoder();
      EncodeFh(ops, fh);
      EncodeAccess(ops, mask);
      HoldsTwo(ops.buf, FhOp(fh), Op.Access(mask));
      var reply :- Compound41([], ops.buf, 2, AccessOps(fh, mask));
      var dec := new XdrDecoder(reply);
      var _ :- CheckFront41(dec);
      var res :- DecodeAccess(dec);
      r := Success(res.access);
    }

    method Close(f: Client40.Nfs4File) returns (r: Result<()>)
      requires Valid()
      modifies this`issued, this`slotSeqid, rpc, rpc.sock
      ensures Valid() && issued == old(issued) + [Work([], CloseOps(f.fh, f.seqid, f.stateid))]
      ensures (rpc.View(), r) ==
              Ask(old(rpc.View()), InSession(sessionid, |old(issued)|, Work([], CloseOps(f.fh, f.seqid, f.stateid))),
                  TakeCloseReply41)
    {
      hide PutOp, FhOp, PutCompound, Exchange, Delivered, Messages, Logged, Holds, InSession, TakeFront41, TakeOpenConfirm;
      var ops := new XdrEncoder();
      EncodeFh(ops, f.fh);
      EncodeClose(ops, f.seqid, f.stateid);
      HoldsTwo(ops.buf, FhOp(f.fh), Op.Close(f.seqid, f.stateid));
      var reply :- Compound41([], ops.buf, 2, CloseOps(f.fh, f.seqid, f.stateid));
      var dec := new XdrDecoder(reply);
      var _ :- CheckFront41(dec);
      r := DecodeClose(dec);
    }

    method Read(f: Client40.Nfs4File, offset: u64, count: u32) returns (r: Result<bytes>)
      requires Valid()
      modifies this`issued, this`slotSeqid, rpc, rpc.sock
      ensures Valid() && issued == old(issued) + [Work([], ReadOps(f.fh, f.stateid, offset, count))]
      ensures (rpc.View(), r) ==
              Ask(old(rpc.View()), InSession(sessionid, |old(issued)|, Work([], ReadOps(f.fh, f.stateid, offset, count))),
                  TakeReadReply41)
    {
      hide PutOp, FhOp, PutCompound, Exchange, Delivered, Messages, Logged, Holds, InSession, TakeFront41, TakeRead;
      var ops := new XdrEncoder();
      EncodeFh(ops, f.fh);
      EncodeRead(ops, f.stateid, offset, count);
      HoldsTwo(ops.buf, FhOp(f.fh), Op.Read(f.stateid, offset, count));
      var reply :- Compound41([], ops.buf, 2, ReadOps(f.fh, f.stateid, offset, count));
      var dec := new XdrDecoder(reply);
      var _ :- CheckFront41(dec);
      r := DecodeRead(dec);
    }

    method Write(f: Client40.Nfs4File, offset: u64, stable: u32, data: bytes) returns (r: Result<u32>)
      requires Valid()
      modifies this`issued, this`slotSeqid, rpc, rpc.sock
      ensures Valid() && issued == old(issued) + [Work([], WriteOps(f.fh, f.stateid, offset, stable, data))]
      ensures (rpc.View(), r) ==
              Ask(old(rpc.View()), InSession(sessionid, |old(issued)|, Work([], WriteOps(f.fh, f.stateid, offset, stable, data))),
                  TakeWriteReply41)
    {
      hide PutOp, FhOp, PutCompound, Exchange, Delivered, Messages, Logged, Holds, InSession, TakeFront41, TakeWrite;
      var ops := new XdrEncoder();
      EncodeFh(ops, f.fh);
      EncodeWrite(ops, f.stateid, offset, stable, data);
      HoldsTwo(ops.buf, FhOp(f.fh), Op.Write(f.stateid, offset, stable, data));
      var reply :- Compound41([], ops.buf, 2, WriteOps(f.fh, f.stateid, offset, stable, data));
      var dec := new XdrDecoder(reply);
      var _ :- CheckFront41(dec);
      var res :- DecodeWrite(dec);
      r := Success(res.count);
    }

    method Commit(f: Client40.Nfs4File, offset: u64, count: u32) returns (r: Result<verifier4>)
      requires Valid()
      modifies this`issued, this`slotSeqid, rpc, rpc.sock
      ensures Valid() && issued == old(issued) + [Work([], CommitOps(f.fh, offset, count))]
      ensures (rpc.View(), r) ==
              Ask(old(rpc.View()), InSession(sessionid, |old(issued)|, Work([], CommitOps(f.fh, offset, count))),
                  TakeCommitReply41)
    {
      hide PutOp, FhOp, PutCompound, Exchange, Delivered, Messages, Logged, Holds, InSession, TakeFront41, TakeCommit;
      var ops := new XdrEncoder();
      EncodeFh(ops, f.fh);
      EncodeCommit(ops, offset, count);
      HoldsTwo(ops.buf, FhOp(f.fh), Op.Commit(offset, count));
      var reply :- Compound41([], ops.buf, 2, CommitOps(f.fh, offset, count));
      var dec := new XdrDecoder(reply);
      var _ :- CheckFront41(dec);
      r := DecodeCommit(dec);
    }

    method ReadLink(fh: bytes) returns (r: Result<bytes>)
      requires Valid()
      modifies this`issued, this`slotSeqid, rpc, rpc.sock
      ensures Valid() && issued == old(issued) + [Work([], ReadLinkOps(fh))]
      ensures (rpc.View(), r) ==
              Ask(old(rpc.View()), InSession(sessionid, |old(issued)|, Work([], ReadLinkOps(fh))), TakeReadLinkReply41)
    {
      hide PutOp, FhOp, PutCompound, Exchange, Delivered, Messages, Logged, Holds, InSession, TakeFront41, TakeGetFh;
      var ops := new XdrEncoder();
      EncodeFh(ops, fh);
      EncodeReadLink(ops);
      HoldsTwo(ops.buf, FhOp(fh), Op.ReadLink);
      var reply :- Compound41([], ops.buf, 2, ReadLinkOps(fh));
      var dec := new XdrDecoder(reply);
      var _ :- CheckFront41(dec);
      r := DecodeReadLink(dec);
    }

    method SetAttr(fh: bytes, attrs: Sattr4) returns (r: Result<()>)
      requires Valid()
      modifies this`issued, this`slotSeqid, rpc, rpc.sock
      ensures Valid() && issued == old(issued) + [Work([], SetAttrOps(fh, attrs))]
      ensures (rpc.View(), r) ==
              Ask(old(rpc.View()), InSession(sessionid, |old(issued)|, Work([], SetAttrOps(fh, attrs))), TakeSetAttrReply41)
    {
      hide PutOp, FhOp, PutCompound, Exchange, Delivered, Messages, Logged, Holds, InSession, TakeFront41, TakeSetAttr;
      var ops := new XdrEncoder();
      EncodeFh(ops, fh);
      EncodeSetAttr(ops, ANONYMOUS, attrs);
      HoldsTwo(ops.buf, FhOp(fh), Op.SetAttr(ANONYMOUS, attrs));
      var reply :- Compound41([], ops.buf, 2, SetAttrOps(fh, attrs));
      var dec := new XdrDecoder(reply);
      var _ :- CheckFront41(dec);
      r := DecodeSetAttr(dec);
    }

    /* ----- OPEN ----- */

    /** One attempt of OPEN. */
    method SendOpen(dir: bytes, name: bytes, access: u32, create: bool, seqid: u32) returns (r: Result<bytes>)
      requires Valid()
      modifies this`issued, this`slotSeqid, rpc, rpc.sock
      ensures Valid() && issued == old(issued) + [OpenWork(clientid, dir, name, access, create, seqid)]
      ensures (rpc.View(), r) ==
              Exchange(old(rpc.View()),
                       SessionRequest(sessionid, |old(issued)|, OpenWork(clientid, dir, name, access, create, seqid)))
    {
      hide PutOp, FhOp, PutCompound, Exchange, Delivered, Messages, Logged, Holds, InSession;
      var ops := new XdrEncoder();
      EncodeFh(ops, dir);
      if create {
        EncodeOpenCreate(ops, seqid, access, clientid, OPEN_OWNER, name, NOTHING_SET);
      } else {
        EncodeOpenNoCreate(ops, seqid, access, clientid, OPEN_OWNER, name);
      }
      EncodeGetFh(ops);
      HoldsThree(ops.buf, FhOp(dir),
                 Open(seqid, access, clientid, OPEN_OWNER, if create then Some(NOTHING_SET) else None, name), GetFh);
      r := Compound41([], ops.buf, 3, OpenOps(dir, seqid, access, clientid, OPEN_OWNER, create, name));
    }

    /** The retry loop. */
    method RetryOpen(dir: bytes, name: bytes, access: u32, create: bool, seqid: u32) returns (reply: Result<bytes>)
      requires Valid()
      modifies this`issued, this`slotSeqid, rpc, rpc.sock
      ensures Valid()
      ensures var w := OpenWork(clientid, dir, name, access, create, seqid);
              var a := Retry(old(rpc.View()), SessionRequests(sessionid, |old(issued)|, w), 0);
              rpc.View() == a.conn && reply == a.reply && issued == old(issued) + RepeatWork(w, a.count)
    {
      hide PutCompound, Exchange, Delivered, Messages, Logged, InSession, OpenWork, TakeReplyHeader;
      ghost var w := OpenWork(clientid, dir, name, access, create, seqid);
      ghost var requests := SessionRequests(sessionid, |issued|, w);
      ghost var n := 0;
      while true
        invariant Valid() && issued == old(issued) + RepeatWork(w, n)
        invariant var a, b := Retry(old(rpc.View()), requests, 0), Retry(rpc.View(), requests, n);
                  a.conn == b.conn && a.reply == b.reply && a.count == n + b.count
        decreases |rpc.sock.incoming|
      {
        reply := SendOpen(dir, name, access, create, seqid);
        n := n + 1;
        if reply.Failure? { return; }
        var dec := new XdrDecoder(reply.value);
        var status := CheckCompoundStatus(dec);
        if status.Success? { return; }
        if status.error != Status(NFS4ERR_GRACE) { return Failure(status.error); }
      }
    }

    method DoOpen(dir: bytes, name: bytes, access: u32, create: bool) returns (r: Result<Client40.Nfs4File>)
      requires Valid()
      modifies this`issued, this`slotSeqid, this`openSeqid, rpc, rpc.sock
      ensures Valid() && openSeqid == Next(old(openSeqid))
      ensures var w := OpenWork(clientid, dir, name, access, create, openSeqid);
              var a := Retry(old(rpc.View()), SessionRequests(sessionid, |old(issued)|, w), 0);
              && rpc.View() == a.conn && issued == old(issued) + RepeatWork(w, a.count)
              && r == OpenedFile(a.reply, openSeqid)
    {
      hide PutCompound, Exchange, Delivered, Messages, Logged, InSession, OpenWork, Retry, TakeFront41, TakeOpen, TakeGetFh;
      openSeqid := Next(openSeqid);
      var seqid := openSeqid;
      var reply :- RetryOpen(dir, name, access, create, seqid);
      var dec := new XdrDecoder(reply);
      var _ :- CheckFront41(dec);
      var res :- DecodeOpen(dec);
      var fh :- DecodeGetFh(dec);
      if BitAnd(res.rflags, OPEN4_RESULT_CONFIRM) != 0 { return Failure(ProtocolError); }
      r := Success(Client40.Nfs4File(fh, res.stateid, seqid));
    }

    method OpenRead(dir: bytes, name: bytes) returns (r: Result<Client40.Nfs4File>)
      requires Valid()
      modifies this`issued, this`slotSeqid, this`openSeqid, rpc, rpc.sock
      ensures Valid() && openSeqid == Next(old(openSeqid))
      ensures var w := OpenWork(clientid, dir, name, 1, false, openSeqid);
              var a := Retry(old(rpc.View()), SessionRequests(sessionid, |old(issued)|, w), 0);
              && rpc.View() == a.conn && issued == old(issued) + RepeatWork(w, a.count)
              && r == OpenedFile(a.reply, openSeqid)
    {
      r := DoOpen(dir, name, OPEN4_SHARE_ACCESS_READ, false);
    }

    method OpenWrite(dir: bytes, name: bytes, create: bool) returns (r: Result<Client40.Nfs4File>)
      requires Valid()
      modifies this`issued, this`slotSeqid, this`openSeqid, rpc, rpc.sock
      ensures Valid() && openSeqid == Next(old(openSeqid))
      ensures var w := OpenWork(clientid, dir, name, 2, create, openSeqid);
              var a := Retry(old(rpc.View()), SessionRequests(sessionid, |old(issued)|, w), 0);
              && rpc.View() == a.conn && issued == old(issued) + RepeatWork(w, a.count)
              && r == OpenedFile(a.reply, openSeqid)
    {
      r := DoOpen(dir, name, OPEN4_SHARE_ACCESS_WRITE, create);
    }

    /* ----- READDIR ----- */

    /** One page of a listing. */
    method ReadDirPage(dir: bytes, cur: Cursor) returns (r: Result<Page<DirEntry4>>)
      requires Valid()
      modifies this`issued, this`slotSeqid, rpc, rpc.sock
      ensures Valid() && issued == old(issued) + [ReadDirWork(dir, cur)]
      ensures (rpc.View(), r) ==
              Ask(old(rpc.View()), InSession(sessionid, |old(issued)|, ReadDirWork(dir, cur)), TakeReadDirReply41)
    {
      hide PutOp, FhOp, PutCompound, Exchange, Delivered, Messages, Logged, Holds, InSession, TakeFront41, TakeReadDir, BitmapOf;
      var ops := new XdrEncoder();
      EncodeFh(ops, dir);
      EncodeReadDir(ops, cur.cookie, cur.verf, 4096, 32768, READDIR_IDS);
      HoldsTwo(ops.buf, FhOp(dir), Op.ReadDir(cur.cookie, cur.verf, 4096, 32768, BitmapOf(READDIR_IDS)));
      var reply :- Compound41([], ops.buf, 2, ReadDirOps(dir, cur.cookie, cur.verf));
      var dec := new XdrDecoder(reply);
      var _ :- CheckFront41(dec);
      r := DecodeReadDir(dec);
    }

    method ReadDir(dir: bytes) returns (r: Result<seq<DirEntry4>>)
      requires Valid()
      modifies this`issued, this`slotSeqid, rpc, rpc.sock
      ensures Valid()
      ensures var l := FetchDir41(old(rpc.View()), sessionid, |old(issued)|, dir, 0, START);
              && rpc.View() == l.conn && r == Outcome(l)
              && issued == old(issued) + ReadDirWorks(dir, AllCursors(l, Client40.CookieOf))
    {
      hide Ask, FetchDir41, Delivered, Messages, Logged, InSession, Cursors, ReadDirWorks, ReadDirWork, After, Advance;
      ghost var first := |issued|;
      ghost var all := FetchDir41(rpc.View(), sessionid, first, dir, 0, START);
      ghost var pages: seq<Page<DirEntry4>> := [];
      var entries: seq<DirEntry4> := [];
      var cur := START;
      NoPagesYet(dir, all);
      while true
        invariant Valid() && cur == After(START, pages, Client40.CookieOf) && entries == Listed(pages)
        invariant all == WithPages(pages, FetchDir41(rpc.View(), sessionid, first, dir, |pages|, cur))
        invariant issued == old(issued) + ReadDirWorks(dir, Cursors(pages, |pages|, Client40.CookieOf))
        decreases |rpc.sock.incoming|
      {
        FetchStep41(rpc.View(), sessionid, first, dir, |pages|, cur);
        ReadDirWorksSnoc(dir, Cursors(pages, |pages|, Client40.CookieOf), cur);
        var page := ReadDirPage(dir, cur);
        if page.Failure? {
          CursorsSnoc(pages, Page([], cur.verf, true), Client40.CookieOf);
          assert pages + [] == pages;
          return Failure(page.error);
        }
        var p := page.value;
        CursorsSnoc(pages, p, Client40.CookieOf);
        AfterSnoc(START, pages, p, Client40.CookieOf);
        ListedSnoc(pages, p);
        WithPagesTwice(pages, [p],
                       FetchDir41(rpc.View(), sessionid, first, dir, |pages| + 1, Advance(cur, p, Client40.CookieOf)));
        entries, cur := Collect(entries, cur, p, Client40.CookieOf);
        pages := pages + [p];
        if p.eof { break; }
      }
      r := Success(entries);
    }
  }

  function ReadDirWork(dir: bytes, cur: Cursor): Work { Work([], ReadDirOps(dir, cur.cookie, cur.verf)) }

  function ReadDirWorks(dir: bytes, cursors: seq<Cursor>): (r: seq<Work>)
    ensures |r| == |cursors|
  {
    seq(|cursors|, k requires 0 <= k < |cursors| => ReadDirWork(dir, cursors[k]))
  }

  lemma ReadDirWorksSnoc(dir: bytes, cursors: seq<Cursor>, cur: Cursor)
    ensures ReadDirWorks(dir, cursors + [cur]) == ReadDirWorks(dir, cursors) + [ReadDirWork(dir, cur)]
  {
    hide ReadDirWork;
  }

  function ReadDirRequest(session: sessionid4, first: nat, dir: bytes, n: nat, cur: Cursor): Request {
    SessionRequest(session, first + n, ReadDirWork(dir, cur))
  }

  function ReadDirRequests(session: sessionid4, first: nat, dir: bytes): (nat, Cursor) -> Request {
    (n: nat, cur: Cursor) => ReadDirRequest(session, first, dir, n, cur)
  }

  function FetchDir41(c: Conn, session: sessionid4, first: nat, dir: bytes, n: nat, cur: Cursor): Listing<DirEntry4> {
    Fetch(c, ReadDirRequests(session, first, dir), TakeReadDirReply41, Client40.CookieOf, n, cur)
  }

  /** One turn of the loop. */
  lemma FetchStep41(c: Conn, session: sessionid4, first: nat, dir: bytes, n: nat, cur: Cursor)
    ensures var (c', page) := Ask(c, InSession(session, first + n, ReadDirWork(dir, cur)), TakeReadDirReply41);
            && FetchDir41(c, session, first, dir, n, cur) ==
               (match page
                case Failure(e) => Listing(c', [], Failure(e))
                case Success(p) =>
                  if p.eof then Listing(c', [p], Success(()))
                  else WithPages([p], FetchDir41(c', session, first, dir, n + 1, Advance(cur, p, Client40.CookieOf))))
            && (page.Success? ==> |c'.link.incoming| < |c.link.incoming|)
  {
    hide Exchange, PutCompound, InSession, TakeReadDirReply41, ReadDirWork, Advance;
  }

  lemma NoPagesYet(dir: bytes, l: Listing<DirEntry4>)
    ensures After(START, [], Client40.CookieOf) == START && WithPages([], l) == l && Listed<DirEntry4>([]) == []
    ensures ReadDirWorks(dir, Cursors([], 0, Client40.CookieOf)) == []
  {
    assert [] + l.pages == l.pages;
  }

  lemma SequencePrepended(session: sessionid4, n: nat, w: Work, ops: bytes, numOps: u32, allOps: bytes)
    requires Holds(ops, w.ops) && numOps == |w.ops|
    requires allOps == PutOp(Sequence(session, (1 + n) % TWO_32, 0, 0, false), ops)
    ensures PutHeader(w.tag, 1, Next(numOps), allOps) == PutCompound(InSession(session, n, w))
  {
    hide PutOp, PutHeader;
    var m := InSession(session, n, w);
    assert m.ops[1..] == w.ops;
    assert Low32(|m.ops|) == Next(numOps);
  }

  /* ----- the start of a session ----- */

  function TakeExchangeIdReply(s: bytes): Parsed<ExchangeIdResult> { var (_, s) :- TakeReplyHeader(s); TakeExchangeId(s) }
  function TakeCreateSessionReply(s: bytes): Parsed<sessionid4> { var (_, s) :- TakeReplyHeader(s); TakeCreateSession(s) }

  function ExchangeIdRequest(verf: verifier4): Compound { Compound(INIT, 1, [ExchangeId(verf, OPEN_OWNER)]) }
  function CreateSessionRequest(e: ExchangeIdResult): Compound { Compound(INIT, 1, [CreateSession(e.clientid, e.sequence)]) }

  type Ids = (u64, sessionid4)

  /** EXCHANGE_ID, then CREATE_SESSION with the client id and the sequence that it returned. */
  function BootstrapSpec(c: Conn, verf: verifier4): Client40.Connected<Ids> {
    var m1 := ExchangeIdRequest(verf);
    var (c1, e) := Ask(c, m1, TakeExchangeIdReply);
    if e.Failure? then Client40.Connected(c1, Failure(e.error), [m1])
    else
      var m2 := CreateSessionRequest(e.value);
      var (c2, session) := Ask(c1, m2, TakeCreateSessionReply);
      var ids := if session.Failure? then Failure(session.error) else Success((e.value.clientid, session.value));
      Client40.Connected(c2, ids, [m1, m2])
  }

  method AskExchangeId(rpc: TcpRpcClient, verf: verifier4) returns (r: Result<ExchangeIdResult>)
    requires rpc.Valid()
    modifies rpc, rpc.sock
    ensures rpc.Valid() && (rpc.View(), r) == Ask(old(rpc.View()), ExchangeIdRequest(verf), TakeExchangeIdReply)
    ensures rpc.calls == old(rpc.calls) + [CallOf(old(rpc.View()), NfsRequest(PutCompound(ExchangeIdRequest(verf))))]
  {
    hide PutOp, PutHeader, PutCompound, Exchange, Delivered, Messages, TakeReplyHeader, TakeExchangeId, CallOf;
    var ops := new XdrEncoder();
    EncodeExchangeId(ops, verf, OPEN_OWNER);
    HeaderOne(ops.buf, ExchangeId(verf, OPEN_OWNER), INIT, 1);
    var reply :- CallCompound(rpc, INIT, ops.buf, 1, 1);
    var dec := new XdrDecoder(reply);
    var _ :- CheckCompoundStatus(dec);
    r := DecodeExchangeId(dec);
  }

  method AskCreateSession(rpc: TcpRpcClient, e: ExchangeIdResult) returns (r: Result<sessionid4>)
    requires rpc.Valid()
    modifies rpc, rpc.sock
    ensures rpc.Valid() && (rpc.View(), r) == Ask(old(rpc.View()), CreateSessionRequest(e), TakeCreateSessionReply)
    ensures rpc.calls == old(rpc.calls) + [CallOf(old(rpc.View()), NfsRequest(PutCompound(CreateSessionRequest(e))))]
  {
    hide PutOp, PutHeader, PutCompound, Exchange, Delivered, Messages, TakeReplyHeader, TakeCreateSession, CallOf;
    var ops := new XdrEncoder();
    EncodeCreateSession(ops, e.clientid, e.sequence);
    HeaderOne(ops.buf, CreateSession(e.clientid, e.sequence), INIT, 1);
    var reply :- CallCompound(rpc, INIT, ops.buf, 1, 1);
    var dec := new XdrDecoder(reply);
    var _ :- CheckCompoundStatus(dec);
    r := DecodeCreateSession(dec);
  }

  method Bootstrap(rpc: TcpRpcClient, verf: verifier4) returns (r: Result<Ids>)
    requires rpc.Valid()
    modifies rpc, rpc.sock
    ensures var o := BootstrapSpec(old(rpc.View()), verf);
            rpc.Valid() && rpc.View() == o.conn && r == o.result && Logged(rpc.calls, |old(rpc.calls)|, o.log)
  {
    hide Ask, Delivered, Messages, Logged, CallOf, PutCompound, ExchangeIdRequest, CreateSessionRequest;
    ghost var base := |rpc.calls|;
    assert Logged(rpc.calls, base, []) by { NothingLogged(rpc.calls); }
    LoggedSnoc(rpc.calls, base, [], rpc.View(), ExchangeIdRequest(verf));
    ghost var m := ExchangeIdRequest(verf);
    assert [] + [m] == [m];
    var e :- AskExchangeId(rpc, verf);
    assert [m] + [CreateSessionRequest(e)] == [m, CreateSessionRequest(e)];
    LoggedSnoc(rpc.calls, base, [m], rpc.View(), CreateSessionRequest(e));
    var session :- AskCreateSession(rpc, e);
    r := Success((e.clientid, session));
  }

  /** The session is set up and its first two requests are RECLAIM_COMPLETE and a look at the root, whose handle
      is dropped. */
  function ConnectSpec(c: Conn, verf: verifier4): Client40.Connected<Ids> {
    var b := BootstrapSpec(c, verf);
    if b.result.Failure? then b
    else
      var session := b.result.value.1;
      var m3 := InSession(session, 0, RECLAIM_WORK);
      var (c3, reclaimed) := Ask(b.conn, m3, TakeFront41);
      if reclaimed.Failure? then Client40.Connected(c3, Failure(reclaimed.error), b.log + [m3])
      else
        var m4 := InSession(session, 1, ROOT_WORK);
        var (c4, root) := Ask(c3, m4, TakeRootReply41);
        Client40.Connected(c4, if root.Failure? then Failure(root.error) else b.result, b.log + [m3] + [m4])
  }

  /** The constructor of the original. */
  method Connect(rpc: TcpRpcClient, verf: verifier4) returns (r: Result<Nfs41Client>)
    requires rpc.Valid()
    modifies rpc, rpc.sock
    ensures rpc.Valid()
    ensures var o := ConnectSpec(old(rpc.View()), verf);
            && rpc.View() == o.conn && (r.Success? <==> o.result.Success?)
            && (r.Failure? ==> r.error == o.result.error)
            && (r.Success? ==> (r.value.clientid, r.value.sessionid) == o.result.value)
            && Logged(rpc.calls, |old(rpc.calls)|, o.log)
    ensures r.Success? ==>
              && fresh(r.value) && r.value.rpc == rpc && r.value.Valid()
              && r.value.issued == [RECLAIM_WORK, ROOT_WORK] && r.value.openSeqid == 0
  {
    hide Delivered, Messages, Logged, Sessioned, BootstrapSpec, InSession, Ask, CallOf, PutCompound;
    ghost var base, b := |rpc.calls|, BootstrapSpec(rpc.View(), verf);
    var ids :- Bootstrap(rpc, verf);
    var (clientid, sessionid) := ids;
    var client := new Nfs41Client(rpc, clientid, sessionid);
    LoggedSnoc(rpc.calls, base, b.log, rpc.View(), InSession(sessionid, 0, RECLAIM_WORK));
    var _ :- client.SendReclaimComplete();
    LoggedSnoc(rpc.calls, base, b.log + [InSession(sessionid, 0, RECLAIM_WORK)], rpc.View(), InSession(sessionid, 1, ROOT_WORK));
    var _ :- client.LookAtRoot();
    r := Success(client);
  }

  /* ----- exactly once, from the bytes on the connection ----- */

  /** What a server makes of the session on a connection that carries `sent`. */
  ghost predicate ExecutesInOrder(session: sessionid4, works: seq<Work>, base: nat, sent: bytes, whole: bool) {
    var got := ReceivedCalls(sent);
    && |got| <= base + |works|
    && (whole ==> |got| == base + |works|)
    && (|got| >= base ==>
          ServeAll(Slot(session, 0, []), ReceivedCompounds(got[base..]))
          == Executed(Slot(session, (|got| - base) % TWO_32, works[..|got| - base])))
  }

  lemma SessionedFront(session: sessionid4, works: seq<Work>, n: nat)
    requires n <= |works|
    ensures Sessioned(session, works)[..n] == Sessioned(session, works[..n])
  {
  }

  /** At any moment of any run, a server that reads what has arrived on the connection has executed a beginning
      of the list of issued requests, each once and in order, and all of them if the connection still stands. */
  lemma ExactlyOnceOnTheWire(c: Nfs41Client)
    requires c.Valid() && forall m <- c.rpc.msgs :: |m| < TWO_31
    ensures ExecutesInOrder(c.sessionid, c.issued, c.base, c.rpc.sock.sent, c.rpc.sock.capacity > 0)
  {
    hide Logged, Messages, Delivered, ReceivedCalls, ReceivedCompounds, ServeAll, Sessioned;
    var rpc := c.rpc;
    RequestsArrive(rpc.calls, rpc.msgs, c.base, Sessioned(c.sessionid, c.issued), rpc.sock.sent, rpc.sock.capacity);
    var n := |ReceivedCalls(rpc.sock.sent)| - c.base;
    if n >= 0 {
      SessionedFront(c.sessionid, c.issued, n);
      ExactlyOnce(c.sessionid, c.issued[..n]);
    }
  }

  /** What a server has made of the requests it has read, if it refuses the given ones. */
  ghost predicate LosesStep(session: sessionid4, works: seq<Work>, base: nat, sent: bytes, refused: seq<bool>) {
    var got := ReceivedCalls(sent);
    |got| == base + |refused| ==>
      var ms := ReceivedCompounds(got[base..]);
      && |ms| == |refused| <= |works|
      && var r := ServeSome(Slot(session, 0, []), ms, refused);
         var f := FirstRefused(refused);
         && (OthersExecuted(r, refused) <==> InStep(refused))
         && (|refused| <= TWO_32 ==> r.slot == Slot(session, f % TWO_32, works[..f]))
  }

  /** The same at any moment of any run, from the bytes on the connection, for any refusals. */
  lemma RefusalsOnTheWire(c: Nfs41Client, refused: seq<bool>)
    requires c.Valid() && forall m <- c.rpc.msgs :: |m| < TWO_31
    ensures LosesStep(c.sessionid, c.issued, c.base, c.rpc.sock.sent, refused)
  {
    hide Logged, Messages, Delivered, ReceivedCalls, ReceivedCompounds, ServeSome, Sessioned, InStep, OthersExecuted;
    hide FirstRefused;
    var rpc := c.rpc;
    RequestsArrive(rpc.calls, rpc.msgs, c.base, Sessioned(c.sessionid, c.issued), rpc.sock.sent, rpc.sock.capacity);
    var n := |ReceivedCalls(rpc.sock.sent)| - c.base;
    if n == |refused| {
      SessionedFront(c.sessionid, c.issued, n);
      ExactlyOnceIff(c.sessionid, c.issued[..n], refused);
      if n <= TWO_32 {
        StuckAfterRefusal(c.sessionid, c.issued[..n], refused);
        assert c.issued[..n][..FirstRefused(refused)] == c.issued[..FirstRefused(refused)];
      }
    }
  }
}
