/** COMPOUND requests: how they are sent, the operation list of each call of the facade, and how the reply to
    each is read. */
module Compounds {
  import opened Wire
  import opened Xdr
  import opened Rpc
  import opened Transport
  import opened Bitmap
  import opened Attributes
  import opened Ops
  import opened OpResults
  import opened Paging

  const NFS4_PROG: u32 := 100003
  const NFS4_VERS: u32 := 4
  const NFS4_PROC_COMPOUND: u32 := 1
  const INIT: bytes := [105, 110, 105, 116]  // "init"

  function NfsRequest(args: bytes): Request { Request(NFS4_PROG, NFS4_VERS, NFS4_PROC_COMPOUND, args) }

  method CallCompound(rpc: TcpRpcClient, tag: bytes, ops: bytes, numOps: u32, minor: u32) returns (r: Result<bytes>)
    requires rpc.Valid()
    modifies rpc, rpc.sock
    ensures rpc.Valid()
    ensures rpc.calls == old(rpc.calls) + [CallOf(old(rpc.View()), NfsRequest(PutHeader(tag, minor, numOps, ops)))]
    ensures (rpc.View(), r) == Exchange(old(rpc.View()), NfsRequest(PutHeader(tag, minor, numOps, ops)))
  {
    hide PutOpaque, PutU32, PutCall, Exchange, CallOf, Delivered, Messages;
    var hdr := new XdrEncoder();
    hdr.PutOpaque(tag);
    hdr.PutU32(minor);
    hdr.PutU32(numOps);
    var args := hdr.buf + ops;
    assert args == [] + PutHeader(tag, minor, numOps, ops) == PutHeader(tag, minor, numOps, ops);
    assert rpc.View() == old(rpc.View());
    r := rpc.Call(NFS4_PROG, NFS4_VERS, NFS4_PROC_COMPOUND, args);
  }

  /** The calls from the `base`-th on are the given COMPOUNDs. */
  ghost predicate Logged(calls: seq<Call>, base: nat, issued: seq<Compound>) {
    |calls| == base + |issued| && forall i :: 0 <= i < |issued| ==> IsCompound(calls[base + i], issued[i])
  }

  ghost predicate IsCompound(c: Call, m: Compound) {
    c.prog == NFS4_PROG && c.vers == NFS4_VERS && c.proc == NFS4_PROC_COMPOUND && c.args == PutCompound(m)
  }

  lemma NothingLogged(calls: seq<Call>)
    ensures Logged(calls, |calls|, [])
  {
  }

  lemma LoggedSnoc(calls: seq<Call>, base: nat, issued: seq<Compound>, c: Conn, m: Compound)
    requires Logged(calls, base, issued)
    ensures Logged(calls + [CallOf(c, NfsRequest(PutCompound(m)))], base, issued + [m])
  {
    hide PutCompound;
  }

  /** Version 4 of the NFS program has one procedure but NULL. */
  predicate IsForNfs4(c: Call) { c.prog == 100003 && c.vers == 4 && c.proc == 1 }

  /** The requests that a server makes of the calls it has read, as far as they are COMPOUNDs and nothing else. */
  function ReceivedCompounds(got: seq<Parsed<Call>>): seq<Compound>
    decreases |got|
  {
    if got == [] || got[0].Err? || !IsForNfs4(got[0].value) then []
    else
      match TakeCompound(got[0].value.args)
      case Err(_) => []
      case Ok(m, _) => [m] + ReceivedCompounds(got[1..])
  }

  lemma {:induction false} CompoundsReceived(calls: seq<Call>, issued: seq<Compound>, got: seq<Parsed<Call>>)
    requires |got| <= |calls| == |issued|
    requires forall i :: 0 <= i < |calls| ==> IsCompound(calls[i], issued[i]) && |calls[i].args| < TWO_32
    requires forall i :: 0 <= i < |got| ==> got[i] == Ok(calls[i], [])
    ensures ReceivedCompounds(got) == issued[..|got|]
  {
    hide PutCompound, TakeCompound;
    if got != [] {
      CompoundRoundTrip(issued[0]);
      CompoundsReceived(calls[1..], issued[1..], got[1..]);
      assert [issued[0]] + issued[1..][..|got| - 1] == issued[..|got|];
    }
  }

  /** The server has read a beginning of the list of issued requests, operation by operation, and all of it if
      the connection still stands. */
  ghost predicate ReadInOrder(issued: seq<Compound>, base: nat, sent: bytes, whole: bool) {
    var got := ReceivedCalls(sent);
    && |got| <= base + |issued|
    && (whole ==> |got| == base + |issued|)
    && (|got| >= base ==> ReceivedCompounds(got[base..]) == issued[..|got| - base])
  }

  /** At any moment of any run: what was sent, cut into fragments anyhow and read back by a server, is what was
      issued; the operation count of every header is right and no byte is left over. */
  lemma RequestsArrive(calls: seq<Call>, msgs: seq<bytes>, base: nat, issued: seq<Compound>, sent: bytes, capacity: nat)
    requires Delivered(msgs, sent, capacity) && Messages(calls, msgs) && Logged(calls, base, issued)
    requires forall m <- msgs :: |m| < TWO_31
    ensures ReadInOrder(issued, base, sent, capacity > 0)
  {
    hide PutCall, PutCompound, ReceivedCalls, ReceivedCompounds, Stream, IsCompound;
    CallsArrive(calls, msgs, sent);
    var got := ReceivedCalls(sent);
    if |got| >= base {
      forall i | 0 <= i < |issued| ensures IsCompound(calls[base..][i], issued[i]) && |calls[base..][i].args| < TWO_32 {
        assert msgs[base + i] == PutCall(calls[base + i]);
      }
      CompoundsReceived(calls[base..], issued, got[base..]);
    }
  }

  function Ask<T>(c: Conn, m: Compound, take: bytes -> Parsed<T>): (Conn, Result<T>) {
    Query(c, NfsRequest(PutCompound(m)), take)
  }

  const NFS4ERR_GRACE: u32 := 10013

  datatype Attempts = Attempts(conn: Conn, reply: Result<bytes>, count: nat)

  /** OPEN is sent again as long as the server is in its grace period; `request(n)` is the `n`-th attempt. */
  function Retry(c: Conn, request: nat -> Request, n: nat): (r: Attempts)
    ensures r.count > 0
    ensures r.reply.Success? ==> TakeReplyHeader(r.reply.value).Ok?
    decreases |c.link.incoming|
  {
    var (c', reply) := Exchange(c, request(n));
    match reply
    case Failure(e) => Attempts(c', Failure(e), 1)
    case Success(b) =>
      match TakeReplyHeader(b)
      case Ok(_, _) => Attempts(c', reply, 1)
      case Err(e) =>
        if e == Status(NFS4ERR_GRACE) then var a := Retry(c', request, n + 1); a.(count := a.count + 1)
        else Attempts(c', Failure(e), 1)
  }

  /* ----- the operation list of each call ----- */

  /** The empty handle stands for the root and is sent as PUTROOTFH. */
  function FhOp(fh: bytes): Op { if fh == [] then PutRootFh else PutFh(fh) }

  const GETATTR_IDS: seq<u32> :=
    [TYPE, CHANGE, SIZE, FILEID, MODE, NUMLINKS, OWNER, OWNER_GROUP, TIME_ACCESS, TIME_METADATA, TIME_MODIFY]
  const READDIR_IDS: seq<u32> := [TYPE, SIZE, FILEID, MODE, TIME_MODIFY]
  const ANONYMOUS: Stateid4 := Stateid4(0, [0, 0, 0, 0, 0, 0, 0, 0, 0, 0, 0, 0])

  function LookupOps(dir: bytes, name: bytes): seq<Op> { [FhOp(dir), Lookup(name), GetFh] }
  function GetAttrOps(fh: bytes): seq<Op> { [FhOp(fh), GetAttr(BitmapOf(GETATTR_IDS))] }
  function AccessOps(fh: bytes, mask: u32): seq<Op> { [FhOp(fh), Access(mask)] }
  function OpenOps(dir: bytes, seqid: u32, access: u32, clientid: u64, owner: bytes, create: bool, name: bytes): seq<Op> {
    [FhOp(dir), Open(seqid, access, clientid, owner, if create then Some(NOTHING_SET) else None, name), GetFh]
  }
  function ConfirmOps(fh: bytes, stateid: Stateid4, seqid: u32): seq<Op> { [FhOp(fh), OpenConfirm(stateid, seqid)] }
  function CloseOps(fh: bytes, seqid: u32, stateid: Stateid4): seq<Op> { [FhOp(fh), Close(seqid, stateid)] }
  function ReadOps(fh: bytes, stateid: Stateid4, offset: u64, count: u32): seq<Op> { [FhOp(fh), Read(stateid, offset, count)] }
  function WriteOps(fh: bytes, stateid: Stateid4, offset: u64, stable: u32, data: bytes): seq<Op> {
    [FhOp(fh), Write(stateid, offset, stable, data)]
  }
  function CommitOps(fh: bytes, offset: u64, count: u32): seq<Op> { [FhOp(fh), Commit(offset, count)] }
  function MkdirOps(dir: bytes, name: bytes, attrs: Sattr4): seq<Op> { [FhOp(dir), CreateDir(name, attrs), GetFh] }
  function SymlinkOps(dir: bytes, name: bytes, target: bytes, attrs: Sattr4): seq<Op> {
    [FhOp(dir), CreateSymlink(target, name, attrs), GetFh]
  }
  function RemoveOps(dir: bytes, name: bytes): seq<Op> { [FhOp(dir), Remove(name)] }
  function RenameOps(srcDir: bytes, srcName: bytes, dstDir: bytes, dstName: bytes): seq<Op> {
    [FhOp(srcDir), SaveFh, FhOp(dstDir), Rename(srcName, dstName)]
  }
  function ReadLinkOps(fh: bytes): seq<Op> { [FhOp(fh), ReadLink] }
  function SetAttrOps(fh: bytes, attrs: Sattr4): seq<Op> { [FhOp(fh), SetAttr(ANONYMOUS, attrs)] }
  function RenewOps(clientid: u64): seq<Op> { [Renew(clientid)] }
  function ReadDirOps(dir: bytes, cookie: u64, verf: verifier4): seq<Op> {
    [FhOp(dir), ReadDir(cookie, verf, 4096, 32768, BitmapOf(READDIR_IDS))]
  }

  const NOTHING_SET := Sattr4(None, None, None, None, None, None)

  function Request40(ops: seq<Op>): Compound { Compound([], 0, ops) }

  method EncodeFh(enc: XdrEncoder, fh: bytes)
    modifies enc
    ensures forall k {:trigger enc.buf + k} :: enc.buf + k == old(enc.buf) + PutOp(FhOp(fh), k)
  {
    hide PutOp;
    if fh == [] { EncodePutRootFh(enc); } else { EncodePutFh(enc, fh); }
  }

  /** A buffer that holds the wire form of a list of operations. */
  ghost predicate Holds(buf: bytes, ops: seq<Op>) { buf == PutOps(ops, []) }

  lemma HoldsTwo(buf: bytes, a: Op, b: Op)
    requires buf + [] == PutOp(a, PutOp(b, []))
    ensures Holds(buf, [a, b])
  {
    hide PutOp, PutOps;
    OpsTwo(a, b, []);
    assert buf + [] == buf;
  }

  lemma HoldsThree(buf: bytes, a: Op, b: Op, c: Op)
    requires buf + [] == PutOp(a, PutOp(b, PutOp(c, [])))
    ensures Holds(buf, [a, b, c])
  {
    hide PutOp, PutOps;
    OpsThree(a, b, c, []);
    assert buf + [] == buf;
  }

  lemma HoldsFour(buf: bytes, a: Op, b: Op, c: Op, d: Op)
    requires buf + [] == PutOp(a, PutOp(b, PutOp(c, PutOp(d, []))))
    ensures Holds(buf, [a, b, c, d])
  {
    hide PutOp, PutOps;
    OpsFour(a, b, c, d, []);
    assert buf + [] == buf;
  }

  /** The operations of a rename. */
  method RenameBuffer(srcDir: bytes, srcName: bytes, dstDir: bytes, dstName: bytes) returns (buf: bytes)
    ensures Holds(buf, RenameOps(srcDir, srcName, dstDir, dstName))
  {
    hide PutOp, FhOp, Holds;
    var ops := new XdrEncoder();
    EncodeFh(ops, srcDir);
    EncodeSaveFh(ops);
    EncodeFh(ops, dstDir);
    EncodeRename(ops, srcName, dstName);
    HoldsFour(ops.buf, FhOp(srcDir), SaveFh, FhOp(dstDir), Rename(srcName, dstName));
    buf := ops.buf;
  }

  /** One operation and its header. */
  lemma HeaderOne(buf: bytes, a: Op, tag: bytes, minor: u32)
    requires buf + [] == PutOp(a, [])
    ensures PutHeader(tag, minor, 1, buf) == PutCompound(Compound(tag, minor, [a]))
  {
    hide PutOp, PutHeader;
    OpsOne(a, []);
    assert buf + [] == buf;
  }

  /* ----- how replies are read: by position ----- */

  /** The header and the result of PUTFH or PUTROOTFH. */
  function TakeFront(s: bytes): Parsed<()> {
    var (_, s) :- TakeReplyHeader(s);
    TakeStatus(s)
  }

  function TakeLookupReply(s: bytes): Parsed<bytes> {
    var (_, s) :- TakeFront(s);
    var (_, s) :- TakeStatus(s);
    TakeGetFh(s)
  }
  function TakeGetAttrReply(s: bytes): Parsed<Fattr4> { var (_, s) :- TakeFront(s); TakeGetAttr(s) }
  function TakeAccessReply(s: bytes): Parsed<u32> {
    var (_, s) :- TakeFront(s);
    var (a, s) :- TakeAccess(s);
    Ok(a.access, s)
  }
  function TakeOpenReply(s: bytes): Parsed<(Open4Result, bytes)> {
    var (_, s) :- TakeFront(s);
    var (o, s) :- TakeOpen(s);
    var (fh, s) :- TakeGetFh(s);
    Ok((o, fh), s)
  }
  function TakeConfirmReply(s: bytes): Parsed<Stateid4> { var (_, s) :- TakeFront(s); TakeOpenConfirm(s) }
  function TakeCloseReply(s: bytes): Parsed<()> { var (_, s) :- TakeFront(s); Dropped(TakeOpenConfirm(s)) }
  function TakeReadReply(s: bytes): Parsed<bytes> { var (_, s) :- TakeFront(s); TakeRead(s) }
  function TakeWriteReply(s: bytes): Parsed<u32> {
    var (_, s) :- TakeFront(s);
    var (w, s) :- TakeWrite(s);
    Ok(w.count, s)
  }
  function TakeCommitReply(s: bytes): Parsed<verifier4> { var (_, s) :- TakeFront(s); TakeCommit(s) }
  function TakeCreateReply(s: bytes): Parsed<bytes> {
    var (_, s) :- TakeFront(s);
    var (_, s) :- TakeCreate(s);
    TakeGetFh(s)
  }
  function TakeRemoveReply(s: bytes): Parsed<()> { var (_, s) :- TakeFront(s); TakeRemove(s) }
  function TakeRenameReply(s: bytes): Parsed<()> {
    var (_, s) :- TakeFront(s);
    var (_, s) :- TakeStatus(s);
    var (_, s) :- TakeStatus(s);
    TakeRename(s)
  }
  function TakeReadLinkReply(s: bytes): Parsed<bytes> { var (_, s) :- TakeFront(s); TakeGetFh(s) }
  function TakeSetAttrReply(s: bytes): Parsed<()> { var (_, s) :- TakeFront(s); TakeSetAttr(s) }
  function TakeReadDirReply(s: bytes): Parsed<Page<DirEntry4>> { var (_, s) :- TakeFront(s); TakeReadDir(s) }

  method CheckFront(dec: XdrDecoder) returns (r: Result<()>)
    requires dec.Valid()
    modifies dec
    ensures dec.Reads(r, TakeFront(old(dec.Rest())))
  {
    hide TakeReplyHeader, TakeStatus;
    var _ :- CheckCompoundStatus(dec);
    r := CheckOpStatus(dec);
  }
}
