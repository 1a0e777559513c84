/** The NFSv4.0 client: one COMPOUND per call of the facade, and OPEN with its sequence ids (section 9.1.7 of
    RFC 7530). */
module Client40 {
  import opened Wire
  import opened Xdr
  import opened Rpc
  import opened Transport
  import opened Bitmap
  import opened Attributes
  import opened Ops
  import opened OpResults
  import opened Paging
  import opened Compounds

  const OPEN_OWNER: bytes := [110, 102, 115, 99, 108, 105, 101, 110, 116, 45, 118, 52]  // "nfsclient-v4"

  datatype Nfs4File = Nfs4File(fh: bytes, stateid: Stateid4, seqid: u32)

  /* ----- the requests that carry an open sequence id ----- */

  function OpenSeqid(m: Compound): Option<u32> {
    if |m.ops| < 2 then None
    else match m.ops[1]
         case Open(seqid, _, _, _, _, _) => Some(seqid)
         case OpenConfirm(_, seqid) => Some(seqid)
         case _ => None
  }

  /** The OPEN and OPEN_CONFIRM requests among those issued. */
  function Sequenced(issued: seq<Compound>): (r: seq<Compound>)
    ensures forall i :: 0 <= i < |r| ==> OpenSeqid(r[i]).Some?
  {
    if issued == [] then []
    else
      var front, last := Sequenced(issued[..|issued| - 1]), issued[|issued| - 1];
      if OpenSeqid(last).Some? then front + [last] else front
  }

  lemma SequencedSnoc(issued: seq<Compound>, m: Compound)
    ensures Sequenced(issued + [m]) == Sequenced(issued) + (if OpenSeqid(m).Some? then [m] else [])
  {
    assert (issued + [m])[..|issued|] == issued;
  }

  /** Ids start at 1; each request repeats the one before it operation by operation or has the next id. */
  ghost predicate Stepwise(s: seq<Compound>) {
    && (forall i :: 0 <= i < |s| ==> OpenSeqid(s[i]).Some?)
    && (s != [] ==> OpenSeqid(s[0]) == Some(1))
    && (forall i :: 0 < i < |s| ==> s[i] == s[i - 1] || OpenSeqid(s[i]) == Some(Next(OpenSeqid(s[i - 1]).value)))
  }

  ghost function LastSeqid(s: seq<Compound>): u32 {
    if s == [] || OpenSeqid(s[|s| - 1]).None? then 0 else OpenSeqid(s[|s| - 1]).value
  }

  ghost predicate SeqidsOk(issued: seq<Compound>, last: u32) {
    Stepwise(Sequenced(issued)) && LastSeqid(Sequenced(issued)) == last
  }

  /** A request without an open sequence id changes nothing. */
  lemma OtherRequest(issued: seq<Compound>, m: Compound, last: u32)
    requires SeqidsOk(issued, last) && OpenSeqid(m).None?
    ensures SeqidsOk(issued + [m], last)
  {
    SequencedSnoc(issued, m);
    assert Sequenced(issued) + [] == Sequenced(issued);
  }

  lemma NextRequest(issued: seq<Compound>, m: Compound, last: u32)
    requires SeqidsOk(issued, last) && OpenSeqid(m) == Some(Next(last))
    ensures SeqidsOk(issued + [m], Next(last))
  {
    SequencedSnoc(issued, m);
  }

  lemma RepeatedRequest(issued: seq<Compound>, m: Compound, last: u32)
    requires SeqidsOk(issued, last) && issued != [] && issued[|issued| - 1] == m && OpenSeqid(m).Some?
    ensures SeqidsOk(issued + [m], last)
  {
    SequencedSnoc(issued, m);
    SequencedSnoc(issued[..|issued| - 1], m);
    assert issued == issued[..|issued| - 1] + [m];
  }

  /** How many different requests there are among the first `n + 1`. */
  function Changes(s: seq<Compound>, n: nat): nat
    requires n < |s|
  {
    if n == 0 then 0 else Changes(s, n - 1) + (if s[n] == s[n - 1] then 0 else 1)
  }

  /** Over a whole run the ids of different requests are consecutive modulo 2^32: no gap and no reuse. */
  lemma {:induction false} SeqidsConsecutive(s: seq<Compound>, n: nat)
    requires Stepwise(s) && n < |s|
    ensures OpenSeqid(s[n]) == Some((1 + Changes(s, n)) % TWO_32)
  {
    hide OpenSeqid;
    if n > 0 {
      SeqidsConsecutive(s, n - 1);
      NextModulo(1 + Changes(s, n - 1));
    }
  }

  lemma NextModulo(x: nat)
    ensures Next(x % TWO_32) == (x + 1) % TWO_32
  {
  }

  /* ----- OPEN ----- */

  function OpenRequest(clientid: u64, dir: bytes, name: bytes, access: u32, create: bool, seqid: u32): Compound {
    Request40(OpenOps(dir, seqid, access, clientid, OPEN_OWNER, create, name))
  }

  function SameRequest(m: Compound): nat -> Request { (n: nat) => NfsRequest(PutCompound(m)) }

  function Repeat(m: Compound, n: nat): (r: seq<Compound>)
    ensures |r| == n && forall i :: 0 <= i < n ==> r[i] == m
  {
    seq(n, _ => m)
  }

  lemma RepeatOnce(issued: seq<Compound>, m: Compound, n: nat)
    ensures issued + Repeat(m, n) + [m] == issued + Repeat(m, n + 1)
    ensures n > 0 ==> issued + Repeat(m, n) != [] && (issued + Repeat(m, n))[|issued| + n - 1] == m
    ensures issued + Repeat(m, 0) == issued
  {
  }

  datatype Opened = Opened(conn: Conn, file: Result<Nfs4File>, log: seq<Compound>, seqid: u32)

  /** OPEN with the next sequence id, as often as it takes, then OPEN_CONFIRM with the one after it if the
      server asks for it. */
  function OpenSpec(c: Conn, last: u32, clientid: u64, dir: bytes, name: bytes, access: u32, create: bool): Opened {
    var q := Next(last);
    var m := OpenRequest(clientid, dir, name, access, create, q);
    var a := Retry(c, SameRequest(m), 0);
    var log := Repeat(m, a.count);
    match a.reply
    case Failure(e) => Opened(a.conn, Failure(e), log, q)
    case Success(b) =>
      match TakeOpenReply(b)
      case Err(e) => Opened(a.conn, Failure(e), log, q)
      case Ok((o, fh), _) =>
        if BitAnd(o.rflags, OPEN4_RESULT_CONFIRM) == 0
        then Opened(a.conn, Success(Nfs4File(fh, o.stateid, q)), log, q)
        else ConfirmSpec(a.conn, log, fh, o.stateid, Next(q))
  }

  function ConfirmSpec(c: Conn, log: seq<Compound>, fh: bytes, stateid: Stateid4, q: u32): Opened {
    var m := Request40(ConfirmOps(fh, stateid, q));
    var (c', confirmed) := Ask(c, m, TakeConfirmReply);
    Opened(c', match confirmed
               case Failure(e) => Failure(e)
               case Success(stateid') => Success(Nfs4File(fh, stateid', q)), log + [m], q)
  }

  /** The file carries the last id that was allocated for it; the OPEN used the first and OPEN_CONFIRM, if
      there was one, the second. */
  predicate OneOrTwoIds(o: Opened, last: u32) {
    && (o.file.Success? ==> o.file.value.seqid == o.seqid)
    && (o.seqid == Next(last) || o.seqid == Next(Next(last)))
    && o.log != [] && OpenSeqid(o.log[0]) == Some(Next(last)) && OpenSeqid(o.log[|o.log| - 1]) == Some(o.seqid)
  }

  lemma FileSeqid(c: Conn, last: u32, clientid: u64, dir: bytes, name: bytes, access: u32, create: bool)
    ensures OneOrTwoIds(OpenSpec(c, last, clientid, dir, name, access, create), last)
  {
    hide Retry, Exchange, PutCompound, TakeOpenReply, TakeConfirmReply;
  }

  /* ----- READDIR ----- */

  function ReadDirRequest(dir: bytes, cur: Cursor): Compound { Request40(ReadDirOps(dir, cur.cookie, cur.verf)) }

  function ReadDirRequests(dir: bytes): (nat, Cursor) -> Request {
    (n: nat, cur: Cursor) => NfsRequest(PutCompound(ReadDirRequest(dir, cur)))
  }

  function CookieOf(e: DirEntry4): u64 { e.cookie }

  function ReadDirLog(dir: bytes, cursors: seq<Cursor>): (r: seq<Compound>)
    ensures |r| == |cursors|
  {
    seq(|cursors|, k requires 0 <= k < |cursors| => ReadDirRequest(dir, cursors[k]))
  }

  function FetchDir(c: Conn, dir: bytes, n: nat, cur: Cursor): Listing<DirEntry4> {
    Fetch(c, ReadDirRequests(dir), TakeReadDirReply, CookieOf, n, cur)
  }

  /** One turn of the loop. */
  lemma FetchStep(c: Conn, dir: bytes, n: nat, cur: Cursor)
    ensures var (c', page) := Ask(c, ReadDirRequest(dir, cur), TakeReadDirReply);
            FetchDir(c, dir, n, cur) ==
            match page
            case Failure(e) => Listing(c', [], Failure(e))
            case Success(p) =>
              if p.eof then Listing(c', [p], Success(()))
              else WithPages([p], FetchDir(c', dir, n + 1, Advance(cur, p, CookieOf)))
    ensures var (c', page) := Ask(c, ReadDirRequest(dir, cur), TakeReadDirReply);
            page.Success? ==> |c'.link.incoming| < |c.link.incoming|
  {
    hide Exchange, PutCompound, TakeReadDirReply, ReadDirRequest, Advance;
  }

  lemma ReadDirLogSnoc(dir: bytes, cursors: seq<Cursor>, cur: Cursor)
    ensures ReadDirLog(dir, cursors + [cur]) == ReadDirLog(dir, cursors) + [ReadDirRequest(dir, cur)]
  {
  }

  class Nfs4Client {
    const rpc: TcpRpcClient
    const clientid: u64
    var openSeqid: u32
    /** The requests issued so far, and how many calls had been made before the first. */
    ghost var issued: seq<Compound>
    ghost const base: nat

    ghost predicate Valid()
      reads this, rpc, rpc.sock
    {
      rpc.Valid() && Logged(rpc.calls, base, issued) && SeqidsOk(issued, openSeqid)
    }

    constructor (rpc: TcpRpcClient, clientid: u64)
      requires rpc.Valid()
      ensures Valid() && this.rpc == rpc && this.clientid == clientid && openSeqid == 0 && issued == []
    {
      hide PutCompound, Messages, Delivered, OpenSeqid;
      this.rpc := rpc;
      this.clientid := clientid;
      openSeqid, issued, base := 0, [], |rpc.calls|;
    }

    method CallCompound(ops: bytes, numOps: u32, ghost m: seq<Op>) returns (r: Result<bytes>)
      requires rpc.Valid() && Logged(rpc.calls, base, issued)
      requires Holds(ops, m) && numOps == |m|
      modifies this`issued, rpc, rpc.sock
      ensures rpc.Valid() && Logged(rpc.calls, base, issued) && issued == old(issued) + [Request40(m)]
      ensures old(Valid()) && OpenSeqid(Request40(m)).None? ==> Valid()
      ensures rpc.calls == old(rpc.calls) + [CallOf(old(rpc.View()), NfsRequest(PutCompound(Request40(m))))]
      ensures (rpc.View(), r) == Exchange(old(rpc.View()), NfsRequest(PutCompound(Request40(m))))
    {
      hide PutHeader, PutCall, Exchange, CallOf, Delivered, Messages, SeqidsOk, Logged;
      assert PutHeader([], 0, numOps, ops) == PutCompound(Request40(m)) by { HeaderIs(ops, numOps, m); }
      LoggedSnoc(rpc.calls, base, issued, rpc.View(), Request40(m));
      if SeqidsOk(issued, openSeqid) && OpenSeqid(Request40(m)).None? { OtherRequest(issued, Request40(m), openSeqid); }
      r := Compounds.CallCompound(rpc, [], ops, numOps, 0);
      issued := issued + [Request40(m)];
    }

    method Lookup(dir: bytes, name: bytes) returns (r: Result<bytes>)
      requires Valid()
      modifies this`issued, rpc, rpc.sock
      ensures Valid() && issued == old(issued) + [Request40(LookupOps(dir, name))]
      ensures (rpc.View(), r) == Ask(old(rpc.View()), Request40(LookupOps(dir, name)), TakeLookupReply)
    {
      hide PutOp, FhOp, PutCompound, Exchange, Delivered, Messages, SeqidsOk, Logged, Holds, TakeFront, TakeStatus, TakeGetFh;
      var ops := new XdrEncoder();
      EncodeFh(ops, dir);
      EncodeLookup(ops, name);
      EncodeGetFh(ops);
      HoldsThree(ops.buf, FhOp(dir), Op.Lookup(name), GetFh);
      var reply :- CallCompound(ops.buf, 3, LookupOps(dir, name));
      var dec := new XdrDecoder(reply);
      var _ :- CheckFront(dec);
      var _ :- CheckOpStatus(dec);
      r := DecodeGetFh(dec);
    }

    method GetAttr(fh: bytes) returns (r: Result<Fattr4>)
      requires Valid()
      modifies this`issued, rpc, rpc.sock
      ensures Valid() && issued == old(issued) + [Request40(GetAttrOps(fh))]
      ensures (rpc.View(), r) == Ask(old(rpc.View()), Request40(GetAttrOps(fh)), TakeGetAttrReply)
    {
      hide PutOp, FhOp, PutCompound, Exchange, Delivered, Messages, SeqidsOk, Logged, Holds, TakeFront, TakeGetAttr, BitmapOf;
      var ops := new XdrEncoder();
      EncodeFh(ops, fh);
      EncodeGetAttr(ops, GETATTR_IDS);
      HoldsTwo(ops.buf, FhOp(fh), Op.GetAttr(BitmapOf(GETATTR_IDS)));
      var reply :- CallCompound(ops.buf, 2, GetAttrOps(fh));
      var dec := new XdrDecoder(reply);
      var _ :- CheckFront(dec);
      r := DecodeGetAttr(dec);
    }

    method Access(fh: bytes, mask: u32) returns (r: Result<u32>)
      requires Valid()
      modifies this`issued, rpc, rpc.sock
      ensures Valid() && issued == old(issued) + [Request40(AccessOps(fh, mask))]
      ensures (rpc.View(), r) == Ask(old(rpc.View()), Request40(AccessOps(fh, mask)), TakeAccessReply)
    {
      hide PutOp, FhOp, PutCompound, Exchange, Delivered, Messages, SeqidsOk, Logged, Holds, TakeFront, TakeAccess;
      var ops := new XdrEncoder();
      EncodeFh(ops, fh);
      EncodeAccess(ops, mask);
      HoldsTwo(ops.buf, FhOp(fh), Op.Access(mask));
      var reply :- CallCompound(ops.buf, 2, AccessOps(fh, mask));
      var dec := new XdrDecoder(reply);
      var _ :- CheckFront(dec);
      var res :- DecodeAccess(dec);
      r := Success(res.access);
    }

    method Close(f: Nfs4File) returns (r: Result<()>)
      requires Valid()
      modifies this`issued, rpc, rpc.sock
      ensures Valid() && issued == old(issued) + [Request40(CloseOps(f.fh, f.seqid, f.stateid))]
      ensures (rpc.View(), r) == Ask(old(rpc.View()), Request40(CloseOps(f.fh, f.seqid, f.stateid)), TakeCloseReply)
    {
      hide PutOp, FhOp, PutCompound, Exchange, Delivered, Messages, SeqidsOk, Logged, Holds, TakeFront, TakeOpenConfirm;
      var ops := new XdrEncoder();
      EncodeFh(ops, f.fh);
      EncodeClose(ops, f.seqid, f.stateid);
      HoldsTwo(ops.buf, FhOp(f.fh), Op.Close(f.seqid, f.stateid));
      var reply :- CallCompound(ops.buf, 2, CloseOps(f.fh, f.seqid, f.stateid));
      var dec := new XdrDecoder(reply);
      var _ :- CheckFront(dec);
      r := DecodeClose(dec);
    }

    method Read(f: Nfs4File, offset: u64, count: u32) returns (r: Result<bytes>)
      requires Valid()
      modifies this`issued, rpc, rpc.sock
      ensures Valid() && issued == old(issued) + [Request40(ReadOps(f.fh, f.stateid, offset, count))]
      ensures (rpc.View(), r) == Ask(old(rpc.View()), Request40(ReadOps(f.fh, f.stateid, offset, count)), TakeReadReply)
    {
      hide PutOp, FhOp, PutCompound, Exchange, Delivered, Messages, SeqidsOk, Logged, Holds, TakeFront, TakeRead;
      var ops := new XdrEncoder();
      EncodeFh(ops, f.fh);
      EncodeRead(ops, f.stateid, offset, count);
      HoldsTwo(ops.buf, FhOp(f.fh), Op.Read(f.stateid, offset, count));
      var reply :- CallCompound(ops.buf, 2, ReadOps(f.fh, f.stateid, offset, count));
      var dec := new XdrDecoder(reply);
      var _ :- CheckFront(dec);
      r := DecodeRead(dec);
    }

    method Write(f: Nfs4File, offset: u64, stable: u32, data: bytes) returns (r: Result<u32>)
      requires Valid()
      modifies this`issued, rpc, rpc.sock
      ensures Valid() && issued == old(issued) + [Request40(WriteOps(f.fh, f.stateid, offset, stable, data))]
      ensures (rpc.View(), r) ==
              Ask(old(rpc.View()), Request40(WriteOps(f.fh, f.stateid, offset, stable, data)), TakeWriteReply)
    {
      hide PutOp, FhOp, PutCompound, Exchange, Delivered, Messages, SeqidsOk, Logged, Holds, TakeFront, TakeWrite;
      var ops := new XdrEncoder();
      EncodeFh(ops, f.fh);
      EncodeWrite(ops, f.stateid, offset, stable, data);
      HoldsTwo(ops.buf, FhOp(f.fh), Op.Write(f.stateid, offset, stable, data));
      var reply :- CallCompound(ops.buf, 2, WriteOps(f.fh, f.stateid, offset, stable, data));
      var dec := new XdrDecoder(reply);
      var _ :- CheckFront(dec);
      var res :- DecodeWrite(dec);
      r := Success(res.count);
    }

    method Commit(f: Nfs4File, offset: u64, count: u32) returns (r: Result<verifier4>)
      requires Valid()
      modifies this`issued, rpc, rpc.sock
      ensures Valid() && issued == old(issued) + [Request40(CommitOps(f.fh, offset, count))]
      ensures (rpc.View(), r) == Ask(old(rpc.View()), Request40(CommitOps(f.fh, offset, count)), TakeCommitReply)
    {
      hide PutOp, FhOp, PutCompound, Exchange, Delivered, Messages, SeqidsOk, Logged, Holds, TakeFront, TakeCommit;
      var ops := new XdrEncoder();
      EncodeFh(ops, f.fh);
      EncodeCommit(ops, offset, count);
      HoldsTwo(ops.buf, FhOp(f.fh), Op.Commit(offset, count));
      var reply :- CallCompound(ops.buf, 2, CommitOps(f.fh, offset, count));
      var dec := new XdrDecoder(reply);
      var _ :- CheckFront(dec);
      r := DecodeCommit(dec);
    }

    method Mkdir(dir: bytes, name: bytes, attrs: Sattr4) returns (r: Result<bytes>)
      requires Valid()
      modifies this`issued, rpc, rpc.sock
      ensures Valid() && issued == old(issued) + [Request40(MkdirOps(dir, name, attrs))]
      ensures (rpc.View(), r) == Ask(old(rpc.View()), Request40(MkdirOps(dir, name, attrs)), TakeCreateReply)
    {
      hide PutOp, FhOp, PutCompound, Exchange, Delivered, Messages, SeqidsOk, Logged, Holds, TakeFront, TakeCreate, TakeGetFh;
      var ops := new XdrEncoder();
      EncodeFh(ops, dir);
      EncodeCreateDir(ops, name, attrs);
      EncodeGetFh(ops);
      HoldsThree(ops.buf, FhOp(dir), CreateDir(name, attrs), GetFh);
      var reply :- CallCompound(ops.buf, 3, MkdirOps(dir, name, attrs));
      var dec := new XdrDecoder(reply);
      var _ :- CheckFront(dec);
      var _ :- DecodeCreate(dec);
      r := DecodeGetFh(dec);
    }

    method Remove(dir: bytes, name: bytes) returns (r: Result<()>)
      requires Valid()
      modifies this`issued, rpc, rpc.sock
      ensures Valid() && issued == old(issued) + [Request40(RemoveOps(dir, name))]
      ensures (rpc.View(), r) == Ask(old(rpc.View()), Request40(RemoveOps(dir, name)), TakeRemoveReply)
    {
      hide PutOp, FhOp, PutCompound, Exchange, Delivered, Messages, SeqidsOk, Logged, Holds, TakeFront, TakeRemove;
      var ops := new XdrEncoder();
      EncodeFh(ops, dir);
      EncodeRemove(ops, name);
      HoldsTwo(ops.buf, FhOp(dir), Op.Remove(name));
      var reply :- CallCompound(ops.buf, 2, RemoveOps(dir, name));
      var dec := new XdrDecoder(reply);
      var _ :- CheckFront(dec);
      r := DecodeRemove(dec);
    }

    method Rename(srcDir: bytes, srcName: bytes, dstDir: bytes, dstName: bytes) returns (r: Result<()>)
      requires Valid()
      modifies this`issued, rpc, rpc.sock
      ensures Valid() && issued == old(issued) + [Request40(RenameOps(srcDir, srcName, dstDir, dstName))]
      ensures (rpc.View(), r) == Ask(old(rpc.View()), Request40(RenameOps(srcDir, srcName, dstDir, dstName)), TakeRenameReply)
    {
      hide PutOp, FhOp, PutCompound, Exchange, Delivered, Messages, SeqidsOk, Logged, Holds, TakeFront, TakeStatus, TakeRename;
      var ops := RenameBuffer(srcDir, srcName, dstDir, dstName);
      var reply :- CallCompound(ops, 4, RenameOps(srcDir, srcName, dstDir, dstName));
      var dec := new XdrDecoder(reply);
      var _ :- CheckFront(dec);
      var _ :- CheckOpStatus(dec);
      var _ :- CheckOpStatus(dec);
      r := DecodeRename(dec);
    }

    method Symlink(dir: bytes, name: bytes, target: bytes, attrs: Sattr4) returns (r: Result<bytes>)
      requires Valid()
      modifies this`issued, rpc, rpc.sock
      ensures Valid() && issued == old(issued) + [Request40(SymlinkOps(dir, name, target, attrs))]
      ensures (rpc.View(), r) == Ask(old(rpc.View()), Request40(SymlinkOps(dir, name, target, attrs)), TakeCreateReply)
    {
      hide PutOp, FhOp, PutCompound, Exchange, Delivered, Messages, SeqidsOk, Logged, Holds, TakeFront, TakeCreate, TakeGetFh;
      var ops := new XdrEncoder();
      EncodeFh(ops, dir);
      EncodeCreateSymlink(ops, name, target, attrs);
      EncodeGetFh(ops);
      HoldsThree(ops.buf, FhOp(dir), CreateSymlink(target, name, attrs), GetFh);
      var reply :- CallCompound(ops.buf, 3, SymlinkOps(dir, name, target, attrs));
      var dec := new XdrDecoder(reply);
      var _ :- CheckFront(dec);
      var _ :- DecodeCreate(dec);
      r := DecodeGetFh(dec);
    }

    method ReadLink(fh: bytes) returns (r: Result<bytes>)
      requires Valid()
      modifies this`issued, rpc, rpc.sock
      ensures Valid() && issued == old(issued) + [Request40(ReadLinkOps(fh))]
      ensures (rpc.View(), r) == Ask(old(rpc.View()), Request40(ReadLinkOps(fh)), TakeReadLinkReply)
    {
      hide PutOp, FhOp, PutCompound, Exchange, Delivered, Messages, SeqidsOk, Logged, Holds, TakeFront, TakeGetFh;
      var ops := new XdrEncoder();
      EncodeFh(ops, fh);
      EncodeReadLink(ops);
      HoldsTwo(ops.buf, FhOp(fh), Op.ReadLink);
      var reply :- CallCompound(ops.buf, 2, ReadLinkOps(fh));
      var dec := new XdrDecoder(reply);
      var _ :- CheckFront(dec);
      r := DecodeReadLink(dec);
    }

    method SetAttr(fh: bytes, attrs: Sattr4) returns (r: Result<()>)
      requires Valid()
      modifies this`issued, rpc, rpc.sock
      ensures Valid() && issued == old(issued) + [Request40(SetAttrOps(fh, attrs))]
      ensures (rpc.View(), r) == Ask(old(rpc.View()), Request40(SetAttrOps(fh, attrs)), TakeSetAttrReply)
    {
      hide PutOp, FhOp, PutCompound, Exchange, Delivered, Messages, SeqidsOk, Logged, Holds, TakeFront, TakeSetAttr;
      var ops := new XdrEncoder();
      EncodeFh(ops, fh);
      EncodeSetAttr(ops, ANONYMOUS, attrs);
      HoldsTwo(ops.buf, FhOp(fh), Op.SetAttr(ANONYMOUS, attrs));
      var reply :- CallCompound(ops.buf, 2, SetAttrOps(fh, attrs));
      var dec := new XdrDecoder(reply);
      var _ :- CheckFront(dec);
      r := DecodeSetAttr(dec);
    }

    method Renew() returns (r: Result<()>)
      requires Valid()
      modifies this`issued, rpc, rpc.sock
      ensures Valid() && issued == old(issued) + [Request40(RenewOps(clientid))]
      ensures (rpc.View(), r) == Ask(old(rpc.View()), Request40(RenewOps(clientid)), TakeFront)
    {
      hide PutOp, PutCompound, Exchange, Delivered, Messages, SeqidsOk, Logged, TakeFront;
      var ops := new XdrEncoder();
      EncodeRenew(ops, clientid);
      OpsOne(Op.Renew(clientid), []);
      assert ops.buf + [] == ops.buf;
      var reply :- CallCompound(ops.buf, 1, RenewOps(clientid));
      var dec := new XdrDecoder(reply);
      r := CheckFront(dec);
    }

    /** The look at the root when a client starts; its handle is dropped. */
    method LookAtRoot() returns (r: Result<bytes>)
      requires Valid()
      modifies this`issued, rpc, rpc.sock
      ensures Valid() && issued == old(issued) + [ROOT_REQUEST]
      ensures (rpc.View(), r) == Ask(old(rpc.View()), ROOT_REQUEST, TakeRootReply)
      ensures rpc.calls == old(rpc.calls) + [CallOf(old(rpc.View()), NfsRequest(PutCompound(ROOT_REQUEST)))]
    {
      hide PutOp, PutCompound, Exchange, Delivered, Messages, SeqidsOk, Logged, Holds, TakeFront, TakeGetFh, CallOf;
      var ops := new XdrEncoder();
      EncodePutRootFh(ops);
      EncodeGetFh(ops);
      HoldsTwo(ops.buf, PutRootFh, GetFh);
      var reply :- CallCompound(ops.buf, 2, [PutRootFh, GetFh]);
      var dec := new XdrDecoder(reply);
      var _ :- CheckFront(dec);
      r := DecodeGetFh(dec);
    }

    /** One page of a listing. */
    method ReadDirPage(dir: bytes, cur: Cursor) returns (r: Result<Page<DirEntry4>>)
      requires Valid()
      modifies this`issued, rpc, rpc.sock
      ensures Valid() && issued == old(issued) + [ReadDirRequest(dir, cur)]
      ensures (rpc.View(), r) == Ask(old(rpc.View()), ReadDirRequest(dir, cur), TakeReadDirReply)
    {
      hide PutOp, FhOp, PutCompound, Exchange, Delivered, Messages, SeqidsOk, Logged, Holds, TakeFront, TakeReadDir, BitmapOf;
      var ops := new XdrEncoder();
      EncodeFh(ops, dir);
      EncodeReadDir(ops, cur.cookie, cur.verf, 4096, 32768, READDIR_IDS);
      HoldsTwo(ops.buf, FhOp(dir), Op.ReadDir(cur.cookie, cur.verf, 4096, 32768, BitmapOf(READDIR_IDS)));
      var reply :- CallCompound(ops.buf, 2, ReadDirOps(dir, cur.cookie, cur.verf));
      var dec := new XdrDecoder(reply);
      var _ :- CheckFront(dec);
      r := DecodeReadDir(dec);
    }

    method ReadDir(dir: bytes) returns (r: Result<seq<DirEntry4>>)
      requires Valid()
      modifies this`issued, rpc, rpc.sock
      ensures Valid()
      ensures var l := FetchDir(old(rpc.View()), dir, 0, START);
              && rpc.View() == l.conn && r == Outcome(l)
              && issued == old(issued) + ReadDirLog(dir, AllCursors(l, CookieOf))
    {
      hide Ask, FetchDir, Delivered, Messages, SeqidsOk, Logged, Cursors, ReadDirLog, ReadDirRequest, After, Advance;
      ghost var all := FetchDir(rpc.View(), dir, 0, START);
      ghost var pages: seq<Page<DirEntry4>> := [];
      var entries: seq<DirEntry4> := [];
      var cur := START;
      NoPagesYet(dir, all);
      while true
        invariant Valid() && cur == After(START, pages, CookieOf) && entries == Listed(pages)
        invariant all == WithPages(pages, FetchDir(rpc.View(), dir, |pages|, cur))
        invariant issued == old(issued) + ReadDirLog(dir, Cursors(pages, |pages|, CookieOf))
        decreases |rpc.sock.incoming|
      {
        FetchStep(rpc.View(), dir, |pages|, cur);
        ReadDirLogSnoc(dir, Cursors(pages, |pages|, CookieOf), cur);
        var page := ReadDirPage(dir, cur);
        if page.Failure? {
          CursorsSnoc(pages, Page([], cur.verf, true), CookieOf);
          assert pages + [] == pages;
          return Failure(page.error);
        }
        var p := page.value;
        CursorsSnoc(pages, p, CookieOf);
        AfterSnoc(START, pages, p, CookieOf);
        ListedSnoc(pages, p);
        WithPagesTwice(pages, [p], FetchDir(rpc.View(), dir, |pages| + 1, Advance(cur, p, CookieOf)));
        entries, cur := Collect(entries, cur, p, CookieOf);
        pages := pages + [p];
        if p.eof { break; }
      }
      r := Success(entries);
    }

    /* ----- OPEN ----- */

    /** One attempt of OPEN. */
    method SendOpen(dir: bytes, name: bytes, access: u32, create: bool, seqid: u32) returns (r: Result<bytes>)
      requires rpc.Valid() && Logged(rpc.calls, base, issued)
      modifies this`issued, rpc, rpc.sock
      ensures rpc.Valid() && Logged(rpc.calls, base, issued)
      ensures issued == old(issued) + [OpenRequest(clientid, dir, name, access, create, seqid)]
      ensures (rpc.View(), r) ==
              Exchange(old(rpc.View()), NfsRequest(PutCompound(OpenRequest(clientid, dir, name, access, create, seqid))))
    {
      hide PutOp, PutCompound, Exchange, Delivered, Messages, Logged, Holds;
      var ops := new XdrEncoder();
      EncodeFh(ops, dir);
      if create {
        EncodeOpenCreate(ops, seqid, access, clientid, OPEN_OWNER, name, NOTHING_SET);
      } else {
        EncodeOpenNoCreate(ops, seqid, access, clientid, OPEN_OWNER, name);
      }
      EncodeGetFh(ops);
      HoldsThree(ops.buf, FhOp(dir),
                 Open(seqid, access, clientid, OPEN_OWNER, if create then Some(NOTHING_SET) else None, name), GetFh);
      r := CallCompound(ops.buf, 3, OpenOps(dir, seqid, access, clientid, OPEN_OWNER, create, name));
    }

    /** The retry loop. */
    method RetryOpen(dir: bytes, name: bytes, access: u32, create: bool, seqid: u32, ghost last: u32)
      returns (reply: Result<bytes>)
      requires rpc.Valid() && Logged(rpc.calls, base, issued) && SeqidsOk(issued, last) && seqid == Next(last)
      modifies this`issued, rpc, rpc.sock
      ensures rpc.Valid() && Logged(rpc.calls, base, issued) && SeqidsOk(issued, seqid)
      ensures var m := OpenRequest(clientid, dir, name, access, create, seqid);
              var a := Retry(old(rpc.View()), SameRequest(m), 0);
              rpc.View() == a.conn && reply == a.reply && issued == old(issued) + Repeat(m, a.count)
    {
      hide PutCompound, Exchange, Delivered, Messages, Logged, SeqidsOk, OpenSeqid, OpenRequest, TakeReplyHeader;
      ghost var m := OpenRequest(clientid, dir, name, access, create, seqid);
      ghost var n := 0;
      assert OpenSeqid(m) == Some(seqid) by { OpenRequestSeqid(clientid, dir, name, access, create, seqid); }
      while true
        invariant rpc.Valid() && Logged(rpc.calls, base, issued)
        invariant issued == old(issued) + Repeat(m, n)
        invariant SeqidsOk(issued, if n == 0 then last else seqid)
        invariant var a, b := Retry(old(rpc.View()), SameRequest(m), 0), Retry(rpc.View(), SameRequest(m), n);
                  a.conn == b.conn && a.reply == b.reply && a.count == n + b.count
        decreases |rpc.sock.incoming|
      {
        RepeatOnce(old(issued), m, n);
        if n == 0 { NextRequest(issued, m, last); } else { RepeatedRequest(issued, m, seqid); }
        reply := SendOpen(dir, name, access, create, seqid);
        n := n + 1;
        if reply.Failure? { return; }
        var dec := new XdrDecoder(reply.value);
        var status := CheckCompoundStatus(dec);
        if status.Success? { return; }
        if status.error != Status(NFS4ERR_GRACE) { return Failure(status.error); }
      }
    }

    /** Confirms an open file. */
    method ConfirmOpen(fh: bytes, stateid: Stateid4, seqid: u32) returns (r: Result<Stateid4>)
      requires rpc.Valid() && Logged(rpc.calls, base, issued)
      modifies this`issued, rpc, rpc.sock
      ensures rpc.Valid() && Logged(rpc.calls, base, issued)
      ensures issued == old(issued) + [Request40(ConfirmOps(fh, stateid, seqid))]
      ensures (rpc.View(), r) == Ask(old(rpc.View()), Request40(ConfirmOps(fh, stateid, seqid)), TakeConfirmReply)
    {
      hide PutOp, PutCompound, Exchange, Delivered, Messages, Logged, Holds, TakeFront, TakeOpenConfirm;
      var ops := new XdrEncoder();
      EncodeFh(ops, fh);
      EncodeOpenConfirm(ops, stateid, seqid);
      HoldsTwo(ops.buf, FhOp(fh), OpenConfirm(stateid, seqid));
      var reply :- CallCompound(ops.buf, 2, ConfirmOps(fh, stateid, seqid));
      var dec := new XdrDecoder(reply);
      var _ :- CheckFront(dec);
      r := DecodeOpenConfirm(dec);
    }

    method DecodeOpenReply(reply: bytes) returns (r: Result<(Open4Result, bytes)>)
      ensures r == TakeOpenReply(reply).ToResult()
    {
      hide TakeFront, TakeOpen, TakeGetFh;
      var dec := new XdrDecoder(reply);
      var _ :- CheckFront(dec);
      var res :- DecodeOpen(dec);
      var fh :- DecodeGetFh(dec);
      r := Success((res, fh));
    }

    method DoOpen(dir: bytes, name: bytes, access: u32, create: bool) returns (r: Result<Nfs4File>)
      requires Valid()
      modifies this`issued, this`openSeqid, rpc, rpc.sock
      ensures Valid()
      ensures var o := OpenSpec(old(rpc.View()), old(openSeqid), clientid, dir, name, access, create);
              rpc.View() == o.conn && r == o.file && issued == old(issued) + o.log && openSeqid == o.seqid
    {
      hide PutCompound, Exchange, Delivered, Messages, Logged, SeqidsOk, Ask, Retry, TakeOpenReply, TakeConfirmReply;
      openSeqid := Next(openSeqid);
      var seqid := openSeqid;
      var reply :- RetryOpen(dir, name, access, create, seqid, old(openSeqid));
      var res :- DecodeOpenReply(reply);
      var (o, fh) := res;
      if BitAnd(o.rflags, OPEN4_RESULT_CONFIRM) == 0 {
        return Success(Nfs4File(fh, o.stateid, seqid));
      }
      openSeqid := Next(openSeqid);
      var confirmSeqid := openSeqid;
      NextRequest(issued, Request40(ConfirmOps(fh, o.stateid, confirmSeqid)), seqid);
      var stateid :- ConfirmOpen(fh, o.stateid, confirmSeqid);
      r := Success(Nfs4File(fh, stateid, confirmSeqid));
    }

    method OpenRead(dir: bytes, name: bytes) returns (r: Result<Nfs4File>)
      requires Valid()
      modifies this`issued, this`openSeqid, rpc, rpc.sock
      ensures Valid()
      ensures var o := OpenSpec(old(rpc.View()), old(openSeqid), clientid, dir, name, 1, false);
              rpc.View() == o.conn && r == o.file && issued == old(issued) + o.log && openSeqid == o.seqid
    {
      r := DoOpen(dir, name, OPEN4_SHARE_ACCESS_READ, false);
    }

    method OpenWrite(dir: bytes, name: bytes, create: bool) returns (r: Result<Nfs4File>)
      requires Valid()
      modifies this`issued, this`openSeqid, rpc, rpc.sock
      ensures Valid()
      ensures var o := OpenSpec(old(rpc.View()), old(openSeqid), clientid, dir, name, 2, create);
              rpc.View() == o.conn && r == o.file && issued == old(issued) + o.log && openSeqid == o.seqid
    {
      r := DoOpen(dir, name, OPEN4_SHARE_ACCESS_WRITE, create);
    }
  }

  /* ----- the start of a client ----- */

  const ROOT_REQUEST := Request40([PutRootFh, GetFh])

  function TakeRootReply(s: bytes): Parsed<bytes> { var (_, s) :- TakeFront(s); TakeGetFh(s) }

  function TakeSetClientIdReply(s: bytes): Parsed<ClientIdResult> { var (_, s) :- TakeReplyHeader(s); TakeSetClientId(s) }

  function SetClientIdRequest(verf: verifier4): Compound { Compound(INIT, 0, [SetClientId(verf, OPEN_OWNER)]) }
  function ConfirmRequest(i: ClientIdResult): Compound { Compound(INIT, 0, [SetClientIdConfirm(i.clientid, i.verf)]) }

  datatype Connected<+T> = Connected(conn: Conn, result: Result<T>, log: seq<Compound>)

  /** SETCLIENTID, its confirmation with the verifier that it returned, and the look at the root. */
  function ConnectSpec(c: Conn, verf: verifier4): Connected<u64> {
    var m1 := SetClientIdRequest(verf);
    var (c1, id) := Ask(c, m1, TakeSetClientIdReply);
    if id.Failure? then Connected(c1, Failure(id.error), [m1])
    else
      var m2 := ConfirmRequest(id.value);
      var (c2, confirmed) := Ask(c1, m2, TakeFront);
      if confirmed.Failure? then Connected(c2, Failure(confirmed.error), [m1, m2])
      else
        var (c3, root) := Ask(c2, ROOT_REQUEST, TakeRootReply);
        Connected(c3, if root.Failure? then Failure(root.error) else Success(id.value.clientid), [m1, m2, ROOT_REQUEST])
  }

  method AskClientId(rpc: TcpRpcClient, verf: verifier4) returns (r: Result<ClientIdResult>)
    requires rpc.Valid()
    modifies rpc, rpc.sock
    ensures rpc.Valid() && (rpc.View(), r) == Ask(old(rpc.View()), SetClientIdRequest(verf), TakeSetClientIdReply)
    ensures rpc.calls == old(rpc.calls) + [CallOf(old(rpc.View()), NfsRequest(PutCompound(SetClientIdRequest(verf))))]
  {
    hide PutOp, PutHeader, PutCompound, Exchange, Delivered, Messages, TakeReplyHeader, TakeSetClientId, CallOf;
    var ops := new XdrEncoder();
    EncodeSetClientId(ops, verf, OPEN_OWNER);
    HeaderOne(ops.buf, SetClientId(verf, OPEN_OWNER), INIT, 0);
    var reply :- Compounds.CallCompound(rpc, INIT, ops.buf, 1, 0);
    var dec := new XdrDecoder(reply);
    var _ :- CheckCompoundStatus(dec);
    r := DecodeSetClientId(dec);
  }

  method ConfirmClientId(rpc: TcpRpcClient, i: ClientIdResult) returns (r: Result<()>)
    requires rpc.Valid()
    modifies rpc, rpc.sock
    ensures rpc.Valid() && (rpc.View(), r) == Ask(old(rpc.View()), ConfirmRequest(i), TakeFront)
    ensures rpc.calls == old(rpc.calls) + [CallOf(old(rpc.View()), NfsRequest(PutCompound(ConfirmRequest(i))))]
  {
    hide PutOp, PutHeader, PutCompound, Exchange, Delivered, Messages, TakeFront, CallOf;
    var ops := new XdrEncoder();
    EncodeSetClientIdConfirm(ops, i.clientid, i.verf);
    HeaderOne(ops.buf, SetClientIdConfirm(i.clientid, i.verf), INIT, 0);
    var reply :- Compounds.CallCompound(rpc, INIT, ops.buf, 1, 0);
    var dec := new XdrDecoder(reply);
    r := CheckFront(dec);
  }

  /** The constructor of the original. */
  method Connect(rpc: TcpRpcClient, verf: verifier4) returns (r: Result<Nfs4Client>)
    requires rpc.Valid()
    modifies rpc, rpc.sock
    ensures rpc.Valid()
    ensures var o := ConnectSpec(old(rpc.View()), verf);
            && rpc.View() == o.conn && (r.Success? <==> o.result.Success?)
            && (r.Failure? ==> r.error == o.result.error)
            && (r.Success? ==> r.value.clientid == o.result.value)
            && Logged(rpc.calls, |old(rpc.calls)|, o.log)
    ensures r.Success? ==>
              fresh(r.value) && r.value.rpc == rpc && r.value.Valid() && r.value.issued == [ROOT_REQUEST]
                   && r.value.openSeqid == 0
  {
    hide Delivered, Messages, Logged, SeqidsOk, Ask, SetClientIdRequest, ConfirmRequest, CallOf, PutCompound;
    ghost var base := |rpc.calls|;
    assert Logged(rpc.calls, base, []) by { NothingLogged(rpc.calls); }
    LoggedSnoc(rpc.calls, base, [], rpc.View(), SetClientIdRequest(verf));
    ghost var m := SetClientIdRequest(verf);
    assert [] + [m] == [m];
    var id :- AskClientId(rpc, verf);
    assert [m] + [ConfirmRequest(id)] == [m, ConfirmRequest(id)];
    LoggedSnoc(rpc.calls, base, [m], rpc.View(), ConfirmRequest(id));
    var _ :- ConfirmClientId(rpc, id);
    var client := new Nfs4Client(rpc, id.clientid);
    assert [m, ConfirmRequest(id)] + [ROOT_REQUEST] == [m, ConfirmRequest(id), ROOT_REQUEST];
    LoggedSnoc(rpc.calls, base, [m, ConfirmRequest(id)], rpc.View(), ROOT_REQUEST);
    var _ :- client.LookAtRoot();
    r := Success(client);
  }

  /* ----- from the bytes on the connection ----- */

  lemma {:induction false} SequencedFront(issued: seq<Compound>, n: nat)
    requires n <= |issued|
    ensures Sequenced(issued[..n]) <= Sequenced(issued)
    decreases |issued| - n
  {
    if n == |issued| {
      assert issued[..n] == issued;
    } else {
      SequencedFront(issued, n + 1);
      assert issued[..n + 1] == issued[..n] + [issued[n]];
      SequencedSnoc(issued[..n], issued[n]);
    }
  }

  /** What a server reads off the connection of a client: the requests in order and, among the OPEN and
      OPEN_CONFIRM requests, ids that start at 1 and go up by one or repeat the request before. */
  lemma SeqidsOnTheWire(c: Nfs4Client)
    requires c.Valid() && forall m <- c.rpc.msgs :: |m| < TWO_31
    ensures ReadInOrder(c.issued, c.base, c.rpc.sock.sent, c.rpc.sock.capacity > 0)
    ensures var got := ReceivedCalls(c.rpc.sock.sent);
            |got| >= c.base ==> Stepwise(Sequenced(ReceivedCompounds(got[c.base..])))
  {
    hide Logged, Messages, Delivered, ReceivedCalls, ReceivedCompounds, Sequenced, OpenSeqid;
    RequestsArrive(c.rpc.calls, c.rpc.msgs, c.base, c.issued, c.rpc.sock.sent, c.rpc.sock.capacity);
    var got := ReceivedCalls(c.rpc.sock.sent);
    if |got| >= c.base { SequencedFront(c.issued, |got| - c.base); }
  }

  lemma NoPagesYet(dir: bytes, l: Listing<DirEntry4>)
    ensures After(START, [], CookieOf) == START && WithPages([], l) == l && Listed<DirEntry4>([]) == []
    ensures ReadDirLog(dir, Cursors([], 0, CookieOf)) == []
  {
    assert [] + l.pages == l.pages;
  }

  lemma OpenRequestSeqid(clientid: u64, dir: bytes, name: bytes, access: u32, create: bool, seqid: u32)
    ensures OpenSeqid(OpenRequest(clientid, dir, name, access, create, seqid)) == Some(seqid)
  {
  }

  lemma HeaderIs(ops: bytes, n: u32, m: seq<Op>)
    requires Holds(ops, m) && n == |m|
    ensures PutHeader([], 0, n, ops) == PutCompound(Request40(m))
  {
  }
}
