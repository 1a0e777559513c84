/** Whole COMPOUND replies: what a server sends for each call of the facade, and that the client's positional
    readers stop exactly at the end of it. */
module Replies {
  import opened Wire
  import opened Transport
  import opened Bitmap
  import opened Ops
  import opened OpResults
  import opened SessionResults
  import opened Paging
  import opened Compounds
  import Client41

  const GETFH_CODE: u32 := 10

  /** The front of a good v4.0 reply: any tag, any count, and the result of PUTFH or PUTROOTFH. */
  function PutFront(tag: bytes, n: u32, code: u32, k: bytes): (r: bytes)
    ensures |r| >= |k|
  {
    PutReplyHeader(0, tag, n, PutStatus(code, 0, k))
  }

  lemma FrontRoundTrip(tag: bytes, n: u32, code: u32, k: bytes)
    requires |PutFront(tag, n, code, k)| < TWO_32
    ensures TakeFront(PutFront(tag, n, code, k)) == Ok((), k)
  {
    hide PutReplyHeader, TakeReplyHeader, PutStatus, TakeStatus;
    ReplyHeaderRoundTrip(0, tag, n, PutStatus(code, 0, k));
  }

  /** The front of a good v4.1 reply has the result of SEQUENCE before it. */
  function PutFront41(tag: bytes, n: u32, session: sessionid4, words: seq<u32>, code: u32, k: bytes): (r: bytes)
    requires |words| == 5
    ensures |r| >= |k|
  {
    PutReplyHeader(0, tag, n, PutSequence(53, session, words, PutStatus(code, 0, k)))
  }

  lemma Front41RoundTrip(tag: bytes, n: u32, session: sessionid4, words: seq<u32>, code: u32, k: bytes)
    requires |words| == 5 && |PutFront41(tag, n, session, words, code, k)| < TWO_32
    ensures Client41.TakeFront41(PutFront41(tag, n, session, words, code, k)) == Ok((), k)
  {
    hide PutReplyHeader, TakeReplyHeader, PutStatus, TakeStatus, PutSequence, TakeSequence;
    ReplyHeaderRoundTrip(0, tag, n, PutSequence(53, session, words, PutStatus(code, 0, k)));
  }

  function PutOpenResults(o: OpenOk, fh: bytes): bytes { PutOpen(18, o, PutGetFh(GETFH_CODE, fh, [])) }

  /** The ten bytes that are taken for a handle: the status 0, the length of the handle and its first two bytes. */
  function Misread(fh: bytes): bytes
    requires 0 < |fh|
  {
    BigEndian(0, 4) + BigEndian(|fh|, 4) + (fh + Zeros(PadLength(|fh|)))[..2]
  }

  /** What is then left of the handle. */
  function Leftover(fh: bytes): bytes
    requires 0 < |fh|
  {
    (fh + Zeros(PadLength(|fh|)))[4..]
  }

  /** How the result of GETFH is read behind a delegation.  Type 3 is not passed over, so the reason word is taken
      for the code of GETFH and the next word for its status: the code, 10, or the flag.  If that is 0, the code is
      taken for the length of the handle. */
  function HandleBehind(d: Delegation, fh: bytes): Parsed<bytes> {
    if !d.NoDelegationExt? then Ok(fh, [])
    else if !HasFlag(d.why) then Err(Status(GETFH_CODE))
    else if d.flag != 0 then Err(Status(d.flag))
    else if fh == [] then Err(Underflow)
    else Ok(Misread(fh), Leftover(fh))
  }

  predicate OpenRead(o: OpenOk, fh: bytes, p: Parsed<(Open4Result, bytes)>) {
    p == match HandleBehind(o.delegation, fh)
         case Ok(h, rest) => Ok((Open4Result(o.stateid, o.rflags), h), rest)
         case Err(e) => Err(e)
  }

  lemma PaddedBytes(fh: bytes)
    ensures PutFixed(fh, []) == fh + Zeros(PadLength(|fh|))
  {
    hide TakeFixed, Zeros, PadLength;
    var padded := fh + Zeros(PadLength(|fh|));
    assert padded + [] == padded;
  }

  lemma GetFhBytes(fh: bytes)
    requires |fh| < TWO_32
    ensures PutU32(0, PutOpaque(fh, [])) == BigEndian(0, 4) + (BigEndian(|fh|, 4) + (fh + Zeros(PadLength(|fh|))))
  {
    hide BigEndian, PutU32, PutFixed, PadLength, Zeros, TakeU32, TakeOpaque, TakeFixed;
    PaddedBytes(fh);
    WordIs(|fh|, PutFixed(fh, []));
    WordIs(0, PutOpaque(fh, []));
  }

  lemma Slices(a: bytes, b: bytes, c: bytes)
    requires |a| == 4 && |b| == 4 && |c| >= 4
    ensures (a + (b + c))[..10] == a + b + c[..2] && (a + (b + c))[12..] == c[4..]
  {
  }

  lemma MisreadHandle(fh: bytes)
    requires |fh| < TWO_32
    ensures TakeOpaque(PutU32(GETFH_CODE, PutU32(0, PutOpaque(fh, [])))) ==
            if fh == [] then Err(Underflow) else Ok(Misread(fh), Leftover(fh))
  {
    hide BigEndian, PutOpaque, PutU32, TakeOpaque, Zeros, PadLength;
    GetFhBytes(fh);
    TenTaken(PutU32(0, PutOpaque(fh, [])));
    FourAtLeast(fh);
    if fh != [] { Slices(BigEndian(0, 4), BigEndian(|fh|, 4), fh + Zeros(PadLength(|fh|))); }
  }

  /** The code of GETFH, taken for a length. */
  lemma TenTaken(s: bytes)
    ensures TakeOpaque(PutU32(GETFH_CODE, s)) == if |s| < 12 then Err(Underflow) else Ok(s[..10], s[12..])
  {
    hide PutU32, TakeU32;
  }

  lemma FourAtLeast(fh: bytes)
    ensures var n := |fh + Zeros(PadLength(|fh|))|; if fh == [] then n == 0 else n >= 4
  {
  }

  lemma TenBytes()
    ensures BigEndian(0, 4) + BigEndian(10, 4) == [0, 0, 0, 0, 0, 0, 0, 10]
  {
    hide BigEndian;
    WordBytes(0);
    WordBytes(10);
  }

  /** With the flag 0 the client gets another handle than the server sent, unless the server's is made of ten bytes
      that say so themselves. */
  lemma MisreadIsWrong(fh: bytes)
    requires 0 < |fh| < TWO_32
    ensures Misread(fh) == fh <==> fh == [0, 0, 0, 0, 0, 0, 0, 10, 0, 0]
  {
    hide BigEndian;
    TenBytes();
    var m := Misread(fh);
    assert |m| == 10;
    if |fh| == 10 {
      assert m[..8] == [0, 0, 0, 0, 0, 0, 0, 10];
      assert m[8] == fh[0] && m[9] == fh[1];
    }
  }

  /** The reply is used up and gives the server's handle exactly when the delegation is not of type 3. */
  lemma ReadIff(d: Delegation, fh: bytes)
    requires |fh| < TWO_32
    ensures HandleBehind(d, fh) == Ok(fh, []) <==> !d.NoDelegationExt?
  {
    if d.NoDelegationExt? && HasFlag(d.why) && d.flag == 0 && fh != [] {
      MisreadIsWrong(fh);
    }
  }

  lemma BehindReason(d: Delegation, fh: bytes)
    requires |fh| < TWO_32
    ensures var k := PutGetFh(GETFH_CODE, fh, []);
            TakeGetFh(if d.NoDelegationExt? then PutReason(d.why, d.flag, k) else k) == HandleBehind(d, fh)
  {
    hide PutU32, PutOpaque, TakeU32, TakeOpaque, Misread, Leftover;
    MisreadHandle(fh);
  }

  lemma OpenThenGetFh(o: OpenOk, fh: bytes)
    requires |PutOpenResults(o, fh)| < TWO_32
    ensures var p := TakeOpen(PutOpenResults(o, fh));
            && p.Ok? && p.value == Open4Result(o.stateid, o.rflags)
            && TakeGetFh(p.rest) == HandleBehind(o.delegation, fh)
  {
    hide PutU32, PutOpaque, PutStateid, PutChangeInfo, PutBitmap, PutDelegation, PutGetFh, PutReason, HandleBehind;
    hide TakeU32, TakeOpaque, TakeStateid, TakeChangeInfo, TakeBitmap, TakeDelegation, TakeGetFh;
    var k := PutGetFh(GETFH_CODE, fh, []);
    ChangeInfoRoundTrip(o.cinfo, PutU32(o.rflags, PutBitmap(o.attrset, PutDelegation(o.delegation, k))));
    DelegationSkipped(o.delegation, k);
    BehindReason(o.delegation, fh);
  }

  /** For any tag, attribute set and delegation: opening a file gives the server's state id and flags, and for a
      handle what is read behind the delegation. */
  lemma OpenReplyRead(tag: bytes, n: u32, code: u32, o: OpenOk, fh: bytes)
    requires |PutFront(tag, n, code, PutOpenResults(o, fh))| < TWO_32
    ensures OpenRead(o, fh, TakeOpenReply(PutFront(tag, n, code, PutOpenResults(o, fh))))
  {
    hide PutFront, TakeFront, PutOpenResults, TakeOpen, TakeGetFh;
    FrontRoundTrip(tag, n, code, PutOpenResults(o, fh));
    OpenThenGetFh(o, fh);
  }

  lemma OpenReply41Read(tag: bytes, n: u32, session: sessionid4, words: seq<u32>, code: u32, o: OpenOk, fh: bytes)
    requires |words| == 5 && |PutFront41(tag, n, session, words, code, PutOpenResults(o, fh))| < TWO_32
    ensures OpenRead(o, fh, Client41.TakeOpenReply41(PutFront41(tag, n, session, words, code, PutOpenResults(o, fh))))
  {
    hide PutFront41, Client41.TakeFront41, PutOpenResults, TakeOpen, TakeGetFh;
    Front41RoundTrip(tag, n, session, words, code, PutOpenResults(o, fh));
    OpenThenGetFh(o, fh);
  }

  /** The input: a good OPEN in a session that grants no delegation for contention, without a promise to offer one
      later.  Opening the file succeeds, with a handle of ten bytes that is not the server's. */
  lemma WrongHandle(tag: bytes, n: u32, session: sessionid4, words: seq<u32>, code: u32, o: OpenOk, fh: bytes, seqid: u32)
    requires |words| == 5 && |PutFront41(tag, n, session, words, code, PutOpenResults(o, fh))| < TWO_32
    requires o.delegation == NoDelegationExt(1, 0) && |fh| == 16 && BitAnd(o.rflags, OPEN4_RESULT_CONFIRM) == 0
    ensures var f := Client41.OpenedFile(Success(PutFront41(tag, n, session, words, code, PutOpenResults(o, fh))), seqid);
            f.Success? && |f.value.fh| == 10 && f.value.fh == Misread(fh) && f.value.fh != fh
  {
    hide PutFront41, Client41.TakeOpenReply41, PutOpenResults, BitAnd;
    OpenReply41Read(tag, n, session, words, code, o, fh);
    assert |Misread(fh)| == 10;
  }

  /** MKDIR and SYMLINK: any attribute set is skipped and the new handle is read. */
  lemma CreateReplyRead(tag: bytes, n: u32, code: u32, c: ChangeInfo, attrset: seq<u32>, fh: bytes)
    requires |PutFront(tag, n, code, PutCreate(6, c, attrset, PutGetFh(GETFH_CODE, fh, [])))| < TWO_32
    requires |attrset| < TWO_32 && |fh| < TWO_32
    ensures TakeCreateReply(PutFront(tag, n, code, PutCreate(6, c, attrset, PutGetFh(GETFH_CODE, fh, [])))) == Ok(fh, [])
  {
    hide PutFront, TakeFront, PutCreate, TakeCreate, PutGetFh, TakeGetFh;
    FrontRoundTrip(tag, n, code, PutCreate(6, c, attrset, PutGetFh(GETFH_CODE, fh, [])));
    CreateRoundTrip(6, c, attrset, PutGetFh(GETFH_CODE, fh, []));
  }

  /** LOOKUP: the handle that GETFH returned behind it is read. */
  lemma LookupReplyRead(tag: bytes, n: u32, code: u32, fh: bytes)
    requires |PutFront(tag, n, code, PutStatus(15, 0, PutGetFh(GETFH_CODE, fh, [])))| < TWO_32
    requires |fh| < TWO_32
    ensures TakeLookupReply(PutFront(tag, n, code, PutStatus(15, 0, PutGetFh(GETFH_CODE, fh, [])))) == Ok(fh, [])
  {
    hide PutFront, TakeFront, PutStatus, TakeStatus, PutGetFh, TakeGetFh;
    FrontRoundTrip(tag, n, code, PutStatus(15, 0, PutGetFh(GETFH_CODE, fh, [])));
  }

  /** REMOVE: the change record is passed over. */
  lemma RemoveReplyRead(tag: bytes, n: u32, code: u32, c: ChangeInfo)
    requires |PutFront(tag, n, code, PutStatus(28, 0, PutChangeInfo(c, [])))| < TWO_32
    ensures TakeRemoveReply(PutFront(tag, n, code, PutStatus(28, 0, PutChangeInfo(c, [])))) == Ok((), [])
  {
    hide PutFront, TakeFront, PutStatus, TakeStatus, PutChangeInfo, TakeChangeInfo;
    FrontRoundTrip(tag, n, code, PutStatus(28, 0, PutChangeInfo(c, [])));
    ChangeInfoRoundTrip(c, []);
  }

  /** The results of SAVEFH, the second PUTFH and RENAME. */
  function PutRenameResults(code: u32, src: ChangeInfo, dst: ChangeInfo): bytes {
    PutStatus(32, 0, PutStatus(code, 0, PutStatus(29, 0, PutChangeInfo(src, PutChangeInfo(dst, [])))))
  }

  /** RENAME: the results of SAVEFH and the second PUTFH and both change records are passed over. */
  lemma RenameReplyRead(tag: bytes, n: u32, code: u32, src: ChangeInfo, dst: ChangeInfo)
    requires |PutFront(tag, n, code, PutRenameResults(code, src, dst))| < TWO_32
    ensures TakeRenameReply(PutFront(tag, n, code, PutRenameResults(code, src, dst))) == Ok((), [])
  {
    hide PutChangeInfo, TakeChangeInfo, PutStatus, TakeStatus, PutFront, TakeFront;
    ChangeInfoRoundTrip(dst, []);
    ChangeInfoRoundTrip(src, PutChangeInfo(dst, []));
    FrontRoundTrip(tag, n, code, PutRenameResults(code, src, dst));
  }

  /** A page of a listing is read with all its entries. */
  lemma ReadDirReplyRead(tag: bytes, n: u32, code: u32, verf: verifier4, es: seq<ServerEntry>, eof: bool)
    requires forall i :: 0 <= i < |es| ==> Sendable(es[i])
    requires |PutFront(tag, n, code, PutReadDir(26, verf, es, eof, []))| < TWO_32
    ensures TakeReadDirReply(PutFront(tag, n, code, PutReadDir(26, verf, es, eof, []))) == Ok(Page(SeenAll(es), verf, eof), [])
  {
    hide PutFront, TakeFront, PutReadDir, TakeReadDir, Sendable;
    FrontRoundTrip(tag, n, code, PutReadDir(26, verf, es, eof, []));
    ReadDirRoundTrip(26, verf, es, eof, []);
  }

  /** Such a page in an RPC reply is one that the listing loop of `Paging` goes on with. */
  lemma ReadDirCarried(xid: u32, flavor: u32, verifier: bytes, reply: seq<bytes>,
                       tag: bytes, n: u32, code: u32, verf: verifier4, es: seq<ServerEntry>, eof: bool)
    requires |verifier| < TWO_32 && forall i :: 0 <= i < |es| ==> Sendable(es[i])
    requires |PutFront(tag, n, code, PutReadDir(26, verf, es, eof, []))| < TWO_32
    requires Joined(reply) == PutReply(xid, flavor, verifier, PutFront(tag, n, code, PutReadDir(26, verf, es, eof, [])))
    ensures Carries(reply, TakeReadDirReply, Page(SeenAll(es), verf, eof))
  {
    hide PutFront, PutReadDir, TakeReadDirReply, PutReply, TakeReply, Sendable;
    ReadDirReplyRead(tag, n, code, verf, es, eof);
  }

  /* ----- the same behind SEQUENCE ----- */

  lemma LookupReply41Read(tag: bytes, n: u32, session: sessionid4, words: seq<u32>, code: u32, fh: bytes)
    requires |words| == 5 && |fh| < TWO_32
    requires |PutFront41(tag, n, session, words, code, PutStatus(15, 0, PutGetFh(GETFH_CODE, fh, [])))| < TWO_32
    ensures Client41.TakeLookupReply41(PutFront41(tag, n, session, words, code,
              PutStatus(15, 0, PutGetFh(GETFH_CODE, fh, [])))) == Ok(fh, [])
  {
    hide PutFront41, Client41.TakeFront41, PutStatus, TakeStatus, PutGetFh, TakeGetFh;
    Front41RoundTrip(tag, n, session, words, code, PutStatus(15, 0, PutGetFh(GETFH_CODE, fh, [])));
  }

  lemma CreateReply41Read(tag: bytes, n: u32, session: sessionid4, words: seq<u32>, code: u32, c: ChangeInfo,
                          attrset: seq<u32>, fh: bytes)
    requires |words| == 5 && |attrset| < TWO_32 && |fh| < TWO_32
    requires |PutFront41(tag, n, session, words, code, PutCreate(6, c, attrset, PutGetFh(GETFH_CODE, fh, [])))| < TWO_32
    ensures Client41.TakeCreateReply41(PutFront41(tag, n, session, words, code,
              PutCreate(6, c, attrset, PutGetFh(GETFH_CODE, fh, [])))) == Ok(fh, [])
  {
    hide PutFront41, Client41.TakeFront41, PutCreate, TakeCreate, PutGetFh, TakeGetFh;
    Front41RoundTrip(tag, n, session, words, code, PutCreate(6, c, attrset, PutGetFh(GETFH_CODE, fh, [])));
    CreateRoundTrip(6, c, attrset, PutGetFh(GETFH_CODE, fh, []));
  }

  lemma RemoveReply41Read(tag: bytes, n: u32, session: sessionid4, words: seq<u32>, code: u32, c: ChangeInfo)
    requires |words| == 5
    requires |PutFront41(tag, n, session, words, code, PutStatus(28, 0, PutChangeInfo(c, [])))| < TWO_32
    ensures Client41.TakeRemoveReply41(PutFront41(tag, n, session, words, code,
              PutStatus(28, 0, PutChangeInfo(c, [])))) == Ok((), [])
  {
    hide PutFront41, Client41.TakeFront41, PutStatus, TakeStatus, PutChangeInfo, TakeChangeInfo;
    Front41RoundTrip(tag, n, session, words, code, PutStatus(28, 0, PutChangeInfo(c, [])));
    ChangeInfoRoundTrip(c, []);
  }

  lemma RenameReply41Read(tag: bytes, n: u32, session: sessionid4, words: seq<u32>, code: u32, src: ChangeInfo, dst: ChangeInfo)
    requires |words| == 5 && |PutFront41(tag, n, session, words, code, PutRenameResults(code, src, dst))| < TWO_32
    ensures Client41.TakeRenameReply41(PutFront41(tag, n, session, words, code, PutRenameResults(code, src, dst))) == Ok((), [])
  {
    hide PutChangeInfo, TakeChangeInfo, PutStatus, TakeStatus, PutFront41, Client41.TakeFront41;
    ChangeInfoRoundTrip(dst, []);
    ChangeInfoRoundTrip(src, PutChangeInfo(dst, []));
    Front41RoundTrip(tag, n, session, words, code, PutRenameResults(code, src, dst));
  }

  lemma ReadDirReply41Read(tag: bytes, n: u32, session: sessionid4, words: seq<u32>, code: u32,
                           verf: verifier4, es: seq<ServerEntry>, eof: bool)
    requires |words| == 5 && forall i :: 0 <= i < |es| ==> Sendable(es[i])
    requires |PutFront41(tag, n, session, words, code, PutReadDir(26, verf, es, eof, []))| < TWO_32
    ensures Client41.TakeReadDirReply41(PutFront41(tag, n, session, words, code, PutReadDir(26, verf, es, eof, [])))
            == Ok(Page(SeenAll(es), verf, eof), [])
  {
    hide PutFront41, Client41.TakeFront41, PutReadDir, TakeReadDir, Sendable;
    Front41RoundTrip(tag, n, session, words, code, PutReadDir(26, verf, es, eof, []));
    ReadDirRoundTrip(26, verf, es, eof, []);
  }

  lemma ReadDirCarried41(xid: u32, flavor: u32, verifier: bytes, reply: seq<bytes>,
                         tag: bytes, n: u32, session: sessionid4, words: seq<u32>, code: u32,
                         verf: verifier4, es: seq<ServerEntry>, eof: bool)
    requires |verifier| < TWO_32 && |words| == 5 && forall i :: 0 <= i < |es| ==> Sendable(es[i])
    requires |PutFront41(tag, n, session, words, code, PutReadDir(26, verf, es, eof, []))| < TWO_32
    requires Joined(reply) == PutReply(xid, flavor, verifier, PutFront41(tag, n, session, words, code, PutReadDir(26,
             verf, es, eof, [])))
    ensures Carries(reply, Client41.TakeReadDirReply41, Page(SeenAll(es), verf, eof))
  {
    hide PutFront41, PutReadDir, Client41.TakeReadDirReply41, PutReply, TakeReply, Sendable;
    ReadDirReply41Read(tag, n, session, words, code, verf, es, eof);
  }

  /** A reply that failed is read as its status, whatever is behind it. */
  lemma FailedReplyRead(status: u32, tag: bytes, n: u32, k: bytes)
    requires status != 0 && |PutReplyHeader(status, tag, n, k)| < TWO_32
    ensures TakeFront(PutReplyHeader(status, tag, n, k)) == Err(Status(status))
    ensures Client41.TakeFront41(PutReplyHeader(status, tag, n, k)) == Err(Status(status))
  {
    hide PutReplyHeader, TakeReplyHeader;
    ReplyHeaderRoundTrip(status, tag, n, k);
  }

  /* ----- a reply in its record ----- */

  /** The RPC part of a reply, and the part of a good COMPOUND reply in front of the results. */
  datatype Cover = Cover(xid: u32, flavor: u32, verifier: bytes, tag: bytes, n: u32, code: u32)

  /** The record is a reply with this body. */
  ghost predicate Wraps(reply: seq<bytes>, x: Cover, body: bytes) {
    |x.verifier| < TWO_32 && |body| < TWO_32 && Joined(reply) == PutReply(x.xid, x.flavor, x.verifier, body)
  }

  lemma Unwrapped(reply: seq<bytes>, x: Cover, body: bytes)
    requires Wraps(reply, x, body)
    ensures TakeReply(Joined(reply)).ToResult() == Success(body)
  {
    hide TakeReply, PutReply;
  }

  lemma WrapsSmall(reply: seq<bytes>, x: Cover, body: bytes)
    requires Wraps(reply, x, body)
    ensures |body| < TWO_32
  {
  }
}
