/** The results of operations: what a server sends for each, and the client's decoder.  The client reads
    results by position; it looks at no operation code, and at a status only to see that it is 0. */
module OpResults {
  import opened Wire
  import opened Xdr
  import opened Rpc
  import opened Bitmap
  import opened Attributes
  import opened Ops
  import opened Paging

  /* ----- the header of a reply and of a result ----- */

  function TakeReplyHeader(s: bytes): Parsed<()> {
    var (status, s) :- TakeU32(s);
    if status != 0 then Err(Status(status))
    else
      var (tag, s) :- TakeOpaque(s);
      var (numops, s) :- TakeU32(s);
      Ok((), s)
  }

  function PutReplyHeader(status: u32, tag: bytes, numops: u32, k: bytes): (r: bytes)
    ensures |r| >= |k| + |tag|
  {
    PutU32(status, PutOpaque(tag, PutU32(numops, k)))
  }

  lemma ReplyHeaderRoundTrip(status: u32, tag: bytes, numops: u32, k: bytes)
    requires |PutReplyHeader(status, tag, numops, k)| < TWO_32
    ensures TakeReplyHeader(PutReplyHeader(status, tag, numops, k)) ==
            if status == 0 then Ok((), k) else Err(Status(status))
  {
    hide PutU32, PutOpaque, TakeU32, TakeOpaque;
  }

  method CheckCompoundStatus(dec: XdrDecoder) returns (r: Result<()>)
    requires dec.Valid()
    modifies dec
    ensures dec.Reads(r, TakeReplyHeader(old(dec.Rest())))
  {
    hide TakeU32, TakeOpaque;
    var status :- dec.GetU32();
    if status != 0 { return Failure(Status(status)); }
    var _ :- dec.GetOpaque();
    var _ :- dec.GetU32();
    r := Success(());
  }

  function TakeStatus(s: bytes): (r: Parsed<()>)
    ensures r.Ok? ==> |s| == 8 + |r.rest|
  {
    var (resop, s) :- TakeU32(s);
    var (status, s) :- TakeU32(s);
    if status != 0 then Err(Status(status)) else Ok((), s)
  }

  function PutStatus(code: u32, status: u32, k: bytes): (r: bytes)
    ensures |r| == 8 + |k|
    ensures TakeStatus(r) == if status == 0 then Ok((), k) else Err(Status(status))
  {
    PutU32(code, PutU32(status, k))
  }

  /** The result of an operation that returns nothing: PUTFH, PUTROOTFH, SAVEFH, LOOKUP, RENEW, RECLAIM_COMPLETE. */
  method CheckOpStatus(dec: XdrDecoder) returns (r: Result<()>)
    requires dec.Valid()
    modifies dec
    ensures dec.Reads(r, TakeStatus(old(dec.Rest())))
  {
    hide TakeU32;
    var _ :- dec.GetU32();
    var status :- dec.GetU32();
    if status != 0 { return Failure(Status(status)); }
    r := Success(());
  }

  /* ----- GETFH, GETATTR, READLINK, ACCESS, READ, WRITE, COMMIT ----- */

  function TakeGetFh(s: bytes): Parsed<bytes> {
    var (_, s) :- TakeStatus(s);
    TakeOpaque(s)
  }

  function PutGetFh(code: u32, fh: bytes, k: bytes): (r: bytes)
    ensures |r| >= 12 + |fh| + |k|
    ensures |fh| < TWO_32 ==> TakeGetFh(r) == Ok(fh, k)
  {
    PutStatus(code, 0, PutOpaque(fh, k))
  }

  method DecodeGetFh(dec: XdrDecoder) returns (r: Result<bytes>)
    requires dec.Valid()
    modifies dec
    ensures dec.Reads(r, TakeGetFh(old(dec.Rest())))
  {
    var _ :- CheckOpStatus(dec);
    r := dec.GetOpaque();
  }

  method DecodeReadLink(dec: XdrDecoder) returns (r: Result<bytes>)
    requires dec.Valid()
    modifies dec
    ensures dec.Reads(r, TakeGetFh(old(dec.Rest())))
  {
    var _ :- CheckOpStatus(dec);
    r := dec.GetOpaque();
  }

  function TakeGetAttr(s: bytes): Parsed<Fattr4> {
    var (_, s) :- TakeStatus(s);
    TakeFattr4(s)
  }

  function PutGetAttr(code: u32, bm: seq<u32>, m: Attrs, k: bytes): (r: bytes)
    ensures |r| >= |k|
  {
    PutStatus(code, 0, PutAttrs(bm, m, [], k))
  }

  /** The client has exactly the attributes that the server sent. */
  lemma GetAttrRoundTrip(code: u32, bm: seq<u32>, m: Attrs, k: bytes)
    requires SendableAttrs(bm, m) && |PutGetAttr(code, bm, m, k)| < TWO_32
    ensures TakeGetAttr(PutGetAttr(code, bm, m, k)) == Ok(Exposed(m), k)
  {
    hide PutStatus, TakeStatus, PutAttrs, TakeFattr4;
    Fattr4RoundTrip(bm, m, [], k);
  }

  /** Values of the right kind, and a bitmap of their ids. */
  predicate SendableAttrs(bm: seq<u32>, m: Attrs) {
    Typed(m) && forall j: u32 | j < READ_LIMIT :: (Test(bm, j) && !KindOf(j).Unknown?) <==> j in m
  }

  method DecodeGetAttr(dec: XdrDecoder) returns (r: Result<Fattr4>)
    requires dec.Valid()
    modifies dec
    ensures dec.Reads(r, TakeGetAttr(old(dec.Rest())))
  {
    hide TakeFattr4;
    var _ :- CheckOpStatus(dec);
    r := DecodeFattr4(dec);
  }

  datatype Access4Result = Access4Result(supported: u32, access: u32)

  function TakeAccess(s: bytes): Parsed<Access4Result> {
    var (_, s) :- TakeStatus(s);
    var (supported, s) :- TakeU32(s);
    var (access, s) :- TakeU32(s);
    Ok(Access4Result(supported, access), s)
  }

  function PutAccess(code: u32, supported: u32, granted: u32, k: bytes): (r: bytes)
    ensures |r| >= |k|
  {
    PutStatus(code, 0, PutU32(supported, PutU32(granted, k)))
  }

  lemma AccessRoundTrip(code: u32, supported: u32, granted: u32, k: bytes)
    ensures TakeAccess(PutAccess(code, supported, granted, k)) == Ok(Access4Result(supported, granted), k)
  {
    hide PutU32, PutStatus, TakeU32, TakeStatus;
  }

  method DecodeAccess(dec: XdrDecoder) returns (r: Result<Access4Result>)
    requires dec.Valid()
    modifies dec
    ensures dec.Reads(r, TakeAccess(old(dec.Rest())))
  {
    hide TakeStatus, TakeU32;
    var _ :- CheckOpStatus(dec);
    var supported :- dec.GetU32();
    var access :- dec.GetU32();
    r := Success(Access4Result(supported, access));
  }

  function TakeRead(s: bytes): Parsed<bytes> {
    var (_, s) :- TakeStatus(s);
    var (eof, s) :- TakeU32(s);
    TakeOpaque(s)
  }

  function PutRead(code: u32, eof: bool, data: bytes, k: bytes): (r: bytes)
    ensures |r| >= |data| + |k|
  {
    PutStatus(code, 0, PutU32(BoolWord(eof), PutOpaque(data, k)))
  }

  /** The data comes back whole; the end-of-file word in front of it is passed over. */
  lemma ReadRoundTrip(code: u32, eof: bool, data: bytes, k: bytes)
    requires |data| < TWO_32
    ensures TakeRead(PutRead(code, eof, data, k)) == Ok(data, k)
  {
    hide PutU32, PutOpaque, PutStatus, TakeU32, TakeOpaque, TakeStatus;
  }

  method DecodeRead(dec: XdrDecoder) returns (r: Result<bytes>)
    requires dec.Valid()
    modifies dec
    ensures dec.Reads(r, TakeRead(old(dec.Rest())))
  {
    hide TakeStatus, TakeU32, TakeOpaque;
    var _ :- CheckOpStatus(dec);
    var _ :- dec.GetU32();
    r := dec.GetOpaque();
  }

  datatype Write4Result = Write4Result(count: u32, committed: u32, verf: verifier4)

  function TakeWrite(s: bytes): Parsed<Write4Result> {
    var (_, s) :- TakeStatus(s);
    var (count, s) :- TakeU32(s);
    var (committed, s) :- TakeU32(s);
    var (verf, s) :- TakeFixed(8, s);
    Ok(Write4Result(count, committed, verf), s)
  }

  function PutWrite(code: u32, count: u32, committed: u32, verf: verifier4, k: bytes): (r: bytes)
    ensures |r| >= |k|
  {
    PutStatus(code, 0, PutU32(count, PutU32(committed, PutFixed(verf, k))))
  }

  lemma WriteRoundTrip(code: u32, count: u32, committed: u32, verf: verifier4, k: bytes)
    ensures TakeWrite(PutWrite(code, count, committed, verf, k)) == Ok(Write4Result(count, committed, verf), k)
  {
    hide PutU32, PutFixed, PutStatus, TakeU32, TakeFixed, TakeStatus;
  }

  method DecodeWrite(dec: XdrDecoder) returns (r: Result<Write4Result>)
    requires dec.Valid()
    modifies dec
    ensures dec.Reads(r, TakeWrite(old(dec.Rest())))
  {
    hide TakeStatus, TakeU32, TakeFixed;
    var _ :- CheckOpStatus(dec);
    var count :- dec.GetU32();
    var committed :- dec.GetU32();
    var verf :- dec.GetFixed(8);
    r := Success(Write4Result(count, committed, verf));
  }

  datatype ClientIdResult = ClientIdResult(clientid: u64, verf: verifier4)

  function TakeSetClientId(s: bytes): Parsed<ClientIdResult> {
    var (_, s) :- TakeStatus(s);
    var (clientid, s) :- TakeU64(s);
    var (verf, s) :- TakeFixed(8, s);
    Ok(ClientIdResult(clientid, verf), s)
  }

  function PutSetClientId(code: u32, clientid: u64, verf: verifier4, k: bytes): (r: bytes)
    ensures |r| >= |k|
  {
    PutStatus(code, 0, PutU64(clientid, PutFixed(verf, k)))
  }

  lemma SetClientIdRoundTrip(code: u32, clientid: u64, verf: verifier4, k: bytes)
    ensures TakeSetClientId(PutSetClientId(code, clientid, verf, k)) == Ok(ClientIdResult(clientid, verf), k)
  {
    hide PutU64, PutFixed, PutStatus, TakeU64, TakeFixed, TakeStatus;
  }

  method DecodeSetClientId(dec: XdrDecoder) returns (r: Result<ClientIdResult>)
    requires dec.Valid()
    modifies dec
    ensures dec.Reads(r, TakeSetClientId(old(dec.Rest())))
  {
    hide TakeStatus, TakeU64, TakeFixed;
    var _ :- CheckOpStatus(dec);
    var clientid :- dec.GetU64();
    var verf :- dec.GetFixed(8);
    r := Success(ClientIdResult(clientid, verf));
  }

  function TakeCommit(s: bytes): Parsed<verifier4> {
    var (_, s) :- TakeStatus(s);
    var (verf, s) :- TakeFixed(8, s);
    Ok(verf, s)
  }

  function PutCommit(code: u32, verf: verifier4, k: bytes): (r: bytes)
    ensures |r| >= |k|
    ensures TakeCommit(r) == Ok(verf, k)
  {
    PutStatus(code, 0, PutFixed(verf, k))
  }

  method DecodeCommit(dec: XdrDecoder) returns (r: Result<verifier4>)
    requires dec.Valid()
    modifies dec
    ensures dec.Reads(r, TakeCommit(old(dec.Rest())))
  {
    hide TakeStatus, TakeFixed;
    var _ :- CheckOpStatus(dec);
    var verf :- dec.GetFixed(8);
    r := Success(verf);
  }

  /* ----- change_info4 and attribute sets, which are read and dropped ----- */

  datatype ChangeInfo = ChangeInfo(atomic: u32, before: u64, after: u64)

  function TakeChangeInfo(s: bytes): Parsed<ChangeInfo> {
    var (atomic, s) :- TakeU32(s);
    var (before, s) :- TakeU64(s);
    var (after, s) :- TakeU64(s);
    Ok(ChangeInfo(atomic, before, after), s)
  }

  function PutChangeInfo(c: ChangeInfo, k: bytes): (r: bytes)
    ensures |r| == 20 + |k|
  {
    PutU32(c.atomic, PutU64(c.before, PutU64(c.after, k)))
  }

  lemma ChangeInfoRoundTrip(c: ChangeInfo, k: bytes)
    ensures TakeChangeInfo(PutChangeInfo(c, k)) == Ok(c, k)
  {
    hide PutU32, PutU64, TakeU32, TakeU64;
  }

  function Dropped<T>(p: Parsed<T>): Parsed<()> {
    match p
    case Ok(_, rest) => Ok((), rest)
    case Err(e) => Err(e)
  }

  method SkipChangeInfo4(dec: XdrDecoder) returns (r: Result<()>)
    requires dec.Valid()
    modifies dec
    ensures dec.Reads(r, Dropped(TakeChangeInfo(old(dec.Rest()))))
  {
    hide TakeU32, TakeU64;
    var _ :- dec.GetU32();
    var _ :- dec.GetU64();
    var _ :- dec.GetU64();
    r := Success(());
  }

  method SkipBitmap(dec: XdrDecoder) returns (r: Result<()>)
    requires dec.Valid()
    modifies dec
    ensures dec.Reads(r, Dropped(TakeBitmap(old(dec.Rest()))))
  {
    hide TakeU32;
    var size :- dec.GetU32();
    ghost var all := TakeWords(size, dec.Rest());
    for i := 0 to size
      invariant dec.Valid() && Dropped(all) == Dropped(TakeWords(size - i, dec.Rest()))
    {
      var _ :- dec.GetU32();
    }
    r := Success(());
  }

  function TakeCreate(s: bytes): Parsed<()> {
    var (_, s) :- TakeStatus(s);
    var (_, s) :- TakeChangeInfo(s);
    var (_, s) :- TakeBitmap(s);
    Ok((), s)
  }

  function PutCreate(code: u32, c: ChangeInfo, attrset: seq<u32>, k: bytes): (r: bytes)
    ensures |r| >= |k|
  {
    PutStatus(code, 0, PutChangeInfo(c, PutBitmap(attrset, k)))
  }

  lemma CreateRoundTrip(code: u32, c: ChangeInfo, attrset: seq<u32>, k: bytes)
    requires |attrset| < TWO_32
    ensures TakeCreate(PutCreate(code, c, attrset, k)) == Ok((), k)
  {
    hide PutChangeInfo, PutBitmap, PutStatus, TakeStatus, TakeBitmap, TakeChangeInfo;
    ChangeInfoRoundTrip(c, PutBitmap(attrset, k));
  }

  method DecodeCreate(dec: XdrDecoder) returns (r: Result<()>)
    requires dec.Valid()
    modifies dec
    ensures dec.Reads(r, TakeCreate(old(dec.Rest())))
  {
    hide TakeStatus, TakeChangeInfo, TakeBitmap;
    var _ :- CheckOpStatus(dec);
    var _ :- SkipChangeInfo4(dec);
    r := SkipBitmap(dec);
  }

  function TakeSetAttr(s: bytes): Parsed<()> {
    var (_, s) :- TakeStatus(s);
    Dropped(TakeBitmap(s))
  }

  function PutSetAttr(code: u32, attrset: seq<u32>, k: bytes): (r: bytes)
    ensures |r| >= |k|
  {
    PutStatus(code, 0, PutBitmap(attrset, k))
  }

  /** The set of attributes that were set is passed over, whatever it is. */
  lemma SetAttrRoundTrip(code: u32, attrset: seq<u32>, k: bytes)
    requires |attrset| < TWO_32
    ensures TakeSetAttr(PutSetAttr(code, attrset, k)) == Ok((), k)
  {
    hide PutBitmap, PutStatus, TakeBitmap, TakeStatus;
  }

  method DecodeSetAttr(dec: XdrDecoder) returns (r: Result<()>)
    requires dec.Valid()
    modifies dec
    ensures dec.Reads(r, TakeSetAttr(old(dec.Rest())))
  {
    hide TakeStatus, TakeBitmap;
    var _ :- CheckOpStatus(dec);
    r := SkipBitmap(dec);
  }

  function TakeRemove(s: bytes): Parsed<()> {
    var (_, s) :- TakeStatus(s);
    Dropped(TakeChangeInfo(s))
  }

  method DecodeRemove(dec: XdrDecoder) returns (r: Result<()>)
    requires dec.Valid()
    modifies dec
    ensures dec.Reads(r, TakeRemove(old(dec.Rest())))
  {
    hide TakeStatus, TakeChangeInfo;
    var _ :- CheckOpStatus(dec);
    r := SkipChangeInfo4(dec);
  }

  function TakeRename(s: bytes): Parsed<()> {
    var (_, s) :- TakeStatus(s);
    var (_, s) :- TakeChangeInfo(s);
    Dropped(TakeChangeInfo(s))
  }

  method DecodeRename(dec: XdrDecoder) returns (r: Result<()>)
    requires dec.Valid()
    modifies dec
    ensures dec.Reads(r, TakeRename(old(dec.Rest())))
  {
    hide TakeStatus, TakeChangeInfo;
    var _ :- CheckOpStatus(dec);
    var _ :- SkipChangeInfo4(dec);
    r := SkipChangeInfo4(dec);
  }

  /* ----- OPEN, OPEN_CONFIRM, CLOSE ----- */

  datatype Ace = Ace(kind: u32, flag: u32, mask: u32, who: bytes)

  datatype SpaceLimit = LimitSize(size: u64) | LimitBlocks(blocks: u32, bytesPerBlock: u32)

  /** open_delegation4.  The last arm exists in NFSv4.1 only (section 18.16 of RFC 8881); its flag is sent only for
      two of the reasons. */
  datatype Delegation =
    | NoDelegation
    | ReadDelegation(stateid: Stateid4, recall: u32, ace: Ace)
    | WriteDelegation(stateid: Stateid4, recall: u32, limit: SpaceLimit, ace: Ace)
    | NoDelegationExt(why: u32, flag: u32)

  /** The reasons that are followed by one more word: contention and lack of resources. */
  predicate HasFlag(why: u32) { why == 1 || why == 2 }

  /** What is behind the type word of an arm of type 3. */
  function PutReason(why: u32, flag: u32, k: bytes): (r: bytes)
    ensures |r| >= 4 + |k|
  {
    PutU32(why, if HasFlag(why) then PutU32(flag, k) else k)
  }

  /** All that a server says about a successful OPEN, and the part the client keeps. */
  datatype OpenOk = OpenOk(stateid: Stateid4, cinfo: ChangeInfo, rflags: u32, attrset: seq<u32>, delegation: Delegation)
  datatype Open4Result = Open4Result(stateid: Stateid4, rflags: u32)

  const OPEN4_RESULT_CONFIRM: u32 := 2

  function TakeAce(s: bytes): Parsed<Ace> {
    var (kind, s) :- TakeU32(s);
    var (flag, s) :- TakeU32(s);
    var (mask, s) :- TakeU32(s);
    var (who, s) :- TakeOpaque(s);
    Ok(Ace(kind, flag, mask, who), s)
  }

  function PutAce(a: Ace, k: bytes): (r: bytes)
    ensures |r| >= |a.who| + |k|
  {
    PutU32(a.kind, PutU32(a.flag, PutU32(a.mask, PutOpaque(a.who, k))))
  }

  lemma AceRoundTrip(a: Ace, k: bytes)
    requires |a.who| < TWO_32
    ensures TakeAce(PutAce(a, k)) == Ok(a, k)
  {
    hide PutU32, PutOpaque, TakeU32, TakeOpaque;
  }

  /** The client skips a delegation of type 1 or 2 and nothing for any other type. */
  function TakeDelegation(s: bytes): Parsed<()> {
    var (kind, s) :- TakeU32(s);
    if kind != 1 && kind != 2 then Ok((), s)
    else
      var (stateid, s) :- TakeStateid(s);
      var (recall, s) :- TakeU32(s);
      if kind == 1 then Dropped(TakeAce(s))
      else
        var (limitBy, s) :- TakeU32(s);
        var (hi, s) :- TakeU32(s);
        var (lo, s) :- TakeU32(s);
        Dropped(TakeAce(s))
  }

  function PutLimit(l: SpaceLimit, k: bytes): (r: bytes)
    ensures |r| == 12 + |k|
  {
    match l
    case LimitSize(size) => PutU32(1, PutU64(size, k))
    case LimitBlocks(blocks, per) => PutU32(2, PutU32(blocks, PutU32(per, k)))
  }

  function PutDelegation(d: Delegation, k: bytes): (r: bytes)
    ensures |r| >= |k|
  {
    match d
    case NoDelegation => PutU32(0, k)
    case ReadDelegation(stateid, recall, ace) => PutU32(1, PutStateid(stateid, PutU32(recall, PutAce(ace, k))))
    case WriteDelegation(stateid, recall, limit, ace) =>
      PutU32(2, PutStateid(stateid, PutU32(recall, PutLimit(limit, PutAce(ace, k)))))
    case NoDelegationExt(why, flag) => PutU32(3, PutReason(why, flag, k))
  }

  lemma DelegationSkipped(d: Delegation, k: bytes)
    requires |PutDelegation(d, k)| < TWO_32
    ensures TakeDelegation(PutDelegation(d, k)) == Ok((), if d.NoDelegationExt? then PutReason(d.why, d.flag, k) else k)
  {
    hide PutU32, PutAce, PutStateid, TakeU32, TakeAce, TakeStateid;
    if d.ReadDelegation? || d.WriteDelegation? { AceRoundTrip(d.ace, k); }
  }

  function TakeOpen(s: bytes): Parsed<Open4Result> {
    var (_, s) :- TakeStatus(s);
    var (stateid, s) :- TakeStateid(s);
    var (_, s) :- TakeChangeInfo(s);
    var (rflags, s) :- TakeU32(s);
    var (_, s) :- TakeBitmap(s);
    var (_, s) :- TakeDelegation(s);
    Ok(Open4Result(stateid, rflags), s)
  }

  function PutOpen(code: u32, o: OpenOk, k: bytes): (r: bytes)
    ensures |r| >= |k|
  {
    PutStatus(code, 0, PutStateid(o.stateid, PutChangeInfo(o.cinfo, PutU32(o.rflags, PutBitmap(o.attrset,
      PutDelegation(o.delegation, k))))))
  }

  /** For any attribute set and any delegation of type 0, 1 or 2, with either kind of space limit, the decoder
      stops where the result ends.  Type 3 is not skipped: its reason, and the flag that
      some reasons have, are left for the next decoder, so the decoder is aligned exactly when the type is not 3. */
  lemma OpenAligned(code: u32, o: OpenOk, k: bytes)
    requires |PutOpen(code, o, k)| < TWO_32
    ensures TakeOpen(PutOpen(code, o, k)).Ok?
    ensures TakeOpen(PutOpen(code, o, k)).value == Open4Result(o.stateid, o.rflags)
    ensures TakeOpen(PutOpen(code, o, k)).rest == k <==> !o.delegation.NoDelegationExt?
  {
    hide PutU32, PutBitmap, PutStateid, PutStatus, PutDelegation, PutChangeInfo;
    hide TakeU32, TakeBitmap, TakeStateid, TakeStatus, TakeDelegation, TakeChangeInfo;
    ChangeInfoRoundTrip(o.cinfo, PutU32(o.rflags, PutBitmap(o.attrset, PutDelegation(o.delegation, k))));
    DelegationSkipped(o.delegation, k);
  }

  method SkipAce(dec: XdrDecoder) returns (r: Result<()>)
    requires dec.Valid()
    modifies dec
    ensures dec.Reads(r, Dropped(TakeAce(old(dec.Rest()))))
  {
    hide TakeU32, TakeOpaque;
    var _ :- dec.GetU32();
    var _ :- dec.GetU32();
    var _ :- dec.GetU32();
    var _ :- dec.GetOpaque();
    r := Success(());
  }

  method DecodeStateid4(dec: XdrDecoder) returns (r: Result<Stateid4>)
    requires dec.Valid()
    modifies dec
    ensures dec.Reads(r, TakeStateid(old(dec.Rest())))
  {
    hide TakeU32, TakeFixed;
    var seqid :- dec.GetU32();
    var other :- dec.GetFixed(12);
    r := Success(Stateid4(seqid, other));
  }

  method SkipDelegation(dec: XdrDecoder) returns (r: Result<()>)
    requires dec.Valid()
    modifies dec
    ensures dec.Reads(r, TakeDelegation(old(dec.Rest())))
  {
    hide TakeU32, TakeStateid, TakeAce;
    var kind :- dec.GetU32();
    if kind == 1 {
      var _ :- DecodeStateid4(dec);
      var _ :- dec.GetU32();
      var _ :- SkipAce(dec);
    } else if kind == 2 {
      var _ :- DecodeStateid4(dec);
      var _ :- dec.GetU32();
      var _ :- dec.GetU32();
      var _ :- dec.GetU32();
      var _ :- dec.GetU32();
      var _ :- SkipAce(dec);
    }
    r := Success(());
  }

  method DecodeOpen(dec: XdrDecoder) returns (r: Result<Open4Result>)
    requires dec.Valid()
    modifies dec
    ensures dec.Reads(r, TakeOpen(old(dec.Rest())))
  {
    hide TakeU32, TakeStateid, TakeStatus, TakeChangeInfo, TakeBitmap, TakeDelegation;
    var _ :- CheckOpStatus(dec);
    var stateid :- DecodeStateid4(dec);
    var _ :- SkipChangeInfo4(dec);
    var rflags :- dec.GetU32();
    var _ :- SkipBitmap(dec);
    var _ :- SkipDelegation(dec);
    r := Success(Open4Result(stateid, rflags));
  }

  function TakeOpenConfirm(s: bytes): Parsed<Stateid4> {
    var (_, s) :- TakeStatus(s);
    TakeStateid(s)
  }

  /** The result of OPEN_CONFIRM, and that of CLOSE: the new state id. */
  function PutStateResult(code: u32, stateid: Stateid4, k: bytes): (r: bytes)
    ensures |r| >= |k|
    ensures TakeOpenConfirm(r) == Ok(stateid, k)
  {
    PutStatus(code, 0, PutStateid(stateid, k))
  }

  method DecodeOpenConfirm(dec: XdrDecoder) returns (r: Result<Stateid4>)
    requires dec.Valid()
    modifies dec
    ensures dec.Reads(r, TakeOpenConfirm(old(dec.Rest())))
  {
    hide TakeStatus, TakeStateid;
    var _ :- CheckOpStatus(dec);
    r := DecodeStateid4(dec);
  }

  /** The state id that CLOSE returns is dropped. */
  method DecodeClose(dec: XdrDecoder) returns (r: Result<()>)
    requires dec.Valid()
    modifies dec
    ensures dec.Reads(r, Dropped(TakeOpenConfirm(old(dec.Rest()))))
  {
    hide TakeStatus, TakeStateid;
    var _ :- CheckOpStatus(dec);
    var _ :- DecodeStateid4(dec);
    r := Success(());
  }

  /* ----- READDIR ----- */

  datatype DirEntry4 = DirEntry4(cookie: u64, name: bytes, attrs: Fattr4)

  function TakeEntry4(s: bytes): (r: Parsed<DirEntry4>)
    ensures r.Ok? ==> |r.rest| <= |s|
  {
    var (cookie, s) :- TakeU64(s);
    var (name, s) :- TakeOpaque(s);
    var (attrs, s) :- TakeFattr4(s);
    Ok(DirEntry4(cookie, name, attrs), s)
  }

  /** Each entry is announced by a word that is not 0, the end of the list by 0. */
  function TakeEntries4(s: bytes): Parsed<seq<DirEntry4>>
    decreases |s|
  {
    var (follows, s) :- TakeU32(s);
    if follows == 0 then Ok([], s)
    else
      var (e, s) :- TakeEntry4(s);
      var (others, s) :- TakeEntries4(s);
      Ok([e] + others, s)
  }

  function TakeReadDir(s: bytes): Parsed<Page<DirEntry4>> {
    var (_, s) :- TakeStatus(s);
    var (verf, s) :- TakeFixed(8, s);
    var (entries, s) :- TakeEntries4(s);
    var (eof, s) :- TakeU32(s);
    Ok(Page(entries, verf, eof != 0), s)
  }

  /** An entry as a server sends it, with the bitmap and the values of its attributes. */
  datatype ServerEntry = ServerEntry(cookie: u64, name: bytes, bm: seq<u32>, attrs: Attrs)

  predicate Sendable(e: ServerEntry) {
    SendableAttrs(e.bm, e.attrs)
  }

  function Seen(e: ServerEntry): DirEntry4 { DirEntry4(e.cookie, e.name, Exposed(e.attrs)) }

  function PutEntry4(e: ServerEntry, k: bytes): (r: bytes)
    ensures |r| >= |k|
  {
    PutU64(e.cookie, PutOpaque(e.name, PutAttrs(e.bm, e.attrs, [], k)))
  }

  function PutEntries4(es: seq<ServerEntry>, k: bytes): (r: bytes)
    ensures |r| >= |k|
  {
    if es == [] then PutU32(0, k) else PutU32(1, PutEntry4(es[0], PutEntries4(es[1..], k)))
  }

  function PutReadDir(code: u32, verf: verifier4, es: seq<ServerEntry>, eof: bool, k: bytes): (r: bytes)
    ensures |r| >= |k|
  {
    PutStatus(code, 0, PutFixed(verf, PutEntries4(es, PutU32(BoolWord(eof), k))))
  }

  lemma Entry4RoundTrip(e: ServerEntry, k: bytes)
    requires Sendable(e) && |PutEntry4(e, k)| < TWO_32
    ensures TakeEntry4(PutEntry4(e, k)) == Ok(Seen(e), k)
  {
    hide PutU64, PutOpaque, PutAttrs, TakeU64, TakeOpaque, TakeFattr4, Exposed, KindOf, Test;
    Fattr4RoundTrip(e.bm, e.attrs, [], k);
  }

  function SeenAll(es: seq<ServerEntry>): seq<DirEntry4> {
    if es == [] then [] else [Seen(es[0])] + SeenAll(es[1..])
  }

  lemma {:induction false} Entries4RoundTrip(es: seq<ServerEntry>, k: bytes)
    requires (forall i :: 0 <= i < |es| ==> Sendable(es[i])) && |PutEntries4(es, k)| < TWO_32
    ensures TakeEntries4(PutEntries4(es, k)) == Ok(SeenAll(es), k)
  {
    hide PutU32, TakeU32, PutEntry4, TakeEntry4, Sendable, Seen;
    if es != [] {
      Entry4RoundTrip(es[0], PutEntries4(es[1..], k));
      Entries4RoundTrip(es[1..], k);
    }
  }

  /** A listing of any length, with any attributes per entry, comes back whole and the cursor is behind it. */
  lemma ReadDirRoundTrip(code: u32, verf: verifier4, es: seq<ServerEntry>, eof: bool, k: bytes)
    requires (forall i :: 0 <= i < |es| ==> Sendable(es[i])) && |PutReadDir(code, verf, es, eof, k)| < TWO_32
    ensures TakeReadDir(PutReadDir(code, verf, es, eof, k)) == Ok(Page(SeenAll(es), verf, eof), k)
  {
    hide PutU32, PutFixed, PutStatus, PutEntries4, TakeU32, TakeFixed, TakeStatus, TakeEntries4, Sendable;
    Entries4RoundTrip(es, PutU32(BoolWord(eof), k));
  }

  method DecodeReadDir(dec: XdrDecoder) returns (r: Result<Page<DirEntry4>>)
    requires dec.Valid()
    modifies dec
    ensures dec.Reads(r, TakeReadDir(old(dec.Rest())))
  {
    hide TakeU32, TakeU64, TakeOpaque, TakeFixed, TakeStatus, TakeFattr4;
    var _ :- CheckOpStatus(dec);
    var verf :- dec.GetFixed(8);
    var entries: seq<DirEntry4> := [];
    ghost var all := TakeEntries4(dec.Rest());
    while true
      invariant dec.Valid() && all == Prepend(entries, TakeEntries4(dec.Rest()))
      decreases |dec.Rest()|
    {
      var follows :- dec.GetU32();
      if follows == 0 { break; }
      var cookie :- dec.GetU64();
      var name :- dec.GetOpaque();
      var attrs :- DecodeFattr4(dec);
      var e := DirEntry4(cookie, name, attrs);
      PrependTwice(entries, [e], TakeEntries4(dec.Rest()));
      entries := entries + [e];
    }
    assert entries + [] == entries;
    var eof :- dec.GetU32();
    r := Success(Page(entries, verf, eof != 0));
  }
}
