/** NFSv3 (RFC 1813): settable attributes as a prefix code, optional attributes in replies, and the two directory
    listings. */
module Nfs3 {
  import opened Wire
  import opened Xdr

  const NFS_PROG: u32 := 100003
  const NFS_VERS: u32 := 3
  const NFSPROC3_READDIR: u32 := 16
  const NFSPROC3_READDIRPLUS: u32 := 17

  datatype Nfstime3 = Nfstime3(seconds: u32, nseconds: u32)
  datatype Owner3 = Owner3(kind: u32, mode: u32, nlink: u32, uid: u32, gid: u32)
  datatype Space3 = Space3(size: u64, used: u64, major: u32, minor: u32, fsid: u64, fileid: u64)
  datatype Fattr3 = Fattr3(owner: Owner3, space: Space3, atime: Nfstime3, mtime: Nfstime3, ctime: Nfstime3)

  /* ----- attributes in replies ----- */

  function TakeTime3(s: bytes): (r: Parsed<Nfstime3>)
    ensures r.Ok? <==> |s| >= 8
    ensures r.Ok? ==> |s| == 8 + |r.rest|
    ensures r.Err? ==> r.error == Underflow
  {
    var (seconds, s) :- TakeU32(s);
    var (nseconds, s) :- TakeU32(s);
    Ok(Nfstime3(seconds, nseconds), s)
  }

  function PutTime3(t: Nfstime3, k: bytes): (r: bytes)
    ensures |r| == 8 + |k|
    ensures TakeTime3(r) == Ok(t, k)
  {
    PutU32(t.seconds, PutU32(t.nseconds, k))
  }

  function TakeOwner3(s: bytes): (r: Parsed<Owner3>)
    ensures r.Ok? <==> |s| >= 20
    ensures r.Ok? ==> |s| == 20 + |r.rest|
    ensures r.Err? ==> r.error == Underflow
  {
    var (kind, s) :- TakeU32(s);
    var (mode, s) :- TakeU32(s);
    var (nlink, s) :- TakeU32(s);
    var (uid, s) :- TakeU32(s);
    var (gid, s) :- TakeU32(s);
    Ok(Owner3(kind, mode, nlink, uid, gid), s)
  }

  function PutOwner3(o: Owner3, k: bytes): (r: bytes)
    ensures |r| == 20 + |k|
    ensures TakeOwner3(r) == Ok(o, k)
  {
    PutU32(o.kind, PutU32(o.mode, PutU32(o.nlink, PutU32(o.uid, PutU32(o.gid, k)))))
  }

  function TakeSpace3(s: bytes): (r: Parsed<Space3>)
    ensures r.Ok? <==> |s| >= 40
    ensures r.Ok? ==> |s| == 40 + |r.rest|
    ensures r.Err? ==> r.error == Underflow
  {
    var (size, s) :- TakeU64(s);
    var (used, s) :- TakeU64(s);
    var (major, s) :- TakeU32(s);
    var (minor, s) :- TakeU32(s);
    var (fsid, s) :- TakeU64(s);
    var (fileid, s) :- TakeU64(s);
    Ok(Space3(size, used, major, minor, fsid, fileid), s)
  }

  function PutSpace3(x: Space3, k: bytes): (r: bytes)
    ensures |r| == 40 + |k|
    ensures TakeSpace3(r) == Ok(x, k)
  {
    PutU64(x.size, PutU64(x.used, PutU32(x.major, PutU32(x.minor, PutU64(x.fsid, PutU64(x.fileid, k))))))
  }

  function TakeFattr3(s: bytes): (r: Parsed<Fattr3>)
    ensures r.Ok? <==> |s| >= 84
    ensures r.Ok? ==> |s| == 84 + |r.rest|
    ensures r.Err? ==> r.error == Underflow
  {
    hide TakeOwner3, TakeSpace3, TakeTime3;
    var (owner, s) :- TakeOwner3(s);
    var (space, s) :- TakeSpace3(s);
    var (atime, s) :- TakeTime3(s);
    var (mtime, s) :- TakeTime3(s);
    var (ctime, s) :- TakeTime3(s);
    Ok(Fattr3(owner, space, atime, mtime, ctime), s)
  }

  function PutFattr3(a: Fattr3, k: bytes): (r: bytes)
    ensures |r| == 84 + |k|
  {
    PutOwner3(a.owner, PutSpace3(a.space, PutTime3(a.atime, PutTime3(a.mtime, PutTime3(a.ctime, k)))))
  }

  lemma Fattr3RoundTrip(a: Fattr3, k: bytes)
    ensures TakeFattr3(PutFattr3(a, k)) == Ok(a, k)
  {
    hide PutOwner3, PutSpace3, PutTime3, TakeOwner3, TakeSpace3, TakeTime3;
  }

  method DecodeTime3(dec: XdrDecoder) returns (r: Result<Nfstime3>)
    requires dec.Valid()
    modifies dec
    ensures dec.Reads(r, TakeTime3(old(dec.Rest())))
  {
    hide TakeU32;
    var seconds :- dec.GetU32();
    var nseconds :- dec.GetU32();
    r := Success(Nfstime3(seconds, nseconds));
  }

  method DecodeOwner3(dec: XdrDecoder) returns (r: Result<Owner3>)
    requires dec.Valid()
    modifies dec
    ensures dec.Reads(r, TakeOwner3(old(dec.Rest())))
  {
    hide TakeU32;
    var kind :- dec.GetU32();
    var mode :- dec.GetU32();
    var nlink :- dec.GetU32();
    var uid :- dec.GetU32();
    var gid :- dec.GetU32();
    r := Success(Owner3(kind, mode, nlink, uid, gid));
  }

  method DecodeSpace3(dec: XdrDecoder) returns (r: Result<Space3>)
    requires dec.Valid()
    modifies dec
    ensures dec.Reads(r, TakeSpace3(old(dec.Rest())))
  {
    hide TakeU32, TakeU64;
    var size :- dec.GetU64();
    var used :- dec.GetU64();
    var major :- dec.GetU32();
    var minor :- dec.GetU32();
    var fsid :- dec.GetU64();
    var fileid :- dec.GetU64();
    r := Success(Space3(size, used, major, minor, fsid, fileid));
  }

  method DecodeFattr3(dec: XdrDecoder) returns (r: Result<Fattr3>)
    requires dec.Valid()
    modifies dec
    ensures dec.Reads(r, TakeFattr3(old(dec.Rest())))
  {
    hide TakeOwner3, TakeSpace3, TakeTime3;
    var owner :- DecodeOwner3(dec);
    var space :- DecodeSpace3(dec);
    var atime :- DecodeTime3(dec);
    var mtime :- DecodeTime3(dec);
    var ctime :- DecodeTime3(dec);
    r := Success(Fattr3(owner, space, atime, mtime, ctime));
  }

  /** Attributes that may be missing: post_op_attr. */
  function TakePostOp(s: bytes): (r: Parsed<Option<Fattr3>>)
    ensures r.Ok? ==> |r.rest| <= |s|
    ensures r.Err? ==> r.error == Underflow
  {
    var (follows, s) :- TakeU32(s);
    if follows == 0 then Ok(None, s)
    else
      var (a, s) :- TakeFattr3(s);
      Ok(Some(a), s)
  }

  function PutPostOp(a: Option<Fattr3>, k: bytes): (r: bytes)
    ensures |r| >= |k|
  {
    match a
    case None => PutU32(0, k)
    case Some(v) => PutU32(1, PutFattr3(v, k))
  }

  lemma PostOpRoundTrip(a: Option<Fattr3>, k: bytes)
    ensures TakePostOp(PutPostOp(a, k)) == Ok(a, k)
  {
    hide PutU32, TakeU32, PutFattr3, TakeFattr3;
    if a.Some? { Fattr3RoundTrip(a.value, k); }
  }

  method DecodePostOp(dec: XdrDecoder) returns (r: Result<Option<Fattr3>>)
    requires dec.Valid()
    modifies dec
    ensures dec.Reads(r, TakePostOp(old(dec.Rest())))
  {
    hide TakeU32, TakeFattr3;
    var follows :- dec.GetU32();
    if follows == 0 { return Success(None); }
    var a :- DecodeFattr3(dec);
    r := Success(Some(a));
  }

  /** Size and times before an operation, which may be missing: pre_op_attr. */
  datatype WccAttr = WccAttr(size: u64, mtime: Nfstime3, ctime: Nfstime3)

  function TakePreOp(s: bytes): Parsed<Option<WccAttr>> {
    var (follows, s) :- TakeU32(s);
    if follows == 0 then Ok(None, s)
    else
      var (size, s) :- TakeU64(s);
      var (mtime, s) :- TakeTime3(s);
      var (ctime, s) :- TakeTime3(s);
      Ok(Some(WccAttr(size, mtime, ctime)), s)
  }

  function PutPreOp(a: Option<WccAttr>, k: bytes): bytes {
    match a
    case None => PutU32(0, k)
    case Some(v) => PutU32(1, PutU64(v.size, PutTime3(v.mtime, PutTime3(v.ctime, k))))
  }

  lemma PreOpRoundTrip(a: Option<WccAttr>, k: bytes)
    ensures TakePreOp(PutPreOp(a, k)) == Ok(a, k)
  {
    hide PutU32, PutU64, PutTime3, TakeU32, TakeU64, TakeTime3;
  }

  function Skipped<T>(p: Parsed<T>): Parsed<()> {
    match p
    case Ok(_, rest) => Ok((), rest)
    case Err(e) => Err(e)
  }

  /** Six words are read, whatever they mean. */
  method SkipPreOpAttr(dec: XdrDecoder) returns (r: Result<()>)
    requires dec.Valid()
    modifies dec
    ensures dec.Reads(r, Skipped(TakePreOp(old(dec.Rest()))))
  {
    var follows :- dec.GetU32();
    ghost var s := dec.Rest();
    if follows != 0 {
      for i := 0 to 6
        invariant dec.Valid() && |s| >= 4 * i && dec.Rest() == s[4 * i..]
      {
        assert |s| < 4 * (i + 1) ==> Skipped(TakePreOp(old(dec.Rest()))) == Err(Underflow) by { hide Number; }
        var _ :- dec.GetU32();
      }
      assert Skipped(TakePreOp(old(dec.Rest()))) == Ok((), s[24..]) by { hide Number; }
    }
    r := Success(());
  }

  method SkipWccData(dec: XdrDecoder) returns (r: Result<()>)
    requires dec.Valid()
    modifies dec
    ensures dec.Reads(r, TakeWcc(old(dec.Rest())))
  {
    hide TakePreOp, TakePostOp;
    var _ :- SkipPreOpAttr(dec);
    var _ :- DecodePostOp(dec);
    r := Success(());
  }

  function TakeWcc(s: bytes): Parsed<()> {
    var (_, s) :- TakePreOp(s);
    var (_, s) :- TakePostOp(s);
    Ok((), s)
  }

  function PutWcc(before: Option<WccAttr>, after: Option<Fattr3>, k: bytes): bytes { PutPreOp(before, PutPostOp(after, k)) }

  lemma WccSkipped(before: Option<WccAttr>, after: Option<Fattr3>, k: bytes)
    ensures TakeWcc(PutWcc(before, after, k)) == Ok((), k)
  {
    hide PutPreOp, PutPostOp, TakePreOp, TakePostOp;
    PreOpRoundTrip(before, PutPostOp(after, k));
    PostOpRoundTrip(after, k);
  }

  /* ----- settable attributes ----- */

  datatype SetTime = DontChange | ToServerTime | ToClientTime(time: Nfstime3)

  /** A field is sent only if it is set. */
  datatype Sattr3 = Sattr3(mode: Option<u32>, uid: Option<u32>, gid: Option<u32>, size: Option<u64>,
                           atime: SetTime, mtime: SetTime)

  function PutOption32(x: Option<u32>, k: bytes): (r: bytes)
    ensures TakeOption32(r) == Ok(x, k)
  {
    if x.None? then PutU32(0, k) else PutU32(1, PutU32(x.value, k))
  }

  function TakeOption32(s: bytes): Parsed<Option<u32>> {
    var (given, s) :- TakeU32(s);
    if given == 0 then Ok(None, s)
    else if given == 1 then var (v, s) :- TakeU32(s); Ok(Some(v), s)
    else Err(ProtocolError)
  }

  function PutOption64(x: Option<u64>, k: bytes): (r: bytes)
    ensures TakeOption64(r) == Ok(x, k)
  {
    if x.None? then PutU32(0, k) else PutU32(1, PutU64(x.value, k))
  }

  function TakeOption64(s: bytes): Parsed<Option<u64>> {
    var (given, s) :- TakeU32(s);
    if given == 0 then Ok(None, s)
    else if given == 1 then var (v, s) :- TakeU64(s); Ok(Some(v), s)
    else Err(ProtocolError)
  }

  function PutSetTime(x: SetTime, k: bytes): (r: bytes)
    ensures TakeSetTime(r) == Ok(x, k)
  {
    match x
    case DontChange => PutU32(0, k)
    case ToServerTime => PutU32(1, k)
    case ToClientTime(t) => PutU32(2, PutTime3(t, k))
  }

  function TakeSetTime(s: bytes): Parsed<SetTime> {
    var (how, s) :- TakeU32(s);
    if how == 0 then Ok(DontChange, s)
    else if how == 1 then Ok(ToServerTime, s)
    else if how == 2 then var (t, s) :- TakeTime3(s); Ok(ToClientTime(t), s)
    else Err(ProtocolError)
  }

  function PutSattr3(a: Sattr3, k: bytes): bytes {
    PutOption32(a.mode, PutOption32(a.uid, PutOption32(a.gid, PutOption64(a.size, PutSetTime(a.atime, PutSetTime(a.mtime, k))))))
  }

  /** A server's parser. */
  function TakeSattr3(s: bytes): Parsed<Sattr3> {
    var (mode, s) :- TakeOption32(s);
    var (uid, s) :- TakeOption32(s);
    var (gid, s) :- TakeOption32(s);
    var (size, s) :- TakeOption64(s);
    var (atime, s) :- TakeSetTime(s);
    var (mtime, s) :- TakeSetTime(s);
    Ok(Sattr3(mode, uid, gid, size, atime, mtime), s)
  }

  /** In all 144 shapes the attributes are read back and what follows them starts where it should. */
  lemma Sattr3RoundTrip(a: Sattr3, k: bytes)
    ensures TakeSattr3(PutSattr3(a, k)) == Ok(a, k)
  {
    hide PutOption32, PutOption64, PutSetTime, TakeOption32, TakeOption64, TakeSetTime;
  }

  /** No wire form of attributes is the beginning of another. */
  lemma Sattr3PrefixFree(a: Sattr3, k: bytes, b: Sattr3, l: bytes)
    requires PutSattr3(a, k) == PutSattr3(b, l)
    ensures a == b && k == l
  {
    hide PutSattr3, TakeSattr3;
    Sattr3RoundTrip(a, k);
    Sattr3RoundTrip(b, l);
  }

  method EncodeOption32(enc: XdrEncoder, x: Option<u32>)
    modifies enc
    ensures forall k {:trigger enc.buf + k} :: enc.buf + k == old(enc.buf) + PutOption32(x, k)
  {
    enc.PutU32(BoolWord(x.Some?));
    if x.Some? { enc.PutU32(x.value); }
  }

  method EncodeOption64(enc: XdrEncoder, x: Option<u64>)
    modifies enc
    ensures forall k {:trigger enc.buf + k} :: enc.buf + k == old(enc.buf) + PutOption64(x, k)
  {
    enc.PutU32(BoolWord(x.Some?));
    if x.Some? { enc.PutU64(x.value); }
  }

  method EncodeSetTime(enc: XdrEncoder, x: SetTime)
    modifies enc
    ensures forall k {:trigger enc.buf + k} :: enc.buf + k == old(enc.buf) + PutSetTime(x, k)
  {
    enc.PutU32(match x case DontChange => 0 case ToServerTime => 1 case ToClientTime(_) => 2);
    if x.ToClientTime? {
      enc.PutU32(x.time.seconds);
      enc.PutU32(x.time.nseconds);
    }
  }

  method EncodeSattr3(enc: XdrEncoder, a: Sattr3)
    modifies enc
    ensures forall k {:trigger enc.buf + k} :: enc.buf + k == old(enc.buf) + PutSattr3(a, k)
  {
    hide PutOption32, PutOption64, PutSetTime;
    EncodeOption32(enc, a.mode);
    EncodeOption32(enc, a.uid);
    EncodeOption32(enc, a.gid);
    EncodeOption64(enc, a.size);
    EncodeSetTime(enc, a.atime);
    EncodeSetTime(enc, a.mtime);
  }

  /* ----- SETATTR and SYMLINK, where something follows the attributes ----- */

  datatype SetAttrArgs = SetAttrArgs(fh: bytes, attrs: Sattr3, guard: Option<Nfstime3>)

  function PutGuard(g: Option<Nfstime3>, k: bytes): bytes {
    if g.None? then PutU32(0, k) else PutU32(1, PutTime3(g.value, k))
  }

  function TakeGuard(s: bytes): Parsed<Option<Nfstime3>> {
    var (check, s) :- TakeU32(s);
    if check == 0 then Ok(None, s)
    else if check == 1 then var (t, s) :- TakeTime3(s); Ok(Some(t), s)
    else Err(ProtocolError)
  }

  function PutSetAttrArgs(x: SetAttrArgs): bytes { PutOpaque(x.fh, PutSattr3(x.attrs, PutGuard(x.guard, []))) }

  function TakeSetAttrArgs(s: bytes): Parsed<SetAttrArgs> {
    var (fh, s) :- TakeOpaque(s);
    var (attrs, s) :- TakeSattr3(s);
    var (guard, s) :- TakeGuard(s);
    if s == [] then Ok(SetAttrArgs(fh, attrs, guard), []) else Err(ProtocolError)
  }

  lemma SetAttrArgsRoundTrip(x: SetAttrArgs)
    requires |x.fh| < TWO_32
    ensures TakeSetAttrArgs(PutSetAttrArgs(x)) == Ok(x, [])
  {
    hide PutOpaque, PutSattr3, TakeOpaque, TakeSattr3, PutU32, TakeU32, PutTime3, TakeTime3;
    Sattr3RoundTrip(x.attrs, PutGuard(x.guard, []));
  }

  method EncodeGuard(enc: XdrEncoder, g: Option<Nfstime3>)
    modifies enc
    ensures forall k {:trigger enc.buf + k} :: enc.buf + k == old(enc.buf) + PutGuard(g, k)
  {
    enc.PutU32(BoolWord(g.Some?));
    if g.Some? {
      enc.PutU32(g.value.seconds);
      enc.PutU32(g.value.nseconds);
    }
  }

  method EncodeSetAttrArgs(x: SetAttrArgs) returns (args: bytes)
    ensures args == PutSetAttrArgs(x)
  {
    hide PutOpaque, PutSattr3, PutGuard;
    var enc := new XdrEncoder();
    enc.PutOpaque(x.fh);
    EncodeSattr3(enc, x.attrs);
    EncodeGuard(enc, x.guard);
    args := enc.buf;
    assert args == args + [] == [] + PutSetAttrArgs(x);
  }

  datatype SymlinkArgs = SymlinkArgs(dir: bytes, name: bytes, attrs: Sattr3, target: bytes)

  function PutSymlinkArgs(x: SymlinkArgs): bytes {
    PutOpaque(x.dir, PutOpaque(x.name, PutSattr3(x.attrs, PutOpaque(x.target, []))))
  }

  function TakeSymlinkArgs(s: bytes): Parsed<SymlinkArgs> {
    var (dir, s) :- TakeOpaque(s);
    var (name, s) :- TakeOpaque(s);
    var (attrs, s) :- TakeSattr3(s);
    var (target, s) :- TakeOpaque(s);
    if s == [] then Ok(SymlinkArgs(dir, name, attrs, target), []) else Err(ProtocolError)
  }

  lemma SymlinkArgsRoundTrip(x: SymlinkArgs)
    requires |x.dir| < TWO_32 && |x.name| < TWO_32 && |x.target| < TWO_32
    ensures TakeSymlinkArgs(PutSymlinkArgs(x)) == Ok(x, [])
  {
    hide PutOpaque, PutSattr3, TakeOpaque, TakeSattr3;
    Sattr3RoundTrip(x.attrs, PutOpaque(x.target, []));
  }

  method EncodeSymlinkArgs(x: SymlinkArgs) returns (args: bytes)
    ensures args == PutSymlinkArgs(x)
  {
    hide PutOpaque, PutSattr3;
    var enc := new XdrEncoder();
    enc.PutOpaque(x.dir);
    enc.PutOpaque(x.name);
    EncodeSattr3(enc, x.attrs);
    enc.PutOpaque(x.target);
    args := enc.buf;
    assert args == args + [] == [] + PutSymlinkArgs(x);
  }

  /** The reply to SETATTR carries its change record whether it is good or bad, and the status is looked at
      only after the record. */
  function TakeSetAttrReply(s: bytes): Parsed<()> {
    var (status, s) :- TakeU32(s);
    var (_, s) :- TakeWcc(s);
    if status != 0 then Err(Status(status)) else Ok((), s)
  }

  lemma SetAttrReplyRead(status: u32, before: Option<WccAttr>, after: Option<Fattr3>, k: bytes)
    ensures TakeSetAttrReply(PutU32(status, PutWcc(before, after, k))) == if status == 0 then Ok((), k) else Err(Status(status))
  {
    hide PutU32, TakeU32, PutWcc, TakeWcc;
    WccSkipped(before, after, k);
  }

  method DecodeSetAttrReply(reply: bytes) returns (r: Result<()>)
    ensures r == TakeSetAttrReply(reply).ToResult()
  {
    hide TakeU32, TakeWcc;
    var dec := new XdrDecoder(reply);
    var status :- dec.GetU32();
    var _ :- SkipWccData(dec);
    if status != 0 { return Failure(Status(status)); }
    r := Success(());
  }

  /** The reply to SYMLINK has nothing to skip before its status, and a good one must carry a handle. */
  function TakeSymlinkReply(s: bytes): Parsed<bytes> {
    var (status, s) :- TakeU32(s);
    if status != 0 then Err(Status(status))
    else
      var (present, s) :- TakeU32(s);
      if present == 0 then Err(ProtocolError)
      else
        var (fh, s) :- TakeOpaque(s);
        var (_, s) :- TakePostOp(s);
        var (_, s) :- TakeWcc(s);
        Ok(fh, s)
  }

  lemma SymlinkReplyRead(fh: bytes, attrs: Option<Fattr3>, before: Option<WccAttr>, after: Option<Fattr3>, k: bytes)
    requires |fh| < TWO_32
    ensures TakeSymlinkReply(PutU32(0, PutU32(1, PutOpaque(fh, PutPostOp(attrs, PutWcc(before, after, k)))))) == Ok(fh, k)
  {
    hide PutU32, PutOpaque, TakeU32, TakeOpaque, PutWcc, TakeWcc, PutPostOp, TakePostOp;
    PostOpRoundTrip(attrs, PutWcc(before, after, k));
    WccSkipped(before, after, k);
  }

  method DecodeSymlinkReply(reply: bytes) returns (r: Result<bytes>)
    ensures r == TakeSymlinkReply(reply).ToResult()
  {
    hide TakeU32, TakeOpaque, TakePostOp, TakeWcc;
    var dec := new XdrDecoder(reply);
    var status :- dec.GetU32();
    if status != 0 { return Failure(Status(status)); }
    var present :- dec.GetU32();
    if present == 0 { return Failure(ProtocolError); }
    var fh :- dec.GetOpaque();
    var _ :- DecodePostOp(dec);
    var _ :- SkipWccData(dec);
    r := Success(fh);
  }
}
