/** The operations of NFSv4.0 and v4.1 that the clients send (section 16 of RFC 7530, section 18 of RFC 8881),
    the encoder of each, and COMPOUND, a list of operations behind a header (section 15.2 of RFC 7530). */
module Ops {
  import opened Wire
  import opened Xdr
  import opened Bitmap
  import opened Attributes

  type other12 = v: bytes | |v| == 12 witness [0, 0, 0, 0, 0, 0, 0, 0, 0, 0, 0, 0]
  type sessionid4 = v: bytes | |v| == 16 witness [0, 0, 0, 0, 0, 0, 0, 0, 0, 0, 0, 0, 0, 0, 0, 0]

  datatype Stateid4 = Stateid4(seqid: u32, other: other12)

  datatype Op =
    | PutRootFh | PutFh(fh: bytes) | GetFh | SaveFh
    | Lookup(name: bytes)
    | GetAttr(request: seq<u32>)
    | Access(mask: u32)
    | Open(seqid: u32, access: u32, clientid: u64, owner: bytes, create: Option<Sattr4>, name: bytes)
    | OpenConfirm(stateid: Stateid4, seqid: u32)
    | Close(seqid: u32, stateid: Stateid4)
    | Read(stateid: Stateid4, offset: u64, count: u32)
    | Write(stateid: Stateid4, offset: u64, stable: u32, data: bytes)
    | Commit(offset: u64, count: u32)
    | CreateDir(name: bytes, attrs: Sattr4)
    | CreateSymlink(target: bytes, name: bytes, attrs: Sattr4)
    | Remove(name: bytes)
    | Rename(oldName: bytes, newName: bytes)
    | ReadLink
    | SetAttr(stateid: Stateid4, attrs: Sattr4)
    | ReadDir(cookie: u64, verf: verifier4, dircount: u32, maxcount: u32, request: seq<u32>)
    | Renew(clientid: u64)
    | SetClientId(verf: verifier4, owner: bytes)
    | SetClientIdConfirm(clientid: u64, verf: verifier4)
    | ExchangeId(verf: verifier4, owner: bytes)
    | CreateSession(clientid: u64, sequence: u32)
    | Sequence(session: sessionid4, seqid: u32, slot: u32, highestSlot: u32, cache: bool)
    | ReclaimComplete(oneFs: bool)
    | DestroySession(session: sessionid4)

  function OpCode(op: Op): u32 {
    match op
    case Access(_) => 3
    case Close(_, _) => 4
    case Commit(_, _) => 5
    case CreateDir(_, _) => 6
    case CreateSymlink(_, _, _) => 6
    case GetAttr(_) => 9
    case GetFh => 10
    case Lookup(_) => 15
    case Open(_, _, _, _, _, _) => 18
    case OpenConfirm(_, _) => 20
    case PutFh(_) => 22
    case PutRootFh => 24
    case Read(_, _, _) => 25
    case ReadDir(_, _, _, _, _) => 26
    case ReadLink => 27
    case Remove(_) => 28
    case Rename(_, _) => 29
    case Renew(_) => 30
    case SaveFh => 32
    case SetAttr(_, _) => 34
    case SetClientId(_, _) => 35
    case SetClientIdConfirm(_, _) => 36
    case Write(_, _, _, _) => 38
    case ExchangeId(_, _) => 42
    case CreateSession(_, _) => 43
    case DestroySession(_) => 44
    case Sequence(_, _, _, _, _) => 53
    case ReclaimComplete(_) => 58
  }

  const NF4DIR: u32 := 2
  const NF4LNK: u32 := 5
  const OPEN4_NOCREATE: u32 := 0
  const OPEN4_CREATE: u32 := 1
  const UNCHECKED4: u32 := 0
  const CLAIM_NULL: u32 := 0
  const OPEN4_SHARE_DENY_NONE: u32 := 0
  const OPEN4_SHARE_ACCESS_READ: u32 := 1
  const OPEN4_SHARE_ACCESS_WRITE: u32 := 2
  const EXCHGID4_FLAG_USE_NON_PNFS: u32 := 0x2_0000

  // No callbacks: "tcp" at "0.0.0.0.0.0".
  const NO_NETID: bytes := [116, 99, 112]
  const NO_ADDRESS: bytes := [48, 46, 48, 46, 48, 46, 48, 46, 48, 46, 48]

  /* ----- the wire form of an operation, and the parser of a server ----- */

  function TakeStateid(s: bytes): (r: Parsed<Stateid4>)
    ensures r.Ok? ==> |s| == 16 + |r.rest|
  {
    var (seqid, s) :- TakeU32(s);
    var (other, s) :- TakeFixed(12, s);
    Ok(Stateid4(seqid, other), s)
  }

  function PutStateid(x: Stateid4, k: bytes): (r: bytes)
    ensures |r| == 16 + |k|
    ensures TakeStateid(r) == Ok(x, k)
  {
    PutU32(x.seqid, PutFixed(x.other, k))
  }

  /** The attributes of one session channel: its sizes, 16 operations, one request at a time, no RDMA. */
  function PutChannel(size: u32, cached: u32, k: bytes): (r: bytes)
    ensures |r| >= |k|
  {
    PutU32(0, PutU32(size, PutU32(size, PutU32(cached, PutU32(16, PutU32(1, PutU32(0, k)))))))
  }

  /** A server's parser: the size of messages, that of cached replies, 16 operations and one request at a time. */
  function TakeChannel(s: bytes): Parsed<(u32, u32)> {
    var (pad, s) :- TakeU32(s);
    var (request, s) :- TakeU32(s);
    var (response, s) :- TakeU32(s);
    var (cached, s) :- TakeU32(s);
    var (operations, s) :- TakeU32(s);
    var (requests, s) :- TakeU32(s);
    var (ird, s) :- TakeU32(s);
    if pad != 0 || response != request || operations != 16 || requests != 1 || ird != 0 then Err(ProtocolError)
    else Ok((request, cached), s)
  }

  function PutArgs(op: Op, k: bytes): (r: bytes)
    ensures |r| >= |k|
  {
    match op
    case PutFh(fh) => PutOpaque(fh, k)
    case Lookup(name) => PutOpaque(name, k)
    case GetAttr(request) => PutBitmap(request, k)
    case Access(mask) => PutU32(mask, k)
    case Open(seqid, access, clientid, owner, create, name) =>
      var claim := PutU32(CLAIM_NULL, PutOpaque(name, k));
      PutU32(seqid, PutU32(access, PutU32(OPEN4_SHARE_DENY_NONE, PutU64(clientid, PutOpaque(owner,
        match create
        case None => PutU32(OPEN4_NOCREATE, claim)
        case Some(attrs) => PutU32(OPEN4_CREATE, PutU32(UNCHECKED4, PutSattr4(attrs, claim))))))))
    case OpenConfirm(stateid, seqid) => PutStateid(stateid, PutU32(seqid, k))
    case Close(seqid, stateid) => PutU32(seqid, PutStateid(stateid, k))
    case Read(stateid, offset, count) => PutStateid(stateid, PutU64(offset, PutU32(count, k)))
    case Write(stateid, offset, stable, data) => PutStateid(stateid, PutU64(offset, PutU32(stable, PutOpaque(data, k))))
    case Commit(offset, count) => PutU64(offset, PutU32(count, k))
    case CreateDir(name, attrs) => PutU32(NF4DIR, PutOpaque(name, PutSattr4(attrs, k)))
    case CreateSymlink(target, name, attrs) => PutU32(NF4LNK, PutOpaque(target, PutOpaque(name, PutSattr4(attrs, k))))
    case Remove(name) => PutOpaque(name, k)
    case Rename(oldName, newName) => PutOpaque(oldName, PutOpaque(newName, k))
    case SetAttr(stateid, attrs) => PutStateid(stateid, PutSattr4(attrs, k))
    case ReadDir(cookie, verf, dircount, maxcount, request) =>
      PutU64(cookie, PutFixed(verf, PutU32(dircount, PutU32(maxcount, PutBitmap(request, k)))))
    case Renew(clientid) => PutU64(clientid, k)
    case SetClientId(verf, owner) =>
      PutFixed(verf, PutOpaque(owner, PutU32(0, PutOpaque(NO_NETID, PutOpaque(NO_ADDRESS, PutU32(0, k))))))
    case SetClientIdConfirm(clientid, verf) => PutU64(clientid, PutFixed(verf, k))
    case ExchangeId(verf, owner) =>
      PutFixed(verf, PutOpaque(owner, PutU32(EXCHGID4_FLAG_USE_NON_PNFS, PutU32(0, PutU32(0, k)))))
    case CreateSession(clientid, sequence) =>
      PutU64(clientid, PutU32(sequence, PutU32(0, PutChannel(65536, 1024, PutChannel(4096, 256,
        PutU32(0, PutU32(1, PutU32(0, k))))))))
    case Sequence(session, seqid, slot, highestSlot, cache) =>
      PutFixed(session, PutU32(seqid, PutU32(slot, PutU32(highestSlot, PutU32(BoolWord(cache), k)))))
    case ReclaimComplete(oneFs) => PutU32(BoolWord(oneFs), k)
    case DestroySession(session) => PutFixed(session, k)
    case PutRootFh => k
    case GetFh => k
    case SaveFh => k
    case ReadLink => k
  }

  function PutOp(op: Op, k: bytes): (r: bytes)
    ensures |r| >= 4 + |k|
  {
    PutU32(OpCode(op), PutArgs(op, k))
  }

  function TakeClaim(s: bytes): Parsed<bytes> {
    var (claim, s) :- TakeU32(s);
    if claim != 0 then Err(ProtocolError) else TakeOpaque(s)
  }

  function TakeOpenArgs(s: bytes): Parsed<Op> {
    var (seqid, s) :- TakeU32(s);
    var (access, s) :- TakeU32(s);
    var (deny, s) :- TakeU32(s);
    var (clientid, s) :- TakeU64(s);
    var (owner, s) :- TakeOpaque(s);
    var (opentype, s) :- TakeU32(s);
    if deny != 0 then Err(ProtocolError)
    else if opentype == 0 then
      var (name, s) :- TakeClaim(s);
      Ok(Open(seqid, access, clientid, owner, None, name), s)
    else
      var (mode, s) :- TakeU32(s);
      var (attrs, s) :- TakeSattr4(s);
      var (name, s) :- TakeClaim(s);
      if opentype != 1 || mode != 0 then Err(ProtocolError)
      else Ok(Open(seqid, access, clientid, owner, Some(attrs), name), s)
  }

  function TakeCreateArgs(s: bytes): Parsed<Op> {
    var (kind, s) :- TakeU32(s);
    if kind == 2 then
      var (name, s) :- TakeOpaque(s);
      var (attrs, s) :- TakeSattr4(s);
      Ok(CreateDir(name, attrs), s)
    else if kind == 5 then
      var (target, s) :- TakeOpaque(s);
      var (name, s) :- TakeOpaque(s);
      var (attrs, s) :- TakeSattr4(s);
      Ok(CreateSymlink(target, name, attrs), s)
    else Err(ProtocolError)
  }

  function TakeStateArgs(code: u32, s: bytes): Parsed<Op> {
    if code == 4 then
      var (seqid, s) :- TakeU32(s);
      var (stateid, s) :- TakeStateid(s);
      Ok(Close(seqid, stateid), s)
    else
      var (stateid, s) :- TakeStateid(s);
      if code == 20 then var (seqid, s) :- TakeU32(s); Ok(OpenConfirm(stateid, seqid), s)
      else if code == 34 then var (attrs, s) :- TakeSattr4(s); Ok(SetAttr(stateid, attrs), s)
      else
        var (offset, s) :- TakeU64(s);
        var (word, s) :- TakeU32(s);
        if code == 25 then Ok(Read(stateid, offset, word), s)
        else var (data, s) :- TakeOpaque(s); Ok(Write(stateid, offset, word, data), s)
  }

  function TakeReadDirArgs(s: bytes): Parsed<Op> {
    var (cookie, s) :- TakeU64(s);
    var (verf, s) :- TakeFixed(8, s);
    var (dircount, s) :- TakeU32(s);
    var (maxcount, s) :- TakeU32(s);
    var (request, s) :- TakeBitmap(s);
    Ok(ReadDir(cookie, verf, dircount, maxcount, request), s)
  }

  function TakeExchangeIdArgs(s: bytes): Parsed<Op> {
    var (verf, s) :- TakeFixed(8, s);
    var (owner, s) :- TakeOpaque(s);
    var (flags, s) :- TakeU32(s);
    var (protect, s) :- TakeU32(s);
    var (impls, s) :- TakeU32(s);
    if flags != 0x2_0000 || protect != 0 || impls != 0 then Err(ProtocolError)
    else Ok(ExchangeId(verf, owner), s)
  }

  function TakeSetClientIdArgs(s: bytes): Parsed<Op> {
    var (verf, s) :- TakeFixed(8, s);
    var (owner, s) :- TakeOpaque(s);
    var (program, s) :- TakeU32(s);
    var (netid, s) :- TakeOpaque(s);
    var (address, s) :- TakeOpaque(s);
    var (ident, s) :- TakeU32(s);
    if program != 0 || netid != [116, 99, 112] || address != [48, 46, 48, 46, 48, 46, 48, 46, 48, 46, 48] || ident != 0
    then Err(ProtocolError)
    else Ok(SetClientId(verf, owner), s)
  }

  function TakeSetClientIdConfirmArgs(s: bytes): Parsed<Op> {
    var (clientid, s) :- TakeU64(s);
    var (verf, s) :- TakeFixed(8, s);
    Ok(SetClientIdConfirm(clientid, verf), s)
  }

  function TakeCreateSessionArgs(s: bytes): Parsed<Op> {
    var (clientid, s) :- TakeU64(s);
    var (sequence, s) :- TakeU32(s);
    var (flags, s) :- TakeU32(s);
    var (fore, s) :- TakeChannel(s);
    var (back, s) :- TakeChannel(s);
    var (program, s) :- TakeU32(s);
    var (parms, s) :- TakeU32(s);
    var (flavor, s) :- TakeU32(s);
    if fore != (65536, 1024) || back != (4096, 256) || parms != 1 || flavor != 0 then Err(ProtocolError)
    else Ok(CreateSession(clientid, sequence), s)
  }

  function TakeSequenceArgs(s: bytes): Parsed<Op> {
    var (session, s) :- TakeFixed(16, s);
    var (seqid, s) :- TakeU32(s);
    var (slot, s) :- TakeU32(s);
    var (highestSlot, s) :- TakeU32(s);
    var (cache, s) :- TakeU32(s);
    Ok(Sequence(session, seqid, slot, highestSlot, cache != 0), s)
  }

  function TakeNameArgs(code: u32, s: bytes): Parsed<Op> {
    var (name, s) :- TakeOpaque(s);
    if code == 15 then Ok(Lookup(name), s)
    else if code == 22 then Ok(PutFh(name), s)
    else if code == 28 then Ok(Remove(name), s)
    else var (newName, s) :- TakeOpaque(s); Ok(Rename(name, newName), s)
  }

  function TakeNumberArgs(code: u32, s: bytes): Parsed<Op> {
    if code == 3 then var (mask, s) :- TakeU32(s); Ok(Access(mask), s)
    else if code == 58 then var (oneFs, s) :- TakeU32(s); Ok(ReclaimComplete(oneFs != 0), s)
    else if code == 9 then var (request, s) :- TakeBitmap(s); Ok(GetAttr(request), s)
    else if code == 44 then var (session, s) :- TakeFixed(16, s); Ok(DestroySession(session), s)
    else
      var (long, s) :- TakeU64(s);
      if code == 30 then Ok(Renew(long), s)
      else var (count, s) :- TakeU32(s); Ok(Commit(long, count), s)
  }

  function TakeClientArgs(code: u32, s: bytes): Parsed<Op> {
    if code == 35 then TakeSetClientIdArgs(s)
    else if code == 36 then TakeSetClientIdConfirmArgs(s)
    else if code == 42 then TakeExchangeIdArgs(s)
    else if code == 43 then TakeCreateSessionArgs(s)
    else TakeSequenceArgs(s)
  }

  function TakeArgs(code: u32, s: bytes): Parsed<Op> {
    if code == 24 then Ok(PutRootFh, s)
    else if code == 10 then Ok(GetFh, s)
    else if code == 32 then Ok(SaveFh, s)
    else if code == 27 then Ok(ReadLink, s)
    else if code == 18 then TakeOpenArgs(s)
    else if code == 6 then TakeCreateArgs(s)
    else if code == 26 then TakeReadDirArgs(s)
    else if code in {35, 36, 42, 43, 53} then TakeClientArgs(code, s)
    else if code in {4, 20, 25, 34, 38} then TakeStateArgs(code, s)
    else if code in {15, 22, 28, 29} then TakeNameArgs(code, s)
    else if code in {3, 5, 9, 30, 44, 58} then TakeNumberArgs(code, s)
    else Err(ProtocolError)
  }

  function TakeOp(s: bytes): Parsed<Op> {
    var (code, s) :- TakeU32(s);
    TakeArgs(code, s)
  }

  lemma OpenArgs(op: Op, k: bytes)
    requires op.Open? && |PutArgs(op, k)| < TWO_32
    ensures TakeOpenArgs(PutArgs(op, k)) == Ok(op, k)
  {
    hide PutU32, PutU64, PutOpaque, PutFixed, PutBitmap, PutStateid, PutSattr4;
    hide TakeU32, TakeU64, TakeOpaque, TakeFixed, TakeBitmap, TakeStateid, TakeSattr4;
    if op.create.Some? { Sattr4RoundTrip(op.create.value, PutU32(CLAIM_NULL, PutOpaque(op.name, k))); }
  }

  lemma CreateArgs(op: Op, k: bytes)
    requires (op.CreateDir? || op.CreateSymlink?) && |PutArgs(op, k)| < TWO_32
    ensures TakeCreateArgs(PutArgs(op, k)) == Ok(op, k)
  {
    hide PutU32, PutU64, PutOpaque, PutFixed, PutBitmap, PutStateid, PutSattr4;
    hide TakeU32, TakeU64, TakeOpaque, TakeFixed, TakeBitmap, TakeStateid, TakeSattr4;
    Sattr4RoundTrip(op.attrs, k);
  }

  lemma ReadDirArgs(op: Op, k: bytes)
    requires op.ReadDir? && |PutArgs(op, k)| < TWO_32
    ensures TakeReadDirArgs(PutArgs(op, k)) == Ok(op, k)
  {
    hide PutU32, PutU64, PutOpaque, PutFixed, PutBitmap, PutStateid, PutSattr4;
    hide TakeU32, TakeU64, TakeOpaque, TakeFixed, TakeBitmap, TakeStateid, TakeSattr4;
  }

  lemma ExchangeIdArgs(op: Op, k: bytes)
    requires op.ExchangeId? && |PutArgs(op, k)| < TWO_32
    ensures TakeExchangeIdArgs(PutArgs(op, k)) == Ok(op, k)
  {
    hide PutU32, PutU64, PutOpaque, PutFixed, PutBitmap, PutStateid, PutSattr4;
    hide TakeU32, TakeU64, TakeOpaque, TakeFixed, TakeBitmap, TakeStateid, TakeSattr4;
  }

  lemma SetClientIdArgs(op: Op, k: bytes)
    requires op.SetClientId? && |PutArgs(op, k)| < TWO_32
    ensures TakeSetClientIdArgs(PutArgs(op, k)) == Ok(op, k)
  {
    hide PutU32, PutU64, PutOpaque, PutFixed, PutBitmap, PutStateid, PutSattr4;
    hide TakeU32, TakeU64, TakeOpaque, TakeFixed, TakeBitmap, TakeStateid, TakeSattr4;
  }

  lemma SetClientIdConfirmArgs(op: Op, k: bytes)
    requires op.SetClientIdConfirm?
    ensures TakeSetClientIdConfirmArgs(PutArgs(op, k)) == Ok(op, k)
  {
    hide PutU32, PutU64, PutOpaque, PutFixed, PutBitmap, PutStateid, PutSattr4;
    hide TakeU32, TakeU64, TakeOpaque, TakeFixed, TakeBitmap, TakeStateid, TakeSattr4;
  }

  lemma CreateSessionArgs(op: Op, k: bytes)
    requires op.CreateSession? && |PutArgs(op, k)| < TWO_32
    ensures TakeCreateSessionArgs(PutArgs(op, k)) == Ok(op, k)
  {
    hide PutU32, PutU64, PutOpaque, PutFixed, PutBitmap, PutStateid, PutSattr4;
    hide TakeU32, TakeU64, TakeOpaque, TakeFixed, TakeBitmap, TakeStateid, TakeSattr4;
  }

  lemma SequenceArgs(op: Op, k: bytes)
    requires op.Sequence? && |PutArgs(op, k)| < TWO_32
    ensures TakeSequenceArgs(PutArgs(op, k)) == Ok(op, k)
  {
    hide PutU32, PutU64, PutOpaque, PutFixed, PutBitmap, PutStateid, PutSattr4;
    hide TakeU32, TakeU64, TakeOpaque, TakeFixed, TakeBitmap, TakeStateid, TakeSattr4;
  }

  lemma ClientArgs(op: Op, k: bytes)
    requires op.SetClientId? || op.SetClientIdConfirm? || op.ExchangeId? || op.CreateSession? || op.Sequence?
    requires |PutArgs(op, k)| < TWO_32
    ensures TakeClientArgs(OpCode(op), PutArgs(op, k)) == Ok(op, k)
  {
    hide PutArgs, TakeExchangeIdArgs, TakeCreateSessionArgs, TakeSequenceArgs, TakeSetClientIdArgs, TakeSetClientIdConfirmArgs;
    if op.SetClientId? { SetClientIdArgs(op, k); }
    else if op.SetClientIdConfirm? { SetClientIdConfirmArgs(op, k); }
    else if op.ExchangeId? { ExchangeIdArgs(op, k); }
    else if op.CreateSession? { CreateSessionArgs(op, k); }
    else { SequenceArgs(op, k); }
  }

  lemma StateArgs(op: Op, k: bytes)
    requires (op.OpenConfirm? || op.Close? || op.Read? || op.Write? || op.SetAttr?) && |PutArgs(op, k)| < TWO_32
    ensures TakeStateArgs(OpCode(op), PutArgs(op, k)) == Ok(op, k)
  {
    hide PutU32, PutU64, PutOpaque, PutFixed, PutBitmap, PutStateid, PutSattr4;
    hide TakeU32, TakeU64, TakeOpaque, TakeFixed, TakeBitmap, TakeStateid, TakeSattr4;
    if op.SetAttr? { Sattr4RoundTrip(op.attrs, k); }
  }

  lemma NameArgs(op: Op, k: bytes)
    requires (op.PutFh? || op.Lookup? || op.Remove? || op.Rename?) && |PutArgs(op, k)| < TWO_32
    ensures TakeNameArgs(OpCode(op), PutArgs(op, k)) == Ok(op, k)
  {
    hide PutU32, PutU64, PutOpaque, PutFixed, PutBitmap, PutStateid, PutSattr4;
    hide TakeU32, TakeU64, TakeOpaque, TakeFixed, TakeBitmap, TakeStateid, TakeSattr4;
  }

  lemma NumberArgs(op: Op, k: bytes)
    requires op.Access? || op.Commit? || op.GetAttr? || op.Renew? || op.ReclaimComplete? || op.DestroySession?
    requires |PutArgs(op, k)| < TWO_32
    ensures TakeNumberArgs(OpCode(op), PutArgs(op, k)) == Ok(op, k)
  {
    hide PutU32, PutU64, PutOpaque, PutFixed, PutBitmap, PutStateid, PutSattr4;
    hide TakeU32, TakeU64, TakeOpaque, TakeFixed, TakeBitmap, TakeStateid, TakeSattr4;
  }

  lemma NoArgs(k: bytes)
    ensures PutArgs(PutRootFh, k) == PutArgs(GetFh, k) == PutArgs(SaveFh, k) == PutArgs(ReadLink, k) == k
  {
  }

  lemma ArgsRoundTrip(op: Op, k: bytes)
    requires |PutArgs(op, k)| < TWO_32
    ensures TakeArgs(OpCode(op), PutArgs(op, k)) == Ok(op, k)
  {
    hide TakeOpenArgs, TakeCreateArgs, TakeReadDirArgs, TakeClientArgs, TakeStateArgs, TakeNameArgs, TakeNumberArgs, PutArgs;
    NoArgs(k);
    match op {
      case PutRootFh =>
      case GetFh =>
      case SaveFh =>
      case ReadLink =>
      case Open(_, _, _, _, _, _) => OpenArgs(op, k);
      case CreateDir(_, _) => CreateArgs(op, k);
      case CreateSymlink(_, _, _) => CreateArgs(op, k);
      case ReadDir(_, _, _, _, _) => ReadDirArgs(op, k);
      case SetClientId(_, _) => ClientArgs(op, k);
      case SetClientIdConfirm(_, _) => ClientArgs(op, k);
      case ExchangeId(_, _) => ClientArgs(op, k);
      case CreateSession(_, _) => ClientArgs(op, k);
      case Sequence(_, _, _, _, _) => ClientArgs(op, k);
      case OpenConfirm(_, _) => StateArgs(op, k);
      case Close(_, _) => StateArgs(op, k);
      case Read(_, _, _) => StateArgs(op, k);
      case Write(_, _, _, _) => StateArgs(op, k);
      case SetAttr(_, _) => StateArgs(op, k);
      case PutFh(_) => NameArgs(op, k);
      case Lookup(_) => NameArgs(op, k);
      case Remove(_) => NameArgs(op, k);
      case Rename(_, _) => NameArgs(op, k);
      case _ => NumberArgs(op, k);
    }
  }

  /** A server reads back the operation and all its arguments, and stops where the next one begins. */
  lemma OpRoundTrip(op: Op, k: bytes)
    requires |PutOp(op, k)| < TWO_32
    ensures TakeOp(PutOp(op, k)) == Ok(op, k)
  {
    hide PutArgs, TakeArgs;
    ArgsRoundTrip(op, k);
  }

  /* ----- lists of operations, and COMPOUND ----- */

  function PutOps(ops: seq<Op>, k: bytes): (r: bytes)
    ensures |r| >= 4 * |ops| + |k|
  {
    if ops == [] then k else PutOp(ops[0], PutOps(ops[1..], k))
  }

  function TakeOps(n: nat, s: bytes): Parsed<seq<Op>> {
    if n == 0 then Ok([], s)
    else
      var (op, s) :- TakeOp(s);
      var (ops, s) :- TakeOps(n - 1, s);
      Ok([op] + ops, s)
  }

  lemma {:induction false} OpsRoundTrip(ops: seq<Op>, k: bytes)
    requires |PutOps(ops, k)| < TWO_32
    ensures TakeOps(|ops|, PutOps(ops, k)) == Ok(ops, k)
  {
    hide PutOp, TakeOp;
    if ops != [] {
      OpRoundTrip(ops[0], PutOps(ops[1..], k));
      OpsRoundTrip(ops[1..], k);
      assert [ops[0]] + ops[1..] == ops;
    }
  }

  datatype Compound = Compound(tag: bytes, minor: u32, ops: seq<Op>)

  /** The header that the client writes in front of the bytes of `n` operations. */
  function PutHeader(tag: bytes, minor: u32, n: u32, ops: bytes): (r: bytes)
    ensures |r| >= |ops|
  {
    PutOpaque(tag, PutU32(minor, PutU32(n, ops)))
  }

  function PutCompound(c: Compound): bytes {
    PutHeader(c.tag, c.minor, Low32(|c.ops|), PutOps(c.ops, []))
  }

  /** A server's parser: the header, as many operations as it says, and nothing behind them. */
  function TakeCompound(s: bytes): Parsed<Compound> {
    var (tag, s) :- TakeOpaque(s);
    var (minor, s) :- TakeU32(s);
    var (n, s) :- TakeU32(s);
    var (ops, s) :- TakeOps(n, s);
    if s == [] then Ok(Compound(tag, minor, ops), []) else Err(ProtocolError)
  }

  lemma CompoundRoundTrip(c: Compound)
    requires |PutCompound(c)| < TWO_32
    ensures TakeCompound(PutCompound(c)) == Ok(c, [])
  {
    hide PutOps, TakeOps, PutU32, PutOpaque, TakeU32, TakeOpaque;
    OpsRoundTrip(c.ops, []);
  }

  lemma OpsOne(a: Op, k: bytes)
    ensures PutOps([a], k) == PutOp(a, k)
  {
    hide PutOp;
  }

  lemma OpsTwo(a: Op, b: Op, k: bytes)
    ensures PutOps([a, b], k) == PutOp(a, PutOp(b, k))
  {
    hide PutOp;
    assert [a, b][1..] == [b];
    OpsOne(b, k);
  }

  lemma OpsThree(a: Op, b: Op, c: Op, k: bytes)
    ensures PutOps([a, b, c], k) == PutOp(a, PutOp(b, PutOp(c, k)))
  {
    hide PutOp;
    assert [a, b, c][1..] == [b, c];
    OpsTwo(b, c, k);
  }

  lemma OpsFour(a: Op, b: Op, c: Op, d: Op, k: bytes)
    ensures PutOps([a, b, c, d], k) == PutOp(a, PutOp(b, PutOp(c, PutOp(d, k))))
  {
    hide PutOp;
    assert [a, b, c, d][1..] == [b, c, d];
    OpsThree(b, c, d, k);
  }

  /* ----- the encoder of each operation ----- */

  method EncodePutRootFh(enc: XdrEncoder)
    modifies enc
    ensures forall k {:trigger enc.buf + k} :: enc.buf + k == old(enc.buf) + PutOp(PutRootFh, k)
  {
    enc.PutU32(24);
  }

  method EncodePutFh(enc: XdrEncoder, fh: bytes)
    modifies enc
    ensures forall k {:trigger enc.buf + k} :: enc.buf + k == old(enc.buf) + PutOp(PutFh(fh), k)
  {
    enc.PutU32(22);
    enc.PutOpaque(fh);
  }

  method EncodeGetFh(enc: XdrEncoder)
    modifies enc
    ensures forall k {:trigger enc.buf + k} :: enc.buf + k == old(enc.buf) + PutOp(GetFh, k)
  {
    enc.PutU32(10);
  }

  method EncodeSaveFh(enc: XdrEncoder)
    modifies enc
    ensures forall k {:trigger enc.buf + k} :: enc.buf + k == old(enc.buf) + PutOp(SaveFh, k)
  {
    enc.PutU32(32);
  }

  method EncodeLookup(enc: XdrEncoder, name: bytes)
    modifies enc
    ensures forall k {:trigger enc.buf + k} :: enc.buf + k == old(enc.buf) + PutOp(Lookup(name), k)
  {
    enc.PutU32(15);
    enc.PutOpaque(name);
  }

  method EncodeGetAttr(enc: XdrEncoder, ids: seq<u32>)
    modifies enc
    ensures forall k {:trigger enc.buf + k} :: enc.buf + k == old(enc.buf) + PutOp(GetAttr(BitmapOf(ids)), k)
  {
    enc.PutU32(9);
    EncodeAttrRequest(enc, ids);
  }

  method EncodeAttrRequest(enc: XdrEncoder, ids: seq<u32>)
    modifies enc
    ensures forall k {:trigger enc.buf + k} :: enc.buf + k == old(enc.buf) + PutBitmap(BitmapOf(ids), k)
  {
    var bm := MakeBitmap4(ids);
    EncodeBitmap4(enc, bm);
  }

  method EncodeAccess(enc: XdrEncoder, mask: u32)
    modifies enc
    ensures forall k {:trigger enc.buf + k} :: enc.buf + k == old(enc.buf) + PutOp(Access(mask), k)
  {
    enc.PutU32(3);
    enc.PutU32(mask);
  }

  method EncodeStateid4(enc: XdrEncoder, x: Stateid4)
    modifies enc
    ensures forall k {:trigger enc.buf + k} :: enc.buf + k == old(enc.buf) + PutStateid(x, k)
  {
    enc.PutU32(x.seqid);
    enc.PutFixed(x.other);
  }

  /** The part of OPEN that both forms share. */
  method EncodeOpenPrefix(enc: XdrEncoder, seqid: u32, access: u32, clientid: u64, owner: bytes)
    modifies enc
    ensures forall k {:trigger enc.buf + k} :: enc.buf + k == old(enc.buf) +
              PutU32(18, PutU32(seqid, PutU32(access, PutU32(OPEN4_SHARE_DENY_NONE, PutU64(clientid, PutOpaque(owner, k))))))
  {
    enc.PutU32(18);
    enc.PutU32(seqid);
    enc.PutU32(access);
    enc.PutU32(OPEN4_SHARE_DENY_NONE);
    enc.PutU64(clientid);
    enc.PutOpaque(owner);
  }

  method EncodeOpenNoCreate(enc: XdrEncoder, seqid: u32, access: u32, clientid: u64, owner: bytes, name: bytes)
    modifies enc
    ensures forall k {:trigger enc.buf + k} ::
              enc.buf + k == old(enc.buf) + PutOp(Open(seqid, access, clientid, owner, None, name), k)
  {
    hide PutU32, PutU64, PutOpaque;
    EncodeOpenPrefix(enc, seqid, access, clientid, owner);
    enc.PutU32(OPEN4_NOCREATE);
    enc.PutU32(CLAIM_NULL);
    enc.PutOpaque(name);
  }

  method EncodeOpenCreate(enc: XdrEncoder, seqid: u32, access: u32, clientid: u64, owner: bytes, name: bytes, attrs: Sattr4)
    modifies enc
    ensures forall k {:trigger enc.buf + k} ::
              enc.buf + k == old(enc.buf) + PutOp(Open(seqid, access, clientid, owner, Some(attrs), name), k)
  {
    hide PutU32, PutU64, PutOpaque, PutSattr4;
    EncodeOpenPrefix(enc, seqid, access, clientid, owner);
    enc.PutU32(OPEN4_CREATE);
    enc.PutU32(UNCHECKED4);
    EncodeFattr4(enc, attrs);
    enc.PutU32(CLAIM_NULL);
    enc.PutOpaque(name);
  }

  method EncodeOpenConfirm(enc: XdrEncoder, stateid: Stateid4, seqid: u32)
    modifies enc
    ensures forall k {:trigger enc.buf + k} :: enc.buf + k == old(enc.buf) + PutOp(OpenConfirm(stateid, seqid), k)
  {
    hide PutU32, PutStateid;
    enc.PutU32(20);
    EncodeStateid4(enc, stateid);
    enc.PutU32(seqid);
  }

  method EncodeClose(enc: XdrEncoder, seqid: u32, stateid: Stateid4)
    modifies enc
    ensures forall k {:trigger enc.buf + k} :: enc.buf + k == old(enc.buf) + PutOp(Close(seqid, stateid), k)
  {
    hide PutU32, PutStateid;
    enc.PutU32(4);
    enc.PutU32(seqid);
    EncodeStateid4(enc, stateid);
  }

  method EncodeRead(enc: XdrEncoder, stateid: Stateid4, offset: u64, count: u32)
    modifies enc
    ensures forall k {:trigger enc.buf + k} :: enc.buf + k == old(enc.buf) + PutOp(Read(stateid, offset, count), k)
  {
    hide PutU32, PutU64, PutStateid;
    enc.PutU32(25);
    EncodeStateid4(enc, stateid);
    enc.PutU64(offset);
    enc.PutU32(count);
  }

  method EncodeWrite(enc: XdrEncoder, stateid: Stateid4, offset: u64, stable: u32, data: bytes)
    modifies enc
    ensures forall k {:trigger enc.buf + k} :: enc.buf + k == old(enc.buf) + PutOp(Write(stateid, offset, stable, data), k)
  {
    hide PutU32, PutU64, PutStateid, PutOpaque;
    enc.PutU32(38);
    EncodeStateid4(enc, stateid);
    enc.PutU64(offset);
    enc.PutU32(stable);
    enc.PutOpaque(data);
  }

  method EncodeCommit(enc: XdrEncoder, offset: u64, count: u32)
    modifies enc
    ensures forall k {:trigger enc.buf + k} :: enc.buf + k == old(enc.buf) + PutOp(Commit(offset, count), k)
  {
    hide PutU32, PutU64;
    enc.PutU32(5);
    enc.PutU64(offset);
    enc.PutU32(count);
  }

  method EncodeCreateDir(enc: XdrEncoder, name: bytes, attrs: Sattr4)
    modifies enc
    ensures forall k {:trigger enc.buf + k} :: enc.buf + k == old(enc.buf) + PutOp(CreateDir(name, attrs), k)
  {
    hide PutU32, PutOpaque, PutSattr4;
    enc.PutU32(6);
    enc.PutU32(NF4DIR);
    enc.PutOpaque(name);
    EncodeFattr4(enc, attrs);
  }

  method EncodeCreateSymlink(enc: XdrEncoder, name: bytes, target: bytes, attrs: Sattr4)
    modifies enc
    ensures forall k {:trigger enc.buf + k} :: enc.buf + k == old(enc.buf) + PutOp(CreateSymlink(target, name, attrs), k)
  {
    hide PutU32, PutOpaque, PutSattr4;
    enc.PutU32(6);
    enc.PutU32(NF4LNK);
    enc.PutOpaque(target);
    enc.PutOpaque(name);
    EncodeFattr4(enc, attrs);
  }

  method EncodeRemove(enc: XdrEncoder, name: bytes)
    modifies enc
    ensures forall k {:trigger enc.buf + k} :: enc.buf + k == old(enc.buf) + PutOp(Remove(name), k)
  {
    enc.PutU32(28);
    enc.PutOpaque(name);
  }

  method EncodeRename(enc: XdrEncoder, oldName: bytes, newName: bytes)
    modifies enc
    ensures forall k {:trigger enc.buf + k} :: enc.buf + k == old(enc.buf) + PutOp(Rename(oldName, newName), k)
  {
    hide PutU32, PutOpaque;
    enc.PutU32(29);
    enc.PutOpaque(oldName);
    enc.PutOpaque(newName);
  }

  method EncodeReadLink(enc: XdrEncoder)
    modifies enc
    ensures forall k {:trigger enc.buf + k} :: enc.buf + k == old(enc.buf) + PutOp(ReadLink, k)
  {
    enc.PutU32(27);
  }

  method EncodeSetAttr(enc: XdrEncoder, stateid: Stateid4, attrs: Sattr4)
    modifies enc
    ensures forall k {:trigger enc.buf + k} :: enc.buf + k == old(enc.buf) + PutOp(SetAttr(stateid, attrs), k)
  {
    hide PutU32, PutStateid, PutSattr4;
    enc.PutU32(34);
    EncodeStateid4(enc, stateid);
    EncodeFattr4(enc, attrs);
  }

  method EncodeReadDir(enc: XdrEncoder, cookie: u64, verf: verifier4, dircount: u32, maxcount: u32, ids: seq<u32>)
    modifies enc
    ensures forall k {:trigger enc.buf + k} ::
              enc.buf + k == old(enc.buf) + PutOp(ReadDir(cookie, verf, dircount, maxcount, BitmapOf(ids)), k)
  {
    hide PutU32, PutU64, PutFixed, PutBitmap, BitmapOf;
    enc.PutU32(26);
    enc.PutU64(cookie);
    enc.PutFixed(verf);
    enc.PutU32(dircount);
    enc.PutU32(maxcount);
    EncodeAttrRequest(enc, ids);
  }

  method EncodeRenew(enc: XdrEncoder, clientid: u64)
    modifies enc
    ensures forall k {:trigger enc.buf + k} :: enc.buf + k == old(enc.buf) + PutOp(Renew(clientid), k)
  {
    enc.PutU32(30);
    enc.PutU64(clientid);
  }

  method EncodeSetClientId(enc: XdrEncoder, verf: verifier4, owner: bytes)
    modifies enc
    ensures forall k {:trigger enc.buf + k} :: enc.buf + k == old(enc.buf) + PutOp(SetClientId(verf, owner), k)
  {
    hide PutU32, PutFixed, PutOpaque;
    enc.PutU32(35);
    enc.PutFixed(verf);
    enc.PutOpaque(owner);
    enc.PutU32(0);
    enc.PutOpaque(NO_NETID);
    enc.PutOpaque(NO_ADDRESS);
    enc.PutU32(0);
  }

  method EncodeSetClientIdConfirm(enc: XdrEncoder, clientid: u64, verf: verifier4)
    modifies enc
    ensures forall k {:trigger enc.buf + k} :: enc.buf + k == old(enc.buf) + PutOp(SetClientIdConfirm(clientid, verf), k)
  {
    hide PutU32, PutU64, PutFixed;
    enc.PutU32(36);
    enc.PutU64(clientid);
    enc.PutFixed(verf);
  }

  method EncodeExchangeId(enc: XdrEncoder, verf: verifier4, owner: bytes)
    modifies enc
    ensures forall k {:trigger enc.buf + k} :: enc.buf + k == old(enc.buf) + PutOp(ExchangeId(verf, owner), k)
  {
    hide PutU32, PutFixed, PutOpaque;
    enc.PutU32(42);
    enc.PutFixed(verf);
    enc.PutOpaque(owner);
    enc.PutU32(EXCHGID4_FLAG_USE_NON_PNFS);
    enc.PutU32(0);
    enc.PutU32(0);
  }

  method EncodeChannelAttrs(enc: XdrEncoder, maxRequest: u32, maxResponse: u32, cached: u32)
    requires maxRequest == maxResponse
    modifies enc
    ensures forall k {:trigger enc.buf + k} :: enc.buf + k == old(enc.buf) + PutChannel(maxRequest, cached, k)
  {
    hide PutU32;
    enc.PutU32(0);
    enc.PutU32(maxRequest);
    enc.PutU32(maxResponse);
    enc.PutU32(cached);
    enc.PutU32(16);
    enc.PutU32(1);
    enc.PutU32(0);
  }

  method EncodeCreateSession(enc: XdrEncoder, clientid: u64, sequence: u32)
    modifies enc
    ensures forall k {:trigger enc.buf + k} :: enc.buf + k == old(enc.buf) + PutOp(CreateSession(clientid, sequence), k)
  {
    hide PutU32, PutU64, PutChannel;
    enc.PutU32(43);
    enc.PutU64(clientid);
    enc.PutU32(sequence);
    enc.PutU32(0);
    EncodeSessionParms(enc);
  }

  /** Both channels, callback program 0 and one security parameter, AUTH_NONE. */
  method EncodeSessionParms(enc: XdrEncoder)
    modifies enc
    ensures forall k {:trigger enc.buf + k} :: enc.buf + k == old(enc.buf) +
              PutChannel(65536, 1024, PutChannel(4096, 256, PutU32(0, PutU32(1, PutU32(0, k)))))
  {
    hide PutU32, PutChannel;
    EncodeChannelAttrs(enc, 65536, 65536, 1024);
    EncodeChannelAttrs(enc, 4096, 4096, 256);
    enc.PutU32(0);
    enc.PutU32(1);
    enc.PutU32(0);
  }

  method EncodeSequence(enc: XdrEncoder, session: sessionid4, seqid: u32, slot: u32, highestSlot: u32, cache: bool)
    modifies enc
    ensures forall k {:trigger enc.buf + k} ::
              enc.buf + k == old(enc.buf) + PutOp(Sequence(session, seqid, slot, highestSlot, cache), k)
  {
    hide PutU32, PutFixed;
    enc.PutU32(53);
    enc.PutFixed(session);
    enc.PutU32(seqid);
    enc.PutU32(slot);
    enc.PutU32(highestSlot);
    enc.PutU32(BoolWord(cache));
  }

  method EncodeReclaimComplete(enc: XdrEncoder, oneFs: bool)
    modifies enc
    ensures forall k {:trigger enc.buf + k} :: enc.buf + k == old(enc.buf) + PutOp(ReclaimComplete(oneFs), k)
  {
    hide PutU32;
    enc.PutU32(58);
    enc.PutU32(BoolWord(oneFs));
  }

  method EncodeDestroySession(enc: XdrEncoder, session: sessionid4)
    modifies enc
    ensures forall k {:trigger enc.buf + k} :: enc.buf + k == old(enc.buf) + PutOp(DestroySession(session), k)
  {
    hide PutU32, PutFixed;
    enc.PutU32(44);
    enc.PutFixed(session);
  }
}
