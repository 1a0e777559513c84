/** The two directory listings of NFSv3, READDIR and READDIRPLUS (sections 3.3.16 and 3.3.17 of RFC 1813). */
module Listing3 {
  import opened Wire
  import opened Xdr
  import opened Rpc
  import opened Transport
  import opened Paging
  import opened Nfs3

  /* ----- READDIR ----- */

  datatype ReadDirArgs = ReadDirArgs(dir: bytes, cur: Cursor, count: u32)

  function PutReadDirArgs(x: ReadDirArgs): bytes {
    PutOpaque(x.dir, PutU64(x.cur.cookie, PutFixed(x.cur.verf, PutU32(x.count, []))))
  }

  /** A server's parser. */
  function TakeReadDirArgs(s: bytes): Parsed<ReadDirArgs> {
    var (dir, s) :- TakeOpaque(s);
    var (cookie, s) :- TakeU64(s);
    var (verf, s) :- TakeFixed(8, s);
    var (count, s) :- TakeU32(s);
    if s == [] then Ok(ReadDirArgs(dir, Cursor(cookie, verf), count), []) else Err(ProtocolError)
  }

  /** The cookie and the verifier that the client goes on with reach the server. */
  lemma ReadDirArgsRoundTrip(x: ReadDirArgs)
    requires |x.dir| < TWO_32
    ensures TakeReadDirArgs(PutReadDirArgs(x)) == Ok(x, [])
  {
    hide PutU32, PutU64, PutOpaque, PutFixed, TakeU32, TakeU64, TakeOpaque, TakeFixed;
  }

  method EncodeReadDirArgs(x: ReadDirArgs) returns (args: bytes)
    ensures args == PutReadDirArgs(x)
  {
    hide PutU32, PutU64, PutOpaque, PutFixed;
    var enc := new XdrEncoder();
    enc.PutOpaque(x.dir);
    enc.PutU64(x.cur.cookie);
    enc.PutFixed(x.cur.verf);
    enc.PutU32(x.count);
    args := enc.buf;
    assert args == args + [] == [] + PutReadDirArgs(x);
  }

  datatype DirEntry3 = DirEntry3(fileid: u64, name: bytes, cookie: u64)

  function TakeEntry3(s: bytes): (r: Parsed<DirEntry3>)
    ensures r.Ok? ==> |r.rest| <= |s|
    ensures r.Err? ==> r.error == Underflow
  {
    var (fileid, s) :- TakeU64(s);
    var (name, s) :- TakeOpaque(s);
    var (cookie, s) :- TakeU64(s);
    Ok(DirEntry3(fileid, name, cookie), s)
  }

  /** Any bytes at all are a list or run out. */
  function TakeEntries3(s: bytes): (r: Parsed<seq<DirEntry3>>)
    ensures r.Err? ==> r.error == Underflow
    decreases |s|
  {
    var (follows, s) :- TakeU32(s);
    if follows == 0 then Ok([], s)
    else
      var (e, s) :- TakeEntry3(s);
      var (others, s) :- TakeEntries3(s);
      Ok([e] + others, s)
  }

  /** The attributes of the directory come before the status is looked at, in a bad reply too. */
  function TakeReadDir3(s: bytes): Parsed<Page<DirEntry3>> {
    var (status, s) :- TakeU32(s);
    var (_, s) :- TakePostOp(s);
    if status != 0 then Err(Status(status))
    else
      var (verf, s) :- TakeFixed(8, s);
      var (entries, s) :- TakeEntries3(s);
      var (eof, s) :- TakeU32(s);
      Ok(Page(entries, verf, eof != 0), s)
  }

  function PutEntry3(e: DirEntry3, k: bytes): bytes { PutU64(e.fileid, PutOpaque(e.name, PutU64(e.cookie, k))) }

  function PutEntries3(es: seq<DirEntry3>, k: bytes): bytes {
    if es == [] then PutU32(0, k) else PutU32(1, PutEntry3(es[0], PutEntries3(es[1..], k)))
  }

  function PutReadDir3(attrs: Option<Fattr3>, p: Page<DirEntry3>, k: bytes): bytes {
    PutU32(0, PutPostOp(attrs, PutFixed(p.verf, PutEntries3(p.entries, PutU32(BoolWord(p.eof), k)))))
  }

  lemma {:induction false} Entries3RoundTrip(es: seq<DirEntry3>, k: bytes)
    requires forall e <- es :: |e.name| < TWO_32
    ensures TakeEntries3(PutEntries3(es, k)) == Ok(es, k)
  {
    hide PutU32, PutU64, PutOpaque, TakeU32, TakeU64, TakeOpaque;
    if es != [] {
      Entries3RoundTrip(es[1..], k);
      assert TakeEntry3(PutEntry3(es[0], PutEntries3(es[1..], k))) == Ok(es[0], PutEntries3(es[1..], k));
      assert [es[0]] + es[1..] == es;
    }
  }

  /** A listing of any length comes back whole, with or without attributes of the directory in front. */
  lemma ReadDir3RoundTrip(attrs: Option<Fattr3>, p: Page<DirEntry3>, k: bytes)
    requires forall e <- p.entries :: |e.name| < TWO_32
    ensures TakeReadDir3(PutReadDir3(attrs, p, k)) == Ok(p, k)
  {
    hide PutU32, PutFixed, PutPostOp, PutEntries3, TakeU32, TakeFixed, TakePostOp, TakeEntries3;
    PostOpRoundTrip(attrs, PutFixed(p.verf, PutEntries3(p.entries, PutU32(BoolWord(p.eof), k))));
    Entries3RoundTrip(p.entries, PutU32(BoolWord(p.eof), k));
  }

  lemma ReadDir3Failed(status: u32, attrs: Option<Fattr3>, k: bytes)
    requires status != 0
    ensures TakeReadDir3(PutU32(status, PutPostOp(attrs, k))) == Err(Status(status))
  {
    hide PutU32, PutPostOp, TakeU32, TakePostOp;
    PostOpRoundTrip(attrs, k);
  }

  method DecodeEntry3(dec: XdrDecoder) returns (r: Result<DirEntry3>)
    requires dec.Valid()
    modifies dec
    ensures dec.Reads(r, TakeEntry3(old(dec.Rest())))
  {
    hide TakeU64, TakeOpaque;
    var fileid :- dec.GetU64();
    var name :- dec.GetOpaque();
    var cookie :- dec.GetU64();
    r := Success(DirEntry3(fileid, name, cookie));
  }

  method DecodeReadDirReply(reply: bytes) returns (r: Result<Page<DirEntry3>>)
    ensures r == TakeReadDir3(reply).ToResult()
  {
    hide TakeU32, TakeFixed, TakePostOp, TakeEntry3;
    var dec := new XdrDecoder(reply);
    var status :- dec.GetU32();
    var _ :- DecodePostOp(dec);
    if status != 0 { return Failure(Status(status)); }
    var verf :- dec.GetFixed(8);
    var entries: seq<DirEntry3> := [];
    ghost var all := TakeEntries3(dec.Rest());
    while true
      invariant dec.Valid() && all == Prepend(entries, TakeEntries3(dec.Rest()))
      decreases |dec.Rest()|
    {
      var follows :- dec.GetU32();
      if follows == 0 { break; }
      var e :- DecodeEntry3(dec);
      PrependTwice(entries, [e], TakeEntries3(dec.Rest()));
      entries := entries + [e];
    }
    assert entries + [] == entries;
    var eof :- dec.GetU32();
    r := Success(Page(entries, verf, eof != 0));
  }

  function CookieOf(e: DirEntry3): u64 { e.cookie }

  function ReadDirRequest(dir: bytes, cur: Cursor, count: u32): Request {
    Request(NFS_PROG, NFS_VERS, NFSPROC3_READDIR, PutReadDirArgs(ReadDirArgs(dir, cur, count)))
  }

  function ReadDirRequests(dir: bytes, count: u32): (nat, Cursor) -> Request {
    (n: nat, cur: Cursor) => ReadDirRequest(dir, cur, count)
  }

  function Fetch3(c: Conn, dir: bytes, count: u32, n: nat, cur: Cursor): Listing<DirEntry3> {
    Fetch(c, ReadDirRequests(dir, count), TakeReadDir3, CookieOf, n, cur)
  }

  method ReadDirPage(rpc: TcpRpcClient, dir: bytes, cur: Cursor, count: u32) returns (r: Result<Page<DirEntry3>>)
    requires rpc.Valid()
    modifies rpc, rpc.sock
    ensures rpc.Valid() && rpc.calls == old(rpc.calls) + [CallOf(old(rpc.View()), ReadDirRequest(dir, cur, count))]
    ensures (rpc.View(), r) == Query(old(rpc.View()), ReadDirRequest(dir, cur, count), TakeReadDir3)
  {
    hide PutReadDirArgs, TakeReadDir3, Exchange, CallOf, Delivered, Messages;
    var args := EncodeReadDirArgs(ReadDirArgs(dir, cur, count));
    var reply :- rpc.Call(NFS_PROG, NFS_VERS, NFSPROC3_READDIR, args);
    r := DecodeReadDirReply(reply);
  }

  /** The requests that were made from the `base`-th call on, whatever their numbers and credentials. */
  ghost predicate Made(calls: seq<Call>, base: nat, qs: seq<Request>) {
    |calls| == base + |qs| && forall i :: 0 <= i < |qs| ==> IsRequest(calls[base + i], qs[i])
  }

  predicate IsRequest(c: Call, q: Request) { Request(c.prog, c.vers, c.proc, c.args) == q }

  lemma NothingMade(calls: seq<Call>, qs: seq<Request>)
    requires qs == []
    ensures Made(calls, |calls|, qs)
  {
  }

  lemma MadeSnoc(calls: seq<Call>, base: nat, qs: seq<Request>, c: Conn, q: Request)
    requires Made(calls, base, qs)
    ensures Made(calls + [CallOf(c, q)], base, qs + [q])
  {
  }

  function ReadDirLog(dir: bytes, count: u32, cursors: seq<Cursor>): (r: seq<Request>)
    ensures |r| == |cursors|
  {
    seq(|cursors|, k requires 0 <= k < |cursors| => ReadDirRequest(dir, cursors[k], count))
  }

  lemma ReadDirLogSnoc(dir: bytes, count: u32, cursors: seq<Cursor>, cur: Cursor)
    ensures ReadDirLog(dir, count, cursors + [cur]) == ReadDirLog(dir, count, cursors) + [ReadDirRequest(dir, cur, count)]
  {
    hide ReadDirRequest;
  }

  lemma NoPagesYet<E>(l: Listing<E>, cookieOf: E -> u64)
    ensures After(START, [], cookieOf) == START && WithPages([], l) == l && Listed<E>([]) == []
    ensures Cursors([], 0, cookieOf) == []
  {
    assert [] + l.pages == l.pages;
  }

  method ReadDir(rpc: TcpRpcClient, dir: bytes, count: u32) returns (r: Result<seq<DirEntry3>>)
    requires rpc.Valid()
    modifies rpc, rpc.sock
    ensures rpc.Valid()
    ensures var l := Fetch3(old(rpc.View()), dir, count, 0, START);
            && rpc.View() == l.conn && r == Outcome(l)
            && Made(rpc.calls, |old(rpc.calls)|, ReadDirLog(dir, count, AllCursors(l, CookieOf)))
  {
    hide Query, Fetch, Delivered, Messages, CallOf, Made, Cursors, ReadDirLog, ReadDirRequest, After, Advance, TakeReadDir3;
    ghost var base := |rpc.calls|;
    ghost var all := Fetch3(rpc.View(), dir, count, 0, START);
    ghost var pages: seq<Page<DirEntry3>> := [];
    var entries: seq<DirEntry3> := [];
    var cur := START;
    NoPagesYet(all, CookieOf);
    assert Made(rpc.calls, base, ReadDirLog(dir, count, [])) by { NothingMade(rpc.calls, ReadDirLog(dir, count, [])); }
    while true
      invariant rpc.Valid() && cur == After(START, pages, CookieOf) && entries == Listed(pages)
      invariant all == WithPages(pages, Fetch3(rpc.View(), dir, count, |pages|, cur))
      invariant Made(rpc.calls, base, ReadDirLog(dir, count, Cursors(pages, |pages|, CookieOf)))
      decreases |rpc.sock.incoming|
    {
      ghost var cursors := Cursors(pages, |pages|, CookieOf);
      FetchTurn(rpc.View(), ReadDirRequests(dir, count), TakeReadDir3, CookieOf, |pages|, cur);
      ReadDirLogSnoc(dir, count, cursors, cur);
      MadeSnoc(rpc.calls, base, ReadDirLog(dir, count, cursors), rpc.View(), ReadDirRequest(dir, cur, count));
      var page := ReadDirPage(rpc, dir, cur, count);
      if page.Failure? {
        CursorsSnoc(pages, Page([], cur.verf, true), CookieOf);
        assert pages + [] == pages;
        return Failure(page.error);
      }
      var p := page.value;
      CursorsSnoc(pages, p, CookieOf);
      AfterSnoc(START, pages, p, CookieOf);
      ListedSnoc(pages, p);
      WithPagesTwice(pages, [p], Fetch3(rpc.View(), dir, count, |pages| + 1, Advance(cur, p, CookieOf)));
      entries, cur := Collect(entries, cur, p, CookieOf);
      pages := pages + [p];
      if p.eof { break; }
    }
    r := Success(entries);
  }

  /* ----- READDIRPLUS ----- */

  datatype ReadDirPlusArgs = ReadDirPlusArgs(dir: bytes, cur: Cursor, dircount: u32, maxcount: u32)

  function PutReadDirPlusArgs(x: ReadDirPlusArgs): bytes {
    PutOpaque(x.dir, PutU64(x.cur.cookie, PutFixed(x.cur.verf, PutU32(x.dircount, PutU32(x.maxcount, [])))))
  }

  /** A server's parser. */
  function TakeReadDirPlusArgs(s: bytes): Parsed<ReadDirPlusArgs> {
    var (dir, s) :- TakeOpaque(s);
    var (cookie, s) :- TakeU64(s);
    var (verf, s) :- TakeFixed(8, s);
    var (dircount, s) :- TakeU32(s);
    var (maxcount, s) :- TakeU32(s);
    if s == [] then Ok(ReadDirPlusArgs(dir, Cursor(cookie, verf), dircount, maxcount), []) else Err(ProtocolError)
  }

  lemma ReadDirPlusArgsRoundTrip(x: ReadDirPlusArgs)
    requires |x.dir| < TWO_32
    ensures TakeReadDirPlusArgs(PutReadDirPlusArgs(x)) == Ok(x, [])
  {
    hide PutU32, PutU64, PutOpaque, PutFixed, TakeU32, TakeU64, TakeOpaque, TakeFixed;
  }

  method EncodeReadDirPlusArgs(x: ReadDirPlusArgs) returns (args: bytes)
    ensures args == PutReadDirPlusArgs(x)
  {
    hide PutU32, PutU64, PutOpaque, PutFixed;
    var enc := new XdrEncoder();
    enc.PutOpaque(x.dir);
    enc.PutU64(x.cur.cookie);
    enc.PutFixed(x.cur.verf);
    enc.PutU32(x.dircount);
    enc.PutU32(x.maxcount);
    args := enc.buf;
    assert args == args + [] == [] + PutReadDirPlusArgs(x);
  }

  /** An entry whose attributes and handle may be missing, each by itself. */
  datatype DirEntryPlus3 = DirEntryPlus3(entry: DirEntry3, attrs: Option<Fattr3>, fh: Option<bytes>)

  function TakePostOpFh(s: bytes): (r: Parsed<Option<bytes>>)
    ensures r.Ok? ==> |r.rest| <= |s|
    ensures r.Err? ==> r.error == Underflow
  {
    var (follows, s) :- TakeU32(s);
    if follows == 0 then Ok(None, s)
    else
      var (fh, s) :- TakeOpaque(s);
      Ok(Some(fh), s)
  }

  function PutPostOpFh(fh: Option<bytes>, k: bytes): bytes {
    if fh.None? then PutU32(0, k) else PutU32(1, PutOpaque(fh.value, k))
  }

  function TakeEntryPlus3(s: bytes): (r: Parsed<DirEntryPlus3>)
    ensures r.Ok? ==> |r.rest| <= |s|
    ensures r.Err? ==> r.error == Underflow
  {
    hide TakeEntry3, TakePostOp, TakePostOpFh;
    var (entry, s) :- TakeEntry3(s);
    var (attrs, s) :- TakePostOp(s);
    var (fh, s) :- TakePostOpFh(s);
    Ok(DirEntryPlus3(entry, attrs, fh), s)
  }

  function TakeEntriesPlus3(s: bytes): (r: Parsed<seq<DirEntryPlus3>>)
    ensures r.Err? ==> r.error == Underflow
    decreases |s|
  {
    var (follows, s) :- TakeU32(s);
    if follows == 0 then Ok([], s)
    else
      var (e, s) :- TakeEntryPlus3(s);
      var (others, s) :- TakeEntriesPlus3(s);
      Ok([e] + others, s)
  }

  function TakeReadDirPlus3(s: bytes): Parsed<Page<DirEntryPlus3>> {
    var (status, s) :- TakeU32(s);
    var (_, s) :- TakePostOp(s);
    if status != 0 then Err(Status(status))
    else
      var (verf, s) :- TakeFixed(8, s);
      var (entries, s) :- TakeEntriesPlus3(s);
      var (eof, s) :- TakeU32(s);
      Ok(Page(entries, verf, eof != 0), s)
  }

  function PutEntryPlus3(e: DirEntryPlus3, k: bytes): bytes { PutEntry3(e.entry, PutPostOp(e.attrs, PutPostOpFh(e.fh, k))) }

  function PutEntriesPlus3(es: seq<DirEntryPlus3>, k: bytes): bytes {
    if es == [] then PutU32(0, k) else PutU32(1, PutEntryPlus3(es[0], PutEntriesPlus3(es[1..], k)))
  }

  function PutReadDirPlus3(attrs: Option<Fattr3>, p: Page<DirEntryPlus3>, k: bytes): bytes {
    PutU32(0, PutPostOp(attrs, PutFixed(p.verf, PutEntriesPlus3(p.entries, PutU32(BoolWord(p.eof), k)))))
  }

  predicate SendablePlus(e: DirEntryPlus3) { |e.entry.name| < TWO_32 && (e.fh.Some? ==> |e.fh.value| < TWO_32) }

  lemma EntryPlus3RoundTrip(e: DirEntryPlus3, k: bytes)
    requires SendablePlus(e)
    ensures TakeEntryPlus3(PutEntryPlus3(e, k)) == Ok(e, k)
  {
    hide PutU32, PutU64, PutOpaque, TakeU32, TakeU64, TakeOpaque, PutPostOp, TakePostOp;
    PostOpRoundTrip(e.attrs, PutPostOpFh(e.fh, k));
    assert TakePostOpFh(PutPostOpFh(e.fh, k)) == Ok(e.fh, k);
  }

  lemma {:induction false} EntriesPlus3RoundTrip(es: seq<DirEntryPlus3>, k: bytes)
    requires forall e <- es :: SendablePlus(e)
    ensures TakeEntriesPlus3(PutEntriesPlus3(es, k)) == Ok(es, k)
  {
    hide PutU32, TakeU32, PutEntryPlus3, TakeEntryPlus3, SendablePlus;
    if es != [] {
      EntriesPlus3RoundTrip(es[1..], k);
      EntryPlus3RoundTrip(es[0], PutEntriesPlus3(es[1..], k));
      assert [es[0]] + es[1..] == es;
    }
  }

  /** Whatever entries come with attributes, with a handle, with both or with neither, the listing comes back
      whole. */
  lemma ReadDirPlus3RoundTrip(attrs: Option<Fattr3>, p: Page<DirEntryPlus3>, k: bytes)
    requires forall e <- p.entries :: SendablePlus(e)
    ensures TakeReadDirPlus3(PutReadDirPlus3(attrs, p, k)) == Ok(p, k)
  {
    hide PutU32, PutFixed, PutPostOp, PutEntriesPlus3, TakeU32, TakeFixed, TakePostOp, TakeEntriesPlus3, SendablePlus;
    PostOpRoundTrip(attrs, PutFixed(p.verf, PutEntriesPlus3(p.entries, PutU32(BoolWord(p.eof), k))));
    EntriesPlus3RoundTrip(p.entries, PutU32(BoolWord(p.eof), k));
  }

  method DecodePostOpFh(dec: XdrDecoder) returns (r: Result<Option<bytes>>)
    requires dec.Valid()
    modifies dec
    ensures dec.Reads(r, TakePostOpFh(old(dec.Rest())))
  {
    hide TakeU32, TakeOpaque;
    var follows :- dec.GetU32();
    if follows == 0 { return Success(None); }
    var fh :- dec.GetOpaque();
    r := Success(Some(fh));
  }

  method DecodeEntryPlus3(dec: XdrDecoder) returns (r: Result<DirEntryPlus3>)
    requires dec.Valid()
    modifies dec
    ensures dec.Reads(r, TakeEntryPlus3(old(dec.Rest())))
  {
    hide TakeEntry3, TakePostOp, TakePostOpFh;
    var entry :- DecodeEntry3(dec);
    var attrs :- DecodePostOp(dec);
    var fh :- DecodePostOpFh(dec);
    r := Success(DirEntryPlus3(entry, attrs, fh));
  }

  method DecodeReadDirPlusReply(reply: bytes) returns (r: Result<Page<DirEntryPlus3>>)
    ensures r == TakeReadDirPlus3(reply).ToResult()
  {
    hide TakeU32, TakeFixed, TakePostOp, TakeEntryPlus3;
    var dec := new XdrDecoder(reply);
    var status :- dec.GetU32();
    var _ :- DecodePostOp(dec);
    if status != 0 { return Failure(Status(status)); }
    var verf :- dec.GetFixed(8);
    var entries: seq<DirEntryPlus3> := [];
    ghost var all := TakeEntriesPlus3(dec.Rest());
    while true
      invariant dec.Valid() && all == Prepend(entries, TakeEntriesPlus3(dec.Rest()))
      decreases |dec.Rest()|
    {
      var follows :- dec.GetU32();
      if follows == 0 { break; }
      var e :- DecodeEntryPlus3(dec);
      PrependTwice(entries, [e], TakeEntriesPlus3(dec.Rest()));
      entries := entries + [e];
    }
    assert entries + [] == entries;
    var eof :- dec.GetU32();
    r := Success(Page(entries, verf, eof != 0));
  }

  function CookieOfPlus(e: DirEntryPlus3): u64 { e.entry.cookie }

  function PlusRequest(dir: bytes, cur: Cursor, dircount: u32, maxcount: u32): Request {
    Request(NFS_PROG, NFS_VERS, NFSPROC3_READDIRPLUS, PutReadDirPlusArgs(ReadDirPlusArgs(dir, cur, dircount, maxcount)))
  }

  function PlusRequests(dir: bytes, dircount: u32, maxcount: u32): (nat, Cursor) -> Request {
    (n: nat, cur: Cursor) => PlusRequest(dir, cur, dircount, maxcount)
  }

  function FetchPlus3(c: Conn, dir: bytes, dircount: u32, maxcount: u32, n: nat, cur: Cursor): Listing<DirEntryPlus3> {
    Fetch(c, PlusRequests(dir, dircount, maxcount), TakeReadDirPlus3, CookieOfPlus, n, cur)
  }

  method ReadDirPlusPage(rpc: TcpRpcClient, dir: bytes, cur: Cursor, dircount: u32, maxcount: u32)
    returns (r: Result<Page<DirEntryPlus3>>)
    requires rpc.Valid()
    modifies rpc, rpc.sock
    ensures rpc.Valid() && rpc.calls == old(rpc.calls) + [CallOf(old(rpc.View()), PlusRequest(dir, cur, dircount, maxcount))]
    ensures (rpc.View(), r) == Query(old(rpc.View()), PlusRequest(dir, cur, dircount, maxcount), TakeReadDirPlus3)
  {
    hide PutReadDirPlusArgs, TakeReadDirPlus3, Exchange, CallOf, Delivered, Messages;
    var args := EncodeReadDirPlusArgs(ReadDirPlusArgs(dir, cur, dircount, maxcount));
    var reply :- rpc.Call(NFS_PROG, NFS_VERS, NFSPROC3_READDIRPLUS, args);
    r := DecodeReadDirPlusReply(reply);
  }

  function PlusLog(dir: bytes, dircount: u32, maxcount: u32, cursors: seq<Cursor>): (r: seq<Request>)
    ensures |r| == |cursors|
  {
    seq(|cursors|, k requires 0 <= k < |cursors| => PlusRequest(dir, cursors[k], dircount, maxcount))
  }

  lemma PlusLogSnoc(dir: bytes, dircount: u32, maxcount: u32, cursors: seq<Cursor>, cur: Cursor)
    ensures PlusLog(dir, dircount, maxcount, cursors + [cur])
            == PlusLog(dir, dircount, maxcount, cursors) + [PlusRequest(dir, cur, dircount, maxcount)]
  {
    hide PlusRequest;
  }

  method ReadDirPlus(rpc: TcpRpcClient, dir: bytes, dircount: u32, maxcount: u32) returns (r: Result<seq<DirEntryPlus3>>)
    requires rpc.Valid()
    modifies rpc, rpc.sock
    ensures rpc.Valid()
    ensures var l := FetchPlus3(old(rpc.View()), dir, dircount, maxcount, 0, START);
            && rpc.View() == l.conn && r == Outcome(l)
            && Made(rpc.calls, |old(rpc.calls)|, PlusLog(dir, dircount, maxcount, AllCursors(l, CookieOfPlus)))
  {
    hide Query, Fetch, Delivered, Messages, CallOf, Made, Cursors, PlusLog, PlusRequest, After, Advance, TakeReadDirPlus3;
    ghost var base := |rpc.calls|;
    ghost var all := FetchPlus3(rpc.View(), dir, dircount, maxcount, 0, START);
    ghost var pages: seq<Page<DirEntryPlus3>> := [];
    var entries: seq<DirEntryPlus3> := [];
    var cur := START;
    NoPagesYet(all, CookieOfPlus);
    assert Made(rpc.calls, base, PlusLog(dir, dircount, maxcount, [])) by {
      NothingMade(rpc.calls, PlusLog(dir, dircount, maxcount, []));
    }
    while true
      invariant rpc.Valid() && cur == After(START, pages, CookieOfPlus) && entries == Listed(pages)
      invariant all == WithPages(pages, FetchPlus3(rpc.View(), dir, dircount, maxcount, |pages|, cur))
      invariant Made(rpc.calls, base, PlusLog(dir, dircount, maxcount, Cursors(pages, |pages|, CookieOfPlus)))
      decreases |rpc.sock.incoming|
    {
      ghost var cursors := Cursors(pages, |pages|, CookieOfPlus);
      FetchTurn(rpc.View(), PlusRequests(dir, dircount, maxcount), TakeReadDirPlus3, CookieOfPlus, |pages|, cur);
      PlusLogSnoc(dir, dircount, maxcount, cursors, cur);
      MadeSnoc(rpc.calls, base, PlusLog(dir, dircount, maxcount, cursors), rpc.View(), PlusRequest(dir, cur, dircount, maxcount));
      var page := ReadDirPlusPage(rpc, dir, cur, dircount, maxcount);
      if page.Failure? {
        CursorsSnoc(pages, Page([], cur.verf, true), CookieOfPlus);
        assert pages + [] == pages;
        return Failure(page.error);
      }
      var p := page.value;
      CursorsSnoc(pages, p, CookieOfPlus);
      AfterSnoc(START, pages, p, CookieOfPlus);
      ListedSnoc(pages, p);
      WithPagesTwice(pages, [p], FetchPlus3(rpc.View(), dir, dircount, maxcount, |pages| + 1, Advance(cur, p, CookieOfPlus)));
      entries, cur := Collect(entries, cur, p, CookieOfPlus);
      pages := pages + [p];
      if p.eof { break; }
    }
    r := Success(entries);
  }

  /* ----- whole listings ----- */

  /** A server of version 3 of the NFS program that gets a READDIR of the directory, with the size that the
      caller chose, answers the cursor it has read. */
  ghost predicate Serves(q: Request, dir: bytes, count: u32, list: seq<DirEntry3>, verf: verifier4, p: Page<DirEntry3>) {
    var x := TakeReadDirArgs(q.args);
    q.prog == 100003 && q.vers == 3 && q.proc == 16 && x.Ok? && x.value.dir == dir && x.value.count == count ==>
      AnswersCursor(list, verf, CookieOf, x.value.cur, p)
  }

  /** Against such a server, with replies cut anyhow, READDIR lists the directory: all of it, in order, once. */
  lemma DirectoryListed(c: Conn, dir: bytes, count: u32, list: seq<DirEntry3>, verf: verifier4,
                        pages: seq<Page<DirEntry3>>, replies: seq<seq<bytes>>, k: bytes)
    requires |dir| < TWO_32 && DistinctCookies(list, CookieOf) && Finished(pages)
    requires var qs := Requests(ReadDirRequests(dir, count), CookieOf, 0, START, pages);
             && (forall i :: 0 <= i < |pages| ==> Serves(qs[i], dir, count, list, verf, pages[i]))
             && Answers(c.link, Load(c, qs), TakeReadDir3, pages, replies, k)
    ensures Outcome(Fetch3(c, dir, count, 0, START)) == Success(list)
  {
    hide DistinctCookies, Answers, Fetch, Finished, Load, Requests, TakeReadDir3, PutReadDirArgs, TakeReadDirArgs;
    hide After, AnswersCursor;
    var qs := Requests(ReadDirRequests(dir, count), CookieOf, 0, START, pages);
    forall i | 0 <= i < |pages| ensures AnswersCursor(list, verf, CookieOf, After(START, pages[..i], CookieOf), pages[i]) {
      RequestAt(ReadDirRequests(dir, count), CookieOf, 0, START, pages, i);
      ReadDirArgsRoundTrip(ReadDirArgs(dir, After(START, pages[..i], CookieOf), count));
      assert Serves(qs[i], dir, count, list, verf, pages[i]);
    }
    ListingComplete(c, ReadDirRequests(dir, count), TakeReadDir3, CookieOf, list, verf, pages, replies, k);
  }

  ghost predicate ServesPlus(q: Request, dir: bytes, dircount: u32, maxcount: u32, list: seq<DirEntryPlus3>, verf: verifier4,
                             p: Page<DirEntryPlus3>) {
    var x := TakeReadDirPlusArgs(q.args);
    q.prog == 100003 && q.vers == 3 && q.proc == 17 && x.Ok? && x.value.dir == dir
      && x.value.dircount == dircount && x.value.maxcount == maxcount ==>
      AnswersCursor(list, verf, CookieOfPlus, x.value.cur, p)
  }

  /** And READDIRPLUS, with whatever attributes and handles the server gives. */
  lemma DirectoryListedPlus(c: Conn, dir: bytes, dircount: u32, maxcount: u32, list: seq<DirEntryPlus3>, verf: verifier4,
                            pages: seq<Page<DirEntryPlus3>>, replies: seq<seq<bytes>>, k: bytes)
    requires |dir| < TWO_32 && DistinctCookies(list, CookieOfPlus) && Finished(pages)
    requires var qs := Requests(PlusRequests(dir, dircount, maxcount), CookieOfPlus, 0, START, pages);
             && (forall i :: 0 <= i < |pages| ==> ServesPlus(qs[i], dir, dircount, maxcount, list, verf, pages[i]))
             && Answers(c.link, Load(c, qs), TakeReadDirPlus3, pages, replies, k)
    ensures Outcome(FetchPlus3(c, dir, dircount, maxcount, 0, START)) == Success(list)
  {
    hide DistinctCookies, Answers, Fetch, Finished, Load, Requests, TakeReadDirPlus3, PutReadDirPlusArgs, TakeReadDirPlusArgs;
    hide After, AnswersCursor;
    var qs := Requests(PlusRequests(dir, dircount, maxcount), CookieOfPlus, 0, START, pages);
    forall i | 0 <= i < |pages|
      ensures AnswersCursor(list, verf, CookieOfPlus, After(START, pages[..i], CookieOfPlus), pages[i])
    {
      RequestAt(PlusRequests(dir, dircount, maxcount), CookieOfPlus, 0, START, pages, i);
      ReadDirPlusArgsRoundTrip(ReadDirPlusArgs(dir, After(START, pages[..i], CookieOfPlus), dircount, maxcount));
      assert ServesPlus(qs[i], dir, dircount, maxcount, list, verf, pages[i]);
    }
    ListingComplete(c, PlusRequests(dir, dircount, maxcount), TakeReadDirPlus3, CookieOfPlus, list, verf, pages, replies, k);
  }

  /* ----- good replies, for the listings of `Paging` ----- */

  lemma PageCarried(xid: u32, flavor: u32, verifier: bytes, reply: seq<bytes>, attrs: Option<Fattr3>, p: Page<DirEntry3>)
    requires |verifier| < TWO_32 && (forall e <- p.entries :: |e.name| < TWO_32)
    requires Joined(reply) == PutReply(xid, flavor, verifier, PutReadDir3(attrs, p, []))
    ensures Carries(reply, TakeReadDir3, p)
  {
    hide PutReply, TakeReply, PutReadDir3, TakeReadDir3;
    ReadDir3RoundTrip(attrs, p, []);
  }

  lemma PlusPageCarried(xid: u32, flavor: u32, verifier: bytes, reply: seq<bytes>, attrs: Option<Fattr3>, p: Page<DirEntryPlus3>)
    requires |verifier| < TWO_32 && (forall e <- p.entries :: SendablePlus(e))
    requires Joined(reply) == PutReply(xid, flavor, verifier, PutReadDirPlus3(attrs, p, []))
    ensures Carries(reply, TakeReadDirPlus3, p)
  {
    hide PutReply, TakeReply, PutReadDirPlus3, TakeReadDirPlus3;
    ReadDirPlus3RoundTrip(attrs, p, []);
  }
}
