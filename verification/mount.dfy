/** The EXPORT procedure of the MOUNT protocol (appendix I of RFC 1813): a list of lists. */
module Mount {
  import opened Wire
  import opened Xdr
  import opened Transport
  import opened Paging

  const MOUNT_PROG: u32 := 100005
  const MOUNT_VERS: u32 := 3
  const MOUNTPROC3_EXPORT: u32 := 5

  datatype ExportEntry = ExportEntry(path: bytes, groups: seq<bytes>)

  function TakeGroups(s: bytes): (r: Parsed<seq<bytes>>)
    ensures r.Ok? ==> |r.rest| < |s|
    ensures r.Err? ==> r.error == Underflow
    decreases |s|
  {
    var (follows, s) :- TakeU32(s);
    if follows == 0 then Ok([], s)
    else
      var (name, s) :- TakeOpaque(s);
      var (others, s) :- TakeGroups(s);
      Ok([name] + others, s)
  }

  function TakeExport(s: bytes): (r: Parsed<ExportEntry>)
    ensures r.Ok? ==> |r.rest| < |s|
    ensures r.Err? ==> r.error == Underflow
  {
    var (path, s) :- TakeOpaque(s);
    var (groups, s) :- TakeGroups(s);
    Ok(ExportEntry(path, groups), s)
  }

  /** Any bytes at all are a list of lists or run out. */
  function TakeExports(s: bytes): (r: Parsed<seq<ExportEntry>>)
    ensures r.Err? ==> r.error == Underflow
    decreases |s|
  {
    var (follows, s) :- TakeU32(s);
    if follows == 0 then Ok([], s)
    else
      var (e, s) :- TakeExport(s);
      var (others, s) :- TakeExports(s);
      Ok([e] + others, s)
  }

  function PutGroups(groups: seq<bytes>, k: bytes): bytes {
    if groups == [] then PutU32(0, k) else PutU32(1, PutOpaque(groups[0], PutGroups(groups[1..], k)))
  }

  function PutExports(es: seq<ExportEntry>, k: bytes): bytes {
    if es == [] then PutU32(0, k) else PutU32(1, PutOpaque(es[0].path, PutGroups(es[0].groups, PutExports(es[1..], k))))
  }

  predicate Sendable(e: ExportEntry) { |e.path| < TWO_32 && forall g <- e.groups :: |g| < TWO_32 }

  lemma {:induction false} GroupsRoundTrip(groups: seq<bytes>, k: bytes)
    requires forall g <- groups :: |g| < TWO_32
    ensures TakeGroups(PutGroups(groups, k)) == Ok(groups, k)
  {
    hide PutU32, PutOpaque, TakeU32, TakeOpaque;
    if groups != [] {
      GroupsRoundTrip(groups[1..], k);
      assert [groups[0]] + groups[1..] == groups;
    }
  }

  /** Any number of exports with any number of groups each comes back whole. */
  lemma {:induction false} ExportsRoundTrip(es: seq<ExportEntry>, k: bytes)
    requires forall e <- es :: Sendable(e)
    ensures TakeExports(PutExports(es, k)) == Ok(es, k)
  {
    hide PutU32, PutOpaque, TakeU32, TakeOpaque, PutGroups, TakeGroups;
    if es != [] {
      assert Sendable(es[0]);
      GroupsRoundTrip(es[0].groups, PutExports(es[1..], k));
      ExportsRoundTrip(es[1..], k);
      assert [es[0]] + es[1..] == es;
    }
  }

  /** The inner loop. */
  method DecodeGroups(dec: XdrDecoder) returns (r: Result<seq<bytes>>)
    requires dec.Valid()
    modifies dec
    ensures dec.Reads(r, TakeGroups(old(dec.Rest())))
  {
    hide TakeU32, TakeOpaque;
    var groups: seq<bytes> := [];
    ghost var all := TakeGroups(dec.Rest());
    while true
      invariant dec.Valid() && all == Prepend(groups, TakeGroups(dec.Rest()))
      decreases |dec.Rest()|
    {
      var follows :- dec.GetU32();
      if follows == 0 { break; }
      var name :- dec.GetOpaque();
      PrependTwice(groups, [name], TakeGroups(dec.Rest()));
      groups := groups + [name];
    }
    assert groups + [] == groups;
    r := Success(groups);
  }

  method DecodeExports(reply: bytes) returns (r: Result<seq<ExportEntry>>)
    ensures r == TakeExports(reply).ToResult()
  {
    hide TakeU32, TakeOpaque, TakeGroups;
    var dec := new XdrDecoder(reply);
    var entries: seq<ExportEntry> := [];
    ghost var all := TakeExports(reply);
    while true
      invariant dec.Valid() && all == Prepend(entries, TakeExports(dec.Rest()))
      decreases |dec.Rest()|
    {
      var follows :- dec.GetU32();
      if follows == 0 { break; }
      var path :- dec.GetOpaque();
      var groups :- DecodeGroups(dec);
      var e := ExportEntry(path, groups);
      PrependTwice(entries, [e], TakeExports(dec.Rest()));
      entries := entries + [e];
    }
    assert entries + [] == entries;
    r := Success(entries);
  }

  method ExportList(rpc: TcpRpcClient) returns (r: Result<seq<ExportEntry>>)
    requires rpc.Valid()
    modifies rpc, rpc.sock
    ensures rpc.Valid()
    ensures rpc.calls == old(rpc.calls) + [CallOf(old(rpc.View()), Request(100005, 3, 5, []))]
    ensures (rpc.View(), r) == Query(old(rpc.View()), Request(100005, 3, 5, []), TakeExports)
  {
    hide TakeExports, Exchange, CallOf, Delivered, Messages;
    var reply :- rpc.Call(MOUNT_PROG, MOUNT_VERS, MOUNTPROC3_EXPORT, []);
    r := DecodeExports(reply);
  }
}
