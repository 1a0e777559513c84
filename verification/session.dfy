/** The results of the operations that make up an NFSv4.1 session (sections 18.35, 18.36 and 18.46 of RFC 8881). */
module SessionResults {
  import opened Wire
  import opened Xdr
  import opened Rpc
  import opened Bitmap
  import opened Ops
  import opened OpResults

  /* ----- EXCHANGE_ID ----- */

  datatype ImplId = ImplId(domain: bytes, name: bytes, seconds: u64, nseconds: u32)

  /** All that a server says, and the part the client keeps. */
  datatype ExchangeIdOk = ExchangeIdOk(clientid: u64, sequence: u32, flags: u32, minorId: u64, majorId: bytes,
                                       scope: bytes, impls: seq<ImplId>)
  datatype ExchangeIdResult = ExchangeIdResult(clientid: u64, sequence: u32)

  function TakeImpl(s: bytes): Parsed<ImplId> {
    var (domain, s) :- TakeOpaque(s);
    var (name, s) :- TakeOpaque(s);
    var (seconds, s) :- TakeU64(s);
    var (nseconds, s) :- TakeU32(s);
    Ok(ImplId(domain, name, seconds, nseconds), s)
  }

  function PutImpl(i: ImplId, k: bytes): (r: bytes)
    ensures |r| >= 4 + |i.domain| + |i.name| + |k|
  {
    PutOpaque(i.domain, PutOpaque(i.name, PutU64(i.seconds, PutU32(i.nseconds, k))))
  }

  lemma ImplRoundTrip(i: ImplId, k: bytes)
    requires |PutImpl(i, k)| < TWO_32
    ensures TakeImpl(PutImpl(i, k)) == Ok(i, k)
  {
    hide PutU32, PutU64, PutOpaque, TakeU32, TakeU64, TakeOpaque;
  }

  function TakeImpls(n: nat, s: bytes): Parsed<()> {
    if n == 0 then Ok((), s)
    else
      var (_, s) :- TakeImpl(s);
      TakeImpls(n - 1, s)
  }

  function PutImpls(impls: seq<ImplId>, k: bytes): (r: bytes)
    ensures |r| >= 4 * |impls| + |k|
  {
    if impls == [] then k else PutImpl(impls[0], PutImpls(impls[1..], k))
  }

  lemma {:induction false} ImplsSkipped(impls: seq<ImplId>, k: bytes)
    requires |PutImpls(impls, k)| < TWO_32
    ensures TakeImpls(|impls|, PutImpls(impls, k)) == Ok((), k)
  {
    hide PutImpl, TakeImpl;
    if impls != [] {
      ImplRoundTrip(impls[0], PutImpls(impls[1..], k));
      ImplsSkipped(impls[1..], k);
    }
  }

  function TakeExchangeId(s: bytes): Parsed<ExchangeIdResult> {
    var (_, s) :- TakeStatus(s);
    var (clientid, s) :- TakeU64(s);
    var (sequence, s) :- TakeU32(s);
    var (flags, s) :- TakeU32(s);
    var (protect, s) :- TakeU32(s);
    var (minorId, s) :- TakeU64(s);
    var (majorId, s) :- TakeOpaque(s);
    var (scope, s) :- TakeOpaque(s);
    var (n, s) :- TakeU32(s);
    var (_, s) :- TakeImpls(n, s);
    Ok(ExchangeIdResult(clientid, sequence), s)
  }

  /** A server that grants what the client asked for, SP4_NONE. */
  function PutExchangeId(code: u32, e: ExchangeIdOk, k: bytes): (r: bytes)
    ensures |r| >= |k|
  {
    PutStatus(code, 0, PutU64(e.clientid, PutU32(e.sequence, PutU32(e.flags, PutU32(0, PutU64(e.minorId,
      PutOpaque(e.majorId, PutOpaque(e.scope, PutU32(Low32(|e.impls|), PutImpls(e.impls, k)))))))))
    )
  }

  /** Any owner, any scope and any list of implementation ids is skipped exactly. */
  lemma ExchangeIdAligned(code: u32, e: ExchangeIdOk, k: bytes)
    requires |PutExchangeId(code, e, k)| < TWO_32
    ensures TakeExchangeId(PutExchangeId(code, e, k)) == Ok(ExchangeIdResult(e.clientid, e.sequence), k)
  {
    hide PutU32, PutU64, PutOpaque, PutStatus, PutImpls, TakeU32, TakeU64, TakeOpaque, TakeStatus, TakeImpls;
    ImplsSkipped(e.impls, k);
  }

  method DecodeExchangeId(dec: XdrDecoder) returns (r: Result<ExchangeIdResult>)
    requires dec.Valid()
    modifies dec
    ensures dec.Reads(r, TakeExchangeId(old(dec.Rest())))
  {
    hide TakeU32, TakeU64, TakeOpaque, TakeStatus;
    var _ :- CheckOpStatus(dec);
    var clientid :- dec.GetU64();
    var sequence :- dec.GetU32();
    var _ :- dec.GetU32();
    var _ :- dec.GetU32();
    var _ :- dec.GetU64();
    var _ :- dec.GetOpaque();
    var _ :- dec.GetOpaque();
    var count :- dec.GetU32();
    ghost var all := TakeImpls(count, dec.Rest());
    for i := 0 to count
      invariant dec.Valid() && all == TakeImpls(count - i, dec.Rest())
    {
      var _ :- dec.GetOpaque();
      var _ :- dec.GetOpaque();
      var _ :- dec.GetU64();
      var _ :- dec.GetU32();
    }
    r := Success(ExchangeIdResult(clientid, sequence));
  }

  /* ----- CREATE_SESSION ----- */

  /** channel_attrs4 as a server sends it: six words and at most one RDMA value. */
  datatype Channel = Channel(words: seq<u32>, ird: seq<u32>)

  predicate ChannelOk(c: Channel) { |c.words| == 6 && |c.ird| <= 1 }

  function PutChannelAttrs(c: Channel, k: bytes): (r: bytes)
    ensures |r| == 4 * |c.words| + 4 + 4 * |c.ird| + |k|
  {
    PutWords(c.words, PutBitmap(c.ird, k))
  }

  function TakeCreateSession(s: bytes): Parsed<sessionid4> {
    var (_, s) :- TakeStatus(s);
    var (session, s) :- TakeFixed(16, s);
    var (sequence, s) :- TakeU32(s);
    var (flags, s) :- TakeU32(s);
    var (fore, s) :- TakeWords(7, s);
    var (back, s) :- TakeWords(7, s);
    Ok(session, s)
  }

  function PutCreateSession(code: u32, session: sessionid4, sequence: u32, flags: u32,
                            fore: Channel, back: Channel, k: bytes): (r: bytes)
    ensures |r| >= |k|
  {
    PutStatus(code, 0, PutFixed(session, PutU32(sequence, PutU32(flags, PutChannelAttrs(fore, PutChannelAttrs(back, k))))))
  }

  lemma SevenWords(c: Channel, k: bytes)
    requires ChannelOk(c) && c.ird == []
    ensures TakeWords(7, PutChannelAttrs(c, k)) == Ok(c.words + [0], k)
  {
    hide PutU32, TakeU32;
    WordsThen(c.words, [0], k);
    assert PutWords([0], k) == PutU32(0, k) by { assert PutWords([0], k) == PutU32(0, PutWords([0][1..], k)); }
  }

  lemma {:induction false} WordsThen(a: seq<u32>, b: seq<u32>, k: bytes)
    ensures PutWords(a + b, k) == PutWords(a, PutWords(b, k))
  {
    hide PutU32;
    if a == [] { assert a + b == b; }
    else {
      assert (a + b)[1..] == a[1..] + b;
      WordsThen(a[1..], b, k);
    }
  }

  /** The client skips seven words per channel.  The session id comes first and is always read; the cursor ends
      behind the result exactly when neither channel has an RDMA value. */
  lemma CreateSessionAligned(code: u32, session: sessionid4, sequence: u32, flags: u32, fore: Channel, back: Channel, k: bytes)
    requires ChannelOk(fore) && ChannelOk(back)
    ensures var p := TakeCreateSession(PutCreateSession(code, session, sequence, flags, fore, back, k));
            p.Ok? && p.value == session && (p.rest == k <==> fore.ird == [] && back.ird == [])
  {
    hide PutU32, PutFixed, PutStatus, PutChannelAttrs, TakeU32, TakeFixed, TakeStatus, TakeWords;
    var b := PutChannelAttrs(back, k);
    var f := PutChannelAttrs(fore, b);
    EnoughWords(7, f);
    EnoughWords(7, TakeWords(7, f).rest);
    if fore.ird == [] {
      SevenWords(fore, b);
      if back.ird == [] { SevenWords(back, k); }
    }
  }

  lemma {:induction false} EnoughWords(n: nat, s: bytes)
    requires |s| >= 4 * n
    ensures TakeWords(n, s).Ok?
  {
    hide TakeU32;
    if n > 0 { EnoughWords(n - 1, TakeU32(s).rest); }
  }

  method SkipWords(dec: XdrDecoder, n: nat) returns (r: Result<()>)
    requires dec.Valid()
    modifies dec
    ensures dec.Reads(r, Dropped(TakeWords(n, old(dec.Rest()))))
  {
    hide TakeU32;
    ghost var all := TakeWords(n, dec.Rest());
    for i := 0 to n
      invariant dec.Valid() && Dropped(all) == Dropped(TakeWords(n - i, dec.Rest()))
    {
      var _ :- dec.GetU32();
    }
    r := Success(());
  }

  method DecodeCreateSession(dec: XdrDecoder) returns (r: Result<sessionid4>)
    requires dec.Valid()
    modifies dec
    ensures dec.Reads(r, TakeCreateSession(old(dec.Rest())))
  {
    hide TakeU32, TakeFixed, TakeStatus, TakeWords;
    var _ :- CheckOpStatus(dec);
    var session :- dec.GetFixed(16);
    var _ :- dec.GetU32();
    var _ :- dec.GetU32();
    var _ :- SkipWords(dec, 7);
    var _ :- SkipWords(dec, 7);
    r := Success(session);
  }

  /* ----- SEQUENCE ----- */

  function TakeSequence(s: bytes): Parsed<()> {
    var (_, s) :- TakeStatus(s);
    var (session, s) :- TakeFixed(16, s);
    Dropped(TakeWords(5, s))
  }

  function PutSequence(code: u32, session: sessionid4, words: seq<u32>, k: bytes): (r: bytes)
    requires |words| == 5
    ensures |r| == 44 + |k|
    ensures TakeSequence(r) == Ok((), k)
  {
    PutStatus(code, 0, PutFixed(session, PutWords(words, k)))
  }

  method DecodeSequence(dec: XdrDecoder) returns (r: Result<()>)
    requires dec.Valid()
    modifies dec
    ensures dec.Reads(r, TakeSequence(old(dec.Rest())))
  {
    hide TakeU32, TakeFixed, TakeStatus, TakeWords;
    var _ :- CheckOpStatus(dec);
    var _ :- dec.GetFixed(16);
    r := SkipWords(dec, 5);
  }
}
