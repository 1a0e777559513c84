/** Record marking (section 11 of RFC 5531), the socket, and the client that matches replies to calls by order. */
module Transport {
  import opened Wire
  import opened Xdr
  import opened Rpc

  /* ----- records ----- */

  datatype Fragment = Fragment(last: bool, data: bytes)

  /** Bit 31 of a mark says "last fragment of its record", the other bits are the length. */
  function TakeFragment(s: bytes): (r: Parsed<Fragment>)
    ensures r.Ok? ==> |r.rest| + |r.value.data| + 4 == |s|
  {
    var (mark, s) :- TakeU32(s);
    var len := mark % 0x8000_0000;
    if |s| < len then Err(Underflow) else Ok(Fragment(mark >= 0x8000_0000, s[..len]), s[len..])
  }

  lemma MarkParts(last: bool, n: nat)
    requires n < 0x8000_0000
    ensures var mark := if last then 0x8000_0000 + n else n;
            mark % 0x8000_0000 == n && (mark >= 0x8000_0000 <==> last)
  {
  }

  function PutFragment(f: Fragment, k: bytes): (r: bytes)
    requires |f.data| < 0x8000_0000
    ensures |r| == 4 + |f.data| + |k|
    ensures TakeFragment(r) == Ok(f, k)
  {
    hide PutU32, TakeU32;
    MarkParts(f.last, |f.data|);
    assert (f.data + k)[..|f.data|] == f.data && (f.data + k)[|f.data|..] == k;
    PutU32(if f.last then 0x8000_0000 + |f.data| else |f.data|, f.data + k)
  }

  /** One record off the front of a stream, however it is cut into fragments. */
  function TakeRecord(s: bytes): (r: Parsed<bytes>)
    ensures r.Ok? ==> |r.rest| + |r.value| + 4 <= |s|
    decreases |s|
  {
    var (f, s) :- TakeFragment(s);
    if f.last then Ok(f.data, s)
    else
      var (others, s) :- TakeRecord(s);
      Ok(f.data + others, s)
  }

  /** The mark of an outgoing record: bit 31 set over the size cut down to 32 bits. */
  function Mark(size: nat): u32 {
    var len := Low32(size);
    if len < TWO_31 then len + TWO_31 else len
  }

  function PutRecord(payload: bytes, k: bytes): (r: bytes)
    ensures |r| == 4 + |payload| + |k|
    ensures |payload| < TWO_31 ==> TakeRecord(r) == Ok(payload, k)
  {
    assert |payload| < TWO_31 ==> TakeFragment(PutFragment(Fragment(true, payload), k)) == Ok(Fragment(true, payload), k);
    PutU32(Mark(|payload|), payload + k)
  }

  /** A sent record arrives as it is exactly when it is shorter than 2^31 bytes. */
  lemma RecordArrivesIff(payload: bytes, k: bytes)
    ensures TakeRecord(PutRecord(payload, k)) == Ok(payload, k) <==> |payload| < TWO_31
  {
    var s := PutRecord(payload, k);
    var mark := Mark(|payload|);
    assert TakeU32(s) == Ok(mark, payload + k);
    assert mark >= TWO_31 && mark % TWO_31 < TWO_31;
  }

  function Joined(frags: seq<bytes>): bytes {
    if frags == [] then [] else frags[0] + Joined(frags[1..])
  }

  /** Any way to cut a record: at least one fragment, any of them empty. */
  predicate Cut(frags: seq<bytes>) {
    frags != [] && forall i :: 0 <= i < |frags| ==> |frags[i]| < TWO_31
  }

  /** What a peer sends when it cuts a record into the given fragments. */
  function PutFragments(frags: seq<bytes>, k: bytes): (r: bytes)
    requires Cut(frags)
    ensures TakeRecord(r) == Ok(Joined(frags), k)
  {
    if |frags| == 1 then
      assert Joined(frags) == frags[0] + [] == frags[0];
      PutFragment(Fragment(true, frags[0]), k)
    else
      PutFragment(Fragment(false, frags[0]), PutFragments(frags[1..], k))
  }

  method AddRecordMark(payload: bytes) returns (framed: bytes)
    ensures framed == PutRecord(payload, [])
  {
    var mark := Mark(|payload|);
    WordBytes(mark);
    framed := [mark / 0x100_0000 % 0x100];
    framed := framed + [mark / 0x1_0000 % 0x100];
    framed := framed + [mark / 0x100 % 0x100];
    framed := framed + [mark % 0x100];
    assert framed == BigEndian(mark, 4);
    framed := framed + payload;
    assert payload + [] == payload;
  }

  /* ----- replies ----- */

  function TakeReply(s: bytes): Parsed<bytes> {
    var (xid, s) :- TakeU32(s);
    var (kind, s) :- TakeU32(s);
    if kind != REPLY then Err(BadReply)
    else
      var (replyStat, s) :- TakeU32(s);
      if replyStat != 0 then Err(BadReply)
      else
        var (flavor, s) :- TakeU32(s);
        var (verifier, s) :- TakeOpaque(s);
        var (acceptStat, s) :- TakeU32(s);
        if acceptStat != 0 then Err(BadReply) else Ok(s, [])
  }

  /** An accepted, successful reply with any xid and any verifier. */
  function PutReply(xid: u32, flavor: u32, verifier: bytes, body: bytes): (r: bytes)
    ensures |verifier| < TWO_32 ==> TakeReply(r) == Ok(body, [])
  {
    PutU32(xid, PutU32(1, PutU32(0, PutU32(flavor, PutOpaque(verifier, PutU32(0, body))))))
  }

  /** What a peer may send instead: a reply that was accepted with any status, one that was denied, or a message of
      another type.  What follows the word that decides is up to the peer. */
  datatype RpcReply =
    | AcceptedReply(xid: u32, flavor: u32, verifier: bytes, acceptStat: u32, body: bytes)
    | DeniedReply(xid: u32, replyStat: u32, rest: bytes)
    | OtherMessage(xid: u32, kind: u32, rest: bytes)

  predicate WellFormed(x: RpcReply) {
    match x
    case AcceptedReply(_, _, verifier, _, _) => |verifier| < TWO_32
    case DeniedReply(_, replyStat, _) => replyStat != 0
    case OtherMessage(_, kind, _) => kind != 1
  }

  function PutRpcReply(x: RpcReply): bytes {
    match x
    case AcceptedReply(xid, flavor, verifier, acceptStat, body) =>
      PutU32(xid, PutU32(1, PutU32(0, PutU32(flavor, PutOpaque(verifier, PutU32(acceptStat, body))))))
    case DeniedReply(xid, replyStat, rest) => PutU32(xid, PutU32(1, PutU32(replyStat, rest)))
    case OtherMessage(xid, kind, rest) => PutU32(xid, PutU32(kind, rest))
  }

  /** What it means: the results if the call was accepted and has succeeded, and nothing otherwise. */
  function Meaning(x: RpcReply): Result<bytes> {
    if x.AcceptedReply? && x.acceptStat == 0 then Success(x.body) else Failure(BadReply)
  }

  /** The client takes a message for results if and only if it is a reply, accepted and successful, and rejects every
      other one. */
  lemma ReplyRead(x: RpcReply)
    requires WellFormed(x)
    ensures TakeReply(PutRpcReply(x)).ToResult() == Meaning(x)
    ensures TakeReply(PutRpcReply(x)).Ok? ==> TakeReply(PutRpcReply(x)).rest == []
  {
    hide PutU32, PutOpaque, TakeU32, TakeOpaque;
  }

  method ParseReply(record: bytes) returns (r: Result<bytes>)
    ensures r == TakeReply(record).ToResult()
  {
    var dec := new XdrDecoder(record);
    var _ :- dec.GetU32();
    var kind :- dec.GetU32();
    if kind != REPLY { return Failure(BadReply); }
    var replyStat :- dec.GetU32();
    if replyStat != 0 { return Failure(BadReply); }
    var _ :- dec.GetU32();
    var _ :- dec.GetOpaque();
    var acceptStat :- dec.GetU32();
    if acceptStat != 0 { return Failure(BadReply); }
    var body := dec.GetRemaining();
    r := Success(body);
  }

  /* ----- the socket ----- */

  /** A connection.  `incoming` is all that the peer will ever send and `capacity` the number of bytes it
      will still accept before the connection breaks; how many bytes one call moves is not determined. */
  class Socket {
    var sent: bytes
    var capacity: nat
    var incoming: bytes

    method Send(data: bytes) returns (n: nat)
      requires data != []
      modifies this
      ensures n <= |data| && n <= old(capacity) && (n == 0 <==> old(capacity) == 0)
      ensures sent == old(sent) + data[..n] && capacity == old(capacity) - n && incoming == old(incoming)
    {
      if capacity == 0 { n := 0; }
      else { n :| 1 <= n <= |data| && n <= capacity; }
      sent, capacity := sent + data[..n], capacity - n;
    }

    method Recv(max: nat) returns (got: bytes)
      requires max > 0
      modifies this
      ensures |got| <= max && (got == [] <==> old(incoming) == [])
      ensures old(incoming) == got + incoming && sent == old(sent) && capacity == old(capacity)
    {
      var n := 0;
      if incoming != [] { n :| 1 <= n <= max && n <= |incoming|; }
      got, incoming := incoming[..n], incoming[n..];
    }
  }

  /* ----- the client ----- */

  function Next(x: u32): u32 { (x + 1) % TWO_32 }

  /** The part of a socket that decides what a call returns. */
  datatype Link = Link(capacity: nat, incoming: bytes)

  /** A message of the given size is sent whole or the connection breaks; the reply is the next record, and it
      is consumed even if it is rejected. */
  function Transfer(l: Link, size: nat): (r: (Link, Result<bytes>))
    ensures r.1.Success? ==> |r.0.incoming| < |l.incoming|
    ensures |r.0.incoming| <= |l.incoming|
  {
    if 4 + size > l.capacity then (Link(0, l.incoming), Failure(ConnectionLost))
    else
      match TakeRecord(l.incoming)
      case Err(_) => (Link(l.capacity - 4 - size, []), Failure(ConnectionLost))
      case Ok(record, rest) => (Link(l.capacity - 4 - size, rest), TakeReply(record).ToResult())
  }

  /** What a call depends on and changes, apart from the bytes sent. */
  datatype Conn = Conn(xid: u32, auth: Option<AuthSys>, link: Link)

  datatype Request = Request(prog: u32, vers: u32, proc: u32, args: bytes)

  function CallOf(c: Conn, q: Request): Call {
    Call(c.xid, q.prog, q.vers, q.proc, c.auth, q.args)
  }

  function Exchange(c: Conn, q: Request): (r: (Conn, Result<bytes>))
    ensures r.1.Success? ==> |r.0.link.incoming| < |c.link.incoming|
    ensures |r.0.link.incoming| <= |c.link.incoming|
  {
    var (link, reply) := Transfer(c.link, |PutCall(CallOf(c, q))|);
    (Conn(Next(c.xid), c.auth, link), reply)
  }

  /** The stream of a list of messages. */
  function Stream(msgs: seq<bytes>): bytes {
    if msgs == [] then [] else PutRecord(msgs[0], Stream(msgs[1..]))
  }

  lemma {:induction false} StreamSnoc(msgs: seq<bytes>, m: bytes)
    ensures Stream(msgs + [m]) == Stream(msgs) + PutRecord(m, [])
  {
    if msgs == [] {
      assert msgs + [m] == [m];
    } else {
      assert (msgs + [m])[1..] == msgs[1..] + [m];
      StreamSnoc(msgs[1..], m);
      RecordThen(msgs[0], Stream(msgs[1..]), PutRecord(m, []));
    }
  }

  lemma RecordThen(m: bytes, k: bytes, l: bytes)
    ensures PutRecord(m, k + l) == PutRecord(m, k) + l
  {
    assert m + (k + l) == m + k + l;
    Associative(BigEndian(Mark(|m|), 4), m + k, l);
  }

  /** The peer has received the messages byte for byte, or the connection broke on the way. */
  ghost predicate Delivered(msgs: seq<bytes>, sent: bytes, capacity: nat) {
    sent <= Stream(msgs) && (sent == Stream(msgs) || capacity == 0)
  }

  lemma DeliveredSnoc(msgs: seq<bytes>, m: bytes, sent: bytes, capacity: nat)
    requires Delivered(msgs, sent, capacity)
    ensures capacity >= 4 + |m| ==> Delivered(msgs + [m], sent + PutRecord(m, []), capacity - 4 - |m|)
    ensures capacity < 4 + |m| ==> Delivered(msgs + [m], sent + PutRecord(m, [])[..capacity], 0)
  {
    hide PutRecord, Stream;
    StreamSnoc(msgs, m);
    var framed := PutRecord(m, []);
    if capacity < 4 + |m| {
      assert framed == framed[..capacity] + framed[capacity..];
      if sent == Stream(msgs) { Associative(sent, framed[..capacity], framed[capacity..]); }
      else { assert sent + framed[..0] == sent; }
    }
  }

  ghost predicate Messages(calls: seq<Call>, msgs: seq<bytes>) {
    |msgs| == |calls| && forall i :: 0 <= i < |calls| ==> msgs[i] == PutCall(calls[i])
  }

  class TcpRpcClient {
    const sock: Socket
    var xid: u32
    var auth: Option<AuthSys>
    /** Every call made on this connection, and its message. */
    ghost var calls: seq<Call>
    ghost var msgs: seq<bytes>

    ghost predicate Valid()
      reads this, sock
    {
      Delivered(msgs, sock.sent, sock.capacity) && Messages(calls, msgs)
    }

    ghost function View(): Conn
      reads this, sock
    {
      Conn(xid, auth, Link(sock.capacity, sock.incoming))
    }

    constructor (sock: Socket)
      requires sock.sent == []
      ensures Valid() && this.sock == sock && calls == []
      ensures View() == Conn(1, None, Link(sock.capacity, sock.incoming))
    {
      this.sock := sock;
      xid, auth, calls, msgs := 1, None, [], [];
    }

    method SetAuthSys(a: AuthSys)
      modifies this`auth
      ensures View() == old(View()).(auth := Some(a)) && (old(Valid()) ==> Valid())
    {
      auth := Some(a);
    }

    method ClearAuth()
      modifies this`auth
      ensures View() == old(View()).(auth := None) && (old(Valid()) ==> Valid())
    {
      auth := None;
    }

    method SendAll(data: bytes) returns (r: Result<()>)
      modifies sock
      ensures sock.incoming == old(sock.incoming)
      ensures |data| <= old(sock.capacity) ==>
                r == Success(()) && sock.sent == old(sock.sent) + data && sock.capacity == old(sock.capacity) - |data|
      ensures |data| > old(sock.capacity) ==>
                r == Failure(ConnectionLost) && sock.sent == old(sock.sent) + data[..old(sock.capacity)] && sock.capacity == 0
    {
      var total := 0;
      while total < |data|
        invariant total <= |data| && sock.sent == old(sock.sent) + data[..total]
        invariant sock.capacity + total == old(sock.capacity) && sock.incoming == old(sock.incoming)
      {
        var n := sock.Send(data[total..]);
        if n == 0 { return Failure(ConnectionLost); }
        total := total + n;
      }
      r := Success(());
    }

    /** `n` bytes, or fewer if the peer has no more. */
    method RecvBytes(n: nat) returns (got: bytes)
      modifies sock
      ensures sock.sent == old(sock.sent) && sock.capacity == old(sock.capacity)
      ensures old(sock.incoming) == got + sock.incoming
      ensures |got| <= n && (|got| < n ==> sock.incoming == [])
    {
      got := [];
      while |got| < n
        invariant sock.sent == old(sock.sent) && sock.capacity == old(sock.capacity)
        invariant old(sock.incoming) == got + sock.incoming && |got| <= n
      {
        var more := sock.Recv(n - |got|);
        if more == [] { return; }
        got := got + more;
      }
    }

    method RecvFragment() returns (r: Result<Fragment>)
      modifies sock
      ensures sock.sent == old(sock.sent) && sock.capacity == old(sock.capacity)
      ensures var p := TakeFragment(old(sock.incoming));
              if p.Ok? then r == Success(p.value) && sock.incoming == p.rest
              else r == Failure(ConnectionLost) && sock.incoming == []
    {
      ghost var s := sock.incoming;
      var mark := RecvBytes(4);
      if |mark| < 4 { return Failure(ConnectionLost); }
      assert mark == s[..4] && sock.incoming == s[4..];
      WordNumber(mark);
      var m: u32 := (mark[0] as int) * 0x100_0000 + (mark[1] as int) * 0x1_0000 + (mark[2] as int) * 0x100 + mark[3];
      var data := RecvBytes(m % TWO_31);
      if |data| < m % TWO_31 { return Failure(ConnectionLost); }
      assert data == s[4..][..m % TWO_31] && sock.incoming == s[4..][m % TWO_31..];
      r := Success(Fragment(m >= TWO_31, data));
    }

    method RecvRecord() returns (r: Result<bytes>)
      modifies sock
      ensures sock.sent == old(sock.sent) && sock.capacity == old(sock.capacity)
      ensures var p := TakeRecord(old(sock.incoming));
              if p.Ok? then r == Success(p.value) && sock.incoming == p.rest
              else r == Failure(ConnectionLost) && sock.incoming == []
    {
      var record: bytes := [];
      assert TakeRecord(sock.incoming).Ok? ==> record + TakeRecord(sock.incoming).value == TakeRecord(sock.incoming).value;
      while true
        invariant sock.sent == old(sock.sent) && sock.capacity == old(sock.capacity)
        invariant var p, q := TakeRecord(old(sock.incoming)), TakeRecord(sock.incoming);
                  if q.Ok? then p == Ok(record + q.value, q.rest) else p.Err?
        decreases |sock.incoming|
      {
        var f :- RecvFragment();
        if !f.last && TakeRecord(sock.incoming).Ok? {
          Associative(record, f.data, TakeRecord(sock.incoming).value);
        }
        record := record + f.data;
        if f.last { break; }
      }
      r := Success(record);
    }

    method SendAndReceive(msg: bytes) returns (r: Result<bytes>)
      requires Delivered(msgs, sock.sent, sock.capacity)
      modifies this`msgs, sock
      ensures Delivered(msgs, sock.sent, sock.capacity) && msgs == old(msgs) + [msg]
      ensures (Link(sock.capacity, sock.incoming), r) == Transfer(old(Link(sock.capacity, sock.incoming)), |msg|)
    {
      hide PutRecord, TakeRecord, TakeReply;
      DeliveredSnoc(msgs, msg, sock.sent, sock.capacity);
      msgs := msgs + [msg];
      var framed := AddRecordMark(msg);
      var _ :- SendAll(framed);
      var record :- RecvRecord();
      r := ParseReply(record);
    }

    method Call(prog: u32, vers: u32, proc: u32, args: bytes) returns (r: Result<bytes>)
      requires Valid()
      modifies this`xid, this`calls, this`msgs, sock
      ensures Valid()
      ensures calls == old(calls) + [CallOf(old(View()), Request(prog, vers, proc, args))]
      ensures var c := calls[|old(calls)|];
              && c.xid == old(xid) && xid == (old(xid) + 1) % TWO_32 && c.auth == old(auth) && auth == old(auth)
              && c.prog == prog && c.vers == vers && c.proc == proc && c.args == args
      ensures (View(), r) == Exchange(old(View()), Request(prog, vers, proc, args))
    {
      hide PutCall;
      var myXid := xid;
      xid := Next(xid);
      var msg := BuildCallMessage(myXid, prog, vers, proc, args, auth);
      r := SendAndReceive(msg);
      calls := calls + [CallOf(old(View()), Request(prog, vers, proc, args))];
    }
  }

  /* ----- whole runs ----- */

  /** The results of a list of requests made one after the other. */
  function Results(c: Conn, qs: seq<Request>): seq<Result<bytes>>
    decreases qs
  {
    if qs == [] then []
    else
      var (c', reply) := Exchange(c, qs[0]);
      [reply] + Results(c', qs[1..])
  }

  /** The bytes that a list of requests takes to send. */
  function Load(c: Conn, qs: seq<Request>): nat
    decreases qs
  {
    if qs == [] then 0
    else 4 + |PutCall(CallOf(c, qs[0]))| + Load(Conn(Next(c.xid), c.auth, c.link), qs[1..])
  }

  lemma {:induction false} LoadIgnoresLink(c: Conn, qs: seq<Request>, l: Link)
    ensures Load(Conn(c.xid, c.auth, l), qs) == Load(c, qs)
    decreases qs
  {
    hide PutCall;
    if qs != [] { LoadIgnoresLink(Conn(Next(c.xid), c.auth, c.link), qs[1..], l); }
  }

  /** The stream of a peer that sends each record cut into the given fragments. */
  ghost function PutReplies(replies: seq<seq<bytes>>, k: bytes): bytes
    requires forall i :: 0 <= i < |replies| ==> Cut(replies[i])
  {
    if replies == [] then k else PutFragments(replies[0], PutReplies(replies[1..], k))
  }

  /** The body of each reply, or that it is rejected. */
  function Bodies(replies: seq<seq<bytes>>): seq<Result<bytes>> {
    if replies == [] then [] else [TakeReply(Joined(replies[0])).ToResult()] + Bodies(replies[1..])
  }

  /** Replies carry no trace of their calls but their order: the i-th call returns what is read of the i-th record,
      whatever became of the replies before it. */
  lemma {:induction false} RecordsInOrder(c: Conn, qs: seq<Request>, replies: seq<seq<bytes>>, k: bytes)
    requires |replies| == |qs|
    requires forall i :: 0 <= i < |replies| ==> Cut(replies[i])
    requires Load(c, qs) <= c.link.capacity && c.link.incoming == PutReplies(replies, k)
    ensures Results(c, qs) == Bodies(replies)
    decreases qs
  {
    hide PutCall, TakeReply, TakeRecord, PutFragments;
    if qs != [] {
      var c' := Exchange(c, qs[0]).0;
      LoadIgnoresLink(Conn(Next(c.xid), c.auth, c.link), qs[1..], c'.link);
      RecordsInOrder(c', qs[1..], replies[1..], k);
    }
  }

  /** The records are these replies. */
  ghost predicate Puts(replies: seq<seq<bytes>>, xs: seq<RpcReply>) {
    |replies| == |xs| && forall i :: 0 <= i < |xs| ==> WellFormed(xs[i]) && Joined(replies[i]) == PutRpcReply(xs[i])
  }

  function Meanings(xs: seq<RpcReply>): (r: seq<Result<bytes>>)
    ensures |r| == |xs|
  {
    seq(|xs|, i requires 0 <= i < |xs| => Meaning(xs[i]))
  }

  lemma {:induction false} BodiesMean(replies: seq<seq<bytes>>, xs: seq<RpcReply>)
    requires Puts(replies, xs)
    ensures Bodies(replies) == Meanings(xs)
  {
    hide TakeReply, Joined, PutRpcReply, WellFormed, Meaning;
    if xs != [] {
      BodiesMean(replies[1..], xs[1..]);
      assert WellFormed(xs[0]) && Joined(replies[0]) == PutRpcReply(xs[0]);
      ReplyRead(xs[0]);
      assert Meanings(xs) == [Meaning(xs[0])] + Meanings(xs[1..]);
    } else {
      assert replies == [];
    }
  }

  /** With a peer that answers each call with one message, in a record cut anyhow, the i-th call returns the results
      of the i-th message if that is a successful reply, and rejects it otherwise. */
  lemma RepliesInOrder(c: Conn, qs: seq<Request>, replies: seq<seq<bytes>>, xs: seq<RpcReply>, k: bytes)
    requires |replies| == |qs| && (forall i :: 0 <= i < |replies| ==> Cut(replies[i])) && Puts(replies, xs)
    requires Load(c, qs) <= c.link.capacity && c.link.incoming == PutReplies(replies, k)
    ensures Results(c, qs) == Meanings(xs)
  {
    hide Results, Bodies, Load, Puts, PutReplies;
    RecordsInOrder(c, qs, replies, k);
    BodiesMean(replies, xs);
  }

  /** The connection takes that many bytes and then brings the replies. */
  ghost predicate Brings(l: Link, load: nat, replies: seq<seq<bytes>>, k: bytes) {
    (forall i :: 0 <= i < |replies| ==> Cut(replies[i])) && load <= l.capacity && l.incoming == PutReplies(replies, k)
  }

  lemma FirstRecord(l: Link, size: nat, load: nat, replies: seq<seq<bytes>>, k: bytes)
    requires replies != [] && Brings(l, 4 + size + load, replies, k)
    ensures var (l', r) := Transfer(l, size);
            r == TakeReply(Joined(replies[0])).ToResult() && Brings(l', load, replies[1..], k)
  {
    hide TakeReply, TakeRecord, Joined;
  }

  lemma LoadStep(c: Conn, qs: seq<Request>)
    requires qs != []
    ensures Load(c, qs) == 4 + |PutCall(CallOf(c, qs[0]))| + Load(Conn(Next(c.xid), c.auth, c.link), qs[1..])
  {
    hide PutCall;
  }

  /** The first of some requests takes the first record and leaves the connection to the others. */
  lemma FirstReply(c: Conn, qs: seq<Request>, replies: seq<seq<bytes>>, k: bytes)
    requires qs != [] && replies != [] && Brings(c.link, Load(c, qs), replies, k)
    ensures var (c', r) := Exchange(c, qs[0]);
            && r == TakeReply(Joined(replies[0])).ToResult()
            && Brings(c'.link, Load(c', qs[1..]), replies[1..], k)
            && c' == Conn(Next(c.xid), c.auth, c'.link)
  {
    hide PutCall, TakeReply, Joined, Transfer, Brings, PutReplies, Load, Next, CallOf;
    var c' := Exchange(c, qs[0]).0;
    LoadStep(c, qs);
    LoadIgnoresLink(Conn(Next(c.xid), c.auth, c.link), qs[1..], c'.link);
    FirstRecord(c.link, |PutCall(CallOf(c, qs[0]))|, Load(c', qs[1..]), replies, k);
  }

  /** What a server reads off a stream: complete records only, each parsed as a call. */
  function ReceivedCalls(s: bytes): seq<Parsed<Call>>
    decreases |s|
  {
    match TakeRecord(s)
    case Err(_) => []
    case Ok(record, rest) => [TakeCall(record)] + ReceivedCalls(rest)
  }

  /** A stream cut short inside a record holds no complete record. */
  lemma CutRecord(m: bytes, k: bytes, p: bytes)
    requires |m| < TWO_31 && p <= PutRecord(m, k)
    ensures |p| < 4 + |m| ==> TakeRecord(p).Err?
    ensures |p| >= 4 + |m| ==> p[4 + |m|..] <= k && p == PutRecord(m, p[4 + |m|..])
  {
    hide PutRecord, BigEndian, Number;
    var mark := BigEndian(Mark(|m|), 4);
    assert PutRecord(m, k) == mark + (m + k) by { PutRecordIs(m, k); }
    if 4 <= |p| {
      CutFront(mark, m + k, p);
      assert TakeU32(p) == Ok(Mark(|m|), p[4..]) by { PutRecordIs(m, k); }
    }
    if 4 + |m| <= |p| {
      CutFront(m, k, p[4..]);
      PutRecordIs(m, p[4..][|m|..]);
    }
  }

  lemma PutRecordIs(m: bytes, k: bytes)
    ensures PutRecord(m, k) == BigEndian(Mark(|m|), 4) + (m + k)
    ensures forall p: bytes :: |p| >= 4 && p[..4] == BigEndian(Mark(|m|), 4) ==> TakeU32(p) == Ok(Mark(|m|), p[4..])
  {
    FourBytes();
  }

  lemma CutFront(w: bytes, t: bytes, p: bytes)
    requires |w| <= |p| && p <= w + t
    ensures p == w + p[|w|..] && p[|w|..] <= t && p[..|w|] == w
  {
    assert (w + t)[..|w|] == w && (w + t)[|w|..] == t;
  }

  /** The server reads the calls that were made, each with all its fields, in the order they were made; it
      reads all of them if the connection never broke. */
  lemma {:induction false} CallsArrive(calls: seq<Call>, msgs: seq<bytes>, sent: bytes)
    requires Messages(calls, msgs) && (forall m <- msgs :: |m| < TWO_31)
    requires sent <= Stream(msgs)
    ensures |ReceivedCalls(sent)| <= |calls| && (sent == Stream(msgs) ==> |ReceivedCalls(sent)| == |calls|)
    ensures forall i :: 0 <= i < |ReceivedCalls(sent)| ==> ReceivedCalls(sent)[i] == Ok(calls[i], [])
  {
    hide PutCall, TakeCall, TakeRecord, PutRecord;
    if calls == [] {
    } else {
      var m := msgs[0];
      CutRecord(m, Stream(msgs[1..]), sent);
      if |sent| >= 4 + |m| {
        var rest := sent[4 + |m|..];
        CallRoundTrip(calls[0]);
        CallsArrive(calls[1..], msgs[1..], rest);
      }
    }
  }
}
