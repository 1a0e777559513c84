/** ONC RPC over a byte stream (RFC 5531): call messages, replies, record marking, and the client that
    sends a call and reads its reply. */
module Rpc {
  import opened Wire
  import opened Xdr

  const TWO_31 := 0x8000_0000

  const CALL: u32 := 0
  const REPLY: u32 := 1
  const RPC_VERSION: u32 := 2
  const AUTH_NONE: u32 := 0
  const AUTH_SYS_FLAV: u32 := 1

  datatype AuthSys = AuthSys(stamp: u32, machinename: bytes, uid: u32, gid: u32, gids: seq<u32>)

  datatype Call = Call(xid: u32, prog: u32, vers: u32, proc: u32, auth: Option<AuthSys>, args: bytes)

  /* ----- the call message, and the parser a server would apply to it ----- */

  function TakeWords(n: nat, s: bytes): (r: Parsed<seq<u32>>)
    ensures r.Ok? ==> |r.value| == n && |s| == 4 * n + |r.rest|
  {
    if n == 0 then Ok([], s)
    else
      var (w, s) :- TakeU32(s);
      var (ws, s) :- TakeWords(n - 1, s);
      Ok([w] + ws, s)
  }

  function PutWords(ws: seq<u32>, k: bytes): (r: bytes)
    ensures |r| == 4 * |ws| + |k|
    ensures TakeWords(|ws|, r) == Ok(ws, k)
  {
    if ws == [] then k
    else
      assert [ws[0]] + ws[1..] == ws;
      PutU32(ws[0], PutWords(ws[1..], k))
  }

  function TakeAuthSys(s: bytes): Parsed<AuthSys> {
    var (stamp, s) :- TakeU32(s);
    var (machinename, s) :- TakeOpaque(s);
    var (uid, s) :- TakeU32(s);
    var (gid, s) :- TakeU32(s);
    var (n, s) :- TakeU32(s);
    var (gids, s) :- TakeWords(n, s);
    Ok(AuthSys(stamp, machinename, uid, gid, gids), s)
  }

  function PutAuthSys(a: AuthSys, k: bytes): bytes {
    PutU32(a.stamp, PutOpaque(a.machinename, PutU32(a.uid, PutU32(a.gid, PutU32(Low32(|a.gids|), PutWords(a.gids, k))))))
  }

  lemma AuthSysRoundTrip(a: AuthSys, k: bytes)
    requires |PutAuthSys(a, k)| < TWO_32
    ensures TakeAuthSys(PutAuthSys(a, k)) == Ok(a, k)
  {
  }

  /** The server's side of a credential: AUTH_NONE carries an empty body, AUTH_SYS a body that holds exactly
      one credential. */
  function TakeCred(s: bytes): Parsed<Option<AuthSys>> {
    var (flavor, s) :- TakeU32(s);
    var (body, s) :- TakeOpaque(s);
    if flavor == 0 && body == [] then Ok(None, s)
    else if flavor == 1 then
      var (a, extra) :- TakeAuthSys(body);
      if extra == [] then Ok(Some(a), s) else Err(BadReply)
    else Err(BadReply)
  }

  function PutCred(a: Option<AuthSys>, k: bytes): (r: bytes)
    ensures |r| >= |k|
  {
    match a
    case None => PutU32(AUTH_NONE, PutU32(0, k))
    case Some(a) => PutU32(AUTH_SYS_FLAV, PutOpaque(PutAuthSys(a, []), k))
  }

  lemma CredRoundTrip(a: Option<AuthSys>, k: bytes)
    requires |PutCred(a, k)| < TWO_32
    ensures TakeCred(PutCred(a, k)) == Ok(a, k)
  {
    match a
    case None => EmptyOpaque(k);
    case Some(a) => AuthSysRoundTrip(a, []);
  }

  function TakeCall(s: bytes): Parsed<Call> {
    var (xid, s) :- TakeU32(s);
    var (kind, s) :- TakeU32(s);
    var (rpcvers, s) :- TakeU32(s);
    var (prog, s) :- TakeU32(s);
    var (vers, s) :- TakeU32(s);
    var (proc, s) :- TakeU32(s);
    var (auth, s) :- TakeCred(s);
    var (verifier, s) :- TakeCred(s);
    if kind == 0 && rpcvers == 2 && verifier == None
      then Ok(Call(xid, prog, vers, proc, auth, s), []) else Err(BadReply)
  }

  function PutCall(c: Call): (r: bytes)
    ensures |r| >= |c.args|
  {
    PutU32(c.xid, PutU32(CALL, PutU32(RPC_VERSION, PutU32(c.prog, PutU32(c.vers, PutU32(c.proc,
      PutCred(c.auth, PutCred(None, c.args))))))))
  }

  /** A server reads back every field of a call, the whole credential and exactly the argument bytes, for any
      machine name and any group list. */
  lemma CallRoundTrip(c: Call)
    requires |PutCall(c)| < TWO_32
    ensures TakeCall(PutCall(c)) == Ok(c, [])
  {
    CredRoundTrip(None, c.args);
    CredRoundTrip(c.auth, PutCred(None, c.args));
  }

  method BuildCallMessage(xid: u32, prog: u32, vers: u32, proc: u32, args: bytes, auth: Option<AuthSys>)
    returns (msg: bytes)
    ensures msg == PutCall(Call(xid, prog, vers, proc, auth, args))
  {
    var enc := new XdrEncoder();
    enc.PutU32(xid);
    enc.PutU32(CALL);
    enc.PutU32(RPC_VERSION);
    enc.PutU32(prog);
    enc.PutU32(vers);
    enc.PutU32(proc);
    EncodeCred(enc, auth);
    EncodeCred(enc, None);
    msg := enc.buf + args;
  }

  method EncodeCred(enc: XdrEncoder, auth: Option<AuthSys>)
    modifies enc
    ensures forall k {:trigger enc.buf + k} :: enc.buf + k == old(enc.buf) + PutCred(auth, k)
  {
    match auth {
      case Some(a) =>
        var body := AuthSysBody(a);
        enc.PutU32(AUTH_SYS_FLAV);
        enc.PutOpaque(body);
      case None =>
        enc.PutU32(AUTH_NONE);
        enc.PutU32(0);
    }
  }

  method AuthSysBody(a: AuthSys) returns (body: bytes)
    ensures body == PutAuthSys(a, [])
  {
    var enc := new XdrEncoder();
    enc.PutU32(a.stamp);
    enc.PutOpaque(a.machinename);
    enc.PutU32(a.uid);
    enc.PutU32(a.gid);
    enc.PutU32(Low32(|a.gids|));
    EncodeWords(enc, a.gids);
    body := enc.buf;
    assert body + [] == body;
  }

  method EncodeWords(enc: XdrEncoder, ws: seq<u32>)
    modifies enc
    ensures forall k {:trigger enc.buf + k} :: enc.buf + k == old(enc.buf) + PutWords(ws, k)
  {
    for i := 0 to |ws|
      invariant forall k :: enc.buf + PutWords(ws[i..], k) == old(enc.buf) + PutWords(ws, k)
    {
      enc.PutU32(ws[i]);
    }
    assert forall k :: PutWords(ws[|ws|..], k) == k;
  }
}
