/** The open-owner of an NFSv4.0 server (section 9.1.7 of RFC 7530), and when it stays in step with a client that
    counts every OPEN and OPEN_CONFIRM, whether the server got to see its sequence id or not. */
module OpenOwners {
  import opened Wire
  import opened Rpc
  import opened Transport
  import opened Ops
  import opened Compounds
  import opened Client40
  import opened FileTrees
  import opened Objects
  import opened Namespace

  const NFS4ERR_BAD_SEQID: u32 := 10026

  /* ----- what the owner makes of each request ----- */

  /** OPEN, OPEN_CONFIRM and CLOSE have an id of the open-owner. */
  function OwnerId(m: Compound): Option<u32> {
    if |m.ops| >= 2 && m.ops[1].Close? then Some(m.ops[1].seqid) else OpenSeqid(m)
  }

  predicate IsClose(m: Compound) { |m.ops| >= 2 && m.ops[1].Close? }

  /** The last request whose id was taken. */
  datatype Owner = Unknown | Known(last: Compound)

  predicate HasId(o: Owner) { o.Known? ==> OwnerId(o.last).Some? }

  /** What becomes of a request: its id is new, it is the last one again, it has the last id but is another
      request, its id is refused, or the server takes no notice of its id. */
  datatype Fate = Accepted | Repeated | Confused | BadSeqid | NotCounted

  /** Any id starts an owner; then the next id is new and the last one means the same request. */
  function Admit(o: Owner, m: Compound): Fate
    requires OwnerId(m).Some? && HasId(o)
  {
    if o.Unknown? then Accepted
    else if m == o.last then Repeated
    else if OwnerId(m).value == Next(OwnerId(o.last).value) then Accepted
    else if OwnerId(m) == OwnerId(o.last) then Confused
    else BadSeqid
  }

  /** `counted[i]` says whether the server comes to the id of the `i`-th request and takes it.  It does not if the
      request has none, if PUTFH fails before OPEN, or if the operation fails with one of the errors that leave the
      id as it was. */
  predicate Flagged(t: seq<Compound>, counted: seq<bool>) {
    |counted| == |t| && forall i :: 0 <= i < |t| && counted[i] ==> OwnerId(t[i]).Some?
  }

  function FateOf(o: Owner, m: Compound, counts: bool): Fate
    requires HasId(o) && (counts ==> OwnerId(m).Some?)
  {
    if counts then Admit(o, m) else NotCounted
  }

  /** The owner before the `n`-th request. */
  function OwnerAt(t: seq<Compound>, counted: seq<bool>, n: nat): (o: Owner)
    requires Flagged(t, counted) && n <= |t|
    ensures HasId(o)
  {
    if n == 0 then Unknown
    else
      var o := OwnerAt(t, counted, n - 1);
      if FateOf(o, t[n - 1], counted[n - 1]).Accepted? then Known(t[n - 1]) else o
  }

  function FateAt(t: seq<Compound>, counted: seq<bool>, n: nat): Fate
    requires Flagged(t, counted) && n < |t|
  {
    FateOf(OwnerAt(t, counted, n), t[n], counted[n])
  }

  predicate Fine(f: Fate) { f.Accepted? || f.Repeated? || f.NotCounted? }

  /** None of the first `n` requests is refused or taken for another. */
  predicate FineUpTo(t: seq<Compound>, counted: seq<bool>, n: nat)
    requires Flagged(t, counted) && n <= |t|
  {
    forall i :: 0 <= i < n ==> Fine(FateAt(t, counted, i))
  }

  predicate AllFine(t: seq<Compound>, counted: seq<bool>)
    requires Flagged(t, counted)
  {
    FineUpTo(t, counted, |t|)
  }

  /** The last request before the `n`-th whose id was taken. */
  function LastCounted(counted: seq<bool>, n: nat): (r: Option<nat>)
    requires n <= |counted|
    ensures r.Some? ==> r.value < n && counted[r.value] && forall i :: r.value < i < n ==> !counted[i]
    ensures r.None? ==> forall i :: 0 <= i < n ==> !counted[i]
  {
    if n == 0 then None else if counted[n - 1] then Some(n - 1) else LastCounted(counted, n - 1)
  }

  /** As long as all is fine, the owner remembers the last request whose id was taken. */
  lemma {:induction false} OwnerIsLast(t: seq<Compound>, counted: seq<bool>, n: nat)
    requires Flagged(t, counted) && n <= |t| && FineUpTo(t, counted, n)
    ensures var l := LastCounted(counted, n);
            OwnerAt(t, counted, n) == if l.None? then Unknown else Known(t[l.value])
  {
    hide OwnerId;
    if n > 0 {
      OwnerIsLast(t, counted, n - 1);
      assert Fine(FateAt(t, counted, n - 1));
    }
  }

  /* ----- OPEN and OPEN_CONFIRM ----- */

  /** The `n`-th request is the `m`-th again, or the number of new requests in between is right. */
  predicate Follows(s: seq<Compound>, m: nat, n: nat)
    requires m < n < |s|
  {
    s[n] == s[m] || (Changes(s, n) - Changes(s, m)) % TWO_32 == 1
  }

  predicate NoIdLostTo(s: seq<Compound>, counted: seq<bool>, to: nat)
    requires |counted| == |s| && to <= |s|
  {
    forall n :: 0 <= n < to && counted[n] && LastCounted(counted, n).Some? ==> Follows(s, LastCounted(counted, n).value, n)
  }

  predicate NoIdLost(s: seq<Compound>, counted: seq<bool>)
    requires |counted| == |s|
  {
    NoIdLostTo(s, counted, |s|)
  }

  /** With a request in between that was not counted, the next one is refused. */
  lemma IdLost(s: seq<Compound>)
    requires Stepwise(s) && |s| == 3 && s[0] != s[1] && s[1] != s[2]
    ensures var counted := [true, false, true];
            && Flagged(s, counted)
            && FateAt(s, counted, 0) == Accepted && FateAt(s, counted, 1) == NotCounted && FateAt(s, counted, 2) == BadSeqid
  {
    AllSequenced(s);
    hide OpenSeqid, OwnerId;
    var counted := [true, false, true];
    assert OpenSeqid(s[0]) == Some(1) && OpenSeqid(s[1]) == Some(2) && OpenSeqid(s[2]) == Some(3);
    assert OwnerAt(s, counted, 1) == Known(s[0]);
    assert OwnerAt(s, counted, 2) == Known(s[0]);
  }

  lemma AllSequenced(s: seq<Compound>)
    requires Stepwise(s)
    ensures forall i :: 0 <= i < |s| ==> OpenSeqid(s[i]).Some? && OwnerId(s[i]) == OpenSeqid(s[i])
  {
  }

  /** A directory handle that names nothing is how a request comes not to be counted: OPEN is not reached. */
  lemma StaleHandleStops(fs: Fs, dir: bytes, seqid: u32, access: u32, clientid: u64, owner: bytes, create: bool,
                         name: bytes, spare: Spare)
    requires Resolve(fs, dir).Bad?
    ensures Run(Start(fs), OpenOps(dir, seqid, access, clientid, owner, create, name), spare)
            == Ran(Start(fs), Resolve(fs, dir).code)
  {
    hide Run, FhOp, Resolve;
    var ops := OpenOps(dir, seqid, access, clientid, owner, create, name);
    RunThree(Start(fs), dir, ops[1], GetFh, spare);
  }

  lemma {:induction false} ChangesUp(s: seq<Compound>, m: nat, n: nat)
    requires m <= n < |s|
    ensures Changes(s, m) <= Changes(s, n) <= Changes(s, m) + n - m
    ensures Changes(s, m) == Changes(s, n) ==> s[m] == s[n]
  {
    if m < n { ChangesUp(s, m, n - 1); }
  }

  lemma OneApart(a: nat, b: nat)
    requires a <= b
    ensures (1 + b) % TWO_32 == Next((1 + a) % TWO_32) <==> (b - a) % TWO_32 == 1
  {
    Client40.NextModulo(1 + a);
    var q, x := a / TWO_32, a % TWO_32;
    var p, y := (b - a) / TWO_32, (b - a) % TWO_32;
    Reduced(q + p, 1 + x + y);
    Reduced(q, 2 + x);
  }

  lemma Reduced(q: nat, r: nat)
    requires r < 2 * TWO_32
    ensures (q * TWO_32 + r) % TWO_32 == if r < TWO_32 then r else r - TWO_32
  {
  }

  lemma AdmitsNext(s: seq<Compound>, m: nat, n: nat)
    requires Stepwise(s) && m < n < |s|
    ensures OwnerId(s[m]).Some? && OwnerId(s[n]).Some? && (Fine(Admit(Known(s[m]), s[n])) <==> Follows(s, m, n))
  {
    AllSequenced(s);
    hide OpenSeqid, OwnerId, Changes, Next;
    SeqidsConsecutive(s, m);
    SeqidsConsecutive(s, n);
    ChangesUp(s, m, n);
    OneApart(Changes(s, m), Changes(s, n));
  }

  lemma {:induction false} OpensInStepTo(s: seq<Compound>, counted: seq<bool>, n: nat)
    requires Stepwise(s) && Flagged(s, counted) && n <= |s|
    ensures FineUpTo(s, counted, n) <==> NoIdLostTo(s, counted, n)
  {
    hide OwnerId, OpenSeqid, Follows, Admit, OwnerAt, Stepwise;
    if n > 0 {
      var i := n - 1;
      OpensInStepTo(s, counted, i);
      assert FineUpTo(s, counted, n) <==> FineUpTo(s, counted, i) && Fine(FateAt(s, counted, i));
      if FineUpTo(s, counted, i) && counted[i] {
        OwnerIsLast(s, counted, i);
        var l := LastCounted(counted, i);
        if l.Some? {
          AdmitsNext(s, l.value, i);
        } else {
          assert Fine(FateAt(s, counted, i)) by { FirstIsFine(s[i]); }
        }
      }
    }
  }

  lemma FirstIsFine(m: Compound)
    requires OwnerId(m).Some?
    ensures Fine(Admit(Unknown, m))
  {
  }

  /** For fewer than 2^32 requests: if and only if no new request goes by unseen between two that are seen. */
  lemma FollowsIff(s: seq<Compound>, m: nat, n: nat)
    requires Stepwise(s) && m < n < |s| <= TWO_32
    ensures Follows(s, m, n) <==> Changes(s, n) <= Changes(s, m) + 1
  {
    hide OpenSeqid, Changes;
    ChangesUp(s, m, n);
    SeqidsConsecutive(s, m);
    SeqidsConsecutive(s, n);
    ChangesFew(s, n);
    if s[n] == s[m] {
      assert (1 + Changes(s, n)) % TWO_32 == (1 + Changes(s, m)) % TWO_32;
    }
  }

  lemma ChangesFew(s: seq<Compound>, n: nat)
    requires n < |s|
    ensures Changes(s, n) <= n
  {
    ChangesUp(s, 0, n);
  }

  /* ----- all requests of a run ----- */

  /** The flags of the OPEN and OPEN_CONFIRM requests among `t`. */
  function OpenFlags(t: seq<Compound>, counted: seq<bool>): (r: seq<bool>)
    requires |counted| == |t|
    ensures |r| == |Sequenced(t)|
    decreases |t|
  {
    if t == [] then []
    else
      var n := |t| - 1;
      OpenFlags(t[..n], counted[..n]) + (if OpenSeqid(t[n]).Some? then [counted[n]] else [])
  }

  /** How many of the first `n` requests are OPEN or OPEN_CONFIRM. */
  function Opens(t: seq<Compound>, n: nat): nat
    requires n <= |t|
  {
    |Sequenced(t[..n])|
  }

  lemma OpensStep(t: seq<Compound>, counted: seq<bool>, n: nat)
    requires |counted| == |t| && n < |t|
    ensures Sequenced(t[..n + 1]) == Sequenced(t[..n]) + (if OpenSeqid(t[n]).Some? then [t[n]] else [])
    ensures OpenFlags(t[..n + 1], counted[..n + 1])
            == OpenFlags(t[..n], counted[..n]) + (if OpenSeqid(t[n]).Some? then [counted[n]] else [])
  {
    hide OpenSeqid;
    assert t[..n + 1][..n] == t[..n] && counted[..n + 1][..n] == counted[..n];
  }

  lemma {:induction false} FlagsFront(t: seq<Compound>, counted: seq<bool>, n: nat)
    requires |counted| == |t| && n <= |t|
    ensures Sequenced(t[..n]) <= Sequenced(t) && OpenFlags(t[..n], counted[..n]) <= OpenFlags(t, counted)
    decreases |t| - n
  {
    hide OpenSeqid, Sequenced, OpenFlags;
    if n == |t| {
      assert t[..n] == t && counted[..n] == counted;
    } else {
      FlagsFront(t, counted, n + 1);
      OpensStep(t, counted, n);
    }
  }

  /** The `n`-th request, if it is OPEN or OPEN_CONFIRM, is the one with the number `Opens(t, n)` among them. */
  lemma AtIndex(t: seq<Compound>, counted: seq<bool>, n: nat)
    requires |counted| == |t| && n < |t|
    ensures var k := Opens(t, n);
            if OpenSeqid(t[n]).None? then Opens(t, n + 1) == k
            else Opens(t, n + 1) == k + 1 <= |Sequenced(t)| && Sequenced(t)[k] == t[n] && OpenFlags(t, counted)[k] == counted[n]
  {
    hide OpenSeqid, Sequenced, OpenFlags;
    OpensStep(t, counted, n);
    FlagsFront(t, counted, n + 1);
  }

  lemma {:induction false} OpensMonotone(t: seq<Compound>, m: nat, n: nat)
    requires m <= n <= |t|
    ensures Opens(t, m) <= Opens(t, n)
    decreases n
  {
    hide OpenSeqid;
    if m < n {
      OpensMonotone(t, m, n - 1);
      AtIndex(t, seq(|t|, _ => false), n - 1);
    }
  }

  lemma {:induction false} OpensFlagged(t: seq<Compound>, counted: seq<bool>)
    requires |counted| == |t|
    ensures Flagged(Sequenced(t), OpenFlags(t, counted))
  {
    var s := Sequenced(t);
    forall i | 0 <= i < |s| ensures OwnerId(s[i]).Some? {
      assert OpenSeqid(s[i]).Some?;
    }
  }

  /** No id of a CLOSE is taken among the first `n` requests. */
  predicate NoCloseTo(t: seq<Compound>, counted: seq<bool>, n: nat)
    requires |counted| == |t| && n <= |t|
  {
    forall i :: 0 <= i < n && counted[i] ==> !IsClose(t[i])
  }

  predicate NoClose(t: seq<Compound>, counted: seq<bool>)
    requires |counted| == |t|
  {
    NoCloseTo(t, counted, |t|)
  }

  lemma NotClose(m: Compound)
    requires OwnerId(m).Some? && !IsClose(m)
    ensures OpenSeqid(m).Some?
  {
  }

  /** Requests whose ids are not taken leave no trace: the owner is the same with and without them. */
  lemma {:induction false} SameOwner(t: seq<Compound>, counted: seq<bool>, n: nat)
    requires Flagged(t, counted) && n <= |t| && NoCloseTo(t, counted, n)
    ensures var (s, flags) := (Sequenced(t), OpenFlags(t, counted));
            && Flagged(s, flags) && Opens(t, n) <= |s|
            && OwnerAt(t, counted, n) == OwnerAt(s, flags, Opens(t, n))
            && (FineUpTo(t, counted, n) <==> FineUpTo(s, flags, Opens(t, n)))
  {
    hide OpenSeqid, OwnerId, IsClose, Sequenced, OpenFlags, Opens, Admit;
    var s, flags := Sequenced(t), OpenFlags(t, counted);
    OpensFlagged(t, counted);
    if n == 0 {
      assert Opens(t, 0) == 0 by { NoneYet(t); }
    } else {
      var i := n - 1;
      SameOwner(t, counted, i);
      AtIndex(t, counted, i);
      assert FineUpTo(t, counted, n) <==> FineUpTo(t, counted, i) && Fine(FateAt(t, counted, i));
      if counted[i] { NotClose(t[i]); }
      if OpenSeqid(t[i]).Some? {
        var k := Opens(t, i);
        assert FateAt(t, counted, i) == FateAt(s, flags, k);
        assert FineUpTo(s, flags, k + 1) <==> FineUpTo(s, flags, k) && Fine(FateAt(s, flags, k));
      }
    }
  }

  lemma NoneYet(t: seq<Compound>)
    ensures Opens(t, 0) == 0
  {
    assert t[..0] == [];
  }

  lemma AllOpens(t: seq<Compound>)
    ensures Opens(t, |t|) == |Sequenced(t)|
  {
    assert t[..|t|] == t;
  }

  /** Runs of any length in which no id of a CLOSE is taken: the server takes every id it sees for what the client
      meant if and only if, between two ids that it takes, as many new ones went by unseen as make no difference
      modulo 2^32. */
  lemma InStepWithoutClose(t: seq<Compound>, counted: seq<bool>)
    requires Stepwise(Sequenced(t)) && Flagged(t, counted) && NoClose(t, counted)
    ensures AllFine(t, counted) <==> NoIdLost(Sequenced(t), OpenFlags(t, counted))
  {
    hide OpenSeqid, OwnerId, Sequenced, OpenFlags, Opens, Stepwise, OwnerAt, NoIdLostTo, FineUpTo;
    SameOwner(t, counted, |t|);
    AllOpens(t);
    OpensInStepTo(Sequenced(t), OpenFlags(t, counted), |Sequenced(t)|);
  }

  /* ----- CLOSE ----- */

  /** A CLOSE whose id is taken is of a file that was opened: it has the id of an OPEN or OPEN_CONFIRM that was taken
      before. */
  predicate OpenedBefore(t: seq<Compound>, counted: seq<bool>, n: nat)
    requires Flagged(t, counted) && n < |t|
  {
    counted[n] && IsClose(t[n]) ==> exists j :: 0 <= j < n && counted[j] && OpenSeqid(t[j]) == OwnerId(t[n])
  }

  predicate ClosesOpened(t: seq<Compound>, counted: seq<bool>)
    requires Flagged(t, counted)
  {
    forall n :: 0 <= n < |t| ==> OpenedBefore(t, counted, n)
  }

  /** Below 2^32 requests no id that was used is the next one again. */
  lemma UsedIsNotNext(s: seq<Compound>, m: nat, n: nat)
    requires Stepwise(s) && m <= n < |s| < TWO_32
    ensures OpenSeqid(s[m]).Some? && OpenSeqid(s[n]).Some? && OpenSeqid(s[m]).value != Next(OpenSeqid(s[n]).value)
  {
    hide OpenSeqid, Changes;
    SeqidsConsecutive(s, m);
    SeqidsConsecutive(s, n);
    ChangesUp(s, m, n);
    ChangesFew(s, n);
  }

  /** A CLOSE never has a new id: the server takes it for the request before it, or refuses it. */
  lemma CloseNeverNew(t: seq<Compound>, counted: seq<bool>, n: nat)
    requires Stepwise(Sequenced(t)) && |Sequenced(t)| < TWO_32 && Flagged(t, counted)
    requires n < |t| && counted[n] && IsClose(t[n]) && OpenedBefore(t, counted, n)
    requires FineUpTo(t, counted, n) && NoCloseTo(t, counted, n)
    ensures FateAt(t, counted, n) == Confused || FateAt(t, counted, n) == BadSeqid
  {
    hide OpenSeqid, OwnerId, Sequenced, OpenFlags, Opens, Stepwise, OwnerAt, FineUpTo, IsClose;
    var j :| 0 <= j < n && counted[j] && OpenSeqid(t[j]) == OwnerId(t[n]);
    OwnerIsLast(t, counted, n);
    var l := LastCounted(counted, n).value;
    NotClose(t[l]);
    AtIndex(t, counted, j);
    AtIndex(t, counted, l);
    OpensMonotone(t, j, l);
    UsedIsNotNext(Sequenced(t), Opens(t, j), Opens(t, l));
    AllSequenced(Sequenced(t));
  }

  lemma CountedCloseIsWrong(t: seq<Compound>, counted: seq<bool>)
    requires Stepwise(Sequenced(t)) && |Sequenced(t)| < TWO_32 && Flagged(t, counted) && ClosesOpened(t, counted)
    requires !NoClose(t, counted)
    ensures !AllFine(t, counted)
  {
    hide OpenSeqid, OwnerId, Sequenced, OpenFlags, Opens, Stepwise, OwnerAt, IsClose;
    var n := FirstClose(t, counted);
    if FineUpTo(t, counted, n) { CloseNeverNew(t, counted, n); }
  }

  function FirstClose(t: seq<Compound>, counted: seq<bool>): (n: nat)
    requires |counted| == |t| && !NoClose(t, counted)
    ensures n < |t| && counted[n] && IsClose(t[n]) && NoCloseTo(t, counted, n)
    decreases |t|
  {
    var n := |t| - 1;
    if NoClose(t[..n], counted[..n]) then
      assert forall i :: 0 <= i < n ==> t[..n][i] == t[i] && counted[..n][i] == counted[i];
      n
    else FirstClose(t[..n], counted[..n])
  }

  /** Exactly: all is fine if and only if no id is lost and no CLOSE is counted. */
  lemma InStepIff(t: seq<Compound>, counted: seq<bool>)
    requires Stepwise(Sequenced(t)) && |Sequenced(t)| < TWO_32 && Flagged(t, counted) && ClosesOpened(t, counted)
    ensures AllFine(t, counted) <==> NoIdLost(Sequenced(t), OpenFlags(t, counted)) && NoClose(t, counted)
  {
    hide Sequenced, Stepwise, OwnerAt, FineUpTo, NoIdLost, NoCloseTo, OpenFlags, ClosesOpened;
    if NoClose(t, counted) { InStepWithoutClose(t, counted); } else { CountedCloseIsWrong(t, counted); }
  }

  /** The input: a file is opened and closed, and the server sees both ids.  The file that is returned has the id of
      the OPEN, and so has its CLOSE. */
  lemma OpenThenClose(open: Compound, fh: bytes, stateid: Stateid4, seqid: u32)
    requires OpenSeqid(open) == Some(seqid)
    ensures var t := [open, Request40(CloseOps(fh, seqid, stateid))];
            var counted := [true, true];
            && Flagged(t, counted) && ClosesOpened(t, counted) && NoIdLost(Sequenced(t), OpenFlags(t, counted))
            && FateAt(t, counted, 0) == Accepted && FateAt(t, counted, 1) == Confused
  {
    var close := Request40(CloseOps(fh, seqid, stateid));
    var t, counted := [open, close], [true, true];
    assert OwnerAt(t, counted, 1) == Known(open);
    assert OpenedBefore(t, counted, 1) by { assert counted[0] && OpenSeqid(t[0]) == OwnerId(t[1]); }
    assert |Sequenced(t)| == 1 by { OpensCount(t, counted); }
  }

  lemma OpensCount(t: seq<Compound>, counted: seq<bool>)
    requires |t| == 2 == |counted| && OpenSeqid(t[0]).Some? && OpenSeqid(t[1]).None?
    ensures |Sequenced(t)| == 1
  {
    hide OpenSeqid, Sequenced;
    AtIndex(t, counted, 0);
    AtIndex(t, counted, 1);
    NoneYet(t);
    AllOpens(t);
  }

  /* ----- on the connection ----- */

  /** At any moment of any run of a client, with what a server has read off its connection. */
  lemma InStepOnTheWire(c: Nfs4Client, counted: seq<bool>)
    requires c.Valid() && forall m <- c.rpc.msgs :: |m| < TWO_31
    requires var t := RequestsSent(c.rpc.sock.sent, c.base);
             Flagged(t, counted) && ClosesOpened(t, counted) && |Sequenced(t)| < TWO_32
    ensures var t := RequestsSent(c.rpc.sock.sent, c.base);
            AllFine(t, counted) <==> NoIdLost(Sequenced(t), OpenFlags(t, counted)) && NoClose(t, counted)
  {
    hide Logged, Messages, Delivered, ReceivedCalls, ReceivedCompounds, Sequenced, OpenSeqid, AllFine, NoIdLost, NoCloseTo;
    hide OpenFlags, ClosesOpened;
    SeqidsOnTheWire(c);
    assert Stepwise(Sequenced([])) by { NothingIsStepwise(); }
    InStepIff(RequestsSent(c.rpc.sock.sent, c.base), counted);
  }

  lemma NothingIsStepwise()
    ensures Stepwise(Sequenced([]))
  {
  }

  /** The requests that a server has read off a connection. */
  ghost function RequestsSent(sent: bytes, base: nat): seq<Compound> {
    var got := ReceivedCalls(sent);
    if |got| < base then [] else ReceivedCompounds(got[base..])
  }

  /* ----- the grace period ----- */

  /** The open-owner with the status that its last request was answered with. */
  datatype OwnerMemory = OwnerMemory(owner: Owner, status: u32)

  /** One attempt of an OPEN: whether the server is in its grace period, and whether it takes the id of an OPEN that
      it refuses for that. */
  datatype Attempt = Attempt(grace: bool, takes: bool)

  datatype Answer = Answer(memory: OwnerMemory, status: u32, ran: bool)

  /** A request that comes again is answered like the first time and not run; a new one is refused in the grace
      period and otherwise run, with the status `result`. */
  function Serve(o: OwnerMemory, m: Compound, a: Attempt, result: u32): Answer
    requires OwnerId(m).Some? && HasId(o.owner)
  {
    match Admit(o.owner, m)
    case Repeated => Answer(o, o.status, false)
    case Accepted =>
      if !a.grace then Answer(OwnerMemory(Known(m), result), result, true)
      else Answer(if a.takes then OwnerMemory(Known(m), 10013) else o, 10013, false)
    case _ => Answer(o, NFS4ERR_BAD_SEQID, false)
  }

  /** What the last attempt was answered, where the client sends the same OPEN again as long as that is
      10013, NFS4ERR_GRACE. */
  function Attempted(o: OwnerMemory, m: Compound, attempts: seq<Attempt>, result: u32): Answer
    requires OwnerId(m).Some? && HasId(o.owner)
    decreases |attempts|
  {
    if attempts == [] then Answer(o, 10013, false)
    else
      var a := Serve(o, m, attempts[0], result);
      if a.status == 10013 then Attempted(a.memory, m, attempts[1..], result) else a
  }

  /** One attempt comes out of the grace period, and the server has not taken the id of any before it. */
  predicate OutOfGrace(attempts: seq<Attempt>) {
    exists n :: 0 <= n < |attempts| && !attempts[n].grace && forall i :: 0 <= i < n ==> !attempts[i].takes
  }

  /** Once the id of a refused OPEN is taken, every attempt is answered with that refusal, in the grace period or
      out of it. */
  lemma {:induction false} RefusedForGood(o: OwnerMemory, m: Compound, attempts: seq<Attempt>, result: u32)
    requires OwnerId(m).Some? && o == OwnerMemory(Known(m), 10013)
    ensures Attempted(o, m, attempts, result) == Answer(o, 10013, false)
    decreases |attempts|
  {
    hide OwnerId;
    if attempts != [] { RefusedForGood(o, m, attempts[1..], result); }
  }

  /** Exactly: an OPEN with a new id is run if and only if the grace period ends before the server has taken the id
      of an attempt that it refused.  Otherwise it is still refused, however many attempts there are. */
  lemma {:induction false} GraceIff(o: OwnerMemory, m: Compound, attempts: seq<Attempt>, result: u32)
    requires OwnerId(m).Some? && HasId(o.owner) && Admit(o.owner, m).Accepted? && result != 10013
    ensures var a := Attempted(o, m, attempts, result);
            && (a.ran <==> OutOfGrace(attempts))
            && (a.ran ==> a.status == result && a.memory == OwnerMemory(Known(m), result))
            && (!a.ran ==> a.status == 10013)
    decreases |attempts|
  {
    hide OwnerId, Admit;
    if attempts != [] {
      GraceStep(attempts);
      var a := attempts[0];
      if a.grace && a.takes {
        RefusedForGood(OwnerMemory(Known(m), 10013), m, attempts[1..], result);
      } else if a.grace {
        GraceIff(o, m, attempts[1..], result);
      }
    }
  }

  lemma GraceStep(attempts: seq<Attempt>)
    requires attempts != []
    ensures OutOfGrace(attempts) <==> !attempts[0].grace || (!attempts[0].takes && OutOfGrace(attempts[1..]))
  {
    var others := attempts[1..];
    if OutOfGrace(attempts) && attempts[0].grace {
      var n :| 0 <= n < |attempts| && !attempts[n].grace && forall i :: 0 <= i < n ==> !attempts[i].takes;
      assert others[n - 1] == attempts[n];
    }
    if !attempts[0].takes && OutOfGrace(others) {
      var n :| 0 <= n < |others| && !others[n].grace && forall i :: 0 <= i < n ==> !others[i].takes;
      assert attempts[n + 1] == others[n];
    }
  }
}
