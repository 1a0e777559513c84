/** Calls of lookup, readdir and remove that a v4.0 client makes one after the other, and what they return if the
    server reads each request off the connection, runs it on its tree and answers. */
module Steps {
  import opened Wire
  import opened Rpc
  import opened Transport
  import opened Ops
  import opened OpResults
  import opened Paging
  import opened Bitmap
  import opened Compounds
  import opened Client40
  import opened FileTrees
  import opened Objects
  import opened Namespace
  import opened Replies
  import opened WholeStack

  datatype Step = ToFind(dir: bytes, name: bytes) | ToList(dir: bytes) | ToRemove(dir: bytes, name: bytes)

  /* ----- what the client does ----- */

  function AskLookup(c: Conn, dir: bytes, name: bytes): (Conn, Result<bytes>) {
    Ask(c, Request40(LookupOps(dir, name)), TakeLookupReply)
  }

  function AskRemove(c: Conn, dir: bytes, name: bytes): (Conn, Result<()>) {
    Ask(c, Request40(RemoveOps(dir, name)), TakeRemoveReply)
  }

  function ConnAfter(c: Conn, s: Step): Conn {
    match s
    case ToFind(dir, name) => AskLookup(c, dir, name).0
    case ToList(dir) => FetchDir(c, dir, 0, START).conn
    case ToRemove(dir, name) => AskRemove(c, dir, name).0
  }

  /** The requests of a step. */
  function Sends(c: Conn, s: Step): seq<Compound> {
    match s
    case ToFind(dir, name) => [Request40(LookupOps(dir, name))]
    case ToList(dir) => ReadDirLog(dir, AllCursors(FetchDir(c, dir, 0, START), CookieOf))
    case ToRemove(dir, name) => [Request40(RemoveOps(dir, name))]
  }

  function ConnAfterAll(c: Conn, log: seq<Step>): Conn
    decreases |log|
  {
    if log == [] then c else ConnAfterAll(ConnAfter(c, log[0]), log[1..])
  }

  function SendsAll(c: Conn, log: seq<Step>): seq<Compound>
    decreases |log|
  {
    if log == [] then [] else Sends(c, log[0]) + SendsAll(ConnAfter(c, log[0]), log[1..])
  }

  /** These steps, and nothing else, were made. */
  ghost predicate Did(c: Conn, c': Conn, issued: seq<Compound>, issued': seq<Compound>, log: seq<Step>) {
    c' == ConnAfterAll(c, log) && issued' == issued + SendsAll(c, log)
  }

  lemma {:induction false} FetchShrinks(c: Conn, dir: bytes, n: nat, cur: Cursor)
    ensures |FetchDir(c, dir, n, cur).conn.link.incoming| <= |c.link.incoming|
    decreases |c.link.incoming|
  {
    hide FetchDir, Exchange, PutCompound, TakeReadDirReply, Advance, ReadDirRequest;
    FetchStep(c, dir, n, cur);
    var (c', page) := Ask(c, ReadDirRequest(dir, cur), TakeReadDirReply);
    if page.Success? && !page.value.eof { FetchShrinks(c', dir, n + 1, Advance(cur, page.value, CookieOf)); }
  }

  /** A connection brings finitely many bytes, and every reply that is read takes some of them. */
  lemma StepShrinks(c: Conn, s: Step)
    ensures |ConnAfter(c, s).link.incoming| <= |c.link.incoming|
    ensures s.ToFind? && AskLookup(c, s.dir, s.name).1.Success? ==> |ConnAfter(c, s).link.incoming| < |c.link.incoming|
  {
    hide FetchDir, Exchange, PutCompound, TakeLookupReply, TakeRemoveReply, LookupOps, RemoveOps;
    if s.ToList? { FetchShrinks(c, s.dir, 0, START); }
  }

  /* ----- what the server does ----- */

  /** A lookup and a remove leave the server no choice. */
  const NO_SPARE := Spare([], map[], NoState(), false, 0, 0, 0)

  /** The server parses what the client sends for a call, runs it on the tree, and answers in one record, cut
      anyhow. */
  ghost predicate AnswersCall(c: Conn, fs: Fs, call: FsCall, x: Trimmings, reply: seq<bytes>, k: bytes) {
    var ms := [Request40(OpsOf(call))];
    && AllSmall(MessagesOf(CallsOf(c, RequestsOf(ms))))
    && Brings(c.link, Load(c, RequestsOf(ms)), [reply], k)
    && |Received(c, ms)| == 1
    && AnswersRun(Received(c, ms)[0], call, RunRequest(fs, Received(c, ms)[0], NO_SPARE), x, reply)
  }

  /** The requests of a listing that ends with the last of `pages`. */
  function ListRequests(dir: bytes, pages: seq<Page<DirEntry4>>): (r: seq<Compound>)
    ensures |r| == |pages|
  {
    ReadDirLog(dir, Cursors(pages, |pages|, CookieOf))
  }

  /** The page answers the cursor that was read in the request, with the attributes that were asked for. */
  ghost predicate AnswersRead(m: Compound, es: seq<ServerEntry>, verf: verifier4, p: Page<DirEntry4>) {
    && m.minor == 0 && |m.ops| == 2 && m.ops[1].ReadDir?
    && AnswersCursor(Shown(es, m.ops[1].request), verf, CookieOf, Cursor(m.ops[1].cookie, m.ops[1].verf), p)
  }

  /** The server parses what the client sends for a listing, and answers with pages of a description of the
      directory, cut anywhere behind the cookies that it has read. */
  ghost predicate Pages(c: Conn, dir: bytes, fs: Fs, untyped: set<bytes>, d: bytes, es: seq<ServerEntry>, verf: verifier4,
                        pages: seq<Page<DirEntry4>>, replies: seq<seq<bytes>>, k: bytes) {
    var ms := ListRequests(dir, pages);
    && AllSmall(MessagesOf(CallsOf(c, RequestsOf(ms)))) && |Received(c, ms)| == |pages|
    && Describes(fs, untyped, d, es) && DistinctCookies(ShownByDefault(es), CookieOf) && Finished(pages)
    && (forall i :: 0 <= i < |pages| ==> AnswersRead(Received(c, ms)[i], es, verf, pages[i]))
    && Answers(c.link, Load(c, RequestsOf(ms)), TakeReadDirReply, pages, replies, k)
  }

  /** The server parses the first READDIR, runs it, and answers with the error that it ends with. */
  ghost predicate Refuses(c: Conn, dir: bytes, fs: Fs, x: Trimmings, reply: seq<bytes>, k: bytes) {
    var ms := [ReadDirRequest(dir, START)];
    && AllSmall(MessagesOf(CallsOf(c, RequestsOf(ms)))) && |Received(c, ms)| == 1
    && Brings(c.link, Load(c, RequestsOf(ms)), [reply], k)
    && var body := PutReplyHeader(RunRequest(fs, Received(c, ms)[0], NO_SPARE).status, x.tag, x.n, x.rest);
       |x.verifier| < TWO_32 && |body| < TWO_32 && Joined(reply) == PutReply(x.xid, x.flavor, x.verifier, body)
  }

  ghost predicate ServedCall(c: Conn, fs: Fs, call: FsCall) { exists x, reply, k :: AnswersCall(c, fs, call, x, reply, k) }

  /** A directory is listed in pages, and READDIR of anything else is refused. */
  ghost predicate ServedList(c: Conn, dir: bytes, fs: Fs, untyped: set<bytes>) {
    if Listable(fs, dir)
    then exists es, verf, pages, replies, k ::
           Pages(c, dir, fs, untyped, Resolve(fs, dir).value, es, verf, pages, replies, k)
    else exists x, reply, k :: Refuses(c, dir, fs, x, reply, k)
  }

  predicate Listable(fs: Fs, dir: bytes) {
    var d := Resolve(fs, dir);
    d.Good? && IsDir(fs, d.value)
  }

  ghost predicate Served(c: Conn, fs: Fs, untyped: set<bytes>, s: Step) {
    match s
    case ToFind(dir, name) => ServedCall(c, fs, Find(dir, name))
    case ToRemove(dir, name) => ServedCall(c, fs, Unlink(dir, name))
    case ToList(dir) => ServedList(c, dir, fs, untyped)
  }

  ghost function TreeNext(fs: Fs, s: Step): Fs {
    if s.ToRemove? then TreeAfter(fs, Unlink(s.dir, s.name), NO_SPARE) else fs
  }

  ghost function TreeAfterAll(fs: Fs, log: seq<Step>): Fs
    decreases |log|
  {
    if log == [] then fs else TreeAfterAll(TreeNext(fs, log[0]), log[1..])
  }

  /** Every step is served, on the tree that the steps before it left. */
  ghost predicate AllServed(c: Conn, fs: Fs, untyped: set<bytes>, log: seq<Step>)
    decreases |log|
  {
    log != [] ==>
      Served(c, fs, untyped, log[0]) && AllServed(ConnAfter(c, log[0]), TreeNext(fs, log[0]), untyped, log[1..])
  }

  /** First some steps and then some more. */
  lemma {:induction false} InTurn(c: Conn, fs: Fs, untyped: set<bytes>, a: seq<Step>, b: seq<Step>)
    ensures ConnAfterAll(c, a + b) == ConnAfterAll(ConnAfterAll(c, a), b)
    ensures SendsAll(c, a + b) == SendsAll(c, a) + SendsAll(ConnAfterAll(c, a), b)
    ensures TreeAfterAll(fs, a + b) == TreeAfterAll(TreeAfterAll(fs, a), b)
    ensures AllServed(c, fs, untyped, a + b) <==>
            AllServed(c, fs, untyped, a) && AllServed(ConnAfterAll(c, a), TreeAfterAll(fs, a), untyped, b)
    decreases |a|
  {
    hide ConnAfter, Sends, Served, TreeNext;
    if a == [] {
      assert a + b == b;
    } else {
      assert (a + b)[1..] == a[1..] + b;
      InTurn(ConnAfter(c, a[0]), TreeNext(fs, a[0]), untyped, a[1..], b);
    }
  }

  lemma OneStep(c: Conn, fs: Fs, untyped: set<bytes>, s: Step)
    ensures ConnAfterAll(c, [s]) == ConnAfter(c, s) && SendsAll(c, [s]) == Sends(c, s)
    ensures TreeAfterAll(fs, [s]) == TreeNext(fs, s)
    ensures AllServed(c, fs, untyped, [s]) <==> Served(c, fs, untyped, s)
  {
    hide ConnAfter, Sends, Served, TreeNext;
    assert [s][1..] == [];
    assert AllServed(ConnAfter(c, s), TreeNext(fs, s), untyped, []);
  }

  /* ----- what the client is told ----- */

  /** The reply to a single request is the body of the record that the connection brings. */
  lemma OneReply(c: Conn, q: Request, reply: seq<bytes>, k: bytes)
    requires Brings(c.link, Load(c, [q]), [reply], k)
    ensures Exchange(c, q).1 == TakeReply(Joined(reply)).ToResult()
  {
    hide Exchange, Joined, TakeReply, PutCall;
    RecordsInOrder(c, [q], [reply], k);
    assert Results(c, [q])[0] == Exchange(c, q).1;
    assert Bodies([reply])[0] == TakeReply(Joined(reply)).ToResult();
  }

  /** What the server has read is the request of the call. */
  lemma CallRead(c: Conn, fs: Fs, call: FsCall, x: Trimmings, reply: seq<bytes>, k: bytes)
    requires AnswersCall(c, fs, call, x, reply, k)
    ensures var m := Request40(OpsOf(call));
            && AnswersRun(m, call, RunRequest(fs, m, NO_SPARE), x, reply)
            && Brings(c.link, Load(c, [NfsRequest(PutCompound(m))]), [reply], k)
  {
    hide OpsOf, RunRequest, AnswersRun, PutCompound, Received, Load, CallsOf, MessagesOf, Brings;
    var m := Request40(OpsOf(call));
    ReceivedIsSent(c, [m]);
    assert RequestsOf([m]) == [NfsRequest(PutCompound(m))];
  }

  lemma ReplyTells(c: Conn, fs: Fs, call: FsCall, x: Trimmings, reply: seq<bytes>, k: bytes)
    requires AnswersCall(c, fs, call, x, reply, k) && (call.Find? || call.Unlink?)
    ensures WholeStack.Asked(c, Request40(OpsOf(call)), call).1 == AsTold(Wanted(fs, call, NO_SPARE))
  {
    hide OpsOf, RunRequest, Wanted, AnswersRun, AnswersCall, AsTold, PutCompound, Load, Exchange, ReadBy, Asks, InV41, Brings;
    hide Joined, TakeReply;
    var m := Request40(OpsOf(call));
    CallRead(c, fs, call, x, reply, k);
    NoSequence(call);
    OneReply(c, NfsRequest(PutCompound(m)), reply, k);
    OneReturns(fs, m, call, NO_SPARE, x, reply);
  }

  lemma NoSequence(call: FsCall)
    requires call.Find? || call.Unlink?
    ensures var m := Request40(OpsOf(call)); !InV41(m) && Asks(m, call)
  {
  }

  lemma CallTells(c: Conn, fs: Fs, call: FsCall)
    requires ServedCall(c, fs, call) && (call.Find? || call.Unlink?)
    ensures WholeStack.Asked(c, Request40(OpsOf(call)), call).1 == AsTold(Wanted(fs, call, NO_SPARE))
  {
    hide AnswersCall, WholeStack.Asked, AsTold, Wanted, OpsOf;
    var x, reply, k :| AnswersCall(c, fs, call, x, reply, k);
    ReplyTells(c, fs, call, x, reply, k);
  }

  lemma OpsAre(dir: bytes, name: bytes)
    ensures OpsOf(Find(dir, name)) == LookupOps(dir, name) && OpsOf(Unlink(dir, name)) == RemoveOps(dir, name)
  {
    hide LookupOps, RemoveOps;
  }

  lemma FindAsks(c: Conn, dir: bytes, name: bytes)
    ensures WholeStack.Asked(c, Request40(OpsOf(Find(dir, name))), Find(dir, name)).1
            == WholeStack.Mapped(AskLookup(c, dir, name).1, Handle)
  {
    hide Ask, WholeStack.Asked, LookupOps, TakeLookupReply, InV41, OpsOf, Asks;
    NoSequence(Find(dir, name));
    OpsAre(dir, name);
    AskIs(c, Request40(LookupOps(dir, name)), Find(dir, name), TakeLookupReply, Handle);
  }

  lemma UnlinkAsks(c: Conn, dir: bytes, name: bytes)
    ensures WholeStack.Asked(c, Request40(OpsOf(Unlink(dir, name))), Unlink(dir, name)).1
            == WholeStack.Mapped(AskRemove(c, dir, name).1, Nothing)
  {
    hide Ask, WholeStack.Asked, RemoveOps, TakeRemoveReply, InV41, OpsOf, Asks;
    NoSequence(Unlink(dir, name));
    OpsAre(dir, name);
    AskIs(c, Request40(RemoveOps(dir, name)), Unlink(dir, name), TakeRemoveReply, Nothing);
  }

  /** What a lookup is wanted to return. */
  function FoundResult(fs: Fs, dir: bytes, name: bytes): Result<bytes> {
    var found := FoundAt(fs, dir, name);
    if found.Good? then Success(found.value) else Failure(Status(found.code))
  }

  /** A lookup that is served returns the handle of the object, or the error of the machine. */
  lemma LookupTells(c: Conn, fs: Fs, untyped: set<bytes>, dir: bytes, name: bytes)
    requires Served(c, fs, untyped, ToFind(dir, name))
    ensures AskLookup(c, dir, name).1 == FoundResult(fs, dir, name)
  {
    hide ServedCall, WholeStack.Asked, AskLookup, FoundAt, OpsOf;
    CallTells(c, fs, Find(dir, name));
    FindAsks(c, dir, name);
  }

  /** A remove that is served succeeds or fails as wanted; a directory that holds something is refused. */
  lemma RemoveTells(c: Conn, fs: Fs, untyped: set<bytes>, dir: bytes, name: bytes)
    requires Served(c, fs, untyped, ToRemove(dir, name))
    ensures var w := Wanted(fs, Unlink(dir, name), NO_SPARE);
            && AskRemove(c, dir, name).1 == (if w.Good? then Success(()) else Failure(Status(w.code)))
            && TreeNext(fs, ToRemove(dir, name)) == if w.Good? then w.value.fs else fs
  {
    hide ServedCall, WholeStack.Asked, AskRemove, OpsOf, Wanted;
    CallTells(c, fs, Unlink(dir, name));
    UnlinkAsks(c, dir, name);
    NoHandle(fs, dir, name);
    var r := AskRemove(c, dir, name).1;
    if r.Success? { assert r.value == (); }
  }

  lemma NoHandle(fs: Fs, dir: bytes, name: bytes)
    ensures var w := Wanted(fs, Unlink(dir, name), NO_SPARE); w.Good? ==> w.value.handle == None && w.value.said == Silent
  {
    hide Resolve, RemoveAt;
  }

  function ListError(fs: Fs, dir: bytes): u32 {
    var d := Resolve(fs, dir);
    if d.Bad? then d.code else NFS4ERR_NOTDIR
  }

  /** A listing of the directory, or the error of READDIR if it is none. */
  ghost predicate IsListing(fs: Fs, untyped: set<bytes>, dir: bytes, r: Result<seq<DirEntry4>>) {
    if Listable(fs, dir) then r.Success? && Lists(fs, untyped, Resolve(fs, dir).value, r.value)
    else r == Failure(Status(ListError(fs, dir)))
  }

  lemma RefusalTells(c: Conn, dir: bytes, fs: Fs, x: Trimmings, reply: seq<bytes>, k: bytes)
    requires Refuses(c, dir, fs, x, reply, k) && !Listable(fs, dir)
    ensures Outcome(FetchDir(c, dir, 0, START)) == Failure(Status(ListError(fs, dir)))
  {
    hide Exchange, PutCompound, TakeFront, TakeReadDir, Load, Run, Resolve, PutReplyHeader, PutReply, FetchDir, TakeReply, Joined;
    hide Received, CallsOf, MessagesOf;
    var m := ReadDirRequest(dir, START);
    ReceivedIsSent(c, [m]);
    assert RequestsOf([m]) == [NfsRequest(PutCompound(m))];
    var status := RunRequest(fs, m, NO_SPARE).status;
    assert !InV41(m);
    ReadDirRuns(fs, dir, 0, START.verf, NO_SPARE);
    OneReply(c, NfsRequest(PutCompound(m)), reply, k);
    Client40.FetchStep(c, dir, 0, START);
    FailedReplyRead(status, x.tag, x.n, x.rest);
  }

  lemma SameRequests(dir: bytes, pages: seq<Page<DirEntry4>>)
    ensures RequestsOf(ListRequests(dir, pages)) == Requests(ReadDirRequests(dir), CookieOf, 0, START, pages)
  {
    hide PutCompound, ReadDirRequest, After, Requests;
    forall k | 0 <= k < |pages|
      ensures RequestsOf(ListRequests(dir, pages))[k] == Requests(ReadDirRequests(dir), CookieOf, 0, START, pages)[k]
    {
      RequestAt(ReadDirRequests(dir), CookieOf, 0, START, pages, k);
    }
  }

  /** Each request of a listing asks for at most 4096 bytes of names and 32768 bytes in all, from where the pages led. */
  lemma CursorSent(dir: bytes, pages: seq<Page<DirEntry4>>, k: nat)
    requires k < |pages|
    ensures var m := ListRequests(dir, pages)[k];
            && |m.ops| == 2 && m.ops[1].ReadDir? && m.ops[1].request == BitmapOf(READDIR_IDS)
            && m.ops[1].dircount == 4096 && m.ops[1].maxcount == 32768
            && Cursor(m.ops[1].cookie, m.ops[1].verf) == After(START, pages[..k], CookieOf)
  {
    hide After, FhOp, BitmapOf;
  }

  lemma PagesTell(c: Conn, dir: bytes, fs: Fs, untyped: set<bytes>, d: bytes, es: seq<ServerEntry>, verf: verifier4,
                  pages: seq<Page<DirEntry4>>, replies: seq<seq<bytes>>, k: bytes)
    requires Pages(c, dir, fs, untyped, d, es, verf, pages, replies, k)
    ensures Outcome(FetchDir(c, dir, 0, START)) == Success(ShownByDefault(es)) && Lists(fs, untyped, d, ShownByDefault(es))
  {
    hide Describes, Lists, DistinctCookies, Answers, FetchDir, Finished, Load, Requests, TakeReadDirReply, Received;
    hide ListRequests, MessagesOf, CallsOf, RequestsOf, Shown, AnswersCursor, After, BitmapOf;
    ReceivedIsSent(c, ListRequests(dir, pages));
    SameRequests(dir, pages);
    forall i | 0 <= i < |pages|
      ensures AnswersCursor(ShownByDefault(es), verf, CookieOf, After(START, pages[..i], CookieOf), pages[i])
    {
      CursorSent(dir, pages, i);
      assert AnswersRead(Received(c, ListRequests(dir, pages))[i], es, verf, pages[i]);
    }
    ReadDirLists(c, dir, fs, untyped, d, es, verf, pages, replies, k);
  }

  /** A listing that is served is one of the directory, or fails as READDIR of the machine. */
  lemma ReadDirTells(c: Conn, fs: Fs, untyped: set<bytes>, dir: bytes)
    requires Served(c, fs, untyped, ToList(dir))
    ensures IsListing(fs, untyped, dir, Outcome(FetchDir(c, dir, 0, START)))
  {
    hide Pages, Refuses, Lists, FetchDir, Outcome, Resolve, ListError;
    if Listable(fs, dir) {
      var es, verf, pages, replies, k :| Pages(c, dir, fs, untyped, Resolve(fs, dir).value, es, verf, pages, replies, k);
      PagesTell(c, dir, fs, untyped, Resolve(fs, dir).value, es, verf, pages, replies, k);
    } else {
      var x, reply, k :| Refuses(c, dir, fs, x, reply, k);
      RefusalTells(c, dir, fs, x, reply, k);
    }
  }

  /* ----- one more call of the client ----- */

  /** What has been done since the connection was `c` and `issued` the log of the client. */
  datatype Before = Before(c: Conn, issued: seq<Compound>, fs: Fs, untyped: set<bytes>)

  ghost predicate Since(s: Before, c: Conn, issued: seq<Compound>, log: seq<Step>) {
    Did(s.c, c, s.issued, issued, log)
  }

  ghost predicate Fair(s: Before, log: seq<Step>) { AllServed(s.c, s.fs, s.untyped, log) }

  ghost function Tree(s: Before, log: seq<Step>): Fs { TreeAfterAll(s.fs, log) }

  /** How much the connection still brings. */
  function Left(c: Conn): nat { |c.link.incoming| }

  lemma NothingDone(s: Before)
    ensures Since(s, s.c, s.issued, []) && Tree(s, []) == s.fs && Fair(s, [])
  {
    assert s.issued + [] == s.issued;
  }

  lemma OneMore(s: Before, c: Conn, issued: seq<Compound>, log: seq<Step>, step: Step)
    requires Since(s, c, issued, log)
    ensures Since(s, ConnAfter(c, step), issued + Sends(c, step), log + [step])
    ensures Tree(s, log + [step]) == TreeNext(Tree(s, log), step)
    ensures Fair(s, log + [step]) <==> Fair(s, log) && Served(c, Tree(s, log), s.untyped, step)
  {
    hide ConnAfterAll, SendsAll, TreeAfterAll, AllServed, ConnAfter, Sends, TreeNext, Served;
    InTurn(s.c, s.fs, s.untyped, log, [step]);
    OneStep(c, Tree(s, log), s.untyped, step);
    assert s.issued + SendsAll(s.c, log) + Sends(c, step) == s.issued + (SendsAll(s.c, log) + Sends(c, step));
  }

  lemma SomeMore(s: Before, c: Conn, issued: seq<Compound>, log: seq<Step>, c': Conn, issued': seq<Compound>, more: seq<Step>)
    requires Since(s, c, issued, log) && Since(Before(c, issued, Tree(s, log), s.untyped), c', issued', more)
    ensures Since(s, c', issued', log + more)
    ensures Tree(s, log + more) == Tree(Before(c, issued, Tree(s, log), s.untyped), more)
    ensures Fair(s, log + more) <==> Fair(s, log) && Fair(Before(c, issued, Tree(s, log), s.untyped), more)
  {
    hide ConnAfterAll, SendsAll, TreeAfterAll, AllServed;
    InTurn(s.c, s.fs, s.untyped, log, more);
    assert s.issued + SendsAll(s.c, log) + SendsAll(c, more) == s.issued + (SendsAll(s.c, log) + SendsAll(c, more));
  }

  lemma ThenLookup(s: Before, c: Conn, issued: seq<Compound>, log: seq<Step>, dir: bytes, name: bytes)
    requires Since(s, c, issued, log)
    ensures var step := ToFind(dir, name);
            var (c', r) := Ask(c, Request40(LookupOps(dir, name)), TakeLookupReply);
            && Since(s, c', issued + [Request40(LookupOps(dir, name))], log + [step])
            && Tree(s, log + [step]) == Tree(s, log)
            && Left(c') <= Left(c) && (r.Success? ==> Left(c') < Left(c))
            && (Fair(s, log + [step]) ==> Fair(s, log) && r == FoundResult(Tree(s, log), dir, name))
  {
    hide Since, Tree, Fair, Served, Ask, TakeLookupReply, LookupOps, FoundResult;
    var step := ToFind(dir, name);
    OneMore(s, c, issued, log, step);
    StepShrinks(c, step);
    if Fair(s, log + [step]) { LookupTells(c, Tree(s, log), s.untyped, dir, name); }
  }

  lemma ThenReadDir(s: Before, c: Conn, issued: seq<Compound>, log: seq<Step>, dir: bytes)
    requires Since(s, c, issued, log)
    ensures var step := ToList(dir);
            var l := FetchDir(c, dir, 0, START);
            && Since(s, l.conn, issued + ReadDirLog(dir, AllCursors(l, CookieOf)), log + [step])
            && Tree(s, log + [step]) == Tree(s, log) && Left(l.conn) <= Left(c)
            && (Fair(s, log + [step]) ==> Fair(s, log) && IsListing(Tree(s, log), s.untyped, dir, Outcome(l)))
  {
    hide Since, Tree, Fair, Served, FetchDir, Outcome, IsListing, ReadDirLog, AllCursors;
    var step := ToList(dir);
    OneMore(s, c, issued, log, step);
    StepShrinks(c, step);
    if Fair(s, log + [step]) { ReadDirTells(c, Tree(s, log), s.untyped, dir); }
  }

  /** The outcome of a remove, and the tree after it. */
  ghost predicate IsRemoval(fs: Fs, after: Fs, dir: bytes, name: bytes, r: Result<()>) {
    var w := Wanted(fs, Unlink(dir, name), NO_SPARE);
    if w.Good? then r == Success(()) && after == w.value.fs else r == Failure(Status(w.code)) && after == fs
  }

  lemma ThenRemove(s: Before, c: Conn, issued: seq<Compound>, log: seq<Step>, dir: bytes, name: bytes)
    requires Since(s, c, issued, log)
    ensures var step := ToRemove(dir, name);
            var (c', r) := Ask(c, Request40(RemoveOps(dir, name)), TakeRemoveReply);
            && Since(s, c', issued + [Request40(RemoveOps(dir, name))], log + [step])
            && Left(c') <= Left(c)
            && (Fair(s, log + [step]) ==> Fair(s, log) && IsRemoval(Tree(s, log), Tree(s, log + [step]), dir, name, r))
  {
    hide Since, Tree, Fair, Served, Ask, TakeRemoveReply, RemoveOps, Wanted, TreeNext;
    var step := ToRemove(dir, name);
    OneMore(s, c, issued, log, step);
    StepShrinks(c, step);
    if Fair(s, log + [step]) { RemoveTells(c, Tree(s, log), s.untyped, dir, name); }
  }
}
