/** Directory listings in pages, the loop that the v3 and v4 clients share: ask with the cookie of the last
    entry seen and the verifier of the last page, until a page says it is the last. */
module Paging {
  import opened Wire
  import opened Rpc
  import opened Transport

  datatype Page<+E> = Page(entries: seq<E>, verf: verifier4, eof: bool)
  datatype Cursor = Cursor(cookie: u64, verf: verifier4)

  const START := Cursor(0, [0, 0, 0, 0, 0, 0, 0, 0])

  function Advance<E>(cur: Cursor, p: Page<E>, cookieOf: E -> u64): Cursor {
    Cursor(if p.entries == [] then cur.cookie else cookieOf(p.entries[|p.entries| - 1]), p.verf)
  }

  /** Where the client stands after some pages: what its next request carries. */
  function After<E>(cur: Cursor, pages: seq<Page<E>>, cookieOf: E -> u64): Cursor
    decreases |pages|
  {
    if pages == [] then cur else After(Advance(cur, pages[0], cookieOf), pages[1..], cookieOf)
  }

  lemma {:induction false} AfterSnoc<E>(cur: Cursor, pages: seq<Page<E>>, p: Page<E>, cookieOf: E -> u64)
    ensures After(cur, pages + [p], cookieOf) == Advance(After(cur, pages, cookieOf), p, cookieOf)
    decreases |pages|
  {
    if pages == [] {
      assert pages + [p] == [p];
    } else {
      assert (pages + [p])[1..] == pages[1..] + [p];
      AfterSnoc(Advance(cur, pages[0], cookieOf), pages[1..], p, cookieOf);
    }
  }

  function Listed<E>(pages: seq<Page<E>>): seq<E> {
    if pages == [] then [] else pages[0].entries + Listed(pages[1..])
  }

  lemma {:induction false} ListedSnoc<E>(pages: seq<Page<E>>, p: Page<E>)
    ensures Listed(pages + [p]) == Listed(pages) + p.entries
  {
    if pages == [] {
      assert pages + [p] == [p];
    } else {
      assert (pages + [p])[1..] == pages[1..] + [p];
      ListedSnoc(pages[1..], p);
    }
  }

  /** Only the last page says that it is the last. */
  ghost predicate Finished<E>(pages: seq<Page<E>>) {
    pages != [] && pages[|pages| - 1].eof && forall i :: 0 <= i < |pages| - 1 ==> !pages[i].eof
  }

  /* ----- a run of the loop ----- */

  datatype Listing<+E> = Listing(conn: Conn, pages: seq<Page<E>>, outcome: Result<()>)

  function WithPages<E>(pages: seq<Page<E>>, l: Listing<E>): Listing<E> { l.(pages := pages + l.pages) }

  lemma WithPagesTwice<E>(a: seq<Page<E>>, b: seq<Page<E>>, l: Listing<E>)
    ensures WithPages(a, WithPages(b, l)) == WithPages(a + b, l)
    ensures WithPages([], l) == l
  {
    assert a + (b + l.pages) == a + b + l.pages && [] + l.pages == l.pages;
  }

  /** The cookies of the requests that led to `pages`, and of the next one. */
  function Cursors<E>(pages: seq<Page<E>>, n: nat, cookieOf: E -> u64): (r: seq<Cursor>)
    requires n <= |pages| + 1
    ensures |r| == n
  {
    seq(n, k requires 0 <= k < n => After(START, pages[..k], cookieOf))
  }

  lemma CursorsSnoc<E>(pages: seq<Page<E>>, p: Page<E>, cookieOf: E -> u64)
    ensures Cursors(pages, |pages| + 1, cookieOf) == Cursors(pages, |pages|, cookieOf) + [After(START, pages, cookieOf)]
    ensures Cursors(pages + [p], |pages| + 1, cookieOf) == Cursors(pages, |pages| + 1, cookieOf)
  {
    hide After;
    assert pages[..|pages|] == pages;
    forall k | 0 <= k <= |pages| ensures (pages + [p])[..k] == pages[..k] {}
  }

  /** How many requests a listing took: one per page, and one for the failure if there was one. */
  function Asked<E>(l: Listing<E>): nat { |l.pages| + (if l.outcome.Failure? then 1 else 0) }

  /** The cursors of all requests of a listing. */
  function AllCursors<E>(l: Listing<E>, cookieOf: E -> u64): seq<Cursor> { Cursors(l.pages, Asked(l), cookieOf) }

  function Outcome<E>(l: Listing<E>): Result<seq<E>> {
    match l.outcome
    case Success(_) => Success(Listed(l.pages))
    case Failure(e) => Failure(e)
  }

  /** The body of the loop: every entry is kept, and the cookie is that of the last one. */
  method Collect<E>(all: seq<E>, cur: Cursor, p: Page<E>, cookieOf: E -> u64) returns (r: seq<E>, cur': Cursor)
    ensures r == all + p.entries && cur' == Advance(cur, p, cookieOf)
  {
    var cookie := cur.cookie;
    r := all;
    for i := 0 to |p.entries|
      invariant r == all + p.entries[..i]
      invariant cookie == if i == 0 then cur.cookie else cookieOf(p.entries[i - 1])
    {
      cookie := cookieOf(p.entries[i]);
      r := r + [p.entries[i]];
    }
    cur' := Cursor(cookie, p.verf);
  }

  /** All the requests of one listing: `request(n, cur)` is the `n`-th, sent with the cursor `cur`. */
  function Fetch<E>(c: Conn, request: (nat, Cursor) -> Request, take: bytes -> Parsed<Page<E>>,
                    cookieOf: E -> u64, n: nat, cur: Cursor): Listing<E>
    decreases |c.link.incoming|
  {
    var (c', reply) := Exchange(c, request(n, cur));
    match reply
    case Failure(e) => Listing(c', [], Failure(e))
    case Success(b) =>
      match take(b)
      case Err(e) => Listing(c', [], Failure(e))
      case Ok(p, _) =>
        if p.eof then Listing(c', [p], Success(()))
        else WithPages([p], Fetch(c', request, take, cookieOf, n + 1, Advance(cur, p, cookieOf)))
  }

  /** What a request returns: the next reply, read by `take`. */
  function Query<T>(c: Conn, q: Request, take: bytes -> Parsed<T>): (Conn, Result<T>) {
    var (c', reply) := Exchange(c, q);
    (c', match reply case Success(b) => take(b).ToResult() case Failure(e) => Failure(e))
  }

  /** One turn of the loop. */
  lemma FetchTurn<E>(c: Conn, request: (nat, Cursor) -> Request, take: bytes -> Parsed<Page<E>>,
                     cookieOf: E -> u64, n: nat, cur: Cursor)
    ensures var (c', page) := Query(c, request(n, cur), take);
            && Fetch(c, request, take, cookieOf, n, cur) ==
               (match page
                case Failure(e) => Listing(c', [], Failure(e))
                case Success(p) =>
                  if p.eof then Listing(c', [p], Success(()))
                  else WithPages([p], Fetch(c', request, take, cookieOf, n + 1, Advance(cur, p, cookieOf))))
            && (page.Success? ==> |c'.link.incoming| < |c.link.incoming|)
  {
    hide Exchange, Advance;
  }

  lemma FetchFinishes<E>(c: Conn, request: (nat, Cursor) -> Request, take: bytes -> Parsed<Page<E>>,
                         cookieOf: E -> u64, n: nat, cur: Cursor)
    ensures var l := Fetch(c, request, take, cookieOf, n, cur);
            && (l.outcome.Success? ==> Finished(l.pages))
            && (l.outcome.Failure? ==> forall i :: 0 <= i < |l.pages| ==> !l.pages[i].eof)
    decreases |c.link.incoming|
  {
    hide Exchange;
    var (c', reply) := Exchange(c, request(n, cur));
    if reply.Success? && take(reply.value).Ok? && !take(reply.value).value.eof {
      FetchFinishes(c', request, take, cookieOf, n + 1, Advance(cur, take(reply.value).value, cookieOf));
    }
  }

  /* ----- a server that holds a list and may cut it anywhere ----- */

  ghost predicate DistinctCookies<E>(list: seq<E>, cookieOf: E -> u64) {
    && (forall i :: 0 <= i < |list| ==> cookieOf(list[i]) != 0)
    && (forall i, j :: 0 <= i < j < |list| ==> cookieOf(list[i]) != cookieOf(list[j]))
  }

  /** The position in the list that a cookie stands for. */
  ghost predicate Stands<E>(list: seq<E>, cookieOf: E -> u64, cookie: u64, i: int) {
    0 <= i <= |list| && cookie == if i == 0 then 0 else cookieOf(list[i - 1])
  }

  ghost predicate Slice<E>(list: seq<E>, i: int, j: int, p: Page<E>) {
    0 <= i <= j <= |list| && p.entries == list[i..j] && (if p.eof then j == |list| else i < j)
  }

  /** The page is any stretch of the list right behind the cookie: up to the end if it says it is the last,
      and not empty otherwise. */
  ghost predicate Honest<E>(list: seq<E>, cookieOf: E -> u64, cookie: u64, p: Page<E>) {
    exists i, j :: Stands(list, cookieOf, cookie, i) && Slice(list, i, j, p)
  }

  /** A server takes a cookie only with the verifier that it gave for its list, and none for the start. */
  predicate Accepts(verf: verifier4, cur: Cursor) {
    if cur.cookie == 0 then cur.verf == [0, 0, 0, 0, 0, 0, 0, 0] else cur.verf == verf
  }

  /** If the server takes what it was sent, the page answers the cookie and has the verifier of the list. */
  ghost predicate AnswersCursor<E>(list: seq<E>, verf: verifier4, cookieOf: E -> u64, cur: Cursor, p: Page<E>) {
    Accepts(verf, cur) ==> Honest(list, cookieOf, cur.cookie, p) && p.verf == verf
  }

  /** Every page answers the cursor that the client sent for it. */
  ghost predicate AllHonest<E>(list: seq<E>, verf: verifier4, cookieOf: E -> u64, cur: Cursor, pages: seq<Page<E>>) {
    forall k :: 0 <= k < |pages| ==> AnswersCursor(list, verf, cookieOf, After(cur, pages[..k], cookieOf), pages[k])
  }

  /** Whatever the cuts, the listing is the whole list in order, each entry once. */
  lemma Complete<E>(list: seq<E>, verf: verifier4, cookieOf: E -> u64, pages: seq<Page<E>>)
    requires DistinctCookies(list, cookieOf) && AllHonest(list, verf, cookieOf, START, pages) && Finished(pages)
    ensures Listed(pages) == list
  {
    Covered(list, verf, cookieOf, START, 0, pages);
    assert list[0..] == list;
  }

  /** The loop ends: before the last page, every page brings something new. */
  lemma FewPages<E>(list: seq<E>, verf: verifier4, cookieOf: E -> u64, pages: seq<Page<E>>)
    requires DistinctCookies(list, cookieOf) && AllHonest(list, verf, cookieOf, START, pages)
    requires forall i :: 0 <= i < |pages| - 1 ==> !pages[i].eof
    ensures |pages| <= |list| + 1
  {
    Covered(list, verf, cookieOf, START, 0, pages);
  }

  lemma {:induction false} Covered<E>(list: seq<E>, verf: verifier4, cookieOf: E -> u64, cur: Cursor, pos: nat,
                                      pages: seq<Page<E>>)
    requires DistinctCookies(list, cookieOf) && AllHonest(list, verf, cookieOf, cur, pages) && Accepts(verf, cur)
    requires Stands(list, cookieOf, cur.cookie, pos) && pos <= |list|
    requires forall i :: 0 <= i < |pages| - 1 ==> !pages[i].eof
    ensures |pages| <= |list| - pos + 1
    ensures Finished(pages) ==> Listed(pages) == list[pos..]
    decreases |pages|
  {
    hide AllHonest, After, Accepts, DistinctCookies, Stands, Slice, Advance;
    if pages != [] {
      var p := pages[0];
      FirstHonest(list, verf, cookieOf, cur, pages);
      var j := PageEnd(list, verf, cookieOf, cur, pos, p);
      if |pages| > 1 {
        RestHonest(list, verf, cookieOf, cur, pages);
        Covered(list, verf, cookieOf, Advance(cur, p, cookieOf), j, pages[1..]);
        assert list[pos..] == list[pos..j] + list[j..];
      } else {
        assert Listed(pages) == p.entries + [] == p.entries;
      }
    }
  }

  /** A page goes on where the client stands, and the client goes on where it ends. */
  lemma PageEnd<E>(list: seq<E>, verf: verifier4, cookieOf: E -> u64, cur: Cursor, pos: nat, p: Page<E>) returns (j: nat)
    requires DistinctCookies(list, cookieOf) && Accepts(verf, cur) && Stands(list, cookieOf, cur.cookie, pos)
    requires AnswersCursor(list, verf, cookieOf, cur, p)
    ensures pos <= j <= |list| && p.entries == list[pos..j] && (if p.eof then j == |list| else pos < j)
    ensures !p.eof ==> var cur' := Advance(cur, p, cookieOf); Accepts(verf, cur') && Stands(list, cookieOf, cur'.cookie, j)
  {
    var i, end :| Stands(list, cookieOf, cur.cookie, i) && Slice(list, i, end, p);
    assert i == pos;
    j := end;
    if !p.eof { assert p.entries[|p.entries| - 1] == list[j - 1]; }
  }

  lemma RestHonest<E>(list: seq<E>, verf: verifier4, cookieOf: E -> u64, cur: Cursor, pages: seq<Page<E>>)
    requires AllHonest(list, verf, cookieOf, cur, pages) && pages != []
    ensures AllHonest(list, verf, cookieOf, Advance(cur, pages[0], cookieOf), pages[1..])
  {
    hide AnswersCursor;
    var cur' := Advance(cur, pages[0], cookieOf);
    forall k | 0 <= k < |pages| - 1
      ensures AnswersCursor(list, verf, cookieOf, After(cur', pages[1..][..k], cookieOf), pages[1..][k])
    {
      assert pages[..k + 1][1..] == pages[1..][..k];
      assert AnswersCursor(list, verf, cookieOf, After(cur, pages[..k + 1], cookieOf), pages[k + 1]);
    }
  }

  lemma FirstHonest<E>(list: seq<E>, verf: verifier4, cookieOf: E -> u64, cur: Cursor, pages: seq<Page<E>>)
    requires AllHonest(list, verf, cookieOf, cur, pages) && pages != []
    ensures AnswersCursor(list, verf, cookieOf, cur, pages[0])
  {
    hide AnswersCursor;
    assert After(cur, pages[..0], cookieOf) == cur;
  }

  /* ----- whole listings ----- */

  /** The requests that lead to the given pages. */
  function Requests<E>(request: (nat, Cursor) -> Request, cookieOf: E -> u64, n: nat, cur: Cursor,
                       pages: seq<Page<E>>): (r: seq<Request>)
    ensures |r| == |pages|
    decreases |pages|
  {
    if pages == [] then []
    else [request(n, cur)] + Requests(request, cookieOf, n + 1, Advance(cur, pages[0], cookieOf), pages[1..])
  }

  /** The requests of the loop carry the cursors that the pages lead to. */
  lemma {:induction false} RequestAt<E>(request: (nat, Cursor) -> Request, cookieOf: E -> u64, n: nat, cur: Cursor,
                                        pages: seq<Page<E>>, k: nat)
    requires k < |pages|
    ensures Requests(request, cookieOf, n, cur, pages)[k] == request(n + k, After(cur, pages[..k], cookieOf))
    decreases |pages|
  {
    hide Advance;
    if k > 0 {
      assert pages[..k][1..] == pages[1..][..k - 1];
      RequestAt(request, cookieOf, n + 1, Advance(cur, pages[0], cookieOf), pages[1..], k - 1);
    }
  }

  /** The record, whatever its fragments, is a good reply that holds the page. */
  ghost predicate Carries<E>(reply: seq<bytes>, take: bytes -> Parsed<Page<E>>, p: Page<E>) {
    var body := TakeReply(Joined(reply));
    body.Ok? && var b := take(body.value); b.Ok? && b.value == p
  }

  /** The connection takes the requests and then brings one reply for each page. */
  ghost predicate Answers<E>(l: Link, load: nat, take: bytes -> Parsed<Page<E>>, pages: seq<Page<E>>,
                             replies: seq<seq<bytes>>, k: bytes) {
    && (forall i :: 0 <= i < |replies| ==> Cut(replies[i]))
    && l.incoming == PutReplies(replies, k) && load <= l.capacity
    && |replies| == |pages| && forall i :: 0 <= i < |pages| ==> Carries(replies[i], take, pages[i])
  }

  lemma {:induction false} FetchAnswers<E>(c: Conn, request: (nat, Cursor) -> Request, take: bytes -> Parsed<Page<E>>,
                                           cookieOf: E -> u64, n: nat, cur: Cursor,
                                           pages: seq<Page<E>>, replies: seq<seq<bytes>>, k: bytes)
    requires Finished(pages) && Answers(c.link, Load(c, Requests(request, cookieOf, n, cur, pages)), take, pages, replies, k)
    ensures var l := Fetch(c, request, take, cookieOf, n, cur); l.pages == pages && l.outcome == Success(())
    decreases |pages|
  {
    hide PutCall, TakeReply, TakeRecord, PutFragments, Advance;
    assert Carries(replies[0], take, pages[0]);
    var q := request(n, cur);
    var c' := Exchange(c, q).0;
    assert Exchange(c, q).1.Success? && c'.link.incoming == PutReplies(replies[1..], k);
    if !pages[0].eof {
      var cur' := Advance(cur, pages[0], cookieOf);
      var qs := Requests(request, cookieOf, n + 1, cur', pages[1..]);
      assert ([q] + qs)[1..] == qs;
      LoadIgnoresLink(Conn(Next(c.xid), c.auth, c.link), qs, c'.link);
      assert Finished(pages[1..]) by { assert pages[|pages| - 1] == pages[1..][|pages| - 2]; }
      FetchAnswers(c', request, take, cookieOf, n + 1, cur', pages[1..], replies[1..], k);
    } else {
      assert |pages| == 1;
    }
  }

  /** A server that holds a list answers each request with any stretch of it behind the cookie it was sent, if the
      verifier is right, in records cut anyhow: the client then has the whole list, in order, each entry once. */
  lemma ListingComplete<E>(c: Conn, request: (nat, Cursor) -> Request, take: bytes -> Parsed<Page<E>>, cookieOf: E -> u64,
                           list: seq<E>, verf: verifier4, pages: seq<Page<E>>, replies: seq<seq<bytes>>, k: bytes)
    requires DistinctCookies(list, cookieOf) && AllHonest(list, verf, cookieOf, START, pages) && Finished(pages)
    requires Answers(c.link, Load(c, Requests(request, cookieOf, 0, START, pages)), take, pages, replies, k)
    ensures var l := Fetch(c, request, take, cookieOf, 0, START);
            Outcome(l) == Success(list) && |l.pages| <= |list| + 1
  {
    hide Fetch, AllHonest, DistinctCookies, Answers, Load, Requests;
    FetchAnswers(c, request, take, cookieOf, 0, START, pages, replies, k);
    Complete(list, verf, cookieOf, pages);
    FewPages(list, verf, cookieOf, pages);
  }
}
