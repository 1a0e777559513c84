/** Directory trees: objects named by handles, directories that map names to handles, and what makes such a
    collection a tree. */
module FileTrees {
  import opened Wire
  import opened Attributes
  import opened Ops

  type content = s: bytes | |s| < 0x1_0000_0000_0000_0000

  /** Every object has attributes; a file has contents and the positions of those not yet on stable storage. */
  datatype Node =
    | Dir(entries: map<bytes, bytes>, attrs: Attrs)
    | Link(target: bytes, attrs: Attrs)
    | File(data: content, loose: set<nat>, attrs: Attrs)

  /** What a state id stands for. */
  datatype OpenFile = OpenFile(fh: bytes, access: u32, clientid: u64, owner: bytes, confirmed: bool)

  /** The objects, the files that are open, the clients that are known, and the verifier of this life of the server. */
  datatype Fs = Fs(root: bytes, nodes: map<bytes, Node>, opens: map<Stateid4, OpenFile>, clients: set<u64>, boot: verifier4)

  const DOT: bytes := [46]
  const DOTDOT: bytes := [46, 46]

  predicate IsDots(name: bytes) { name == DOT || name == DOTDOT }

  predicate IsDir(fs: Fs, h: bytes) { h in fs.nodes && fs.nodes[h].Dir? }

  predicate Occupied(fs: Fs, h: bytes) { IsDir(fs, h) && fs.nodes[h].entries != map[] }

  function Names(fs: Fs, d: bytes): set<bytes> { if IsDir(fs, d) then fs.nodes[d].entries.Keys else {} }

  function Child(fs: Fs, d: bytes, name: bytes): Option<bytes> {
    if IsDir(fs, d) && name in fs.nodes[d].entries then Some(fs.nodes[d].entries[name]) else None
  }

  /* ----- what makes a tree ----- */

  /** The root is a directory and nobody's child, and every entry is the only one of its object. */
  ghost predicate Linked(fs: Fs) {
    && IsDir(fs, fs.root)
    && (forall d, n :: Child(fs, d, n).Some? ==> Child(fs, d, n).value in fs.nodes && Child(fs, d, n).value != fs.root)
    && (forall d, n, e, k :: Child(fs, d, n).Some? && Child(fs, d, n) == Child(fs, e, k) ==> d == e && n == k)
  }

  /** Every object but the root has an entry. */
  ghost predicate Rooted(fs: Fs) {
    forall h | h in fs.nodes && h != fs.root :: HasEntry(fs, h)
  }

  ghost predicate HasEntry(fs: Fs, h: bytes) { exists d, n :: Child(fs, d, n) == Some(h) }

  /** No handle is empty, which stands for the root, and no name is empty or made of dots. */
  ghost predicate Named(fs: Fs) {
    [] !in fs.nodes && forall d, n | Child(fs, d, n).Some? :: n != [] && !IsDots(n)
  }

  /** Objects have heights: what is in a directory is lower than the directory. */
  ghost predicate Ranked(fs: Fs, rank: map<bytes, nat>) {
    && fs.nodes.Keys <= rank.Keys
    && forall d, n | n in Names(fs, d) :: fs.nodes[d].entries[n] in rank && rank[fs.nodes[d].entries[n]] < rank[d]
  }

  ghost predicate Acyclic(fs: Fs) { exists rank :: Ranked(fs, rank) }

  /** A tree. */
  ghost predicate Sound(fs: Fs) { Linked(fs) && Rooted(fs) && Named(fs) && Acyclic(fs) }

  lemma RankedChild(fs: Fs, rank: map<bytes, nat>, d: bytes, n: bytes)
    requires Ranked(fs, rank) && Child(fs, d, n).Some?
    ensures d in rank && Child(fs, d, n).value in rank && rank[Child(fs, d, n).value] < rank[d]
  {
    assert n in Names(fs, d);
  }

  lemma RankedByChild(fs: Fs, rank: map<bytes, nat>)
    requires fs.nodes.Keys <= rank.Keys
    requires forall d, n | Child(fs, d, n).Some? ::
               d in rank && Child(fs, d, n).value in rank && rank[Child(fs, d, n).value] < rank[d]
    ensures Ranked(fs, rank)
  {
    forall d, n | n in Names(fs, d) ensures fs.nodes[d].entries[n] in rank && rank[fs.nodes[d].entries[n]] < rank[d] {
      assert Child(fs, d, n).Some?;
    }
  }

  /* ----- paths ----- */

  /** Where a list of names leads from an object. */
  function Follow(fs: Fs, h: bytes, path: seq<bytes>): Option<bytes>
    decreases |path|
  {
    if path == [] then Some(h)
    else
      var c := Child(fs, h, path[0]);
      if c.None? then None else Follow(fs, c.value, path[1..])
  }

  ghost predicate Below(fs: Fs, h: bytes, x: bytes) { exists path :: Follow(fs, h, path) == Some(x) }

  lemma {:induction false} FollowSnoc(fs: Fs, h: bytes, path: seq<bytes>, n: bytes)
    ensures Follow(fs, h, path + [n]) == (var x := Follow(fs, h, path); if x.None? then None else Child(fs, x.value, n))
    decreases |path|
  {
    hide Child;
    if path == [] {
      assert path + [n] == [n];
      var c := Child(fs, h, n);
      if c.Some? { assert Follow(fs, c.value, []) == c; }
    } else {
      assert (path + [n])[1..] == path[1..] + [n];
      var c := Child(fs, h, path[0]);
      if c.Some? { FollowSnoc(fs, c.value, path[1..], n); }
    }
  }

  lemma {:induction false} PathFromRoot(fs: Fs, rank: map<bytes, nat>, x: bytes)
    requires Sound(fs) && Ranked(fs, rank) && x in fs.nodes
    ensures Below(fs, fs.root, x)
    decreases |Higher(fs, rank, x)|
  {
    if x == fs.root {
      assert Follow(fs, fs.root, []) == Some(x);
    } else {
      assert HasEntry(fs, x);
      var d, n :| Child(fs, d, n) == Some(x);
      assert n in Names(fs, d) && d in fs.nodes;
      assert d in Higher(fs, rank, x) && d !in Higher(fs, rank, d) && Higher(fs, rank, d) <= Higher(fs, rank, x);
      Smaller(Higher(fs, rank, d), Higher(fs, rank, x));
      PathFromRoot(fs, rank, d);
      var path :| Follow(fs, fs.root, path) == Some(d);
      FollowSnoc(fs, fs.root, path, n);
    }
  }

  /** In a tree there is a path from the root to every object. */
  lemma AllReachable(fs: Fs)
    requires Sound(fs)
    ensures forall x <- fs.nodes :: Below(fs, fs.root, x)
  {
    hide Ranked, Below;
    var rank :| Ranked(fs, rank);
    forall x | x in fs.nodes ensures Below(fs, fs.root, x) { PathFromRoot(fs, rank, x); }
  }

  function Higher(fs: Fs, rank: map<bytes, nat>, x: bytes): set<bytes>
    requires fs.nodes.Keys <= rank.Keys && x in fs.nodes
  {
    set y | y in fs.nodes && rank[y] > rank[x]
  }

  lemma Smaller(a: set<bytes>, b: set<bytes>)
    requires a < b
    ensures |a| < |b|
  {
    assert b == a + (b - a);
  }

  /* ----- subtrees ----- */

  /** The object and everything below it.  What a symbolic link points to is not below it. */
  ghost function Sub(fs: Fs, rank: map<bytes, nat>, h: bytes): (r: set<bytes>)
    requires Ranked(fs, rank) && h in rank
    ensures h in r && forall x <- r :: x in rank && rank[x] <= rank[h]
    decreases rank[h]
  {
    {h} + set n, x | n in Names(fs, h) && x in Sub(fs, rank, fs.nodes[h].entries[n]) :: x
  }

  /** The same objects with the same contents, as far as the set goes. */
  ghost predicate SameOn(fs: Fs, fs': Fs, s: set<bytes>) {
    forall x <- s :: (x in fs.nodes <==> x in fs'.nodes) && (x in fs.nodes ==> fs.nodes[x] == fs'.nodes[x])
  }

  lemma {:induction false} SubSame(fs: Fs, fs': Fs, rank: map<bytes, nat>, h: bytes)
    requires Ranked(fs, rank) && Ranked(fs', rank) && h in rank && SameOn(fs, fs', Sub(fs, rank, h))
    ensures Sub(fs', rank, h) == Sub(fs, rank, h)
    decreases rank[h]
  {
    forall n | n in Names(fs, h) ensures Sub(fs', rank, fs.nodes[h].entries[n]) == Sub(fs, rank, fs.nodes[h].entries[n]) {
      SubSame(fs, fs', rank, fs.nodes[h].entries[n]);
    }
  }

  /** Whatever is below an object, and not the object, has its directory there too. */
  lemma {:induction false} ParentBelow(fs: Fs, rank: map<bytes, nat>, h: bytes, x: bytes) returns (d: bytes, n: bytes)
    requires Ranked(fs, rank) && h in rank && x in Sub(fs, rank, h) && x != h
    ensures d in Sub(fs, rank, h) && n in Names(fs, d) && fs.nodes[d].entries[n] == x
    decreases rank[h]
  {
    n :| n in Names(fs, h) && x in Sub(fs, rank, fs.nodes[h].entries[n]);
    var c := fs.nodes[h].entries[n];
    d := h;
    if x != c {
      d, n := ParentBelow(fs, rank, c, x);
      assert d in Sub(fs, rank, h);
    }
  }

  /** Two objects that have something below them in common lie one below the other. */
  lemma {:induction false} Comparable(fs: Fs, rank: map<bytes, nat>, a: bytes, b: bytes, x: bytes)
    requires Linked(fs) && Ranked(fs, rank) && a in rank && b in rank
    requires x in Sub(fs, rank, a) && x in Sub(fs, rank, b)
    ensures a in Sub(fs, rank, b) || b in Sub(fs, rank, a)
    decreases rank[a] - rank[x]
  {
    hide Sub, Linked;
    if x != a && x != b {
      var d, n := ParentBelow(fs, rank, a, x);
      var e, k := ParentBelow(fs, rank, b, x);
      OneParent(fs, d, n, e, k);
      Comparable(fs, rank, a, b, d);
    }
  }

  lemma SiblingsApart(fs: Fs, rank: map<bytes, nat>, h: bytes, m: bytes, n: bytes)
    requires Linked(fs) && Ranked(fs, rank) && m in Names(fs, h) && n in Names(fs, h) && m != n
    ensures Sub(fs, rank, fs.nodes[h].entries[m]) !! Sub(fs, rank, fs.nodes[h].entries[n])
  {
    var a, b := fs.nodes[h].entries[m], fs.nodes[h].entries[n];
    assert Child(fs, h, m) == Some(a) && Child(fs, h, n) == Some(b);
    if x :| x in Sub(fs, rank, a) && x in Sub(fs, rank, b) {
      Comparable(fs, rank, a, b, x);
      if a in Sub(fs, rank, b) { NotBelowSibling(fs, rank, h, n, m); } else { NotBelowSibling(fs, rank, h, m, n); }
    }
  }

  lemma NotBelowSibling(fs: Fs, rank: map<bytes, nat>, h: bytes, m: bytes, n: bytes)
    requires Linked(fs) && Ranked(fs, rank) && m in Names(fs, h) && n in Names(fs, h) && m != n
    ensures fs.nodes[h].entries[n] !in Sub(fs, rank, fs.nodes[h].entries[m])
  {
    var a, b := fs.nodes[h].entries[m], fs.nodes[h].entries[n];
    assert Child(fs, h, m) == Some(a) && Child(fs, h, n) == Some(b);
    if b in Sub(fs, rank, a) {
      var d, k := ParentBelow(fs, rank, a, b);
      OneParent(fs, d, k, h, n);
    }
  }

  lemma OneParent(fs: Fs, d: bytes, k: bytes, e: bytes, n: bytes)
    requires Linked(fs) && k in Names(fs, d) && n in Names(fs, e) && fs.nodes[d].entries[k] == fs.nodes[e].entries[n]
    ensures d == e && k == n
  {
    assert Child(fs, d, k) == Child(fs, e, n);
  }

  /** What is below an object is what a path leads to from it. */
  lemma SubIsBelow(fs: Fs, rank: map<bytes, nat>, h: bytes, x: bytes)
    requires Ranked(fs, rank) && h in rank
    ensures x in Sub(fs, rank, h) <==> Below(fs, h, x)
  {
    if x in Sub(fs, rank, h) { var path := PathTo(fs, rank, h, x); }
    if Below(fs, h, x) {
      var path :| Follow(fs, h, path) == Some(x);
      PathStaysBelow(fs, rank, h, path);
    }
  }

  lemma FollowCons(fs: Fs, h: bytes, n: bytes, path: seq<bytes>)
    requires n in Names(fs, h)
    ensures Follow(fs, h, [n] + path) == Follow(fs, fs.nodes[h].entries[n], path)
  {
    assert ([n] + path)[1..] == path;
  }

  lemma NextBelow(fs: Fs, rank: map<bytes, nat>, h: bytes, x: bytes) returns (n: bytes)
    requires Ranked(fs, rank) && h in rank && x in Sub(fs, rank, h) && x != h
    ensures n in Names(fs, h) && x in Sub(fs, rank, fs.nodes[h].entries[n])
  {
    n :| n in Names(fs, h) && x in Sub(fs, rank, fs.nodes[h].entries[n]);
  }

  lemma {:induction false} PathTo(fs: Fs, rank: map<bytes, nat>, h: bytes, x: bytes) returns (path: seq<bytes>)
    requires Ranked(fs, rank) && h in rank && x in Sub(fs, rank, h)
    ensures Follow(fs, h, path) == Some(x)
    decreases rank[h]
  {
    hide Sub;
    if x == h {
      path := [];
    } else {
      var n := NextBelow(fs, rank, h, x);
      path := PathTo(fs, rank, fs.nodes[h].entries[n], x);
      FollowCons(fs, h, n, path);
      path := [n] + path;
    }
  }

  lemma {:induction false} PathStaysBelow(fs: Fs, rank: map<bytes, nat>, h: bytes, path: seq<bytes>)
    requires Ranked(fs, rank) && h in rank && Follow(fs, h, path).Some?
    ensures Follow(fs, h, path).value in Sub(fs, rank, h)
    decreases |path|
  {
    if path != [] { PathStaysBelow(fs, rank, Child(fs, h, path[0]).value, path[1..]); }
  }

  /** The objects below another are closed under entries and, but for the topmost, under the way up. */
  lemma SubClosed(fs: Fs, rank: map<bytes, nat>, h: bytes, d: bytes, n: bytes)
    requires Linked(fs) && Ranked(fs, rank) && h in rank && n in Names(fs, d)
    ensures d in Sub(fs, rank, h) ==> fs.nodes[d].entries[n] in Sub(fs, rank, h)
    ensures fs.nodes[d].entries[n] in Sub(fs, rank, h) && fs.nodes[d].entries[n] != h ==> d in Sub(fs, rank, h)
  {
    var c := fs.nodes[d].entries[n];
    if d in Sub(fs, rank, h) {
      var path := PathTo(fs, rank, h, d);
      FollowSnoc(fs, h, path, n);
      PathStaysBelow(fs, rank, h, path + [n]);
    }
    if c in Sub(fs, rank, h) && c != h {
      var e, k := ParentBelow(fs, rank, h, c);
      OneParent(fs, d, n, e, k);
    }
  }
}
