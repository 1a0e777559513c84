/** Recursive removal of a directory over a connection, whose server holds the tree of `Namespace` and may list the
    entries of a directory in any order, in pages cut anywhere, with or without "." and "..", and leave out the type
    of some. */
module Removal {
  import opened Wire
  import opened Ops
  import opened OpResults
  import opened Client40
  import opened FileTrees
  import opened Objects
  import opened Namespace
  import opened WholeStack
  import opened Steps

  /** A tree, and heights that show it. */
  ghost predicate Plain(fs: Fs, rank: map<bytes, nat>) { Sound(fs) && Ranked(fs, rank) }

  lemma NameOk(fs: Fs, d: bytes, n: bytes)
    requires Sound(fs) && n in Names(fs, d)
    ensures n != [] && !IsDots(n) && fs.nodes[d].entries[n] in fs.nodes && d in fs.nodes
  {
    assert Child(fs, d, n).Some?;
  }

  /* ----- the removal ----- */

  /** Nothing strictly below `h` is a directory that holds something and whose type is not reported. */
  ghost predicate AllSeen(fs: Fs, untyped: set<bytes>, rank: map<bytes, nat>, h: bytes)
    requires Ranked(fs, rank) && h in rank
  {
    forall x <- Sub(fs, rank, h) - {h} :: x in untyped ==> !Occupied(fs, x)
  }

  /** The tree without some of its objects and without some entries of one directory. */
  function Without(fs: Fs, d: bytes, names: set<bytes>, gone: set<bytes>): Fs
    requires IsDir(fs, d)
  {
    fs.(nodes := (fs.nodes - gone)[d := fs.nodes[d].(entries := fs.nodes[d].entries - names)])
  }

  /** What is below the given entries of a directory. */
  ghost function SubOf(fs: Fs, rank: map<bytes, nat>, d: bytes, names: set<bytes>): set<bytes>
    requires Ranked(fs, rank) && names <= Names(fs, d)
  {
    set n, x | n in names && x in Sub(fs, rank, fs.nodes[d].entries[n]) :: x
  }

  /** The outcome of a removal: an error that changed nothing, a complete removal, or one that stopped inside the
      subtree. */
  ghost predicate Removes(before: Fs, after: Fs, untyped: set<bytes>, rank: map<bytes, nat>,
                          parent: bytes, name: bytes, r: Result<()>)
    requires Ranked(before, rank)
  {
    var target := FoundAt(before, parent, name);
    if target.Bad? then r == Failure(Status(target.code)) && after == before
    else
      var d, h := Resolve(before, parent).value, target.value;
      && h in rank && IsDir(before, d)
      && (r.Success? <==> IsDir(before, h) && AllSeen(before, untyped, rank, h))
      && (r.Success? ==> after == Without(before, d, {name}, Sub(before, rank, h)))
      && (r.Failure? ==> r.error == Status(if IsDir(before, h) then NFS4ERR_NOTEMPTY else NFS4ERR_NOTDIR))
      && (r.Failure? ==> Confined(before, after, Sub(before, rank, h)))
      && (!IsDir(before, h) ==> after == before)
  }

  /** Only objects of the set have changed or are gone. */
  ghost predicate Confined(before: Fs, after: Fs, s: set<bytes>) {
    && after == before.(nodes := after.nodes) && after.nodes.Keys <= before.nodes.Keys
    && forall x | x in before.nodes && x !in s :: x in after.nodes && after.nodes[x] == before.nodes[x]
  }

  /** The part of `AllSeen` that one entry is answerable for. */
  ghost predicate SeenEntry(fs: Fs, untyped: set<bytes>, rank: map<bytes, nat>, d: bytes, n: bytes)
    requires Ranked(fs, rank) && n in Names(fs, d)
  {
    var c := fs.nodes[d].entries[n];
    (c in untyped ==> !Occupied(fs, c)) && AllSeen(fs, untyped, rank, c)
  }

  lemma SeenByEntries(fs: Fs, untyped: set<bytes>, rank: map<bytes, nat>, h: bytes)
    requires Ranked(fs, rank) && h in rank
    ensures AllSeen(fs, untyped, rank, h) <==> forall n <- Names(fs, h) :: SeenEntry(fs, untyped, rank, h, n)
  {
    if AllSeen(fs, untyped, rank, h) {
      forall n | n in Names(fs, h) ensures SeenEntry(fs, untyped, rank, h, n) {
        var c := fs.nodes[h].entries[n];
        assert Sub(fs, rank, c) <= Sub(fs, rank, h) - {h};
      }
    } else {
      var x :| x in Sub(fs, rank, h) - {h} && x in untyped && Occupied(fs, x);
      var n :| n in Names(fs, h) && x in Sub(fs, rank, fs.nodes[h].entries[n]);
      assert !SeenEntry(fs, untyped, rank, h, n);
    }
  }

  /** Removing some entries with what is below them leaves the subtrees of the other entries alone. */
  lemma OthersUntouched(fs: Fs, now: Fs, untyped: set<bytes>, rank: map<bytes, nat>, h: bytes, done: set<bytes>, n: bytes)
    requires Plain(fs, rank) && Plain(now, rank) && done <= Names(fs, h) && n in Names(fs, h) - done && h in fs.nodes
    requires now == Without(fs, h, done, SubOf(fs, rank, h, done))
    ensures var c := fs.nodes[h].entries[n];
            && n in Names(now, h) && now.nodes[h].entries[n] == c
            && SameOn(fs, now, Sub(fs, rank, c)) && Sub(now, rank, c) == Sub(fs, rank, c)
            && (AllSeen(now, untyped, rank, c) <==> AllSeen(fs, untyped, rank, c))
            && IsDir(now, c) == IsDir(fs, c) && Occupied(now, c) == Occupied(fs, c)
  {
    var c := fs.nodes[h].entries[n];
    forall x | x in Sub(fs, rank, c) ensures x !in SubOf(fs, rank, h, done) && x != h {
      if m :| m in done && x in Sub(fs, rank, fs.nodes[h].entries[m]) { SiblingsApart(fs, rank, h, m, n); }
    }
    SubSame(fs, now, rank, c);
  }

  lemma WithoutTwice(fs: Fs, d: bytes, a: set<bytes>, b: set<bytes>, g: set<bytes>, k: set<bytes>)
    requires IsDir(fs, d)
    ensures Without(Without(fs, d, a, g), d, b, k) == Without(fs, d, a + b, g + k)
  {
    var es := fs.nodes[d].entries;
    assert (es - a) - b == es - (a + b);
    assert Without(Without(fs, d, a, g), d, b, k).nodes == Without(fs, d, a + b, g + k).nodes;
  }

  lemma SubOfOneMore(fs: Fs, rank: map<bytes, nat>, d: bytes, names: set<bytes>, n: bytes)
    requires Ranked(fs, rank) && names <= Names(fs, d) && n in Names(fs, d)
    ensures fs.nodes[d].entries[n] in rank
    ensures SubOf(fs, rank, d, names + {n}) == SubOf(fs, rank, d, names) + Sub(fs, rank, fs.nodes[d].entries[n])
  {
  }

  lemma SubOfAll(fs: Fs, rank: map<bytes, nat>, h: bytes)
    requires Ranked(fs, rank) && h in rank
    ensures SubOf(fs, rank, h, Names(fs, h)) + {h} == Sub(fs, rank, h)
  {
  }

  /** REMOVE of one entry, once there is nothing behind it. */
  lemma RemoveIs(fs: Fs, dir: bytes, name: bytes)
    requires Resolve(fs, dir).Good? && CheckName(name).Good? && name in Names(fs, Resolve(fs, dir).value)
    ensures var d := Resolve(fs, dir).value;
            var c := fs.nodes[d].entries[name];
            Wanted(fs, Unlink(dir, name), NO_SPARE)
            == if Occupied(fs, c) then Bad(NFS4ERR_NOTEMPTY) else Good(Done(Without(fs, d, {name}, {c}), None, Silent))
  {
  }

  /** After all entries of a directory are gone, removing it completes the removal. */
  lemma LastStep(fs: Fs, now: Fs, rank: map<bytes, nat>, parent: bytes, name: bytes)
    requires Plain(fs, rank) && FoundAt(fs, parent, name).Good?
    requires var h := FoundAt(fs, parent, name).value;
             IsDir(fs, h) && now == Without(fs, h, Names(fs, h), SubOf(fs, rank, h, Names(fs, h)))
    ensures var d, h := Resolve(fs, parent).value, FoundAt(fs, parent, name).value;
            && IsDir(fs, d) && h in rank
            && Wanted(now, Unlink(parent, name), NO_SPARE) == Good(Done(Without(fs, d, {name}, Sub(fs, rank, h)), None, Silent))
  {
    var d, h := Resolve(fs, parent).value, FoundAt(fs, parent, name).value;
    SubOfAll(fs, rank, h);
    assert name in Names(fs, d);
    NameOk(fs, d, name);
    hide Linked, Rooted, Named, Acyclic, IsDots;
    assert d !in Sub(fs, rank, h);
    assert fs.nodes[h].entries - Names(fs, h) == map[];
    assert h !in SubOf(fs, rank, h, Names(fs, h)) && d !in SubOf(fs, rank, h, Names(fs, h)) && d != h;
    hide Sub, SubOf, Ranked;
    RemoveIs(now, parent, name);
    WithoutInner(fs, d, name, h, Names(fs, h), SubOf(fs, rank, h, Names(fs, h)));
  }

  /** Taking away the contents of a directory and then the directory. */
  lemma WithoutInner(fs: Fs, d: bytes, name: bytes, h: bytes, names: set<bytes>, gone: set<bytes>)
    requires IsDir(fs, d) && IsDir(fs, h) && d != h && d !in gone
    ensures Without(Without(fs, h, names, gone), d, {name}, {h}) == Without(fs, d, {name}, gone + {h})
  {
    assert Without(Without(fs, h, names, gone), d, {name}, {h}).nodes == Without(fs, d, {name}, gone + {h}).nodes;
  }

  lemma EmptySub(fs: Fs, rank: map<bytes, nat>, c: bytes)
    requires Ranked(fs, rank) && c in rank && !Occupied(fs, c)
    ensures Sub(fs, rank, c) == {c}
  {
  }

  lemma RemoveKeepsPlain(fs: Fs, rank: map<bytes, nat>, dir: bytes, name: bytes)
    requires Plain(fs, rank) && Wanted(fs, Unlink(dir, name), NO_SPARE).Good?
    ensures Plain(Wanted(fs, Unlink(dir, name), NO_SPARE).value.fs, rank)
  {
    RemoveKeepsSound(fs, Resolve(fs, dir).value, name);
  }

  /** What became of one entry: it and all below it are gone, or the removal stopped somewhere in there. */
  ghost predicate RemovesEntry(before: Fs, after: Fs, untyped: set<bytes>, rank: map<bytes, nat>,
                               dir: bytes, n: bytes, r: Result<()>)
    requires Ranked(before, rank) && n in Names(before, dir)
  {
    var gone := Sub(before, rank, before.nodes[dir].entries[n]);
    && (r.Success? <==> SeenEntry(before, untyped, rank, dir, n))
    && (r.Success? ==> after == Without(before, dir, {n}, gone))
    && (r.Failure? ==> r.error == Status(NFS4ERR_NOTEMPTY) && Confined(before, after, gone))
  }

  /** An entry that is not a directory, or not known to be one, is removed by itself. */
  lemma UntypedEntry(fs: Fs, untyped: set<bytes>, rank: map<bytes, nat>, dir: bytes, n: bytes, after: Fs, r: Result<()>)
    requires Plain(fs, rank) && dir != [] && n in Names(fs, dir) && !HasType(fs, untyped, fs.nodes[dir].entries[n])
    requires var w := Wanted(fs, Unlink(dir, n), NO_SPARE);
             if w.Good? then r == Success(()) && after == w.value.fs else r == Failure(Status(w.code)) && after == fs
    ensures RemovesEntry(fs, after, untyped, rank, dir, n, r)
  {
    var c := fs.nodes[dir].entries[n];
    NameOk(fs, dir, n);
    RemoveIs(fs, dir, n);
    if !Occupied(fs, c) { EmptySub(fs, rank, c); }
  }

  /* ----- over the connection ----- */

  /** What is known of an entry that a listing has. */
  ghost predicate Listed(fs: Fs, untyped: set<bytes>, rank: map<bytes, nat>, dir: bytes, e: DirEntry4) {
    && Plain(fs, rank) && dir != [] && e.name in Names(fs, dir)
    && (e.attrs.kind == Some(2) <==> HasType(fs, untyped, fs.nodes[dir].entries[e.name]))
  }

  ghost predicate EntryDone(fs: Fs, after: Fs, untyped: set<bytes>, rank: map<bytes, nat>, dir: bytes, e: DirEntry4,
                            r: Result<()>) {
    Listed(fs, untyped, rank, dir, e) ==> Plain(after, rank) && RemovesEntry(fs, after, untyped, rank, dir, e.name, r)
  }

  ghost predicate TreeDone(fs: Fs, after: Fs, untyped: set<bytes>, rank: map<bytes, nat>, parent: bytes, name: bytes,
                           r: Result<()>) {
    Plain(fs, rank) ==> Plain(after, rank) && Removes(fs, after, untyped, rank, parent, name, r)
  }

  /** The target is a directory, and this is a listing of it. */
  ghost predicate Entered(fs: Fs, untyped: set<bytes>, rank: map<bytes, nat>, parent: bytes, name: bytes, dir: bytes,
                          entries: seq<DirEntry4>) {
    Plain(fs, rank) && FoundAt(fs, parent, name) == Good(dir) && IsDir(fs, dir) && Lists(fs, untyped, dir, entries)
  }

  /** The first `i` entries of the listing are gone with all below them. */
  ghost predicate Halfway(fs: Fs, now: Fs, untyped: set<bytes>, rank: map<bytes, nat>, dir: bytes,
                          entries: seq<DirEntry4>, i: nat)
    requires Ranked(fs, rank) && IsDir(fs, dir) && i <= |entries|
  {
    var done := NamesOf(entries[..i]);
    && Plain(now, rank) && done <= Names(fs, dir)
    && now == Without(fs, dir, done, SubOf(fs, rank, dir, done))
    && forall n <- done :: SeenEntry(fs, untyped, rank, dir, n)
  }

  /** The lookup and the listing, before anything is removed. */
  lemma Enter(fs: Fs, untyped: set<bytes>, rank: map<bytes, nat>, parent: bytes, name: bytes, r: Result<seq<DirEntry4>>)
    requires Plain(fs, rank) && FoundAt(fs, parent, name).Good?
    requires IsListing(fs, untyped, FoundAt(fs, parent, name).value, r)
    ensures var dir := FoundAt(fs, parent, name).value;
            if r.Failure? then Removes(fs, fs, untyped, rank, parent, name, Failure(r.error))
            else Entered(fs, untyped, rank, parent, name, dir, r.value)
                 && Halfway(fs, fs, untyped, rank, dir, r.value, 0)
  {
    hide Sub, AllSeen, Lists;
    var dir := FoundAt(fs, parent, name).value;
    TargetIs(fs, rank, parent, name);
    if r.Success? { NothingGone(fs, rank, dir); }
  }

  /** The entry behind the ones that are gone is there as it was, and is one that the listing is right about. */
  lemma EntryListed(fs: Fs, now: Fs, untyped: set<bytes>, rank: map<bytes, nat>, parent: bytes, name: bytes, dir: bytes,
                    entries: seq<DirEntry4>, i: nat)
    requires Entered(fs, untyped, rank, parent, name, dir, entries) && i < |entries| && !IsDots(entries[i].name)
    requires Halfway(fs, now, untyped, rank, dir, entries, i)
    ensures Listed(now, untyped, rank, dir, entries[i])
  {
    hide Sub, SubOf, AllSeen, Without, IsDots, Sound;
    NamesOfSnoc(entries, i);
    TargetIs(fs, rank, parent, name);
    TypeListed(fs, untyped, fs.nodes[dir].entries[entries[i].name]);
    OthersUntouched(fs, now, untyped, rank, dir, NamesOf(entries[..i]), entries[i].name);
  }

  /** An entry that is gone is one more; one that is not ends the removal. */
  lemma EntryNext(fs: Fs, now: Fs, after: Fs, untyped: set<bytes>, rank: map<bytes, nat>, parent: bytes, name: bytes,
                  dir: bytes, entries: seq<DirEntry4>, i: nat, r: Result<()>)
    requires Entered(fs, untyped, rank, parent, name, dir, entries) && i < |entries| && !IsDots(entries[i].name)
    requires Halfway(fs, now, untyped, rank, dir, entries, i) && Listed(now, untyped, rank, dir, entries[i])
    requires Plain(after, rank) && RemovesEntry(now, after, untyped, rank, dir, entries[i].name, r)
    ensures if r.Success? then Halfway(fs, after, untyped, rank, dir, entries, i + 1)
            else Removes(fs, after, untyped, rank, parent, name, r)
  {
    hide Sub, SubOf, AllSeen, Without, IsDots, Sound, Ranked;
    var done, n := NamesOf(entries[..i]), entries[i].name;
    TargetIs(fs, rank, parent, name);
    NamesOfSnoc(entries, i);
    OthersUntouched(fs, now, untyped, rank, dir, done, n);
    if r.Failure? {
      StoppedInside(fs, now, after, untyped, rank, dir, done, n);
    } else {
      SubOfOneMore(fs, rank, dir, done, n);
      WithoutTwice(fs, dir, done, {n}, SubOf(fs, rank, dir, done), Sub(fs, rank, fs.nodes[dir].entries[n]));
    }
  }

  /** After all entries, the last remove completes the removal. */
  lemma Finish(fs: Fs, now: Fs, untyped: set<bytes>, rank: map<bytes, nat>, parent: bytes, name: bytes, dir: bytes,
               entries: seq<DirEntry4>)
    requires Entered(fs, untyped, rank, parent, name, dir, entries)
    requires Halfway(fs, now, untyped, rank, dir, entries, |entries|)
    ensures var w := Wanted(now, Unlink(parent, name), NO_SPARE);
            w.Good? && TreeDone(fs, w.value.fs, untyped, rank, parent, name, Success(()))
  {
    hide Sub, SubOf, AllSeen, Without, Sound, Lists;
    assert entries[..|entries|] == entries;
    TargetIs(fs, rank, parent, name);
    AllNames(fs, untyped, rank, dir, entries);
    SeenByEntries(fs, untyped, rank, dir);
    LastStep(fs, now, rank, parent, name);
    RemoveKeepsPlain(now, rank, parent, name);
  }

  lemma RemovedAlone(fs: Fs, after: Fs, untyped: set<bytes>, rank: map<bytes, nat>, dir: bytes, e: DirEntry4, r: Result<()>)
    requires e.attrs.kind != Some(2) && IsRemoval(fs, after, dir, e.name, r)
    ensures EntryDone(fs, after, untyped, rank, dir, e, r)
  {
    hide Sound, Sub, AllSeen, IsDots, Wanted;
    if Listed(fs, untyped, rank, dir, e) {
      if Wanted(fs, Unlink(dir, e.name), NO_SPARE).Good? { RemoveKeepsPlain(fs, rank, dir, e.name); }
      UntypedEntry(fs, untyped, rank, dir, e.name, after, r);
    }
  }

  /** The removal of an entry that is a directory is that of a tree. */
  lemma RemovedAsTree(fs: Fs, after: Fs, untyped: set<bytes>, rank: map<bytes, nat>, dir: bytes, e: DirEntry4, r: Result<()>)
    requires e.attrs.kind == Some(2) && TreeDone(fs, after, untyped, rank, dir, e.name, r)
    ensures EntryDone(fs, after, untyped, rank, dir, e, r)
  {
    hide Sound, Sub, AllSeen, IsDots, Without, Confined;
    if Listed(fs, untyped, rank, dir, e) { NameOk(fs, dir, e.name); }
  }

  /** How the loop stands: if it is about a tree, the first `i` entries are gone. */
  ghost predicate Undone(fs: Fs, now: Fs, untyped: set<bytes>, rank: map<bytes, nat>, parent: bytes, name: bytes,
                         dir: bytes, entries: seq<DirEntry4>, i: nat)
    requires i <= |entries|
  {
    Plain(fs, rank) ==>
      Entered(fs, untyped, rank, parent, name, dir, entries) && Halfway(fs, now, untyped, rank, dir, entries, i)
  }

  lemma NotFound(fs: Fs, untyped: set<bytes>, rank: map<bytes, nat>, parent: bytes, name: bytes, r: Result<bytes>)
    requires r == FoundResult(fs, parent, name) && r.Failure?
    ensures TreeDone(fs, fs, untyped, rank, parent, name, Failure(r.error))
  {
    hide Plain, FoundAt;
  }

  lemma EnterIt(fs: Fs, untyped: set<bytes>, rank: map<bytes, nat>, parent: bytes, name: bytes, dir: bytes,
                r: Result<seq<DirEntry4>>)
    requires FoundResult(fs, parent, name) == Success(dir) && IsListing(fs, untyped, dir, r)
    ensures if r.Failure? then TreeDone(fs, fs, untyped, rank, parent, name, Failure(r.error))
            else Undone(fs, fs, untyped, rank, parent, name, dir, r.value, 0)
  {
    hide Sound, Entered, Halfway, Removes, IsListing, Ranked;
    if Plain(fs, rank) { Enter(fs, untyped, rank, parent, name, r); }
  }

  lemma SkipDots(fs: Fs, now: Fs, untyped: set<bytes>, rank: map<bytes, nat>, parent: bytes, name: bytes,
                 dir: bytes, entries: seq<DirEntry4>, i: nat)
    requires i < |entries| && IsDots(entries[i].name)
    ensures Undone(fs, now, untyped, rank, parent, name, dir, entries, i)
            ==> Undone(fs, now, untyped, rank, parent, name, dir, entries, i + 1)
  {
    hide Sound, Entered, IsDots, SeenEntry, SubOf, Without, NamesOf;
    NamesOfSnoc(entries, i);
  }

  lemma NextEntry(fs: Fs, now: Fs, after: Fs, untyped: set<bytes>, rank: map<bytes, nat>, parent: bytes, name: bytes,
                  dir: bytes, entries: seq<DirEntry4>, i: nat, r: Result<()>)
    requires i < |entries| && !IsDots(entries[i].name) && EntryDone(now, after, untyped, rank, dir, entries[i], r)
    requires Undone(fs, now, untyped, rank, parent, name, dir, entries, i)
    ensures if r.Success? then Undone(fs, after, untyped, rank, parent, name, dir, entries, i + 1)
            else TreeDone(fs, after, untyped, rank, parent, name, r)
  {
    hide Sound, Entered, Halfway, Removes, RemovesEntry, Ranked, Listed, IsDots;
    if Plain(fs, rank) {
      EntryListed(fs, now, untyped, rank, parent, name, dir, entries, i);
      EntryNext(fs, now, after, untyped, rank, parent, name, dir, entries, i, r);
    }
  }

  lemma LastRemove(fs: Fs, now: Fs, after: Fs, untyped: set<bytes>, rank: map<bytes, nat>, parent: bytes, name: bytes,
                   dir: bytes, entries: seq<DirEntry4>, r: Result<()>)
    requires Undone(fs, now, untyped, rank, parent, name, dir, entries, |entries|)
    requires IsRemoval(now, after, parent, name, r)
    ensures TreeDone(fs, after, untyped, rank, parent, name, r)
  {
    hide Sound, Entered, Halfway, Removes, Ranked, Wanted;
    if Plain(fs, rank) { Finish(fs, now, untyped, rank, parent, name, dir, entries); }
  }

  lemma DirectoryType()
    ensures NF4DIR == 2
  {
  }

  /** The body of the loop.  `log` is what it did on the connection. */
  method RemoveEntry(client: Nfs4Client, dir: bytes, e: DirEntry4, ghost s: Before, ghost rank: map<bytes, nat>)
    returns (r: Result<()>, ghost log: seq<Step>)
    requires client.Valid() && s.c == client.rpc.View() && s.issued == client.issued
    modifies client`issued, client.rpc, client.rpc.sock
    ensures client.Valid() && Since(s, client.rpc.View(), client.issued, log)
    ensures Left(client.rpc.View()) <= old(Left(client.rpc.View()))
    ensures Fair(s, log) ==> EntryDone(s.fs, Tree(s, log), s.untyped, rank, dir, e, r)
    decreases Left(client.rpc.View()), 1
  {
    hide *;
    assert NF4DIR == 2 by { DirectoryType(); }
    if e.attrs.kind == Some(NF4DIR) {
      r, log := RemoveTree(client, dir, e.name, s, rank);
      if Fair(s, log) { RemovedAsTree(s.fs, Tree(s, log), s.untyped, rank, dir, e, r); }
    } else {
      NothingDone(s);
      ThenRemove(s, s.c, s.issued, [], dir, e.name);
      r := client.Remove(dir, e.name);
      log := [] + [ToRemove(dir, e.name)];
      if Fair(s, log) { RemovedAlone(s.fs, Tree(s, log), s.untyped, rank, dir, e, r); }
    }
  }

  /** For any tree `s.fs` with heights `rank`: if every request is served on it, the removal takes exactly the subtree,
      or stops inside it for the one reason there is.  `log` is what it did on the connection. */
  method RemoveTree(client: Nfs4Client, parent: bytes, name: bytes, ghost s: Before, ghost rank: map<bytes, nat>)
    returns (r: Result<()>, ghost log: seq<Step>)
    requires client.Valid() && s.c == client.rpc.View() && s.issued == client.issued
    modifies client`issued, client.rpc, client.rpc.sock
    ensures client.Valid() && Since(s, client.rpc.View(), client.issued, log)
    ensures Left(client.rpc.View()) <= old(Left(client.rpc.View()))
    ensures Fair(s, log) ==> TreeDone(s.fs, Tree(s, log), s.untyped, rank, parent, name, r)
    decreases Left(client.rpc.View()), 0
  {
    hide *;
    NothingDone(s);
    ThenLookup(s, s.c, s.issued, [], parent, name);
    log := [] + [ToFind(parent, name)];
    var found := client.Lookup(parent, name);
    if found.Failure? {
      if Fair(s, log) { NotFound(s.fs, s.untyped, rank, parent, name, found); }
      return Failure(found.error), log;
    }
    var dir := found.value;
    ThenReadDir(s, client.rpc.View(), client.issued, log, dir);
    var listed := client.ReadDir(dir);
    log := log + [ToList(dir)];
    if Fair(s, log) { EnterIt(s.fs, s.untyped, rank, parent, name, dir, listed); }
    if listed.Failure? { return Failure(listed.error), log; }
    var entries := listed.value;
    for i := 0 to |entries|
      invariant client.Valid() && Since(s, client.rpc.View(), client.issued, log)
      invariant Left(client.rpc.View()) < old(Left(client.rpc.View()))
      invariant Fair(s, log) ==> Undone(s.fs, Tree(s, log), s.untyped, rank, parent, name, dir, entries, i)
    {
      var e := entries[i];
      ghost var fs := Tree(s, log);
      if IsDots(e.name) {
        SkipDots(s.fs, fs, s.untyped, rank, parent, name, dir, entries, i);
        continue;
      }
      ghost var before, more := Before(client.rpc.View(), client.issued, fs, s.untyped), [];
      var done;
      done, more := RemoveEntry(client, dir, e, before, rank);
      SomeMore(s, before.c, before.issued, log, client.rpc.View(), client.issued, more);
      log := log + more;
      if Fair(s, log) {
        NextEntry(s.fs, fs, Tree(s, log), s.untyped, rank, parent, name, dir, entries, i, done);
      }
      if done.Failure? { return done, log; }
    }
    ThenRemove(s, client.rpc.View(), client.issued, log, parent, name);
    ghost var fs := Tree(s, log);
    r := client.Remove(parent, name);
    log := log + [ToRemove(parent, name)];
    if Fair(s, log) { LastRemove(s.fs, fs, Tree(s, log), s.untyped, rank, parent, name, dir, entries, r); }
  }

  /** The names of a listing that are entries. */
  function NamesOf(es: seq<DirEntry4>): set<bytes> { set i | 0 <= i < |es| && !IsDots(es[i].name) :: es[i].name }

  lemma NamesOfSnoc(es: seq<DirEntry4>, i: nat)
    requires i < |es|
    ensures NamesOf(es[..i + 1]) == if IsDots(es[i].name) then NamesOf(es[..i]) else NamesOf(es[..i]) + {es[i].name}
    ensures (forall j, k :: 0 <= j < k < |es| ==> es[j].name != es[k].name) ==> es[i].name !in NamesOf(es[..i])
  {
    assert es[..i + 1][i] == es[i];
    forall j | 0 <= j < i ensures es[..i + 1][j] == es[..i][j] {}
  }

  lemma AllNames(fs: Fs, untyped: set<bytes>, rank: map<bytes, nat>, d: bytes, es: seq<DirEntry4>)
    requires Plain(fs, rank) && Lists(fs, untyped, d, es)
    ensures NamesOf(es) == Names(fs, d)
  {
    forall n | n in Names(fs, d) ensures !IsDots(n) { NameOk(fs, d, n); }
    hide Sound, Ranked, IsDots, Names;
  }

  lemma NothingGone(fs: Fs, rank: map<bytes, nat>, d: bytes)
    requires Ranked(fs, rank) && IsDir(fs, d)
    ensures NamesOf([]) == {} && Without(fs, d, {}, SubOf(fs, rank, d, {})) == fs
  {
    assert fs.nodes[d].entries - {} == fs.nodes[d].entries;
    assert Without(fs, d, {}, SubOf(fs, rank, d, {})).nodes == fs.nodes;
  }

  lemma TargetIs(fs: Fs, rank: map<bytes, nat>, parent: bytes, name: bytes)
    requires Plain(fs, rank) && FoundAt(fs, parent, name).Good?
    ensures var h := FoundAt(fs, parent, name).value; h != [] && h in fs.nodes && h in rank && Resolve(fs, h) == Good(h)
    ensures IsDir(fs, Resolve(fs, parent).value)
  {
    assert Child(fs, Resolve(fs, parent).value, name).Some?;
  }

  lemma ConfinedWithin(fs: Fs, now: Fs, after: Fs, h: bytes, names: set<bytes>, gone: set<bytes>,
                       inner: set<bytes>, outer: set<bytes>)
    requires IsDir(fs, h) && now == Without(fs, h, names, gone) && h !in gone && Confined(now, after, inner)
    requires h in outer && gone <= outer && inner <= outer
    ensures Confined(fs, after, outer)
  {
  }

  /** A removal that stops at an entry has stopped inside the directory, because of something in it. */
  lemma StoppedInside(fs: Fs, now: Fs, after: Fs, untyped: set<bytes>, rank: map<bytes, nat>,
                      h: bytes, done: set<bytes>, n: bytes)
    requires Plain(fs, rank) && Plain(now, rank) && done <= Names(fs, h) && n in Names(fs, h) - done && h in fs.nodes
    requires now == Without(fs, h, done, SubOf(fs, rank, h, done))
    requires n in Names(now, h) && now.nodes[h].entries[n] == fs.nodes[h].entries[n]
    requires !SeenEntry(now, untyped, rank, h, n) && Confined(now, after, Sub(now, rank, fs.nodes[h].entries[n]))
    ensures !AllSeen(fs, untyped, rank, h) && Confined(fs, after, Sub(fs, rank, h))
  {
    var c := fs.nodes[h].entries[n];
    OthersUntouched(fs, now, untyped, rank, h, done, n);
    SeenByEntries(fs, untyped, rank, h);
    SubOfWithin(fs, rank, h, done);
    SubOfOneMore(fs, rank, h, {}, n);
    SubOfWithin(fs, rank, h, {} + {n});
    hide Sound, Sub, SubOf, AllSeen, Without, Confined, Ranked;
    ConfinedWithin(fs, now, after, h, done, SubOf(fs, rank, h, done), Sub(fs, rank, c), Sub(fs, rank, h));
  }

  lemma SubOfWithin(fs: Fs, rank: map<bytes, nat>, h: bytes, names: set<bytes>)
    requires Ranked(fs, rank) && names <= Names(fs, h) && h in rank
    ensures SubOf(fs, rank, h, names) <= Sub(fs, rank, h) - {h}
  {
  }
}
