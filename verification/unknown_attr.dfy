/** Attributes outside the client's table.  The reader passes over an id that it does not know as if its value
    took no bytes; this is when that is harmless. */
module UnknownAttributes {
  import opened Wire
  import opened Bitmap
  import opened Attributes

  /** The bitmap holds the ids of `m` and no other id of the table. */
  ghost predicate Covers(bm: seq<u32>, m: Attrs) {
    forall j: u32 | j < READ_LIMIT :: (Test(bm, j) && !KindOf(j).Unknown?) <==> j in m
  }

  /** The ids of the bitmap that the client does not know, below the last one that it does. */
  predicate UnknownIn(bm: seq<u32>, j: u32) { j < READ_LIMIT && Test(bm, j) && KindOf(j).Unknown? }

  function Unknowns(bm: seq<u32>): set<nat> {
    set j: nat | 0 <= j < READ_LIMIT && UnknownIn(bm, j)
  }

  /** The values of the known ids and, in their places, whatever a server packs for the others; `extra` is what it
      packs for ids behind all that the client reads. */
  function PackAll(m: Attrs, others: map<nat, bytes>, extra: bytes, id: nat): bytes
    decreases READ_LIMIT - id
  {
    if id >= READ_LIMIT then extra
    else if id in m then PutVal(m[id], PackAll(m, others, extra, id + 1))
    else if id in others then others[id] + PackAll(m, others, extra, id + 1)
    else PackAll(m, others, extra, id + 1)
  }

  function PutAll(bm: seq<u32>, m: Attrs, others: map<nat, bytes>, extra: bytes): bytes {
    PutBitmap(bm, PutOpaque(PackAll(m, others, extra, 0), []))
  }

  ghost predicate Packs(bm: seq<u32>, m: Attrs, others: map<nat, bytes>, extra: bytes) {
    Typed(m) && Covers(bm, m) && others.Keys == Unknowns(bm) && |PutAll(bm, m, others, extra)| < TWO_32
  }

  /** Whatever the values are, those of the unknown ids too, the client has exactly the attributes it knows. */
  ghost predicate ReadAnyway(bm: seq<u32>) {
    forall m: Attrs, others: map<nat, bytes>, extra: bytes | Packs(bm, m, others, extra) ::
      TakeFattr4(PutAll(bm, m, others, extra)) == Ok(Exposed(m), [])
  }

  /** An id whose value the client shows to its caller. */
  predicate Shown(id: nat) { id < READ_LIMIT && !KindOf(id).Unknown? && id != FSID }

  /** Nothing that the client shows is behind an id that it does not know. */
  ghost predicate Harmless(bm: seq<u32>) {
    forall u: u32, v: u32 | u < v && UnknownIn(bm, u) && Shown(v) :: !Test(bm, v)
  }

  /** A bitmap is read right, whatever the values, exactly when nothing that the client shows is behind an id that
      it does not know.  (Ids have 32 bits, so no bitmap needs more words than that.) */
  lemma UnknownIdIff(bm: seq<u32>)
    requires |bm| <= 0x800_0000
    ensures ReadAnyway(bm) <==> Harmless(bm)
  {
    hide Shown, KindOf, Test, PutAll, TakeFattr4, Exposed, Packs, Unknowns, UnknownIn;
    if Harmless(bm) {
      forall m: Attrs, others: map<nat, bytes>, extra: bytes | Packs(bm, m, others, extra)
        ensures TakeFattr4(PutAll(bm, m, others, extra)) == Ok(Exposed(m), [])
      {
        ReadRight(bm, m, others, extra);
      }
    } else {
      var u: u32, v: u32 :| u < v && UnknownIn(bm, u) && Shown(v) && Test(bm, v);
      ReadWrong(bm, u, v);
    }
  }

  lemma Unpacked(bm: seq<u32>, m: Attrs, others: map<nat, bytes>, extra: bytes)
    requires |PutAll(bm, m, others, extra)| < TWO_32
    ensures var p := Walk(bm, 0, READ_LIMIT, PackAll(m, others, extra, 0));
            TakeFattr4(PutAll(bm, m, others, extra)) == if p.Ok? then Ok(Exposed(p.value), []) else Err(p.error)
    ensures |PackAll(m, others, extra, 0)| < TWO_32
  {
    hide Walk, PackAll, TakeBitmap, TakeOpaque, PutBitmap, PutOpaque, Exposed;
  }

  /* ----- harmless ----- */

  lemma {:induction false} QuietWalk(bm: seq<u32>, id: nat, s: bytes)
    requires id <= READ_LIMIT && forall v: u32 | id <= v < READ_LIMIT && Shown(v) :: !Test(bm, v)
    requires id <= FSID && Test(bm, FSID) ==> |s| >= 16
    ensures var p := Walk(bm, id, READ_LIMIT, s);
            p.Ok? && p.value.Keys <= {FSID as nat} && forall j <- p.value :: j >= id
    decreases READ_LIMIT - id
  {
    hide Test;
    if id < READ_LIMIT {
      if Test(bm, id) && !KindOf(id).Unknown? {
        assert id == FSID by { assert !Shown(id); }
        QuietWalk(bm, id + 1, TakeVal(Pair, s).rest);
      } else {
        QuietWalk(bm, id + 1, s);
      }
    }
  }

  lemma SameShown(a: Attrs, b: Attrs)
    requires forall j | Shown(j) :: Field(a, j) == Field(b, j)
    ensures Exposed(a) == Exposed(b)
  {
    assert Shown(TYPE) && Shown(CHANGE) && Shown(SIZE) && Shown(FILEID) && Shown(MODE) && Shown(NUMLINKS);
    assert Shown(OWNER) && Shown(OWNER_GROUP) && Shown(SPACE_USED) && Shown(TIME_ACCESS);
    assert Shown(TIME_METADATA) && Shown(TIME_MODIFY) && Shown(MOUNTED_ON_FILEID);
    hide Shown;
  }

  lemma {:induction false} FsidPacked(m: Attrs, others: map<nat, bytes>, extra: bytes, id: nat)
    requires id <= FSID && (FSID as nat) in m && m[FSID].PairVal?
    ensures |PackAll(m, others, extra, id)| >= 16
    decreases FSID - id
  {
    if id < FSID { FsidPacked(m, others, extra, id + 1); }
  }

  /** What is shown of the ids from `id` on is as it was packed. */
  ghost predicate RightFrom(p: Parsed<Attrs>, m: Attrs, id: nat) {
    p.Ok? && (forall j <- p.value :: j >= id) && forall j | id <= j && Shown(j) :: Field(p.value, j) == Field(m, j)
  }

  lemma RightStep(p: Parsed<Attrs>, m: Attrs, id: nat)
    requires RightFrom(p, m, id + 1) && id in m
    ensures RightFrom(With(id, Some(m[id]), p), m, id)
  {
  }

  lemma {:induction false} RightWalk(bm: seq<u32>, m: Attrs, others: map<nat, bytes>, extra: bytes, id: nat)
    requires Typed(m) && Covers(bm, m) && others.Keys == Unknowns(bm) && Harmless(bm) && |PackAll(m, others, extra, id)| < TWO_32
    ensures RightFrom(Walk(bm, id, READ_LIMIT, PackAll(m, others, extra, id)), m, id)
    decreases READ_LIMIT - id
  {
    hide Test, KindOf, TakeVal, PutVal;
    if id >= READ_LIMIT {
    } else if id in m {
      var next := PackAll(m, others, extra, id + 1);
      ValRoundTrip(m[id], next);
      RightWalk(bm, m, others, extra, id + 1);
      RightStep(Walk(bm, id + 1, READ_LIMIT, next), m, id);
    } else if id in others {
      var s := PackAll(m, others, extra, id);
      if id + 1 <= FSID && Test(bm, FSID) {
        FsidIsPair();
        assert (FSID as nat) in m && KindOfVal(m[FSID]) == Pair;
        FsidPacked(m, others, extra, id + 1);
      }
      assert UnknownIn(bm, id);
      QuietWalk(bm, id + 1, s);
    } else {
      RightWalk(bm, m, others, extra, id + 1);
    }
  }

  lemma ReadRight(bm: seq<u32>, m: Attrs, others: map<nat, bytes>, extra: bytes)
    requires Packs(bm, m, others, extra) && Harmless(bm)
    ensures TakeFattr4(PutAll(bm, m, others, extra)) == Ok(Exposed(m), [])
  {
    hide Test, TakeFattr4, PutAll, PackAll, Exposed, Walk, Unknowns, Harmless;
    Unpacked(bm, m, others, extra);
    RightWalk(bm, m, others, extra, 0);
    SameShown(Walk(bm, 0, READ_LIMIT, PackAll(m, others, extra, 0)).value, m);
  }

  /* ----- harmful ----- */

  /** `n` words of ones. */
  function Ones(n: nat, k: bytes): (r: bytes)
    ensures |r| == 4 * n + |k|
  {
    if n == 0 then k else PutU32(0xFFFF_FFFF, Ones(n - 1, k))
  }

  lemma WordThen(v: u32, a: bytes, k: bytes)
    ensures PutU32(v, a) + k == PutU32(v, a + k)
  {
    hide BigEndian;
    assert BigEndian(v, 4) + a + k == BigEndian(v, 4) + (a + k);
  }

  lemma {:induction false} OnesThen(n: nat, k: bytes)
    ensures Ones(n, []) + k == Ones(n, k)
  {
    hide PutU32;
    if n > 0 {
      OnesThen(n - 1, k);
      WordThen(0xFFFF_FFFF, Ones(n - 1, []), k);
    }
  }

  function ZeroVal(kind: Kind): AttrVal {
    match kind
    case Word => WordVal(0)
    case Long => LongVal(0)
    case Pair => PairVal(0, 0)
    case Text => TextVal([])
    case Time => TimeVal(Nfstime4(0, 0))
    case SetTime => SetTimeVal(Nfstime4(0, 0))
    case Unknown => WordVal(0)
  }

  function ZeroAttrs(bm: seq<u32>): Attrs {
    map j: nat | 0 <= j < READ_LIMIT && Test(bm, j) && !KindOf(j).Unknown? :: ZeroVal(KindOf(j))
  }

  /** A value read from ones is not zero, if it can be read at all. */
  lemma OnesRead(kind: Kind, n: nat, k: bytes)
    requires !kind.Unknown? && n >= 3
    ensures var p := TakeVal(kind, Ones(n, k)); p.Ok? ==> KindOfVal(p.value) == kind && p.value != ZeroVal(kind)
    ensures kind == Pair && n >= 4 ==>
              TakeVal(kind, Ones(n, k)) == Ok(PairVal(0xFFFF_FFFF_FFFF_FFFF, 0xFFFF_FFFF_FFFF_FFFF), Ones(n - 4, k))
  {
    hide PutU32, TakeU32, TakeFixed;
    var s := Ones(n, k);
    assert TakeU32(s) == Ok(0xFFFF_FFFF, Ones(n - 1, k));
    assert TakeU32(Ones(n - 1, k)) == Ok(0xFFFF_FFFF, Ones(n - 2, k));
    assert TakeU32(Ones(n - 2, k)) == Ok(0xFFFF_FFFF, Ones(n - 3, k));
    assert n >= 4 ==> TakeU32(Ones(n - 3, k)) == Ok(0xFFFF_FFFF, Ones(n - 4, k));
  }

  /** Among ones, the first id that the client shows gets a wrong value or none. */
  ghost predicate WrongAt(bm: seq<u32>, id: nat, p: Parsed<Attrs>) {
    p.Ok? ==> exists w: u32 :: id <= w && Shown(w) && Test(bm, w) && w as nat in p.value
                            && KindOfVal(p.value[w]) == KindOf(w) && p.value[w] != ZeroVal(KindOf(w))
  }

  lemma {:induction false} OnesWalk(bm: seq<u32>, id: nat, v: u32, n: nat, k: bytes)
    requires id <= v && Shown(v) && Test(bm, v) && n >= if id <= FSID then 7 else 3
    ensures WrongAt(bm, id, Walk(bm, id, READ_LIMIT, Ones(n, k)))
    decreases READ_LIMIT - id
  {
    hide Test, TakeVal, Ones, ZeroVal, KindOf;
    var s := Ones(n, k);
    if Test(bm, id) && !KindOf(id).Unknown? {
      OnesRead(KindOf(id), n, k);
      var p := TakeVal(KindOf(id), s);
      if id == FSID {
        assert KindOf(id) == Pair by { FsidIsPair(); }
        OnesWalk(bm, id + 1, v, n - 4, k);
      } else if p.Ok? {
        var q := Walk(bm, id + 1, READ_LIMIT, p.rest);
        assert q.Ok? ==> Walk(bm, id, READ_LIMIT, s).value[id] == p.value;
        assert Shown(id);
      }
    } else {
      OnesWalk(bm, id + 1, v, n, k);
    }
  }

  lemma FsidIsPair()
    ensures KindOf(FSID) == Pair
  {
  }

  lemma ShownField(a: Attrs, b: Attrs, w: nat)
    requires Shown(w) && w in a && w in b && KindOfVal(a[w]) == KindOfVal(b[w]) == KindOf(w) && Exposed(a) == Exposed(b)
    ensures a[w] == b[w]
  {
  }

  lemma ZeroValSize(kind: Kind, k: bytes)
    ensures |PutVal(ZeroVal(kind), k)| <= 16 + |k|
  {
  }

  lemma ZeroTyped(bm: seq<u32>)
    ensures Typed(ZeroAttrs(bm)) && Covers(bm, ZeroAttrs(bm))
  {
    hide Test;
  }

  /** Ten words of ones for `u`, nothing for the other unknown ids. */
  function OnesFor(bm: seq<u32>, u: nat): map<nat, bytes> {
    map j | j in Unknowns(bm) :: if j == u then Ones(10, []) else []
  }

  lemma {:induction false} ZeroSize(bm: seq<u32>, u: nat, id: nat)
    ensures |PackAll(ZeroAttrs(bm), OnesFor(bm, u), [], id)| <= if id < READ_LIMIT then 40 * (READ_LIMIT - id) else 0
    decreases READ_LIMIT - id
  {
    hide Test, KindOf, ZeroVal, PutVal;
    if id < READ_LIMIT {
      ZeroSize(bm, u, id + 1);
      ZeroValSize(KindOf(id), PackAll(ZeroAttrs(bm), OnesFor(bm, u), [], id + 1));
    }
  }

  lemma {:induction false} WrongWalk(bm: seq<u32>, u: u32, v: u32, id: nat)
    requires id <= u < v && UnknownIn(bm, u) && Shown(v) && Test(bm, v)
    ensures WrongAt(bm, u, Walk(bm, id, READ_LIMIT, PackAll(ZeroAttrs(bm), OnesFor(bm, u), [], id)))
    decreases READ_LIMIT - id
  {
    hide Test, KindOf, TakeVal, PutVal, ZeroVal, Ones;
    var m, others := ZeroAttrs(bm), OnesFor(bm, u);
    var next := PackAll(m, others, [], id + 1);
    if id == u {
      OnesThen(10, next);
      OnesWalk(bm, id + 1, v, 10, next);
    } else {
      WrongWalk(bm, u, v, id + 1);
      if id in m {
        ZeroTyped(bm);
        ZeroSize(bm, u, id);
        ValRoundTrip(m[id], next);
        var q := Walk(bm, id + 1, READ_LIMIT, next);
        if q.Ok? { StaysWrong(bm, u, q.value, id, m[id]); }
      } else if id in others {
        assert others[id] + next == next;
      }
    }
  }

  lemma StaysWrong(bm: seq<u32>, u: nat, m: Attrs, id: nat, v: AttrVal)
    requires id < u && WrongAt(bm, u, Ok(m, []))
    ensures WrongAt(bm, u, Ok(m[id := v], []))
  {
    hide Test, Shown, KindOf, ZeroVal;
    var w: u32 :| u <= w && Shown(w) && Test(bm, w) && w as nat in m && KindOfVal(m[w]) == KindOf(w)
         && m[w] != ZeroVal(KindOf(w));
    assert w as nat in m[id := v] && m[id := v][w as nat] == m[w];
  }

  lemma ReadWrong(bm: seq<u32>, u: u32, v: u32)
    requires u < v && UnknownIn(bm, u) && Shown(v) && Test(bm, v) && |bm| <= 0x800_0000
    ensures var m, others := ZeroAttrs(bm), OnesFor(bm, u);
            Packs(bm, m, others, []) && TakeFattr4(PutAll(bm, m, others, [])) != Ok(Exposed(m), [])
  {
    var m, others := ZeroAttrs(bm), OnesFor(bm, u);
    ZeroTyped(bm);
    ZeroSize(bm, u, 0);
    assert others.Keys == Unknowns(bm);
    hide Test, TakeFattr4, Exposed, Walk, PackAll, KindOf, Shown, ZeroVal, Ones, Unknowns, OnesFor;
    Unpacked(bm, m, others, []);
    WrongWalk(bm, u, v, 0);
    var p := Walk(bm, 0, READ_LIMIT, PackAll(m, others, [], 0));
    if p.Ok? {
      var w: u32 :| u <= w && Shown(w) && Test(bm, w) && w as nat in p.value
                 && KindOfVal(p.value[w]) == KindOf(w) && p.value[w] != ZeroVal(KindOf(w));
      assert w as nat in m && m[w] == ZeroVal(KindOf(w)) by { ShownZero(bm, w); }
      if Exposed(p.value) == Exposed(m) { ShownField(p.value, m, w); }
    }
  }

  lemma ShownZero(bm: seq<u32>, w: u32)
    requires Shown(w) && Test(bm, w)
    ensures w as nat in ZeroAttrs(bm) && ZeroAttrs(bm)[w] == ZeroVal(KindOf(w))
  {
  }
}
