/** File attributes on the wire, fattr4 (section 5 of RFC 7530): a bitmap of ids and, in one opaque, the values
    of these ids in ascending order. */
module Attributes {
  import opened Wire
  import opened Xdr
  import opened Bitmap

  type i64 = x: int | -0x8000_0000_0000_0000 <= x < 0x8000_0000_0000_0000

  datatype Nfstime4 = Nfstime4(seconds: i64, nseconds: u32)

  /** Attributes from a server; those it did not send are absent. */
  datatype Fattr4 = Fattr4(
    kind: Option<u32>, change: Option<u64>, size: Option<u64>, fileid: Option<u64>, mode: Option<u32>,
    numlinks: Option<u32>, owner: Option<bytes>, ownerGroup: Option<bytes>, spaceUsed: Option<u64>,
    timeAccess: Option<Nfstime4>, timeMetadata: Option<Nfstime4>, timeModify: Option<Nfstime4>,
    mountedOnFileid: Option<u64>)

  /** Attributes to set. */
  datatype Sattr4 = Sattr4(
    size: Option<u64>, mode: Option<u32>, owner: Option<bytes>, ownerGroup: Option<bytes>,
    timeAccess: Option<Nfstime4>, timeModify: Option<Nfstime4>)

  const TYPE: u32 := 1
  const CHANGE: u32 := 3
  const SIZE: u32 := 4
  const FSID: u32 := 8
  const FILEID: u32 := 20
  const MODE: u32 := 33
  const NUMLINKS: u32 := 35
  const OWNER: u32 := 36
  const OWNER_GROUP: u32 := 37
  const SPACE_USED: u32 := 45
  const TIME_ACCESS: u32 := 47
  const TIME_METADATA: u32 := 52
  const TIME_MODIFY: u32 := 53
  const MOUNTED_ON_FILEID: u32 := 55
  const TIME_ACCESS_SET: u32 := 64
  const TIME_MODIFY_SET: u32 := 65

  /** The client reads no id from here on; a server that sets attributes knows the ids below the second bound. */
  const READ_LIMIT: nat := 56
  const SET_LIMIT: nat := 66

  datatype Kind = Word | Long | Pair | Text | Time | SetTime | Unknown

  /** What values the ids have (section 5.6 to 5.8 of RFC 7530), and the two that this client uses for times to set. */
  function KindOf(id: nat): Kind {
    if id in {1, 33, 35} then Word
    else if id in {3, 4, 20, 45, 55} then Long
    else if id == 8 then Pair
    else if id == 36 || id == 37 then Text
    else if id in {47, 52, 53} then Time
    else if id == 64 || id == 65 then SetTime
    else Unknown
  }

  datatype AttrVal =
    | WordVal(w: u32) | LongVal(l: u64) | PairVal(major: u64, minor: u64)
    | TextVal(t: bytes) | TimeVal(time: Nfstime4) | SetTimeVal(setTime: Nfstime4)

  function KindOfVal(v: AttrVal): Kind {
    match v
    case WordVal(_) => Word
    case LongVal(_) => Long
    case PairVal(_, _) => Pair
    case TextVal(_) => Text
    case TimeVal(_) => Time
    case SetTimeVal(_) => SetTime
  }

  /* ----- single values ----- */

  function Signed(v: u64): i64 { if v < 0x8000_0000_0000_0000 then v else v - 0x1_0000_0000_0000_0000 }
  function Unsigned(v: i64): u64 { if v < 0 then v + 0x1_0000_0000_0000_0000 else v }

  function TakeTime(s: bytes): Parsed<Nfstime4> {
    var (seconds, s) :- TakeU64(s);
    var (nseconds, s) :- TakeU32(s);
    Ok(Nfstime4(Signed(seconds), nseconds), s)
  }

  lemma TwosComplement(v: i64)
    ensures Signed(v % 0x1_0000_0000_0000_0000) == v && Unsigned(v) == v % 0x1_0000_0000_0000_0000
  {
  }

  /** The seconds are a number in two's complement. */
  function PutTime(t: Nfstime4, k: bytes): (r: bytes)
    ensures |r| == 12 + |k|
    ensures TakeTime(r) == Ok(t, k)
  {
    TwosComplement(t.seconds);
    PutU64(t.seconds % 0x1_0000_0000_0000_0000, PutU32(t.nseconds, k))
  }

  function TakeVal(kind: Kind, s: bytes): (r: Parsed<AttrVal>)
    requires !kind.Unknown?
  {
    match kind
    case Word => var (v, s) :- TakeU32(s); Ok(WordVal(v), s)
    case Long => var (v, s) :- TakeU64(s); Ok(LongVal(v), s)
    case Pair => var (a, s) :- TakeU64(s); var (b, s) :- TakeU64(s); Ok(PairVal(a, b), s)
    case Text => var (t, s) :- TakeOpaque(s); Ok(TextVal(t), s)
    case Time => var (t, s) :- TakeTime(s); Ok(TimeVal(t), s)
    case SetTime =>
      var (how, s) :- TakeU32(s);
      if how != 1 then Err(ProtocolError) else var (t, s) :- TakeTime(s); Ok(SetTimeVal(t), s)
  }

  function PutVal(v: AttrVal, k: bytes): (r: bytes)
    ensures |r| >= |k|
  {
    match v
    case WordVal(w) => PutU32(w, k)
    case LongVal(l) => PutU64(l, k)
    case PairVal(a, b) => PutU64(a, PutU64(b, k))
    case TextVal(t) => PutOpaque(t, k)
    case TimeVal(t) => PutTime(t, k)
    case SetTimeVal(t) => PutU32(1, PutTime(t, k))
  }

  lemma ValRoundTrip(v: AttrVal, k: bytes)
    requires |PutVal(v, k)| < TWO_32
    ensures TakeVal(KindOfVal(v), PutVal(v, k)) == Ok(v, k)
  {
    hide PutU32, PutU64, PutOpaque, PutTime, TakeU32, TakeU64, TakeOpaque, TakeTime;
  }

  /* ----- the packed values: a table-driven reader, and a server that packs ----- */

  type Attrs = map<nat, AttrVal>

  predicate Typed(m: Attrs) {
    forall id <- m :: KindOfVal(m[id]) == KindOf(id)
  }

  function With(id: nat, v: Option<AttrVal>, p: Parsed<Attrs>): Parsed<Attrs> {
    match p
    case Ok(m, rest) => Ok(if v.Some? then m[id := v.value] else m, rest)
    case Err(e) => Err(e)
  }

  /** Walks the ids from `id` to `limit` upwards and reads the value of each one in the bitmap; an id that is
      not in the table is passed over and takes no bytes. */
  function Walk(bm: seq<u32>, id: nat, limit: nat, s: bytes): Parsed<Attrs>
    requires limit <= SET_LIMIT
    decreases limit - id
  {
    if id >= limit then Ok(map[], s)
    else if Test(bm, id) && !KindOf(id).Unknown? then
      var (v, s) :- TakeVal(KindOf(id), s);
      With(id, Some(v), Walk(bm, id + 1, limit, s))
    else Walk(bm, id + 1, limit, s)
  }

  /** The values of the ids from `id` to `limit`, in ascending order. */
  function Pack(m: Attrs, id: nat, limit: nat, k: bytes): (r: bytes)
    ensures |r| >= |k|
    decreases limit - id
  {
    if id >= limit then k
    else if id in m then PutVal(m[id], Pack(m, id + 1, limit, k))
    else Pack(m, id + 1, limit, k)
  }

  function Between(m: Attrs, from: nat, limit: nat): Attrs {
    map id | id in m && from <= id < limit :: m[id]
  }

  /** The reader gets back exactly what was packed and stops where it ended. */
  lemma {:induction false} WalkPack(bm: seq<u32>, m: Attrs, id: nat, limit: nat, k: bytes)
    requires limit <= SET_LIMIT && Typed(m) && |Pack(m, id, limit, k)| < TWO_32
    requires forall j | id <= j < limit :: (Test(bm, j) && !KindOf(j).Unknown?) <==> j in m
    ensures Walk(bm, id, limit, Pack(m, id, limit, k)) == Ok(Between(m, id, limit), k)
    decreases limit - id
  {
    hide PutVal, TakeVal, KindOf, Test, Between;
    BetweenStep(m, id, limit);
    if id < limit {
      if id in m { ValRoundTrip(m[id], Pack(m, id + 1, limit, k)); }
      WalkPack(bm, m, id + 1, limit, k);
    }
  }

  lemma BetweenStep(m: Attrs, id: nat, limit: nat)
    ensures id >= limit ==> Between(m, id, limit) == map[]
    ensures id < limit && id in m ==> Between(m, id, limit) == Between(m, id + 1, limit)[id := m[id]]
    ensures id < limit && id !in m ==> Between(m, id, limit) == Between(m, id + 1, limit)
  {
  }

  lemma {:induction false} PackSplit(m: Attrs, id: nat, mid: nat, limit: nat, k: bytes)
    requires id <= mid <= limit
    ensures Pack(m, id, limit, k) == Pack(m, id, mid, Pack(m, mid, limit, k))
    decreases mid - id
  {
    if id < mid { PackSplit(m, id + 1, mid, limit, k); }
  }

  /* ----- fattr4 ----- */

  function Field(m: Attrs, id: nat): Option<AttrVal> {
    if id in m then Some(m[id]) else None
  }

  function Words(m: Attrs, id: nat): Option<u32> {
    if id in m && m[id].WordVal? then Some(m[id].w) else None
  }

  function Longs(m: Attrs, id: nat): Option<u64> {
    if id in m && m[id].LongVal? then Some(m[id].l) else None
  }

  function Texts(m: Attrs, id: nat): Option<bytes> {
    if id in m && m[id].TextVal? then Some(m[id].t) else None
  }

  function Times(m: Attrs, id: nat): Option<Nfstime4> {
    if id in m && m[id].TimeVal? then Some(m[id].time) else None
  }

  /** The attributes of `m` that the client exposes. */
  function Exposed(m: Attrs): Fattr4 {
    Fattr4(Words(m, 1), Longs(m, 3), Longs(m, 4), Longs(m, 20), Words(m, 33), Words(m, 35), Texts(m, 36), Texts(m, 37),
           Longs(m, 45), Times(m, 47), Times(m, 52), Times(m, 53), Longs(m, 55))
  }

  function TakeFattr4(s: bytes): (r: Parsed<Fattr4>)
    ensures r.Ok? ==> |r.rest| <= |s|
  {
    var (bm, s) :- TakeBitmap(s);
    var (values, s) :- TakeOpaque(s);
    var (m, _) :- Walk(bm, 0, READ_LIMIT, values);
    Ok(Exposed(m), s)
  }

  /** What a server sends: any bitmap that holds the ids of `m`, and their values; `extra` is what it packs
      for ids that the client does not read. */
  function PutAttrs(bm: seq<u32>, m: Attrs, extra: bytes, k: bytes): (r: bytes)
    ensures |r| >= |k|
  {
    PutBitmap(bm, PutOpaque(Pack(m, 0, READ_LIMIT, extra), k))
  }

  /** For every bitmap and all values of its known ids: the client has exactly the attributes the server packed,
      everything else is absent, and its cursor is behind the padded opaque. */
  lemma Fattr4RoundTrip(bm: seq<u32>, m: Attrs, extra: bytes, k: bytes)
    requires Typed(m) && |PutAttrs(bm, m, extra, k)| < TWO_32
    requires forall j: u32 | j < READ_LIMIT :: (Test(bm, j) && !KindOf(j).Unknown?) <==> j in m
    ensures TakeFattr4(PutAttrs(bm, m, extra, k)) == Ok(Exposed(m), k)
  {
    hide Walk, Pack, PutBitmap, PutOpaque, TakeBitmap, TakeOpaque, Exposed;
    WalkPack(bm, m, 0, READ_LIMIT, extra);
    ExposedBelowLimit(m);
  }

  /** An id outside the table takes no bytes in the reader, so if a server packs a value for one, the attributes
      behind it are misread: 7 for id 2 (fh_expire_type) and mode 9 read as mode 7.  This client never asks
      for such an id. */
  lemma UnknownIdMisread()
    ensures KindOf(2).Unknown?
    ensures TakeFattr4(PutBitmap(BitmapOf([2, MODE]), PutOpaque(PutU32(7, PutU32(9, [])), [])))
            == Ok(NO_ATTRS.(mode := Some(7)), [])
  {
    hide Pack, TakeFattr4, Test, BitmapOf, PutBitmap, PutOpaque, PutU32, Exposed;
    var m: Attrs := map[MODE as nat := WordVal(7)];
    ModePacked(PutU32(9, []));
    ModeOnly();
    Fattr4RoundTrip(BitmapOf([2, MODE]), m, PutU32(9, []), []);
  }

  lemma ModePacked(extra: bytes)
    ensures Pack(map[MODE as nat := WordVal(7)], 0, READ_LIMIT, extra) == PutU32(7, extra)
  {
    hide Pack, PutU32;
    var m: Attrs := map[MODE as nat := WordVal(7)];
    PackNext(m, 0, MODE, READ_LIMIT, extra);
    PackNext(m, MODE + 1, READ_LIMIT - 1, READ_LIMIT, extra);
    PackEnd(m, READ_LIMIT, extra);
  }

  lemma ModeOnly()
    ensures Exposed(map[MODE as nat := WordVal(7)]) == NO_ATTRS.(mode := Some(7))
  {
  }

  lemma ExposedBelowLimit(m: Attrs)
    ensures Exposed(Between(m, 0, READ_LIMIT)) == Exposed(m)
  {
  }

  /* ----- decode_fattr4: fourteen conditional reads ----- */

  /** No id of the table lies in between. */
  predicate Gap(from: nat, id: nat) {
    from <= id && forall j | from <= j < id :: KindOf(j).Unknown?
  }

  lemma {:induction false} FillGap(bm: seq<u32>, from: nat, id: nat, s: bytes, a: Fattr4)
    requires Gap(from, id) && id <= READ_LIMIT
    ensures Fill(bm, from, s, a) == Fill(bm, id, s, a)
    decreases id - from
  {
    if from < id {
      assert KindOf(from).Unknown?;
      FillGap(bm, from + 1, id, s, a);
    }
  }

  function WordOf(o: Option<u32>): Option<AttrVal> { if o.Some? then Some(WordVal(o.value)) else None }
  function LongOf(o: Option<u64>): Option<AttrVal> { if o.Some? then Some(LongVal(o.value)) else None }
  function TextOf(o: Option<bytes>): Option<AttrVal> { if o.Some? then Some(TextVal(o.value)) else None }
  function TimeOf(o: Option<Nfstime4>): Option<AttrVal> { if o.Some? then Some(TimeVal(o.value)) else None }
  function PairOf(o: Option<(u64, u64)>): Option<AttrVal> {
    if o.Some? then Some(PairVal(o.value.0, o.value.1)) else None
  }

  const NO_ATTRS := Fattr4(None, None, None, None, None, None, None, None, None, None, None, None, None)

  /** Sets the field of an attribute; one that has no field, or not a value of its kind, is dropped. */
  function Assign(a: Fattr4, id: nat, v: AttrVal): Fattr4 {
    match v
    case WordVal(w) =>
      if id == TYPE then a.(kind := Some(w)) else if id == MODE then a.(mode := Some(w))
      else if id == NUMLINKS then a.(numlinks := Some(w)) else a
    case LongVal(l) =>
      if id == CHANGE then a.(change := Some(l)) else if id == SIZE then a.(size := Some(l))
      else if id == FILEID then a.(fileid := Some(l)) else if id == SPACE_USED then a.(spaceUsed := Some(l))
      else if id == MOUNTED_ON_FILEID then a.(mountedOnFileid := Some(l)) else a
    case TextVal(t) =>
      if id == OWNER then a.(owner := Some(t)) else if id == OWNER_GROUP then a.(ownerGroup := Some(t)) else a
    case TimeVal(t) =>
      if id == TIME_ACCESS then a.(timeAccess := Some(t)) else if id == TIME_METADATA then a.(timeMetadata := Some(t))
      else if id == TIME_MODIFY then a.(timeModify := Some(t)) else a
    case PairVal(_, _) => a
    case SetTimeVal(_) => a
  }

  function AssignOpt(a: Fattr4, id: nat, o: Option<AttrVal>): Fattr4 {
    if o.Some? then Assign(a, id, o.value) else a
  }

  /** The walk, filling in a record as it goes. */
  function Fill(bm: seq<u32>, id: nat, s: bytes, a: Fattr4): Parsed<Fattr4>
    decreases READ_LIMIT - id
  {
    if id >= READ_LIMIT then Ok(a, s)
    else if Test(bm, id) && !KindOf(id).Unknown? then
      var (v, s) :- TakeVal(KindOf(id), s);
      Fill(bm, id + 1, s, Assign(a, id, v))
    else Fill(bm, id + 1, s, a)
  }

  function Overlaid(a: Fattr4, m: Attrs): Fattr4 {
    var e := Exposed(m);
    Fattr4(Or(e.kind, a.kind), Or(e.change, a.change), Or(e.size, a.size), Or(e.fileid, a.fileid), Or(e.mode, a.mode),
           Or(e.numlinks, a.numlinks), Or(e.owner, a.owner), Or(e.ownerGroup, a.ownerGroup), Or(e.spaceUsed, a.spaceUsed),
           Or(e.timeAccess, a.timeAccess), Or(e.timeMetadata, a.timeMetadata), Or(e.timeModify, a.timeModify),
           Or(e.mountedOnFileid, a.mountedOnFileid))
  }

  function Or<T>(o: Option<T>, p: Option<T>): Option<T> { if o.Some? then o else p }

  /** Filling in a record and collecting a map find the same attributes, or the same failure. */
  lemma {:induction false} FillIsWalk(bm: seq<u32>, id: nat, s: bytes, a: Fattr4)
    ensures match Walk(bm, id, READ_LIMIT, s)
            case Ok(m, rest) => Fill(bm, id, s, a) == Ok(Overlaid(a, m), rest) && forall j <- m :: j >= id
            case Err(e) => Fill(bm, id, s, a) == Err(e)
    decreases READ_LIMIT - id
  {
    hide TakeVal, KindOf, Test, Overlaid, Assign;
    if id >= READ_LIMIT {
      OverlaidEmpty(a);
    } else if Test(bm, id) && !KindOf(id).Unknown? {
      var v := TakeVal(KindOf(id), s);
      if v.Ok? {
        FillIsWalk(bm, id + 1, v.rest, Assign(a, id, v.value));
        var m := Walk(bm, id + 1, READ_LIMIT, v.rest);
        if m.Ok? { OverlaidAssign(a, id, v.value, m.value); }
      }
    } else {
      FillIsWalk(bm, id + 1, s, a);
    }
  }

  lemma OverlaidEmpty(a: Fattr4)
    ensures Overlaid(a, map[]) == a
  {
  }

  lemma OverlaidAssign(a: Fattr4, id: nat, v: AttrVal, m: Attrs)
    requires id !in m
    ensures Overlaid(Assign(a, id, v), m) == Overlaid(a, m[id := v])
  {
    var n := m[id := v];
    assert forall j :: Words(n, j) == if j == id && v.WordVal? then Some(v.w) else Words(m, j);
    assert forall j :: Longs(n, j) == if j == id && v.LongVal? then Some(v.l) else Longs(m, j);
    assert forall j :: Texts(n, j) == if j == id && v.TextVal? then Some(v.t) else Texts(m, j);
    assert forall j :: Times(n, j) == if j == id && v.TimeVal? then Some(v.time) else Times(m, j);
    hide Words, Longs, Texts, Times;
  }

  /** One conditional read takes the walk from `from` past `id` with its value filled in; its failure is the
      failure of the walk. */
  ghost predicate Steps(bm: seq<u32>, from: nat, id: nat, s: bytes, a: Fattr4, v: Result<Option<AttrVal>>, rest: bytes) {
    Fill(bm, from, s, a) ==
    match v
    case Success(o) => Fill(bm, id + 1, rest, AssignOpt(a, id, o))
    case Failure(e) => Err(e)
  }

  function Mapped<T, U>(r: Result<T>, f: T -> U): Result<U> {
    match r
    case Success(v) => Success(f(v))
    case Failure(e) => Failure(e)
  }

  method ReadWord(ad: XdrDecoder, bm: seq<u32>, ghost from: nat, id: u32, ghost a: Fattr4) returns (r: Result<Option<u32>>)
    requires ad.Valid() && Gap(from, id) && id < READ_LIMIT && KindOf(id) == Word
    modifies ad
    ensures ad.Valid() && Steps(bm, from, id, old(ad.Rest()), a, Mapped(r, WordOf), ad.Rest())
  {
    FillGap(bm, from, id, ad.Rest(), a);
    var present := Bitmap4Test(bm, id);
    if !present { return Success(None); }
    var v :- ad.GetU32();
    r := Success(Some(v));
  }

  method ReadLong(ad: XdrDecoder, bm: seq<u32>, ghost from: nat, id: u32, ghost a: Fattr4) returns (r: Result<Option<u64>>)
    requires ad.Valid() && Gap(from, id) && id < READ_LIMIT && KindOf(id) == Long
    modifies ad
    ensures ad.Valid() && Steps(bm, from, id, old(ad.Rest()), a, Mapped(r, LongOf), ad.Rest())
  {
    FillGap(bm, from, id, ad.Rest(), a);
    var present := Bitmap4Test(bm, id);
    if !present { return Success(None); }
    var v :- ad.GetU64();
    r := Success(Some(v));
  }

  method ReadText(ad: XdrDecoder, bm: seq<u32>, ghost from: nat, id: u32, ghost a: Fattr4) returns (r: Result<Option<bytes>>)
    requires ad.Valid() && Gap(from, id) && id < READ_LIMIT && KindOf(id) == Text
    modifies ad
    ensures ad.Valid() && Steps(bm, from, id, old(ad.Rest()), a, Mapped(r, TextOf), ad.Rest())
  {
    FillGap(bm, from, id, ad.Rest(), a);
    var present := Bitmap4Test(bm, id);
    if !present { return Success(None); }
    var v :- ad.GetOpaque();
    r := Success(Some(v));
  }

  method ReadTime(ad: XdrDecoder, bm: seq<u32>, ghost from: nat, id: u32, ghost a: Fattr4) returns (r: Result<Option<Nfstime4>>)
    requires ad.Valid() && Gap(from, id) && id < READ_LIMIT && KindOf(id) == Time
    modifies ad
    ensures ad.Valid() && Steps(bm, from, id, old(ad.Rest()), a, Mapped(r, TimeOf), ad.Rest())
  {
    FillGap(bm, from, id, ad.Rest(), a);
    var present := Bitmap4Test(bm, id);
    if !present { return Success(None); }
    var v :- DecodeNfstime4(ad);
    r := Success(Some(v));
  }

  method DecodeNfstime4(dec: XdrDecoder) returns (r: Result<Nfstime4>)
    requires dec.Valid()
    modifies dec
    ensures dec.Reads(r, TakeTime(old(dec.Rest())))
  {
    var seconds :- dec.GetU64();
    var nseconds :- dec.GetU32();
    r := Success(Nfstime4(Signed(seconds), nseconds));
  }

  /** The file system id is read and dropped. */
  method ReadFsid(ad: XdrDecoder, bm: seq<u32>, ghost from: nat, ghost a: Fattr4) returns (r: Result<Option<(u64, u64)>>)
    requires ad.Valid() && Gap(from, FSID)
    modifies ad
    ensures ad.Valid() && Steps(bm, from, FSID, old(ad.Rest()), a, Mapped(r, PairOf), ad.Rest())
  {
    FillGap(bm, from, FSID, ad.Rest(), a);
    var present := Bitmap4Test(bm, FSID);
    if !present { return Success(None); }
    var major :- ad.GetU64();
    var minor :- ad.GetU64();
    r := Success(Some((major, minor)));
  }

  /** The chain of reads computes what the table-driven reader says, on every byte string. */
  method DecodeFattr4(dec: XdrDecoder) returns (r: Result<Fattr4>)
    requires dec.Valid()
    modifies dec
    ensures dec.Reads(r, TakeFattr4(old(dec.Rest())))
  {
    var bm :- DecodeBitmap4(dec);
    var attrlist :- dec.GetOpaque();
    var a :- DecodeAttrlist(bm, attrlist);
    r := Success(a);
  }

  method DecodeAttrlist(bm: seq<u32>, attrlist: bytes) returns (r: Result<Fattr4>)
    ensures r == match Walk(bm, 0, READ_LIMIT, attrlist)
                 case Ok(m, _) => Success(Exposed(m))
                 case Err(e) => Failure(e)
  {
    hide Fill, Walk, Exposed, TakeTime, Test, KindOf, Gap, AssignOpt, Assign;
    var ad := new XdrDecoder(attrlist);
    ghost var a := NO_ATTRS;
    FillAll(bm, attrlist);
    Table();
    var kind :- ReadWord(ad, bm, 0, TYPE, a);
    a := AssignOpt(a, TYPE, WordOf(kind));
    var change :- ReadLong(ad, bm, TYPE + 1, CHANGE, a);
    a := AssignOpt(a, CHANGE, LongOf(change));
    var size :- ReadLong(ad, bm, CHANGE + 1, SIZE, a);
    a := AssignOpt(a, SIZE, LongOf(size));
    var fsid :- ReadFsid(ad, bm, SIZE + 1, a);
    a := AssignOpt(a, FSID, PairOf(fsid));
    var fileid :- ReadLong(ad, bm, FSID + 1, FILEID, a);
    a := AssignOpt(a, FILEID, LongOf(fileid));
    var mode :- ReadWord(ad, bm, FILEID + 1, MODE, a);
    a := AssignOpt(a, MODE, WordOf(mode));
    var numlinks :- ReadWord(ad, bm, MODE + 1, NUMLINKS, a);
    a := AssignOpt(a, NUMLINKS, WordOf(numlinks));
    var owner :- ReadText(ad, bm, NUMLINKS + 1, OWNER, a);
    a := AssignOpt(a, OWNER, TextOf(owner));
    var ownerGroup :- ReadText(ad, bm, OWNER + 1, OWNER_GROUP, a);
    a := AssignOpt(a, OWNER_GROUP, TextOf(ownerGroup));
    var spaceUsed :- ReadLong(ad, bm, OWNER_GROUP + 1, SPACE_USED, a);
    a := AssignOpt(a, SPACE_USED, LongOf(spaceUsed));
    var timeAccess :- ReadTime(ad, bm, SPACE_USED + 1, TIME_ACCESS, a);
    a := AssignOpt(a, TIME_ACCESS, TimeOf(timeAccess));
    var timeMetadata :- ReadTime(ad, bm, TIME_ACCESS + 1, TIME_METADATA, a);
    a := AssignOpt(a, TIME_METADATA, TimeOf(timeMetadata));
    var timeModify :- ReadTime(ad, bm, TIME_METADATA + 1, TIME_MODIFY, a);
    a := AssignOpt(a, TIME_MODIFY, TimeOf(timeModify));
    var mountedOnFileid :- ReadLong(ad, bm, TIME_MODIFY + 1, MOUNTED_ON_FILEID, a);
    a := AssignOpt(a, MOUNTED_ON_FILEID, LongOf(mountedOnFileid));
    FillEnd(bm, ad.Rest(), a);
    var all := Fattr4(kind, change, size, fileid, mode, numlinks, owner, ownerGroup, spaceUsed,
                      timeAccess, timeMetadata, timeModify, mountedOnFileid);
    Assembled(all, fsid);
    r := Success(all);
  }

  lemma Assembled(a: Fattr4, fsid: Option<(u64, u64)>)
    ensures a ==
      AssignOpt(AssignOpt(AssignOpt(AssignOpt(AssignOpt(AssignOpt(AssignOpt(AssignOpt(AssignOpt(AssignOpt(AssignOpt(
      AssignOpt(AssignOpt(AssignOpt(NO_ATTRS,
        TYPE, WordOf(a.kind)), CHANGE, LongOf(a.change)), SIZE, LongOf(a.size)), FSID, PairOf(fsid)),
        FILEID, LongOf(a.fileid)), MODE, WordOf(a.mode)), NUMLINKS, WordOf(a.numlinks)), OWNER, TextOf(a.owner)),
        OWNER_GROUP, TextOf(a.ownerGroup)), SPACE_USED, LongOf(a.spaceUsed)), TIME_ACCESS, TimeOf(a.timeAccess)),
        TIME_METADATA, TimeOf(a.timeMetadata)), TIME_MODIFY, TimeOf(a.timeModify)),
        MOUNTED_ON_FILEID, LongOf(a.mountedOnFileid))
  {
    WordFields(); LongFields(); TextFields(); TimeFields(); NoField();
    hide AssignOpt, WordOf, LongOf, TextOf, TimeOf, PairOf;
  }

  lemma WordFields()
    ensures forall a: Fattr4, o: Option<u32> {:trigger AssignOpt(a, TYPE, WordOf(o))} | a.kind == None ::
              AssignOpt(a, TYPE, WordOf(o)) == a.(kind := o)
    ensures forall a: Fattr4, o: Option<u32> {:trigger AssignOpt(a, MODE, WordOf(o))} | a.mode == None ::
              AssignOpt(a, MODE, WordOf(o)) == a.(mode := o)
    ensures forall a: Fattr4, o: Option<u32> {:trigger AssignOpt(a, NUMLINKS, WordOf(o))} | a.numlinks == None ::
              AssignOpt(a, NUMLINKS, WordOf(o)) == a.(numlinks := o)
  {
  }

  lemma LongFields()
    ensures forall a: Fattr4, o: Option<u64> {:trigger AssignOpt(a, CHANGE, LongOf(o))} | a.change == None ::
              AssignOpt(a, CHANGE, LongOf(o)) == a.(change := o)
    ensures forall a: Fattr4, o: Option<u64> {:trigger AssignOpt(a, SIZE, LongOf(o))} | a.size == None ::
              AssignOpt(a, SIZE, LongOf(o)) == a.(size := o)
    ensures forall a: Fattr4, o: Option<u64> {:trigger AssignOpt(a, FILEID, LongOf(o))} | a.fileid == None ::
              AssignOpt(a, FILEID, LongOf(o)) == a.(fileid := o)
    ensures forall a: Fattr4, o: Option<u64> {:trigger AssignOpt(a, SPACE_USED, LongOf(o))} | a.spaceUsed == None ::
              AssignOpt(a, SPACE_USED, LongOf(o)) == a.(spaceUsed := o)
    ensures forall a: Fattr4, o: Option<u64> {:trigger AssignOpt(a, MOUNTED_ON_FILEID, LongOf(o))} | a.mountedOnFileid == None ::
              AssignOpt(a, MOUNTED_ON_FILEID, LongOf(o)) == a.(mountedOnFileid := o)
  {
  }

  lemma TextFields()
    ensures forall a: Fattr4, o: Option<bytes> {:trigger AssignOpt(a, OWNER, TextOf(o))} | a.owner == None ::
              AssignOpt(a, OWNER, TextOf(o)) == a.(owner := o)
    ensures forall a: Fattr4, o: Option<bytes> {:trigger AssignOpt(a, OWNER_GROUP, TextOf(o))} | a.ownerGroup == None ::
              AssignOpt(a, OWNER_GROUP, TextOf(o)) == a.(ownerGroup := o)
  {
  }

  lemma TimeFields()
    ensures forall a: Fattr4, o: Option<Nfstime4> {:trigger AssignOpt(a, TIME_ACCESS, TimeOf(o))} | a.timeAccess == None ::
              AssignOpt(a, TIME_ACCESS, TimeOf(o)) == a.(timeAccess := o)
    ensures forall a: Fattr4, o: Option<Nfstime4> {:trigger AssignOpt(a, TIME_METADATA, TimeOf(o))} | a.timeMetadata == None ::
              AssignOpt(a, TIME_METADATA, TimeOf(o)) == a.(timeMetadata := o)
    ensures forall a: Fattr4, o: Option<Nfstime4> {:trigger AssignOpt(a, TIME_MODIFY, TimeOf(o))} | a.timeModify == None ::
              AssignOpt(a, TIME_MODIFY, TimeOf(o)) == a.(timeModify := o)
  {
  }

  lemma NoField()
    ensures forall a: Fattr4, o: Option<(u64, u64)> :: AssignOpt(a, FSID, PairOf(o)) == a
  {
  }

  lemma FillAll(bm: seq<u32>, s: bytes)
    ensures match Walk(bm, 0, READ_LIMIT, s)
            case Ok(m, rest) => Fill(bm, 0, s, NO_ATTRS) == Ok(Exposed(m), rest)
            case Err(e) => Fill(bm, 0, s, NO_ATTRS) == Err(e)
  {
    hide Walk, Fill;
    FillIsWalk(bm, 0, s, NO_ATTRS);
  }

  lemma FillEnd(bm: seq<u32>, s: bytes, a: Fattr4)
    ensures Fill(bm, READ_LIMIT, s, a) == Ok(a, s)
  {
  }

  lemma Table()
    ensures KindOf(TYPE) == KindOf(MODE) == KindOf(NUMLINKS) == Word
    ensures KindOf(CHANGE) == KindOf(SIZE) == KindOf(FILEID) == KindOf(SPACE_USED) == KindOf(MOUNTED_ON_FILEID) == Long
    ensures KindOf(OWNER) == KindOf(OWNER_GROUP) == Text
    ensures KindOf(TIME_ACCESS) == KindOf(TIME_METADATA) == KindOf(TIME_MODIFY) == Time
    ensures Gap(0, TYPE) && Gap(TYPE + 1, CHANGE) && Gap(CHANGE + 1, SIZE) && Gap(SIZE + 1, FSID) && Gap(FSID + 1, FILEID)
    ensures Gap(FILEID + 1, MODE) && Gap(MODE + 1, NUMLINKS) && Gap(NUMLINKS + 1, OWNER) && Gap(OWNER + 1, OWNER_GROUP)
    ensures Gap(OWNER_GROUP + 1, SPACE_USED) && Gap(SPACE_USED + 1, TIME_ACCESS) && Gap(TIME_ACCESS + 1, TIME_METADATA)
    ensures Gap(TIME_METADATA + 1, TIME_MODIFY) && Gap(TIME_MODIFY + 1, MOUNTED_ON_FILEID)
  {
  }

  /* ----- encode_fattr4: the attributes to set ----- */

  function SetTimeOf(o: Option<Nfstime4>): Option<AttrVal> { if o.Some? then Some(SetTimeVal(o.value)) else None }

  function SetTimes(m: Attrs, id: nat): Option<Nfstime4> {
    if id in m && m[id].SetTimeVal? then Some(m[id].setTime) else None
  }

  function AddIf(m: Attrs, id: nat, o: Option<AttrVal>): (r: Attrs)
    ensures forall j :: Field(r, j) == if j == id && o.Some? then o else Field(m, j)
  {
    if o.Some? then m[id := o.value] else m
  }

  function SettableAttrs(a: Sattr4): Attrs {
    AddIf(AddIf(AddIf(AddIf(AddIf(AddIf(map[], 4, LongOf(a.size)), 33, WordOf(a.mode)), 36, TextOf(a.owner)),
      37, TextOf(a.ownerGroup)), 64, SetTimeOf(a.timeAccess)), 65, SetTimeOf(a.timeModify))
  }

  predicate Settable(id: nat) {
    id == SIZE || id == MODE || id == OWNER || id == OWNER_GROUP || id == TIME_ACCESS_SET || id == TIME_MODIFY_SET
  }

  lemma SettableFields(a: Sattr4)
    ensures var m := SettableAttrs(a);
            && Field(m, SIZE) == LongOf(a.size) && Field(m, MODE) == WordOf(a.mode)
            && Field(m, OWNER) == TextOf(a.owner) && Field(m, OWNER_GROUP) == TextOf(a.ownerGroup)
            && Field(m, TIME_ACCESS_SET) == SetTimeOf(a.timeAccess)
            && Field(m, TIME_MODIFY_SET) == SetTimeOf(a.timeModify)
            && forall j :: !Settable(j) ==> Field(m, j) == None
  {
    hide AddIf, LongOf, WordOf, TextOf, SetTimeOf;
    assert forall j :: Field(map[], j) == None;
  }

  lemma SettableTyped(a: Sattr4)
    ensures Typed(SettableAttrs(a))
  {
    hide SettableAttrs;
    SettableFields(a);
    var m := SettableAttrs(a);
    forall j | j in m ensures KindOfVal(m[j]) == KindOf(j) {
      assert Settable(j) && Field(m, j) == Some(m[j]);
    }
  }

  function SetIf(bm: seq<u32>, present: bool, id: u32): (r: seq<u32>)
    ensures forall j: u32 :: Test(r, j) <==> Test(bm, j) || (present && j == id)
    ensures |r| <= |bm| || |r| == id / 32 + 1
  {
    if present then Set(bm, id) else bm
  }

  function SettableBits(a: Sattr4): seq<u32> {
    SetIf(SetIf(SetIf(SetIf(SetIf(SetIf([], a.size.Some?, SIZE), a.mode.Some?, MODE), a.owner.Some?, OWNER),
      a.ownerGroup.Some?, OWNER_GROUP), a.timeAccess.Some?, TIME_ACCESS_SET), a.timeModify.Some?, TIME_MODIFY_SET)
  }

  lemma SettableBitsAreIds(a: Sattr4)
    ensures forall j: u32 :: Test(SettableBits(a), j) <==> j in SettableAttrs(a)
    ensures |SettableBits(a)| <= 3
  {
    hide SettableBits, SettableAttrs, Test, SetIf;
    forall j: u32 ensures Test(SettableBits(a), j) <==> j in SettableAttrs(a) { SettableBit(a, j); }
    FewWords(a);
  }

  lemma SettableBit(a: Sattr4, j: u32)
    ensures Test(SettableBits(a), j) <==> j in SettableAttrs(a)
  {
    hide SetIf, Test, SettableAttrs;
    SettableFields(a);
    NothingSet();
    assert j in SettableAttrs(a) <==> Field(SettableAttrs(a), j).Some?;
  }

  lemma FewWords(a: Sattr4)
    ensures |SettableBits(a)| <= 3
  {
    hide SetIf;
  }

  lemma NothingSet()
    ensures forall j: u32 :: !Test([], j)
  {
  }

  function PutSattr4(a: Sattr4, k: bytes): (r: bytes)
    ensures |r| >= |k|
  {
    PutBitmap(SettableBits(a), PutOpaque(Pack(SettableAttrs(a), 0, SET_LIMIT, []), k))
  }

  /** A server that takes attributes to set, with this client's ids. */
  function TakeSattr4(s: bytes): Parsed<Sattr4> {
    var (bm, s) :- TakeBitmap(s);
    var (values, s) :- TakeOpaque(s);
    var (m, extra) :- Walk(bm, 0, SET_LIMIT, values);
    if extra != [] then Err(ProtocolError)
    else Ok(Sattr4(Longs(m, 4), Words(m, 33), Texts(m, 36), Texts(m, 37), SetTimes(m, 64), SetTimes(m, 65)), s)
  }

  /** A server gets exactly the attributes to set, for all 64 combinations. */
  lemma Sattr4RoundTrip(a: Sattr4, k: bytes)
    requires |PutSattr4(a, k)| < TWO_32
    ensures TakeSattr4(PutSattr4(a, k)) == Ok(a, k)
  {
    hide SettableAttrs, SettableBits, Walk, Pack, PutBitmap, PutOpaque, TakeBitmap, TakeOpaque, KindOf, Test;
    var m := SettableAttrs(a);
    SettableFields(a);
    SettableTyped(a);
    SettableBitsAreIds(a);
    WalkPack(SettableBits(a), m, 0, SET_LIMIT, []);
    forall j | j in m ensures j < SET_LIMIT { assert Field(m, j).Some?; }
    assert Between(m, 0, SET_LIMIT) == m;
  }

  /** The client's own reader finds size, mode, owner and group as they were set and nothing else; the times to
      set come last and are passed over. */
  lemma DecodeOfEncode(a: Sattr4, k: bytes)
    requires |PutSattr4(a, k)| < TWO_32
    ensures TakeFattr4(PutSattr4(a, k)) ==
            Ok(NO_ATTRS.(size := a.size, mode := a.mode, owner := a.owner, ownerGroup := a.ownerGroup), k)
  {
    hide SettableAttrs, SettableBits, Walk, Pack, PutBitmap, PutOpaque, TakeFattr4, KindOf, Test, Exposed;
    var m := SettableAttrs(a);
    SettableTyped(a);
    SettableBitsAreIds(a);
    PackSplit(m, 0, READ_LIMIT, SET_LIMIT, []);
    Fattr4RoundTrip(SettableBits(a), m, Pack(m, READ_LIMIT, SET_LIMIT, []), k);
    ExposedSettable(a);
  }

  lemma ExposedSettable(a: Sattr4)
    ensures Exposed(SettableAttrs(a)) ==
            NO_ATTRS.(size := a.size, mode := a.mode, owner := a.owner, ownerGroup := a.ownerGroup)
  {
    hide SettableAttrs;
    SettableFields(a);
    var m := SettableAttrs(a);
    assert forall id :: id in m <==> Field(m, id).Some?;
    assert forall id :: id in m ==> Field(m, id) == Some(m[id]);
  }

  function PutField(o: Option<AttrVal>, k: bytes): bytes {
    if o.Some? then PutVal(o.value, k) else k
  }

  lemma {:induction false} PackNext(m: Attrs, from: nat, id: nat, limit: nat, k: bytes)
    requires from <= id < limit && forall j | from <= j < id :: Field(m, j) == None
    ensures Pack(m, from, limit, k) == PutField(Field(m, id), Pack(m, id + 1, limit, k))
    decreases id - from
  {
    hide PutVal;
    if from < id {
      assert Field(m, from) == None;
      PackNext(m, from + 1, id, limit, k);
    }
  }

  lemma PackEnd(m: Attrs, limit: nat, k: bytes)
    ensures Pack(m, limit, limit, k) == k
  {
  }

  method EncodeFattr4(enc: XdrEncoder, a: Sattr4)
    modifies enc
    ensures forall k {:trigger enc.buf + k} :: enc.buf + k == old(enc.buf) + PutSattr4(a, k)
  {
    hide Set, Test, Pack, SettableAttrs, PutOpaque, PutBitmap;
    var bm := new Bitmap4();
    if a.size.Some? { bm.SetId(SIZE); }
    if a.mode.Some? { bm.SetId(MODE); }
    if a.owner.Some? { bm.SetId(OWNER); }
    if a.ownerGroup.Some? { bm.SetId(OWNER_GROUP); }
    if a.timeAccess.Some? { bm.SetId(TIME_ACCESS_SET); }
    if a.timeModify.Some? { bm.SetId(TIME_MODIFY_SET); }
    var values := EncodeAttrlist(a);
    EncodeBitmap4(enc, bm.words);
    enc.PutOpaque(values);
  }

  method EncodeAttrlist(a: Sattr4) returns (values: bytes)
    ensures values == Pack(SettableAttrs(a), 0, SET_LIMIT, [])
  {
    hide SettableAttrs, Pack, PutField, LongOf, WordOf, TextOf, SetTimeOf;
    PackSettable(a);
    var ae := new XdrEncoder();
    EncodeLongIf(ae, a.size);
    EncodeWordIf(ae, a.mode);
    EncodeTextIf(ae, a.owner);
    EncodeTextIf(ae, a.ownerGroup);
    EncodeSetTimeIf(ae, a.timeAccess);
    EncodeSetTimeIf(ae, a.timeModify);
    values := ae.buf;
    assert values + [] == values;
  }

  lemma PackSettable(a: Sattr4)
    ensures Pack(SettableAttrs(a), 0, SET_LIMIT, []) ==
            PutField(LongOf(a.size), PutField(WordOf(a.mode), PutField(TextOf(a.owner), PutField(TextOf(a.ownerGroup),
            PutField(SetTimeOf(a.timeAccess), PutField(SetTimeOf(a.timeModify), []))))))
  {
    hide SettableAttrs, Pack, PutField, Field, LongOf, WordOf, TextOf, SetTimeOf;
    var m := SettableAttrs(a);
    SettableFields(a);
    PackNext(m, 0, SIZE, SET_LIMIT, []);
    PackNext(m, SIZE + 1, MODE, SET_LIMIT, []);
    PackNext(m, MODE + 1, OWNER, SET_LIMIT, []);
    PackNext(m, OWNER + 1, OWNER_GROUP, SET_LIMIT, []);
    PackNext(m, OWNER_GROUP + 1, TIME_ACCESS_SET, SET_LIMIT, []);
    PackNext(m, TIME_ACCESS_SET + 1, TIME_MODIFY_SET, SET_LIMIT, []);
    PackEnd(m, SET_LIMIT, []);
  }

  method EncodeLongIf(enc: XdrEncoder, o: Option<u64>)
    modifies enc
    ensures forall k {:trigger enc.buf + k} :: enc.buf + k == old(enc.buf) + PutField(LongOf(o), k)
  {
    if o.Some? { enc.PutU64(o.value); }
  }

  method EncodeWordIf(enc: XdrEncoder, o: Option<u32>)
    modifies enc
    ensures forall k {:trigger enc.buf + k} :: enc.buf + k == old(enc.buf) + PutField(WordOf(o), k)
  {
    if o.Some? { enc.PutU32(o.value); }
  }

  method EncodeTextIf(enc: XdrEncoder, o: Option<bytes>)
    modifies enc
    ensures forall k {:trigger enc.buf + k} :: enc.buf + k == old(enc.buf) + PutField(TextOf(o), k)
  {
    if o.Some? { enc.PutOpaque(o.value); }
  }

  /** The time a client sets is marked as its own, settime4 1. */
  method EncodeSetTimeIf(enc: XdrEncoder, o: Option<Nfstime4>)
    modifies enc
    ensures forall k {:trigger enc.buf + k} :: enc.buf + k == old(enc.buf) + PutField(SetTimeOf(o), k)
  {
    if o.Some? {
      TwosComplement(o.value.seconds);
      enc.PutU32(1);
      enc.PutU64(Unsigned(o.value.seconds));
      enc.PutU32(o.value.nseconds);
    }
  }
}
