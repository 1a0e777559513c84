/** XDR as a language: lists of items of any kinds, and the schemas that read them back. */
module XdrSchema {
  import opened Wire

  datatype Item = U32(v: u32) | U64(w: u64) | Opaque(data: bytes) | Fixed(data: bytes)
  datatype Kind = KU32 | KU64 | KOpaque | KFixed(n: nat)

  function KindOf(i: Item): Kind {
    match i
    case U32(_) => KU32
    case U64(_) => KU64
    case Opaque(_) => KOpaque
    case Fixed(d) => KFixed(|d|)
  }

  function TakeItem(kind: Kind, s: bytes): Parsed<Item> {
    match kind
    case KU32 => var (v, s) :- TakeU32(s); Ok(U32(v), s)
    case KU64 => var (v, s) :- TakeU64(s); Ok(U64(v), s)
    case KOpaque => var (d, s) :- TakeOpaque(s); Ok(Opaque(d), s)
    case KFixed(n) => var (d, s) :- TakeFixed(n, s); Ok(Fixed(d), s)
  }

  function PutItem(i: Item, k: bytes): (r: bytes)
    ensures |r| >= |k|
    ensures (i.Opaque? ==> |i.data| < TWO_32) ==> TakeItem(KindOf(i), r) == Ok(i, k)
  {
    match i
    case U32(v) => PutU32(v, k)
    case U64(v) => PutU64(v, k)
    case Opaque(d) => PutOpaque(d, k)
    case Fixed(d) => PutFixed(d, k)
  }

  function TakeItems(kinds: seq<Kind>, s: bytes): Parsed<seq<Item>> {
    if kinds == [] then Ok([], s)
    else
      var (first, s) :- TakeItem(kinds[0], s);
      var (others, s) :- TakeItems(kinds[1..], s);
      Ok([first] + others, s)
  }

  function PutItems(items: seq<Item>, k: bytes): bytes {
    if items == [] then k else PutItem(items[0], PutItems(items[1..], k))
  }

  function Kinds(items: seq<Item>): (r: seq<Kind>)
    ensures |r| == |items|
  {
    if items == [] then [] else [KindOf(items[0])] + Kinds(items[1..])
  }

  /** A schema is enough to read a list of items back, whatever follows it. */
  lemma {:induction false} ItemsRoundTrip(items: seq<Item>, k: bytes)
    requires forall i <- items | i.Opaque? :: |i.data| < TWO_32
    ensures TakeItems(Kinds(items), PutItems(items, k)) == Ok(items, k)
  {
    if items != [] {
      ItemsRoundTrip(items[1..], k);
      assert Kinds(items)[1..] == Kinds(items[1..]);
      assert items == [items[0]] + items[1..];
    }
  }

  /** The cast of the length to 32 bits is why the bound is there: data of 2^32 bytes or more never comes back. */
  lemma OpaqueRoundTripIff(d: bytes, k: bytes)
    ensures TakeOpaque(PutOpaque(d, k)) == Ok(d, k) <==> |d| < TWO_32
  {
  }

  /** The padding bytes behind the front item of `s` are zero. */
  predicate ZeroPadded(kind: Kind, s: bytes)
    requires TakeItem(kind, s).Ok?
  {
    match kind
    case KU32 => true
    case KU64 => true
    case KOpaque => var n := TakeU32(s).value; s[4 + n..4 + n + PadLength(n)] == Zeros(PadLength(n))
    case KFixed(n) => s[n..n + PadLength(n)] == Zeros(PadLength(n))
  }

  lemma WordOfBytes(s: bytes)
    requires TakeU32(s).Ok?
    ensures PutU32(TakeU32(s).value, TakeU32(s).rest) == s
  {
    BigEndianUnique(s[..4]);
    assert s == s[..4] + s[4..];
  }

  lemma FixedOfBytes(n: nat, s: bytes)
    requires TakeFixed(n, s).Ok?
    ensures PutFixed(TakeFixed(n, s).value, TakeFixed(n, s).rest) == s <==> ZeroPadded(KFixed(n), s)
  {
    var p := PadLength(n);
    var r := PutFixed(TakeFixed(n, s).value, TakeFixed(n, s).rest);
    assert r == s[..n] + Zeros(p) + s[n + p..];
    assert s == s[..n] + s[n..n + p] + s[n + p..];
    assert r[n..n + p] == Zeros(p);
  }

  lemma DoubleWordOfBytes(s: bytes)
    requires TakeU64(s).Ok?
    ensures PutU64(TakeU64(s).value, TakeU64(s).rest) == s
  {
    var hi := TakeU32(s);
    var lo := TakeU32(hi.rest);
    WordOfBytes(s);
    WordOfBytes(hi.rest);
    var v: u64 := TakeU64(s).value;
    assert v / TWO_32 == hi.value && v % TWO_32 == lo.value;
  }

  lemma OpaqueOfBytes(s: bytes)
    requires TakeOpaque(s).Ok?
    ensures PutOpaque(TakeOpaque(s).value, TakeOpaque(s).rest) == s <==> ZeroPadded(KOpaque, s)
  {
    var n := TakeU32(s);
    WordOfBytes(s);
    FixedOfBytes(n.value, n.rest);
    var body := PutFixed(TakeOpaque(s).value, TakeOpaque(s).rest);
    assert PutU32(n.value, body)[4..] == body && PutU32(n.value, n.rest)[4..] == n.rest;
    assert n.rest[n.value..n.value + PadLength(n.value)] == s[4 + n.value..4 + n.value + PadLength(n.value)];
  }

  /** The decoder never looks at padding: a decoded item encodes back to the very bytes it was read from
      exactly when its padding was zero. */
  lemma ReencodeIff(kind: Kind, s: bytes)
    requires TakeItem(kind, s).Ok?
    ensures PutItem(TakeItem(kind, s).value, TakeItem(kind, s).rest) == s <==> ZeroPadded(kind, s)
  {
    match kind {
      case KU32 => WordOfBytes(s);
      case KU64 => DoubleWordOfBytes(s);
      case KOpaque => OpaqueOfBytes(s);
      case KFixed(n) => FixedOfBytes(n, s);
    }
  }
}
