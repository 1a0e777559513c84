/** Words as sets of bits, and bitmap4, the growing word array that is a set of attribute ids
    (section 16.7 of RFC 7530): id `n` is bit `n % 32` of word `n / 32`. */
module Bitmap {
  import opened Wire
  import opened Xdr
  import opened Rpc

  /* ----- the bit operations of the original, on numbers ----- */

  function Pow2(n: nat): (r: nat)
    ensures r > 0
  {
    if n == 0 then 1 else 2 * Pow2(n - 1)
  }

  predicate Bit(w: nat, i: nat)
    decreases i
  {
    if i == 0 then w % 2 == 1 else Bit(w / 2, i - 1)
  }

  function BitOr(a: nat, b: nat): nat {
    if a == 0 && b == 0 then 0
    else 2 * BitOr(a / 2, b / 2) + (if a % 2 == 1 || b % 2 == 1 then 1 else 0)
  }

  function BitAnd(a: nat, b: nat): (r: nat)
    ensures r <= a && r <= b
  {
    if a == 0 || b == 0 then 0
    else 2 * BitAnd(a / 2, b / 2) + (if a % 2 == 1 && b % 2 == 1 then 1 else 0)
  }

  lemma {:induction false} ZeroBits(i: nat)
    ensures !Bit(0, i)
  {
    if i > 0 { ZeroBits(i - 1); }
  }

  lemma {:induction false} OrBits(a: nat, b: nat, i: nat)
    ensures Bit(BitOr(a, b), i) <==> Bit(a, i) || Bit(b, i)
    decreases i
  {
    hide BitOr;
    OrStep(a, b);
    if i > 0 { OrBits(a / 2, b / 2, i - 1); }
  }

  lemma OrStep(a: nat, b: nat)
    ensures BitOr(a, b) / 2 == BitOr(a / 2, b / 2)
    ensures BitOr(a, b) % 2 == 1 <==> a % 2 == 1 || b % 2 == 1
  {
  }

  lemma {:induction false} Pow2Bits(n: nat, i: nat)
    ensures Bit(Pow2(n), i) <==> i == n
    decreases i
  {
    if n == 0 {
      if i > 0 { ZeroBits(i - 1); assert Pow2(0) / 2 == 0; }
    } else if i > 0 {
      Pow2Bits(n - 1, i - 1);
      assert Pow2(n) / 2 == Pow2(n - 1);
    }
  }

  lemma {:induction false} AndPow2(w: nat, n: nat)
    ensures BitAnd(w, Pow2(n)) != 0 <==> Bit(w, n)
    decreases n
  {
    if w == 0 { ZeroBits(n); }
    else if n > 0 {
      AndPow2(w / 2, n - 1);
      assert Pow2(n) / 2 == Pow2(n - 1) && Pow2(n) % 2 == 0;
    } else {
      assert Pow2(0) / 2 == 0;
    }
  }

  lemma {:induction false} OrBound(a: nat, b: nat, n: nat)
    requires a < Pow2(n) && b < Pow2(n)
    ensures BitOr(a, b) < Pow2(n)
    decreases n
  {
    if n > 0 && (a != 0 || b != 0) { OrBound(a / 2, b / 2, n - 1); }
  }

  lemma {:induction false} Pow2Monotone(m: nat, n: nat)
    requires m < n
    ensures 2 * Pow2(m) <= Pow2(n)
    decreases n
  {
    if m < n - 1 { Pow2Monotone(m, n - 1); }
  }

  /** A word is its bits. */
  lemma {:induction false} SameBits(a: nat, b: nat, n: nat)
    requires a < Pow2(n) && b < Pow2(n)
    requires forall i :: 0 <= i < n ==> (Bit(a, i) <==> Bit(b, i))
    ensures a == b
    decreases n
  {
    if n > 0 {
      assert Bit(a, 0) <==> Bit(b, 0);
      forall i | 0 <= i < n - 1 ensures Bit(a / 2, i) <==> Bit(b / 2, i) {
        assert Bit(a, i + 1) <==> Bit(b, i + 1);
      }
      SameBits(a / 2, b / 2, n - 1);
    }
  }

  lemma Pow2Of32()
    ensures Pow2(32) == TWO_32
  {
    assert Pow2(8) == 0x100;
    assert Pow2(16) == 0x1_0000;
    assert Pow2(24) == 0x100_0000;
  }

  /** Bit `i` is the binary digit of weight 2^i. */
  lemma {:induction false} BitIsDigit(w: nat, i: nat)
    ensures Bit(w, i) <==> w / Pow2(i) % 2 == 1
    decreases i
  {
    if i > 0 {
      BitIsDigit(w / 2, i - 1);
      HalfOf(w, Pow2(i - 1));
    }
  }

  lemma HalfOf(w: nat, p: nat)
    requires p > 0
    ensures w / 2 / p == w / (2 * p)
  {
    var q, r := w / 2 / p, w / 2 % p;
    assert w / 2 == q * p + r;
    assert w == q * (2 * p) + (2 * r + w % 2);
    DivisionIs(w, 2 * p, q, 2 * r + w % 2);
  }

  lemma Quotient(a: int, b: nat, d: nat, q: int, r: nat)
    requires a * d + b == q * d + r && b < d && r < d
    ensures a == q
  {
    assert (a - q) * d == r - b;
    if a > q { Multiple(a - q, d); }
    if a < q { Multiple(q - a, d); }
  }

  lemma Multiple(e: nat, d: nat)
    requires e > 0
    ensures e * d >= d
  {
  }

  lemma DivisionIs(w: nat, d: nat, q: nat, r: nat)
    requires w == q * d + r && r < d
    ensures w / d == q
  {
    Quotient(w / d, w % d, d, q, r);
  }

  /* ----- bitmap4 ----- */

  predicate Test(bm: seq<u32>, id: u32) {
    id / 32 < |bm| && Bit(bm[id / 32], id % 32)
  }

  function SetBit(w: u32, n: nat): (r: u32)
    requires n < 32
    ensures forall i :: Bit(r, i) <==> Bit(w, i) || i == n
    ensures r != 0
  {
    Pow2Of32();
    Pow2Monotone(n, 32);
    OrBound(w, Pow2(n), 32);
    assert forall i :: Bit(BitOr(w, Pow2(n)), i) <==> Bit(w, i) || i == n by {
      forall i ensures Bit(BitOr(w, Pow2(n)), i) <==> Bit(w, i) || i == n {
        OrBits(w, Pow2(n), i);
        Pow2Bits(n, i);
      }
    }
    ZeroBits(n);
    BitOr(w, Pow2(n))
  }

  function Grown(bm: seq<u32>, size: nat): (r: seq<u32>)
    ensures |r| == if |bm| < size then size else |bm|
    ensures forall i :: 0 <= i < |r| ==> r[i] == if i < |bm| then bm[i] else 0
  {
    if |bm| < size then bm + seq(size - |bm|, _ => 0) else bm
  }

  /** The last word is in use, so no shorter array stands for the same set. */
  predicate Canonical(bm: seq<u32>) {
    bm == [] || bm[|bm| - 1] != 0
  }

  function Set(bm: seq<u32>, id: u32): (r: seq<u32>)
    ensures forall j: u32 :: Test(r, j) <==> Test(bm, j) || j == id
    ensures Canonical(bm) ==> Canonical(r)
    ensures |r| <= |bm| || |r| == id / 32 + 1
  {
    var g := Grown(bm, id / 32 + 1);
    var r := g[id / 32 := SetBit(g[id / 32], id % 32)];
    assert forall j: u32 :: Test(r, j) <==> Test(bm, j) || j == id by {
      forall j: u32 ensures Test(r, j) <==> Test(bm, j) || j == id {
        ZeroBits(j % 32);
      }
    }
    r
  }

  /** An id is in a bitmap if the digit of weight 2^(id % 32) of word id / 32 is 1. */
  lemma TestIsDigit(bm: seq<u32>, id: u32)
    ensures Test(bm, id) <==> id / 32 < |bm| && bm[id / 32] / Pow2(id % 32) % 2 == 1
  {
    if id / 32 < |bm| { BitIsDigit(bm[id / 32], id % 32); }
  }

  class Bitmap4 {
    var words: seq<u32>

    constructor ()
      ensures words == []
    {
      words := [];
    }

    method SetId(id: u32)
      modifies this
      ensures words == Set(old(words), id)
    {
      var word := id / 32;
      if |words| <= word { words := Grown(words, word + 1); }
      words := words[word := SetBit(words[word], id % 32)];
    }
  }

  method Bitmap4Test(bm: seq<u32>, id: u32) returns (r: bool)
    ensures r <==> Test(bm, id)
  {
    var word := id / 32;
    if |bm| <= word { return false; }
    AndPow2(bm[word], id % 32);
    r := BitAnd(bm[word], Pow2(id % 32)) != 0;
  }

  /** The bitmap of a list of ids holds exactly these ids, in an array of least length. */
  method MakeBitmap4(ids: seq<u32>) returns (r: seq<u32>)
    ensures r == BitmapOf(ids)
  {
    var bm := new Bitmap4();
    for i := 0 to |ids|
      invariant bm.words == BitmapOf(ids[..i])
    {
      bm.SetId(ids[i]);
      assert ids[..i + 1][..i] == ids[..i];
    }
    assert ids[..|ids|] == ids;
    r := bm.words;
  }

  function BitmapOf(ids: seq<u32>): (r: seq<u32>)
    ensures forall j: u32 :: Test(r, j) <==> j in ids
    ensures Canonical(r)
    ensures |r| <= 0x800_0000
  {
    if ids == [] then [] else Set(BitmapOf(ids[..|ids| - 1]), ids[|ids| - 1])
  }

  /** Neither the order nor the repeats of an id list show in its bitmap. */
  lemma OnlyTheSetShows(a: seq<u32>, b: seq<u32>)
    ensures BitmapOf(a) == BitmapOf(b) <==> forall j: u32 :: j in a <==> j in b
  {
    if forall j: u32 :: j in a <==> j in b { CanonicalUnique(BitmapOf(a), BitmapOf(b)); }
    else {
      var j: u32 :| !(j in a <==> j in b);
      assert Test(BitmapOf(a), j) != Test(BitmapOf(b), j);
    }
  }

  /** Two arrays of least length for one set are the same array. */
  lemma CanonicalUnique(a: seq<u32>, b: seq<u32>)
    requires Canonical(a) && Canonical(b) && |a| <= 0x800_0000 && |b| <= 0x800_0000
    requires forall j: u32 :: Test(a, j) <==> Test(b, j)
    ensures a == b
  {
    Pow2Of32();
    if |a| < |b| { NotShorter(a, b); }
    if |b| < |a| { NotShorter(b, a); }
    forall w | 0 <= w < |a| ensures a[w] == b[w] {
      forall i | 0 <= i < 32 ensures Bit(a[w], i) <==> Bit(b[w], i) {
        assert Test(a, 32 * w + i) <==> Test(b, 32 * w + i);
      }
      SameBits(a[w], b[w], 32);
    }
  }

  lemma NotShorter(a: seq<u32>, b: seq<u32>)
    requires Canonical(b) && |a| < |b| <= 0x800_0000
    ensures exists j: u32 :: Test(b, j) && !Test(a, j)
  {
    var w := |b| - 1;
    Pow2Of32();
    if forall i :: 0 <= i < 32 ==> !Bit(b[w], i) {
      forall i | 0 <= i < 32 ensures Bit(b[w], i) <==> Bit(0, i) { ZeroBits(i); }
      SameBits(b[w], 0, 32);
      assert false;
    }
    var i :| 0 <= i < 32 && Bit(b[w], i);
    assert Test(b, 32 * w + i) && !Test(a, 32 * w + i);
  }

  /* ----- on the wire: a counted array of words ----- */

  function TakeBitmap(s: bytes): Parsed<seq<u32>> {
    var (n, s) :- TakeU32(s);
    TakeWords(n, s)
  }

  function PutBitmap(bm: seq<u32>, k: bytes): (r: bytes)
    ensures |r| == 4 + 4 * |bm| + |k|
    ensures |bm| < TWO_32 ==> TakeBitmap(r) == Ok(bm, k)
  {
    PutU32(Low32(|bm|), PutWords(bm, k))
  }

  method EncodeBitmap4(enc: XdrEncoder, bm: seq<u32>)
    modifies enc
    ensures forall k {:trigger enc.buf + k} :: enc.buf + k == old(enc.buf) + PutBitmap(bm, k)
  {
    enc.PutU32(Low32(|bm|));
    EncodeWords(enc, bm);
  }

  method DecodeBitmap4(dec: XdrDecoder) returns (r: Result<seq<u32>>)
    requires dec.Valid()
    modifies dec
    ensures dec.Reads(r, TakeBitmap(old(dec.Rest())))
  {
    var count :- dec.GetU32();
    var bm: seq<u32> := [];
    ghost var all := TakeWords(count, dec.Rest());
    for i := 0 to count
      invariant dec.Valid() && all == Prepend(bm, TakeWords(count - i, dec.Rest()))
    {
      var w :- dec.GetU32();
      PrependTwice(bm, [w], TakeWords(count - i - 1, dec.Rest()));
      bm := bm + [w];
    }
    assert bm + [] == bm;
    r := Success(bm);
  }
}
