/** The values of the wire and the two ways of reading it: `Put...(x, k)` is the wire form of `x` with any
    bytes `k` behind it, `Take...(s)` splits a value off the front of `s`.  Every `Put` promises that the
    matching `Take` gives back exactly `x` and stops exactly at `k`. */
module Wire {
  type byte = x: int | 0 <= x < 0x100
  type bytes = seq<byte>
  const TWO_32 := 0x1_0000_0000
  type u32 = x: int | 0 <= x < 0x1_0000_0000
  type u64 = x: int | 0 <= x < 0x1_0000_0000_0000_0000

  type verifier4 = v: bytes | |v| == 8 witness [0, 0, 0, 0, 0, 0, 0, 0]

  datatype Option<+T> = None | Some(value: T)

  /** The exceptions of the original: a decoder that runs past its buffer, a broken connection, a reply the
      RPC layer rejects, a protocol status other than 0, and a server that breaks the protocol. */
  datatype Error =
    | Underflow
    | ConnectionLost
    | BadReply
    | Status(code: u32)
    | ProtocolError

  datatype Result<+T> = Success(value: T) | Failure(error: Error) {
    predicate IsFailure() { Failure? }
    function PropagateFailure<U>(): Result<U> requires Failure? { Failure(error) }
    function Extract(): T requires Success? { value }
  }

  datatype Parsed<+T> = Ok(value: T, rest: bytes) | Err(error: Error) {
    predicate IsFailure() { Err? }
    function PropagateFailure<U>(): Parsed<U> requires Err? { Err(error) }
    function Extract(): (T, bytes) requires Ok? { (value, rest) }
    function ToResult(): Result<T> { if Ok? then Success(value) else Failure(error) }
  }

  /* ----- unsigned integers ----- */

  function Pow256(n: nat): (r: nat)
    ensures r > 0
  {
    if n == 0 then 1 else 0x100 * Pow256(n - 1)
  }

  /** The number that `s` is in base 256, most significant byte first. */
  function Number(s: bytes): (r: nat)
    ensures r < Pow256(|s|)
  {
    if s == [] then 0 else Number(s[..|s| - 1]) * 0x100 + s[|s| - 1]
  }

  /** The `n` low bytes of `v`, most significant first. */
  function BigEndian(v: nat, n: nat): (r: bytes)
    ensures |r| == n
    ensures v < Pow256(n) ==> Number(r) == v
  {
    if n == 0 then []
    else
      var front := BigEndian(v / 0x100, n - 1);
      var r := front + [v % 0x100];
      assert r[..n - 1] == front;
      r
  }

  lemma ShiftByByte(q: nat, d: byte)
    ensures (q * 0x100 + d) / 0x100 == q && (q * 0x100 + d) % 0x100 == d
  {
  }

  lemma {:induction false} BigEndianUnique(s: bytes)
    ensures BigEndian(Number(s), |s|) == s
  {
    if s != [] {
      var front, last := s[..|s| - 1], s[|s| - 1];
      BigEndianUnique(front);
      ShiftByByte(Number(front), last);
      assert s == front + [last];
    }
  }

  lemma FourBytes()
    ensures Pow256(4) == TWO_32
  {
    assert Pow256(2) == 0x1_0000;
    assert Pow256(3) == 0x100_0000;
  }

  /** The shifts and masks of the encoder and of the decoder, byte by byte. */
  lemma WordBytes(v: u32)
    ensures BigEndian(v, 4) == [v / 0x100_0000 % 0x100, v / 0x1_0000 % 0x100, v / 0x100 % 0x100, v % 0x100]
  {
    var b := v / 0x100;
    var c := b / 0x100;
    assert c == v / 0x1_0000 && c / 0x100 == v / 0x100_0000;
    assert BigEndian(c / 0x100, 1) == BigEndian(c / 0x100 / 0x100, 0) + [c / 0x100 % 0x100];
    assert BigEndian(b, 3) == BigEndian(c, 2) + [b % 0x100];
  }

  lemma WordNumber(s: bytes)
    requires |s| == 4
    ensures Number(s) == (s[0] as int) * 0x100_0000 + (s[1] as int) * 0x1_0000 + (s[2] as int) * 0x100 + s[3]
  {
    assert s[..3][..2] == s[..2] && s[..2][..1] == s[..1] && s[..1][..0] == [];
    assert Number(s[..2]) == Number(s[..1]) * 0x100 + s[1];
    assert Number(s[..3]) == Number(s[..2]) * 0x100 + s[2];
  }

  function TakeU32(s: bytes): (r: Parsed<u32>)
    ensures r.Ok? <==> |s| >= 4
    ensures r.Ok? ==> |r.rest| == |s| - 4
  {
    FourBytes();
    if |s| < 4 then Err(Underflow) else Ok(Number(s[..4]), s[4..])
  }

  function PutU32(v: u32, k: bytes): (r: bytes)
    ensures |r| == 4 + |k|
    ensures TakeU32(r) == Ok(v, k)
  {
    FourBytes();
    var r := BigEndian(v, 4) + k;
    assert r[..4] == BigEndian(v, 4) && r[4..] == k;
    r
  }

  function TakeU64(s: bytes): (r: Parsed<u64>)
    ensures r.Ok? <==> |s| >= 8
    ensures r.Ok? ==> |r.rest| == |s| - 8
  {
    var (hi, s) :- TakeU32(s);
    var (lo, s) :- TakeU32(s);
    Ok(hi * TWO_32 + lo, s)
  }

  function PutU64(v: u64, k: bytes): (r: bytes)
    ensures |r| == 8 + |k|
    ensures TakeU64(r) == Ok(v, k)
  {
    PutU32(v / TWO_32, PutU32(v % TWO_32, k))
  }

  lemma Shifted(x: nat, p: nat, y: nat, d: nat)
    ensures (x * p + y) * 0x100 + d == x * (0x100 * p) + (y * 0x100 + d)
  {
  }

  lemma {:induction false} NumberConcat(a: bytes, b: bytes)
    ensures Number(a + b) == Number(a) * Pow256(|b|) + Number(b)
    decreases |b|
  {
    if b == [] {
      assert a + b == a;
    } else {
      var front, last := b[..|b| - 1], b[|b| - 1];
      NumberConcat(a, front);
      assert (a + b)[..|a + b| - 1] == a + front;
      Shifted(Number(a), Pow256(|front|), Number(front), last);
    }
  }

  lemma WordIs(v: u32, k: bytes)
    ensures PutU32(v, k) == BigEndian(v, 4) + k
  {
    hide BigEndian, TakeU32;
  }

  /** A double word is one number of eight bytes, most significant first. */
  lemma LongBytes(v: u64, k: bytes)
    ensures PutU64(v, k) == BigEndian(v, 8) + k
  {
    hide BigEndian, PutU32, Number;
    FourBytes();
    var hi, lo := BigEndian(v / TWO_32, 4), BigEndian(v % TWO_32, 4);
    WordIs(v % TWO_32, k);
    WordIs(v / TWO_32, PutU32(v % TWO_32, k));
    NumberConcat(hi, lo);
    BigEndianUnique(hi + lo);
    assert hi + (lo + k) == hi + lo + k;
  }

  /** The cast of a size to 32 bits. */
  function Low32(n: nat): (r: u32)
    ensures n < TWO_32 ==> r == n
  {
    n % TWO_32
  }

  function BoolWord(b: bool): u32 { if b then 1 else 0 }

  /* ----- opaque data ----- */

  function PadLength(n: nat): (r: nat)
    ensures r < 4
  {
    (4 - n % 4) % 4
  }

  function Zeros(n: nat): bytes { seq(n, _ => 0) }

  /** Fixed-length data: `n` bytes and then padding to a multiple of four. */
  function TakeFixed(n: nat, s: bytes): (r: Parsed<bytes>)
    ensures r.Ok? <==> |s| >= n + PadLength(n)
    ensures r.Ok? ==> |r.value| == n && |r.rest| == |s| - n - PadLength(n)
  {
    if |s| < n || |s| < n + PadLength(n) then Err(Underflow) else Ok(s[..n], s[n + PadLength(n)..])
  }

  function PutFixed(d: bytes, k: bytes): (r: bytes)
    ensures |r| == |d| + PadLength(|d|) + |k|
    ensures TakeFixed(|d|, r) == Ok(d, k)
  {
    var r := d + Zeros(PadLength(|d|)) + k;
    assert r[..|d|] == d && r[|d| + PadLength(|d|)..] == k;
    r
  }

  function TakeOpaque(s: bytes): (r: Parsed<bytes>)
    ensures r.Ok? ==> |s| == 4 + |r.value| + PadLength(|r.value|) + |r.rest| && |r.value| < TWO_32
  {
    var (n, s) :- TakeU32(s);
    TakeFixed(n, s)
  }

  /** Variable-length data.  The length word is the size cut down to 32 bits. */
  function PutOpaque(d: bytes, k: bytes): (r: bytes)
    ensures |r| == 4 + |d| + PadLength(|d|) + |k|
    ensures |d| < TWO_32 ==> TakeOpaque(r) == Ok(d, k)
  {
    var n: u32 := Low32(|d|);
    var body := PutFixed(d, k);
    assert |d| < TWO_32 ==> TakeFixed(n, body) == Ok(d, k);
    PutU32(n, body)
  }

  lemma EmptyOpaque(k: bytes)
    ensures PutOpaque([], k) == PutU32(0, k)
  {
    assert Zeros(0) == [] && [] + [] + k == k;
  }

  /* ----- lists ----- */

  /** A list of which `done` has been read and the rest is `p`. */
  function Prepend<T>(done: seq<T>, p: Parsed<seq<T>>): (r: Parsed<seq<T>>)
    ensures done == [] ==> r == p
  {
    match p
    case Ok(more, rest) => assert done == [] ==> done + more == more; Ok(done + more, rest)
    case Err(e) => Err(e)
  }

  lemma PrependTwice<T>(done: seq<T>, next: seq<T>, p: Parsed<seq<T>>)
    ensures Prepend(done, Prepend(next, p)) == Prepend(done + next, p)
  {
    if p.Ok? { assert done + (next + p.value) == done + next + p.value; }
  }
}
