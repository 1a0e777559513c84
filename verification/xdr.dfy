/** The XDR encoder, a buffer that only grows, and the XDR decoder, a cursor over a buffer (RFC 4506). */
module Xdr {
  import opened Wire
  import W = Wire

  lemma Associative(a: bytes, b: bytes, c: bytes)
    ensures a + b + c == a + (b + c)
  {
  }

  class XdrEncoder {
    var buf: bytes

    constructor ()
      ensures buf == []
    {
      buf := [];
    }

    // Contracts of encoder methods are read "whatever bytes k come next": the buffer then continues the old
    // one with the wire form of the argument.  Two calls in a row compose by substitution.

    method PutU32(v: u32)
      modifies this
      ensures forall k {:trigger buf + k} :: buf + k == old(buf) + W.PutU32(v, k)
      ensures |buf| % 4 == old(|buf|) % 4
    {
      var a: byte, b: byte := v / 0x100_0000 % 0x100, v / 0x1_0000 % 0x100;
      var c: byte, d: byte := v / 0x100 % 0x100, v % 0x100;
      buf := buf + [a];
      buf := buf + [b];
      buf := buf + [c];
      buf := buf + [d];
      var word := [a, b, c, d];
      assert buf == old(buf) + word;
      assert word == BigEndian(v, 4) by { WordBytes(v); }
      forall k ensures buf + k == old(buf) + W.PutU32(v, k) { Associative(old(buf), word, k); }
    }

    method PutU64(v: u64)
      modifies this
      ensures forall k {:trigger buf + k} :: buf + k == old(buf) + W.PutU64(v, k)
      ensures |buf| % 4 == old(|buf|) % 4
    {
      PutU32(v / TWO_32);
      PutU32(v % TWO_32);
    }

    method PutOpaque(d: bytes)
      modifies this
      ensures forall k {:trigger buf + k} :: buf + k == old(buf) + W.PutOpaque(d, k)
      ensures |buf| % 4 == old(|buf|) % 4
    {
      PutU32(Low32(|d|));
      PutFixed(d);
    }

    method PutFixed(d: bytes)
      modifies this
      ensures forall k {:trigger buf + k} :: buf + k == old(buf) + W.PutFixed(d, k)
      ensures |buf| % 4 == old(|buf|) % 4
    {
      buf := buf + d;
      var pad := PadLength(|d|);
      for i := 0 to pad
        invariant buf == old(buf) + d + Zeros(i)
      {
        buf := buf + [0];
      }
      var padded := d + Zeros(pad);
      assert buf == old(buf) + padded;
      forall k ensures buf + k == old(buf) + W.PutFixed(d, k) { Associative(old(buf), padded, k); }
    }
  }

  class XdrDecoder {
    const data: bytes
    var offset: nat

    constructor (data: bytes)
      ensures Valid() && Rest() == data
    {
      this.data := data;
      offset := 0;
    }

    ghost predicate Valid()
      reads this
    {
      offset <= |data|
    }

    ghost function Rest(): bytes
      reads this
      requires Valid()
    {
      data[offset..]
    }

    /** `r` and the cursor are what `p` says: its value with the cursor at its rest, or its error. */
    ghost predicate Reads<T>(r: Result<T>, p: Parsed<T>)
      reads this
    {
      Valid() && r == p.ToResult() && (p.Ok? ==> Rest() == p.rest)
    }

    method Require(n: nat) returns (r: Result<()>)
      requires Valid()
      ensures r == if |Rest()| < n then Failure(Underflow) else Success(())
    {
      r := if offset + n > |data| then Failure(Underflow) else Success(());
    }

    method GetU32() returns (r: Result<u32>)
      requires Valid()
      modifies this
      ensures Reads(r, TakeU32(old(Rest()))) && old(offset) <= offset
    {
      var _ :- Require(4);
      WordNumber(Rest()[..4]);
      var a: int, b: int, c: int, d: int := data[offset], data[offset + 1], data[offset + 2], data[offset + 3];
      var v := a * 0x100_0000 + b * 0x1_0000 + c * 0x100 + d;
      offset := offset + 4;
      r := Success(v);
    }

    method GetU64() returns (r: Result<u64>)
      requires Valid()
      modifies this
      ensures Reads(r, TakeU64(old(Rest()))) && old(offset) <= offset
    {
      var hi :- GetU32();
      var lo :- GetU32();
      r := Success(hi * TWO_32 + lo);
    }

    method GetOpaque() returns (r: Result<bytes>)
      requires Valid()
      modifies this
      ensures Reads(r, TakeOpaque(old(Rest()))) && old(offset) <= offset
    {
      var len :- GetU32();
      r := GetFixed(len);
    }

    method GetFixed(n: nat) returns (r: Result<bytes>)
      requires Valid()
      modifies this
      ensures Reads(r, TakeFixed(n, old(Rest()))) && old(offset) <= offset
    {
      var _ :- Require(n);
      var result := data[offset..offset + n];
      offset := offset + n;
      var pad := PadLength(n);
      var _ :- Require(pad);
      offset := offset + pad;
      r := Success(result);
      assert Rest() == old(Rest())[n + pad..] && result == old(Rest())[..n];
    }

    method GetRemaining() returns (r: bytes)
      requires Valid()
      modifies this
      ensures Valid() && r == old(Rest()) && Rest() == []
    {
      r := data[offset..];
      offset := |data|;
    }
  }
}
