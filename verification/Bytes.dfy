/** Byte strings and the two XOR algebras that parity frames are built from. */
module Bytes {
  type byte = bv8
  type Bytes = seq<byte>

  /** The byte at position i of a string padded with zeros without end. */
  function ByteAt(b: Bytes, i: nat): byte {
    if i < |b| then b[i] else 0
  }

  function Max(a: int, b: int): int {
    if a < b then b else a
  }

  function Min(a: int, b: int): int {
    if a < b then a else b
  }

  /** Division that truncates toward zero. */
  function Quotient(a: int, b: int): int
    requires b > 0
  {
    if a >= 0 then a / b else -(-a / b)
  }

  /** XOR of two strings, the shorter one padded with zeros. */
  function PadXor(a: Bytes, b: Bytes): (r: Bytes)
    ensures |r| == Max(|a|, |b|)
  {
    seq(Max(|a|, |b|), i requires 0 <= i => ByteAt(a, i) ^ ByteAt(b, i))
  }

  lemma PadXorAt(a: Bytes, b: Bytes, i: nat)
    ensures ByteAt(PadXor(a, b), i) == ByteAt(a, i) ^ ByteAt(b, i)
  {
  }

  /** Bitwise exclusive-or of natural numbers: the lengths packed into a parity frame. */
  function NatXor(a: nat, b: nat): nat
    decreases a + b
  {
    if a + b == 0 then 0 else (a + b) % 2 + 2 * NatXor(a / 2, b / 2)
  }

  lemma {:induction false} NatXorZero(a: nat)
    ensures NatXor(0, a) == a
  {
    if a != 0 {
      NatXorZero(a / 2);
    }
  }

  lemma {:induction false} NatXorComm(a: nat, b: nat)
    ensures NatXor(a, b) == NatXor(b, a)
    decreases a + b
  {
    if a + b != 0 {
      NatXorComm(a / 2, b / 2);
    }
  }

  lemma {:induction false} NatXorSelf(a: nat)
    ensures NatXor(a, a) == 0
  {
    if a != 0 {
      NatXorSelf(a / 2);
    }
  }

  /** The low bit and the rest of an exclusive-or. */
  lemma {:induction false} NatXorBits(a: nat, b: nat)
    ensures NatXor(a, b) % 2 == (a + b) % 2
    ensures NatXor(a, b) / 2 == NatXor(a / 2, b / 2)
  {
  }

  lemma SameParity(x: nat, y: nat, c: nat)
    requires x % 2 == y % 2
    ensures (x + c) % 2 == (y + c) % 2
  {
  }

  lemma {:induction false} NatXorLow3(a: nat, b: nat, c: nat)
    ensures NatXor(NatXor(a, b), c) % 2 == (a + b + c) % 2
  {
    NatXorBits(NatXor(a, b), c);
    NatXorBits(a, b);
    SameParity(NatXor(a, b), a + b, c);
  }

  lemma {:induction false} NatXorHigh3(a: nat, b: nat, c: nat)
    ensures NatXor(NatXor(a, b), c) / 2 == NatXor(NatXor(a / 2, b / 2), c / 2)
  {
    NatXorBits(NatXor(a, b), c);
    NatXorBits(a, b);
  }

  lemma {:induction false} NatXorRotate(a: nat, b: nat, c: nat)
    ensures NatXor(NatXor(a, b), c) == NatXor(NatXor(b, c), a)
    decreases a + b + c
  {
    if a + b + c != 0 {
      NatXorRotate(a / 2, b / 2, c / 2);
      NatXorLow3(a, b, c);
      NatXorLow3(b, c, a);
      NatXorHigh3(a, b, c);
      NatXorHigh3(b, c, a);
    }
  }

  lemma {:induction false} NatXorAssoc(a: nat, b: nat, c: nat)
    ensures NatXor(NatXor(a, b), c) == NatXor(a, NatXor(b, c))
  {
    NatXorRotate(a, b, c);
    NatXorComm(NatXor(b, c), a);
  }

  /** All the chunks of a stream, end to end. */
  function Flatten(s: seq<Bytes>): Bytes {
    if s == [] then [] else Flatten(s[..|s| - 1]) + s[|s| - 1]
  }

  lemma FlattenSnoc(s: seq<Bytes>, b: Bytes)
    ensures Flatten(s + [b]) == Flatten(s) + b
  {
    assert (s + [b])[..|s|] == s;
  }

  /** What was flattened first stays in front. */
  lemma {:induction false} FlattenPrefix(s: seq<Bytes>, n: nat)
    requires n <= |s|
    ensures Flatten(s[..n]) <= Flatten(s)
    decreases |s|
  {
    if n < |s| {
      FlattenPrefix(s[..|s| - 1], n);
      assert s[..|s| - 1][..n] == s[..n];
    } else {
      assert s[..n] == s;
    }
  }

  /** Total payload of the chunks from index a on whose index is in keys. */
  function SumIn(s: seq<Bytes>, keys: set<nat>, a: nat): nat
    decreases |s| - a
  {
    if a >= |s| then 0
    else (if a in keys then |s[a]| else 0) + SumIn(s, keys, a + 1)
  }

  lemma {:induction false} SumInAdd(s: seq<Bytes>, keys: set<nat>, a: nat, k: nat)
    requires k < |s| && k !in keys
    ensures SumIn(s, keys + {k}, a) == SumIn(s, keys, a) + (if a <= k then |s[k]| else 0)
    decreases |s| - a
  {
    if a < |s| {
      SumInAdd(s, keys, a + 1, k);
    }
  }

  lemma {:induction false} SumInGrow(s: seq<Bytes>, t: seq<Bytes>, keys: set<nat>, a: nat)
    requires s <= t
    requires forall k :: k in keys ==> k < |s|
    ensures SumIn(t, keys, a) == SumIn(s, keys, a)
    decreases |t| - a
  {
    if a < |t| {
      SumInGrow(s, t, keys, a + 1);
    }
  }

  /** Chunks at or after index n weigh no more than what follows the first n chunks. */
  lemma {:induction false} SumInBound(s: seq<Bytes>, keys: set<nat>, a: nat, n: nat)
    requires n <= |s|
    requires forall k :: k in keys ==> n <= k
    ensures SumIn(s, keys, a) + |Flatten(s[..Max(n, Min(a, |s|))])| <= |Flatten(s)|
    decreases |s| - a
  {
    if a >= |s| {
      assert s[..|s|] == s;
    } else {
      SumInBound(s, keys, a + 1, n);
      if n <= a {
        assert s[..a + 1][..a] == s[..a];
      }
    }
  }
}
