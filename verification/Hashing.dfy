/** Byte strings, and SHA-256 as an unknown function.

    No injectivity is ever assumed of the hash: it maps infinitely many inputs to 32 bytes.
    A binding result therefore names the finite sets of inputs that the two computations
    really hashed, and says "equal, or two different members of those sets collide". */
module Hashing {
  type Byte = n: int | 0 <= n < 256
  type Bytes = seq<Byte>

  const DIGEST_BYTES: nat := 32

  function Zeros(n: nat): (z: Bytes)
    ensures |z| == n && forall i :: 0 <= i < n ==> z[i] == 0
  {
    if n == 0 then [] else [0] + Zeros(n - 1)
  }

  type Digest = d: Bytes | |d| == DIGEST_BYTES witness Zeros(DIGEST_BYTES)
  type Hash = Bytes -> Digest

  /** An input hashed by the one computation and an input hashed by the other are a collision. */
  ghost predicate Collides(h: Hash, xs: set<Bytes>, ys: set<Bytes>) {
    exists x, y :: x in xs && y in ys && x != y && h(x) == h(y)
  }

  function Min(a: int, b: int): int { if a < b then a else b }

  function Concat(chunks: seq<Bytes>): Bytes {
    if chunks == [] then [] else chunks[0] + Concat(chunks[1..])
  }

  lemma {:induction false} ConcatSnoc(chunks: seq<Bytes>, last: Bytes)
    ensures Concat(chunks + [last]) == Concat(chunks) + last
  {
    if chunks == [] {
      assert chunks + [last] == [last];
      assert Concat([last]) == last + Concat([]) == last;
    } else {
      ConcatSnoc(chunks[1..], last);
      assert (chunks + [last])[1..] == chunks[1..] + [last];
    }
  }
}
