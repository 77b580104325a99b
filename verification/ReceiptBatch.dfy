/** Merkle aggregation of signed receipts, src/decillion/receipts.py. */
module ReceiptBatch {
  import opened Hashing
  import Merkle

  function Leaves<T>(h: Hash, encode: T -> Bytes, receipts: seq<T>): (leaves: seq<Bytes>)
    ensures |leaves| == |receipts|
    ensures forall i :: 0 <= i < |receipts| ==> leaves[i] == h(encode(receipts[i]))
  {
    seq(|receipts|, i requires 0 <= i < |receipts| => h(encode(receipts[i])))
  }

  function BatchRoot<T>(h: Hash, encode: T -> Bytes, receipts: seq<T>): Bytes {
    if receipts == [] then h([]) else Merkle.Root(h, Leaves(h, encode, receipts))
  }

  method MerkleRoot<T>(h: Hash, encode: T -> Bytes, receipts: seq<T>) returns (root: Bytes)
    ensures root == BatchRoot(h, encode, receipts)
    ensures receipts == [] ==> root == h([])
    ensures receipts != [] ==> root == Merkle.Root(h, Leaves(h, encode, receipts))
  {
    var leaves := Leaves(h, encode, receipts);
    if leaves == [] { return h([]); }
    ghost var initial := leaves;
    while |leaves| > 1
      invariant |leaves| >= 1
      invariant Merkle.Root(h, leaves) == Merkle.Root(h, initial)
      decreases |leaves|
    {
      leaves := Merkle.NextLevel(h, leaves);
    }
    root := leaves[0];
  }

  /** Every string hashed for a batch: the encoded receipts and the pairs of the tree. */
  ghost function BatchInputs<T>(h: Hash, encode: T -> Bytes, receipts: seq<T>): set<Bytes> {
    (set i | 0 <= i < |receipts| :: encode(receipts[i])) + Merkle.Inputs(h, Leaves(h, encode, receipts))
  }

  /** Two batches of one size with one root hold the same receipts in the same order, or two
      strings hashed for them collide. `encode` is the canonical JSON form. */
  lemma BatchRootBinds<T(!new)>(h: Hash, encode: T -> Bytes, a: seq<T>, b: seq<T>)
    requires forall x, y :: encode(x) == encode(y) ==> x == y
    requires |a| == |b| && BatchRoot(h, encode, a) == BatchRoot(h, encode, b)
    ensures a == b || Collides(h, BatchInputs(h, encode, a), BatchInputs(h, encode, b))
  {
    var la, lb := Leaves(h, encode, a), Leaves(h, encode, b);
    Merkle.RootBinds(h, la, lb);
    if la == lb && !Collides(h, BatchInputs(h, encode, a), BatchInputs(h, encode, b)) {
      forall i | 0 <= i < |a|
        ensures a[i] == b[i]
      {
        assert la[i] == lb[i];
        assert encode(a[i]) in BatchInputs(h, encode, a) && encode(b[i]) in BatchInputs(h, encode, b);
      }
    }
  }
}
