/** The Merkle tree of src/vault/access.py and of src/decillion/receipts.py: built level by level,
    an odd level repeats its last node, and neither leaves nor nodes carry a prefix. */
module Merkle {
  import opened Hashing
  import opened Outcomes

  /** The next level up: children 2i and 2i+1 are hashed together, and a last node without a
      neighbour is hashed with itself. */
  function Up(h: Hash, level: seq<Bytes>): (up: seq<Digest>)
    ensures |up| == (|level| + 1) / 2
  {
    if |level| == 0 then []
    else if |level| == 1 then [h(level[0] + level[0])]
    else [h(level[0] + level[1])] + Up(h, level[2..])
  }

  /** The strings hashed for one level. */
  ghost function Pairs(level: seq<Bytes>): set<Bytes> {
    if |level| == 0 then {}
    else if |level| == 1 then {level[0] + level[0]}
    else {level[0] + level[1]} + Pairs(level[2..])
  }

  /** The string hashed for parent `i`. */
  function Pair(level: seq<Bytes>, i: nat): Bytes
    requires 2 * i < |level|
  {
    level[2 * i] + level[Min(2 * i + 1, |level| - 1)]
  }

  lemma {:induction false} UpAt(h: Hash, level: seq<Bytes>, i: nat)
    requires 2 * i < |level|
    ensures Up(h, level)[i] == h(Pair(level, i))
    ensures Pair(level, i) in Pairs(level)
  {
    if i > 0 {
      UpAt(h, level[2..], i - 1);
      assert Pair(level[2..], i - 1) == Pair(level, i);
    }
  }

  function Root(h: Hash, leaves: seq<Bytes>): Bytes
    decreases |leaves|
  {
    if |leaves| == 0 then Zeros(DIGEST_BYTES)
    else if |leaves| == 1 then leaves[0]
    else Root(h, Up(h, leaves))
  }

  /** The number of levels above the leaves. */
  function Depth(n: nat): nat {
    if n <= 1 then 0 else 1 + Depth((n + 1) / 2)
  }

  /** Every string hashed while the root is computed. */
  ghost function Inputs(h: Hash, leaves: seq<Bytes>): set<Bytes>
    decreases |leaves|
  {
    if |leaves| <= 1 then {}
    else Pairs(leaves) + Inputs(h, Up(h, leaves))
  }

  /** Where the sibling goes: `Right` hashes current + sibling, `Left` hashes sibling + current. */
  datatype Side = Left | Right
  datatype Step = Step(sibling: Bytes, side: Side)

  function Joined(current: Bytes, step: Step): Bytes {
    if step.side == Right then current + step.sibling else step.sibling + current
  }

  /** The node reached from a leaf by following a proof. */
  function Climb(h: Hash, leaf: Bytes, proof: seq<Step>): Bytes
    decreases |proof|
  {
    if proof == [] then leaf else Climb(h, h(Joined(leaf, proof[0])), proof[1..])
  }

  /** Every string hashed while a proof is checked. */
  ghost function ClimbInputs(h: Hash, leaf: Bytes, proof: seq<Step>): set<Bytes>
    decreases |proof|
  {
    if proof == [] then {}
    else {Joined(leaf, proof[0])} + ClimbInputs(h, h(Joined(leaf, proof[0])), proof[1..])
  }

  function SiblingStep(level: seq<Bytes>, index: nat): Step
    requires index < |level|
  {
    if index % 2 == 0 then Step(level[Min(index + 1, |level| - 1)], Right)
    else Step(level[index - 1], Left)
  }

  function Proof(h: Hash, leaves: seq<Bytes>, index: nat): seq<Step>
    requires index < |leaves|
    decreases |leaves|
  {
    if |leaves| == 1 then []
    else [SiblingStep(leaves, index)] + Proof(h, Up(h, leaves), index / 2)
  }

  /** The leaf a list of sides points at in a tree of `n` leaves, read from the root down and
      clamped at each level to the last node that is really there. */
  function Position(n: nat, proof: seq<Step>): (p: nat)
    requires n > 0 && |proof| == Depth(n)
    ensures p < n
    decreases n
  {
    if n == 1 then 0
    else
      var p := Position((n + 1) / 2, proof[1..]);
      Min(2 * p + (if proof[0].side == Right then 0 else 1), n - 1)
  }

  // ---------------------------------------------------------------- the loops of access.py

  method MerkleRoot(h: Hash, leaves: seq<Bytes>) returns (root: Bytes)
    ensures root == Root(h, leaves)
    ensures leaves == [] ==> |root| == 32 && forall i :: 0 <= i < 32 ==> root[i] == 0
  {
    if |leaves| == 0 { return Zeros(DIGEST_BYTES); }
    var current := leaves;
    while |current| > 1
      invariant |current| >= 1
      invariant Root(h, current) == Root(h, leaves)
      decreases |current|
    {
      current := NextLevel(h, current);
    }
    root := current[0];
  }

  /** One turn of the loops of merkle_root and merkle_proof: pad, then hash pairs. */
  method NextLevel(h: Hash, level: seq<Bytes>) returns (up: seq<Bytes>)
    requires |level| > 1
    ensures up == Up(h, level)
  {
    var current := level;
    if |current| % 2 == 1 { current := current + [current[|current| - 1]]; }
    up := [];
    for i := 0 to |current| / 2
      invariant |up| == i
      invariant forall k :: 0 <= k < i ==> up[k] == Up(h, level)[k]
    {
      UpAt(h, level, i);
      up := up + [h(current[2 * i] + current[2 * i + 1])];
    }
  }

  datatype ProofError = IndexError(index: int)

  lemma ProofGrows(h: Hash, prefix: seq<Step>, level: seq<Bytes>, index: nat)
    requires index < |level| && |level| > 1
    ensures prefix + Proof(h, level, index)
         == (prefix + [SiblingStep(level, index)]) + Proof(h, Up(h, level), index / 2)
  {
  }

  method MerkleProof(h: Hash, leaves: seq<Bytes>, index: int)
    returns (r: Result<seq<Step>, ProofError>)
    ensures r == if 0 <= index < |leaves| then Ok(Proof(h, leaves, index)) else Err(IndexError(index))
  {
    if !(0 <= index < |leaves|) { return Err(IndexError(index)); }
    var proof: seq<Step> := [];
    var current, cursor := leaves, index;
    while |current| > 1
      invariant 0 <= cursor < |current|
      invariant proof + Proof(h, current, cursor) == Proof(h, leaves, index)
      decreases |current|
    {
      var padded := current;
      if |padded| % 2 == 1 { padded := padded + [padded[|padded| - 1]]; }
      var sibling := if cursor % 2 == 0 then cursor + 1 else cursor - 1;
      var step := Step(padded[sibling], if cursor % 2 == 0 then Right else Left);
      assert step == SiblingStep(current, cursor);
      ProofGrows(h, proof, current, cursor);
      proof := proof + [step];
      current := NextLevel(h, current);
      cursor := cursor / 2;
    }
    assert proof + [] == proof;
    return Ok(proof);
  }

  method VerifyMerkle(h: Hash, leaf: Bytes, proof: seq<Step>, root: Bytes) returns (ok: bool)
    ensures ok <==> Climb(h, leaf, proof) == root
  {
    var current := leaf;
    for k := 0 to |proof|
      invariant Climb(h, current, proof[k..]) == Climb(h, leaf, proof)
    {
      assert proof[k..][1..] == proof[k + 1..];
      current := h(Joined(current, proof[k]));
    }
    ok := current == root;
  }

  // ---------------------------------------------------------------- completeness

  /** Joined with its sibling, a node gives the string hashed for its parent. */
  lemma SiblingJoins(level: seq<Bytes>, index: nat)
    requires index < |level| && |level| > 1
    ensures Joined(level[index], SiblingStep(level, index)) == Pair(level, index / 2)
  {
  }

  /** Every proof built for a leaf leads from that leaf to the root. */
  lemma {:induction false} ProofComplete(h: Hash, leaves: seq<Bytes>, index: nat)
    requires index < |leaves|
    ensures Climb(h, leaves[index], Proof(h, leaves, index)) == Root(h, leaves)
    decreases |leaves|
  {
    if |leaves| > 1 {
      var up, proof := Up(h, leaves), Proof(h, leaves, index);
      UpAt(h, leaves, index / 2);
      SiblingJoins(leaves, index);
      assert proof[1..] == Proof(h, up, index / 2);
      ProofComplete(h, up, index / 2);
    }
  }

  /** A proof has one step per level, and its sides spell out the index it was built for. */
  lemma {:induction false} ProofSpellsIndex(h: Hash, leaves: seq<Bytes>, index: nat)
    requires index < |leaves|
    ensures |Proof(h, leaves, index)| == Depth(|leaves|)
    ensures Position(|leaves|, Proof(h, leaves, index)) == index
    decreases |leaves|
  {
    if |leaves| > 1 {
      ProofSpellsIndex(h, Up(h, leaves), index / 2);
      assert Proof(h, leaves, index)[1..] == Proof(h, Up(h, leaves), index / 2);
    }
  }

  function Pow2(k: nat): nat { if k == 0 then 1 else 2 * Pow2(k - 1) }

  /** The number of steps is the binary logarithm of the number of leaves, rounded up. */
  lemma {:induction false} DepthIsCeilLog2(n: nat)
    requires n > 0
    ensures n <= Pow2(Depth(n))
    ensures n > 1 ==> Pow2(Depth(n) - 1) < n
  {
    if n > 1 { DepthIsCeilLog2((n + 1) / 2); }
  }

  // ---------------------------------------------------------------- binding

  lemma SplitHalves(a: Bytes, b: Bytes, c: Bytes, d: Bytes)
    requires |a| == |c| && a + b == c + d
    ensures a == c && b == d
  {
    assert a == (a + b)[..|a|] && c == (c + d)[..|c|];
    assert b == (a + b)[|a|..] && d == (c + d)[|c|..];
  }

  /** One level binds the level below it. */
  lemma {:induction false} LevelBinds(h: Hash, a: seq<Digest>, b: seq<Digest>)
    requires |a| == |b| && Up(h, a) == Up(h, b)
    ensures a == b || Collides(h, Pairs(a), Pairs(b))
  {
    if |a| > 0 && !Collides(h, Pairs(a), Pairs(b)) {
      var k := if |a| == 1 then 0 else 1;
      assert Up(h, a)[0] == Up(h, b)[0];
      assert Pair(a, 0) in Pairs(a) && Pair(b, 0) in Pairs(b);
      SplitHalves(a[0], a[k], b[0], b[k]);
      if |a| > 1 {
        assert Up(h, a)[1..] == Up(h, a[2..]) && Up(h, b)[1..] == Up(h, b[2..]);
        LevelBinds(h, a[2..], b[2..]);
        assert a == a[..2] + a[2..] && b == b[..2] + b[2..];
      }
    }
  }

  /** Equal-length lists of digests with one root are equal, or two strings hashed on the way
      collide. */
  lemma {:induction false} RootBinds(h: Hash, a: seq<Digest>, b: seq<Digest>)
    requires |a| == |b| && Root(h, a) == Root(h, b)
    ensures a == b || Collides(h, Inputs(h, a), Inputs(h, b))
    decreases |a|
  {
    if |a| > 1 {
      RootBinds(h, Up(h, a), Up(h, b));
      if Up(h, a) == Up(h, b) { LevelBinds(h, a, b); }
    }
  }

  lemma {:induction false} UpOfTwin(h: Hash, level: seq<Bytes>)
    requires |level| % 2 == 1
    ensures Up(h, level) == Up(h, level + [level[|level| - 1]])
  {
    if |level| > 1 {
      UpOfTwin(h, level[2..]);
      assert (level + [level[|level| - 1]])[2..] == level[2..] + [level[2..][|level| - 3]];
    }
  }

  /** Length matters: a list with an odd number of leaves, more than one, has the root of the
      same list with its last leaf written twice. */
  lemma OddListHasPaddedTwin(h: Hash, leaves: seq<Bytes>)
    requires |leaves| > 1 && |leaves| % 2 == 1
    ensures Root(h, leaves) == Root(h, leaves + [leaves[|leaves| - 1]])
  {
    UpOfTwin(h, leaves);
  }

  // ---------------------------------------------------------------- soundness

  /** One level of the soundness argument: a node that joins to its parent's string is the child
      on the side it claims. */
  lemma JoinedIsChild(level: seq<Digest>, p: nat, node: Digest, step: Step)
    requires 2 * p < |level| && Joined(node, step) == Pair(level, p)
    ensures node == level[Min(2 * p + (if step.side == Right then 0 else 1), |level| - 1)]
  {
    var l, r := level[2 * p], level[Min(2 * p + 1, |level| - 1)];
    if step.side == Right {
      SplitHalves(node, step.sibling, l, r);
    } else {
      assert |Joined(node, step)| == |step.sibling| + DIGEST_BYTES;
      SplitHalves(step.sibling, node, l, r);
    }
  }

  /** A verifying proof with one step per level proves membership at the position its sides
      spell, or two strings hashed on the way collide. The siblings may be any strings. */
  lemma {:induction false} ProofSound(h: Hash, leaves: seq<Digest>, leaf: Digest, proof: seq<Step>)
    requires |leaves| > 0 && |proof| == Depth(|leaves|)
    requires Climb(h, leaf, proof) == Root(h, leaves)
    ensures leaf == leaves[Position(|leaves|, proof)]
         || Collides(h, ClimbInputs(h, leaf, proof), Inputs(h, leaves))
    decreases |leaves|
  {
    if |leaves| > 1 {
      var up, joined := Up(h, leaves), Joined(leaf, proof[0]);
      ProofSound(h, up, h(joined), proof[1..]);
      if !Collides(h, ClimbInputs(h, leaf, proof), Inputs(h, leaves)) {
        var p := Position(|up|, proof[1..]);
        assert h(joined) == up[p];
        UpAt(h, leaves, p);
        assert joined in ClimbInputs(h, leaf, proof) && Pair(leaves, p) in Inputs(h, leaves);
        JoinedIsChild(leaves, p, leaf, proof[0]);
      }
    }
  }

  /** The length of a proof carries meaning: without its first step a proof for a leaf is a
      proof for that leaf's parent, so a checker that means leaves has to fix the length. */
  lemma TailProvesParent(h: Hash, leaves: seq<Bytes>, index: nat)
    requires index < |leaves| && |leaves| > 1
    ensures Climb(h, Up(h, leaves)[index / 2], Proof(h, leaves, index)[1..]) == Root(h, leaves)
  {
    assert Proof(h, leaves, index)[1..] == Proof(h, Up(h, leaves), index / 2);
    ProofComplete(h, Up(h, leaves), index / 2);
  }
}
