/** The checker of the sharded store, `verify` of src/vault/store.py: which faults it lists, and what a passing manifest
    stands for. */
module StoreChecking {
  import opened Hashing
  import opened ShardStore
  import opened StoreReading

  datatype Fault = NotContiguous | Missing(index: int) | WrongHash(index: int) | WrongSize(index: int)
                 | WrongNonce(index: int) | WrongRoot

  predicate Contiguous(shards: seq<Shard>, n: nat) {
    |shards| == n && forall i :: 0 <= i < n ==> shards[i].index == i
  }

  /** What is wrong with one shard's file. */
  function ShardFaults(p: Primitives, disk: Disk, s: Shard): seq<Fault> {
    if s.ciphertextHash !in disk.blobs then [Missing(s.index)]
    else
      var blob := disk.blobs[s.ciphertextHash];
      (if p.sha(blob) != s.ciphertextHash then [WrongHash(s.index)] else [])
      + (if |blob| != s.ciphertextBytes then [WrongSize(s.index)] else [])
      + (if |blob| < NONCE_BYTES || blob[..NONCE_BYTES] != s.nonce then [WrongNonce(s.index)] else [])
  }

  function Faults(p: Primitives, disk: Disk, shards: seq<Shard>): seq<Fault> {
    if shards == [] then [] else ShardFaults(p, disk, shards[0]) + Faults(p, disk, shards[1..])
  }

  /** The digests that enter the tree: those of the blobs that have the digest they should. */
  function Leaves(p: Primitives, disk: Disk, shards: seq<Shard>): seq<Bytes> {
    if shards == [] then []
    else Leaf(p, disk, shards[0]) + Leaves(p, disk, shards[1..])
  }

  function Leaf(p: Primitives, disk: Disk, s: Shard): seq<Bytes> {
    var h := s.ciphertextHash;
    if h in disk.blobs && p.sha(disk.blobs[h]) == h then [h] else []
  }

  function VerifyFaults(p: Primitives, disk: Disk, m: Manifest): seq<Fault> {
    var sorted := SortByIndex(m.shards);
    (if !Contiguous(sorted, m.nShards) then [NotContiguous] else [])
    + Faults(p, disk, sorted)
    + (if Merkle.Root(p.sha, Leaves(p, disk, sorted)) != m.merkleRoot then [WrongRoot] else [])
  }

  /** The blob that the manifest names is there, with the digest, the length and the nonce that it gives. */
  ghost predicate BlobRight(p: Primitives, disk: Disk, s: Shard) {
    && s.ciphertextHash in disk.blobs
    && var blob := disk.blobs[s.ciphertextHash];
       p.sha(blob) == s.ciphertextHash && |blob| == s.ciphertextBytes && |blob| >= 12 && blob[..12] == s.nonce
  }

  /** The blob is there under its own digest. */
  ghost predicate DigestRight(p: Primitives, disk: Disk, s: Shard) {
    s.ciphertextHash in disk.blobs && p.sha(disk.blobs[s.ciphertextHash]) == s.ciphertextHash
  }

  /** When a fault is one of a shard. */
  ghost predicate Faulty(p: Primitives, disk: Disk, s: Shard, f: Fault) {
    match f
    case Missing(i) => s.index == i && s.ciphertextHash !in disk.blobs
    case WrongHash(i) =>
      s.index == i && s.ciphertextHash in disk.blobs && p.sha(disk.blobs[s.ciphertextHash]) != s.ciphertextHash
    case WrongSize(i) =>
      s.index == i && s.ciphertextHash in disk.blobs && |disk.blobs[s.ciphertextHash]| != s.ciphertextBytes
    case WrongNonce(i) =>
      && s.index == i && s.ciphertextHash in disk.blobs
      && !(|disk.blobs[s.ciphertextHash]| >= 12 && disk.blobs[s.ciphertextHash][..12] == s.nonce)
    case _ => false
  }

  /** The order in which `verify` looks at one shard. */
  predicate Precedes(f: Fault, g: Fault) {
    (f.WrongHash? && (g.WrongSize? || g.WrongNonce?)) || (f.WrongSize? && g.WrongNonce?)
  }

  lemma FaultsOfShard(p: Primitives, disk: Disk, s: Shard)
    ensures forall f :: f in ShardFaults(p, disk, s) <==> Faulty(p, disk, s, f)
    ensures var fs := ShardFaults(p, disk, s); forall i, j :: 0 <= i < j < |fs| ==> Precedes(fs[i], fs[j])
    ensures ShardFaults(p, disk, s) == [] <==> BlobRight(p, disk, s)
  {
  }

  /** One turn of the loop of `verify`: the faults of a shard, and its leaf if it has one. */
  method CheckShard(p: Primitives, disk: Disk, s: Shard) returns (found: seq<Fault>, leaf: seq<Bytes>)
    ensures found == ShardFaults(p, disk, s) && leaf == Leaf(p, disk, s)
    ensures forall f :: f in found <==> Faulty(p, disk, s, f)
    ensures forall i, j :: 0 <= i < j < |found| ==> Precedes(found[i], found[j])
    ensures (DigestRight(p, disk, s) ==> leaf == [s.ciphertextHash]) && (!DigestRight(p, disk, s) ==> leaf == [])
  {
    FaultsOfShard(p, disk, s);
    found, leaf := [], [];
    if s.ciphertextHash !in disk.blobs { return [Missing(s.index)], []; }
    var blob := disk.blobs[s.ciphertextHash];
    if p.sha(blob) != s.ciphertextHash {
      found := [WrongHash(s.index)];
    } else {
      leaf := [p.sha(blob)];
    }
    if |blob| != s.ciphertextBytes { found := found + [WrongSize(s.index)]; }
    if |blob| < NONCE_BYTES || blob[..NONCE_BYTES] != s.nonce { found := found + [WrongNonce(s.index)]; }
  }

  /** `verify`: the faults found, in order. */
  method Verify(p: Primitives, disk: Disk, m: Manifest) returns (faults: seq<Fault>)
    ensures faults == VerifyFaults(p, disk, m)
    ensures forall f :: f in faults <==> Listed(p, disk, m, f)
    ensures InOrder(faults)
  {
    FaultsListed(p, disk, m);
    var sorted := SortByIndex(m.shards);
    faults := if Contiguous(sorted, m.nShards) then [] else [NotContiguous];
    var leaves: seq<Bytes> := [];
    ghost var start := faults;
    for i := 0 to |sorted|
      invariant faults + Faults(p, disk, sorted[i..]) == start + Faults(p, disk, sorted)
      invariant leaves + Leaves(p, disk, sorted[i..]) == Leaves(p, disk, sorted)
    {
      Unfolded(p, disk, faults, leaves, sorted, i);
      var found, leaf := CheckShard(p, disk, sorted[i]);
      faults, leaves := faults + found, leaves + leaf;
    }
    assert faults + [] == faults && leaves + [] == leaves;
    var computed := Merkle.MerkleRoot(p.sha, leaves);
    if computed != m.merkleRoot { faults := faults + [WrongRoot]; }
  }

  lemma Unfolded(p: Primitives, disk: Disk, faults: seq<Fault>, leaves: seq<Bytes>, sorted: seq<Shard>, i: nat)
    requires i < |sorted|
    ensures faults + Faults(p, disk, sorted[i..])
         == (faults + ShardFaults(p, disk, sorted[i])) + Faults(p, disk, sorted[i + 1..])
    ensures leaves + Leaves(p, disk, sorted[i..])
         == (leaves + Leaf(p, disk, sorted[i])) + Leaves(p, disk, sorted[i + 1..])
  {
    assert sorted[i..][1..] == sorted[i + 1..];
  }

  // ---------------------------------------------------------------- which faults are listed

  /** Every index from 0 on has its one shard. */
  ghost predicate IndexesCount(m: Manifest) {
    |m.shards| == m.nShards && forall i :: 0 <= i < m.nShards ==> HasIndex(m.shards, i)
  }

  ghost predicate HasIndex(shards: seq<Shard>, i: int) { exists s :: s in shards && s.index == i }

  /** When `verify` lists a fault: that of a shard if it is one of a shard of that index. */
  ghost predicate Listed(p: Primitives, disk: Disk, m: Manifest, f: Fault) {
    match f
    case NotContiguous => !IndexesCount(m)
    case WrongRoot => Merkle.Root(p.sha, Leaves(p, disk, SortByIndex(m.shards))) != m.merkleRoot
    case _ => exists s :: s in m.shards && Faulty(p, disk, s, f)
  }

  /** The list begins with the indexes and ends with the root; between them it goes by index. */
  predicate Reported(f: Fault, g: Fault) {
    f.NotContiguous? || g.WrongRoot? || (!f.WrongRoot? && !g.NotContiguous? && f.index <= g.index)
  }

  ghost predicate InOrder(fs: seq<Fault>) {
    forall i, j :: 0 <= i < j < |fs| ==> Reported(fs[i], fs[j])
  }

  lemma {:induction false} FaultsAre(p: Primitives, disk: Disk, shards: seq<Shard>)
    ensures forall f :: f in Faults(p, disk, shards) <==> exists s :: s in shards && Faulty(p, disk, s, f)
  {
    hide ShardFaults, Faulty;
    if shards != [] {
      FaultsOfShard(p, disk, shards[0]);
      FaultsAre(p, disk, shards[1..]);
      assert forall s :: s in shards <==> s == shards[0] || s in shards[1..];
    }
  }

  lemma InIndexOrder(p: Primitives, disk: Disk, s: Shard, t: Shard, f: Fault, g: Fault)
    requires Faulty(p, disk, s, f) && Faulty(p, disk, t, g) && s.index <= t.index
    ensures Reported(f, g)
  {
  }

  lemma {:induction false} FaultsInOrder(p: Primitives, disk: Disk, shards: seq<Shard>)
    requires Sorted(shards)
    ensures InOrder(Faults(p, disk, shards))
  {
    hide ShardFaults, Faulty, Reported;
    if shards != [] {
      FaultsInOrder(p, disk, shards[1..]);
      FaultsAre(p, disk, shards[1..]);
      FaultsOfShard(p, disk, shards[0]);
      var head, rest, fs := ShardFaults(p, disk, shards[0]), Faults(p, disk, shards[1..]), Faults(p, disk, shards);
      forall i, j | 0 <= i < j < |fs| ensures Reported(fs[i], fs[j]) {
        if i < |head| {
          assert fs[i] == head[i] && head[i] in head;
          if j < |head| {
            assert fs[j] == head[j] && head[j] in head;
            InIndexOrder(p, disk, shards[0], shards[0], fs[i], fs[j]);
          } else {
            assert fs[j] == rest[j - |head|] && rest[j - |head|] in rest;
            var s :| s in shards[1..] && Faulty(p, disk, s, fs[j]);
            InIndexOrder(p, disk, shards[0], s, fs[i], fs[j]);
          }
        } else {
          assert fs[i] == rest[i - |head|] && fs[j] == rest[j - |head|];
        }
      }
    }
  }

  /** In a sorted list of `n` shards that has every index from 0 to `n - 1`, shard k has index k. */
  lemma ContiguousIff(shards: seq<Shard>, n: nat)
    requires Sorted(shards)
    ensures Contiguous(shards, n) <==>
      |shards| == n && forall i :: 0 <= i < n ==> HasIndex(shards, i)
  {
    if |shards| == n && forall i :: 0 <= i < n ==> HasIndex(shards, i) {
      forall k | 0 <= k < n ensures shards[k].index == k {
        NotLater(shards, n, k);
        NotEarlier(shards, n, n - 1 - k);
      }
    }
    if Contiguous(shards, n) {
      forall i | 0 <= i < n ensures HasIndex(shards, i) { assert shards[i] in shards; }
    }
  }

  lemma {:induction false} NotLater(shards: seq<Shard>, n: nat, k: nat)
    requires Sorted(shards) && |shards| == n && k < n
    requires forall i :: 0 <= i < n ==> HasIndex(shards, i)
    ensures exists a :: k <= a < n && shards[a].index == k
  {
    if k > 0 {
      NotLater(shards, n, k - 1);
      var a :| k - 1 <= a < n && shards[a].index == k - 1;
    }
    assert HasIndex(shards, k);
    var s :| s in shards && s.index == k;
    var b :| 0 <= b < n && shards[b] == s;
  }

  lemma {:induction false} NotEarlier(shards: seq<Shard>, n: nat, k: nat)
    requires Sorted(shards) && |shards| == n && k < n
    requires forall i :: 0 <= i < n ==> HasIndex(shards, i)
    ensures exists a :: 0 <= a <= n - 1 - k && shards[a].index == n - 1 - k
  {
    if k > 0 {
      NotEarlier(shards, n, k - 1);
      var a :| 0 <= a <= n - k && shards[a].index == n - k;
    }
    assert HasIndex(shards, n - 1 - k);
    var s :| s in shards && s.index == n - 1 - k;
    var b :| 0 <= b < n && shards[b] == s;
  }

  /** What `verify` lists is exactly what is wrong: each fault if and only if its own condition holds. */
  lemma FaultsListed(p: Primitives, disk: Disk, m: Manifest)
    ensures forall f :: f in VerifyFaults(p, disk, m) <==> Listed(p, disk, m, f)
    ensures InOrder(VerifyFaults(p, disk, m))
  {
    hide Faults, Leaves, Contiguous, Faulty, HasIndex, Sorted;
    var sorted := SortByIndex(m.shards);
    SortSorts(m.shards);
    SameMembers(sorted, m.shards);
    FaultsAre(p, disk, sorted);
    FaultsInOrder(p, disk, sorted);
    ContiguousIff(sorted, m.nShards);
    OnlyOfShards(p, disk, Faults(p, disk, sorted));
    assert forall i :: HasIndex(sorted, i) <==> HasIndex(m.shards, i) by { SameIndexes(sorted, m.shards); }
    var first := if !Contiguous(sorted, m.nShards) then [NotContiguous] else [];
    var last := if Merkle.Root(p.sha, Leaves(p, disk, sorted)) != m.merkleRoot then [WrongRoot] else [];
    ThreeParts(first, Faults(p, disk, sorted), last);
  }

  lemma SameIndexes(a: seq<Shard>, b: seq<Shard>)
    requires forall s :: s in a <==> s in b
    ensures forall i :: HasIndex(a, i) <==> HasIndex(b, i)
  {
  }

  lemma ThreeParts(first: seq<Fault>, middle: seq<Fault>, last: seq<Fault>)
    requires (first == [] || first == [NotContiguous]) && (last == [] || last == [WrongRoot])
    requires forall f :: f in middle ==> !f.NotContiguous? && !f.WrongRoot?
    requires InOrder(middle)
    ensures var fs := first + middle + last;
      (forall f :: f in fs <==> f in first || f in middle || f in last) && InOrder(fs)
  {
    var fs := first + middle + last;
    forall i, j | 0 <= i < j < |fs| ensures Reported(fs[i], fs[j]) {
      if |first| <= i && j < |first| + |middle| {
        assert fs[i] == middle[i - |first|] && fs[j] == middle[j - |first|];
      }
    }
  }

  lemma SameMembers(a: seq<Shard>, b: seq<Shard>)
    requires multiset(a) == multiset(b)
    ensures |a| == |b| && forall s :: s in a <==> s in b
  {
    assert |multiset(a)| == |a| && |multiset(b)| == |b|;
    forall s ensures s in a <==> s in b {
      assert s in a <==> s in multiset(a);
      assert s in b <==> s in multiset(b);
    }
  }

  lemma OnlyOfShards(p: Primitives, disk: Disk, fs: seq<Fault>)
    requires forall f :: f in fs ==> exists s :: Faulty(p, disk, s, f)
    ensures forall f :: f in fs ==> !f.NotContiguous? && !f.WrongRoot?
  {
  }

  /** `ks` are the places of the shards whose blob has its own digest. */
  ghost predicate Places(p: Primitives, disk: Disk, shards: seq<Shard>, ks: seq<nat>) {
    && (forall i, j :: 0 <= i < j < |ks| ==> ks[i] < ks[j])
    && (forall i :: 0 <= i < |ks| ==> ks[i] < |shards|)
    && (forall k: nat :: k < |shards| ==> (k in ks <==> DigestRight(p, disk, shards[k])))
  }

  /** The leaves are the digests of exactly those shards, in order. */
  lemma LeavesAre(p: Primitives, disk: Disk, shards: seq<Shard>, ks: seq<nat>)
    requires Places(p, disk, shards, ks)
    ensures |Leaves(p, disk, shards)| == |ks|
    ensures forall i :: 0 <= i < |ks| ==> Leaves(p, disk, shards)[i] == shards[ks[i]].ciphertextHash
  {
    assert shards[0..] == shards;
    LeavesFrom(p, disk, shards, ks, 0, 0);
  }

  lemma {:induction false} LeavesFrom(p: Primitives, disk: Disk, shards: seq<Shard>, ks: seq<nat>, a: nat, j: nat)
    requires Places(p, disk, shards, ks) && a <= |shards| && j <= |ks|
    requires (forall i :: 0 <= i < j ==> ks[i] < a) && (forall i :: j <= i < |ks| ==> ks[i] >= a)
    ensures var leaves := Leaves(p, disk, shards[a..]);
      |leaves| == |ks| - j && forall i :: j <= i < |ks| ==> leaves[i - j] == shards[ks[i]].ciphertextHash
    decreases |shards| - a
  {
    hide DigestRight, Leaves, Leaf;
    LeavesStep(p, disk, shards, a);
    if a < |shards| {
      if a in ks {
        var i :| 0 <= i < |ks| && ks[i] == a;
        OnePlace(ks, a, i, j);
        LeavesFrom(p, disk, shards, ks, a + 1, j + 1);
      } else {
        assert forall n :: j <= n < |ks| ==> ks[n] in ks;
        LeavesFrom(p, disk, shards, ks, a + 1, j);
      }
    }
  }

  lemma OnePlace(ks: seq<nat>, a: nat, i: nat, j: nat)
    requires forall x, y :: 0 <= x < y < |ks| ==> ks[x] < ks[y]
    requires i < |ks| && ks[i] == a && j <= |ks|
    requires (forall x :: 0 <= x < j ==> ks[x] < a) && (forall x :: j <= x < |ks| ==> ks[x] >= a)
    ensures i == j
  {
    if j < |ks| { assert ks[j] >= a; }
  }

  lemma LeavesStep(p: Primitives, disk: Disk, shards: seq<Shard>, a: nat)
    requires a <= |shards|
    ensures Leaves(p, disk, shards[a..]) ==
      if a == |shards| then []
      else (if DigestRight(p, disk, shards[a]) then [shards[a].ciphertextHash] else [])
           + Leaves(p, disk, shards[a + 1..])
  {
    if a < |shards| {
      LeafIff(p, disk, shards[a]);
      assert shards[a..][1..] == shards[a + 1..];
    } else {
      assert shards[a..] == [];
    }
  }

  lemma LeafIff(p: Primitives, disk: Disk, s: Shard)
    ensures Leaf(p, disk, s) == if DigestRight(p, disk, s) then [s.ciphertextHash] else []
  {
  }

  // ---------------------------------------------------------------- what passing means

  /** The sorted indexes count from 0, every blob is there as the manifest has it, and the ordered ciphertext hashes
      have the manifest's root. */
  ghost predicate Passes(p: Primitives, disk: Disk, m: Manifest) {
    var sorted := SortByIndex(m.shards);
    && |sorted| == m.nShards
    && (forall k :: 0 <= k < |sorted| ==> sorted[k].index == k && BlobRight(p, disk, sorted[k]))
    && Merkle.Root(p.sha, CiphertextHashes(sorted)) == m.merkleRoot
  }

  lemma {:induction false} NoFaults(p: Primitives, disk: Disk, shards: seq<Shard>)
    ensures Faults(p, disk, shards) == [] <==> forall k :: 0 <= k < |shards| ==> BlobRight(p, disk, shards[k])
  {
    hide ShardFaults, BlobRight;
    if shards != [] {
      NoFaults(p, disk, shards[1..]);
      FaultsOfShard(p, disk, shards[0]);
      assert forall k :: 0 < k < |shards| ==> shards[k] == shards[1..][k - 1];
    }
  }

  lemma {:induction false} LeavesOfGoodShards(p: Primitives, disk: Disk, shards: seq<Shard>)
    requires forall k :: 0 <= k < |shards| ==> BlobRight(p, disk, shards[k])
    ensures Leaves(p, disk, shards) == CiphertextHashes(shards)
  {
    if shards != [] {
      assert Leaf(p, disk, shards[0]) == [shards[0].ciphertextHash];
      hide BlobRight, Leaf;
      LeavesOfGoodShards(p, disk, shards[1..]);
      assert CiphertextHashes(shards) == [shards[0].ciphertextHash] + CiphertextHashes(shards[1..]);
    }
  }

  /** `verify` finds nothing exactly when the manifest passes. */
  lemma NothingFoundIff(p: Primitives, disk: Disk, m: Manifest)
    ensures VerifyFaults(p, disk, m) == [] <==> Passes(p, disk, m)
  {
    hide BlobRight;
    NoFaults(p, disk, SortByIndex(m.shards));
    if forall k :: 0 <= k < |m.shards| ==> BlobRight(p, disk, SortByIndex(m.shards)[k]) {
      LeavesOfGoodShards(p, disk, SortByIndex(m.shards));
    }
  }

  /** Every manifest of a complete copy passes. */
  lemma CompletePasses(p: Primitives, disk: Disk, master: Bytes, m: Manifest, key: Bytes, size: nat, file: Bytes)
    requires Sound(p) && size > 0 && Complete(p, disk, master, m, key, size, file)
    ensures Passes(p, disk, m)
  {
    forall i | 0 <= i < |m.shards|
      ensures m.shards[i].index == i && BlobRight(p, disk, m.shards[i])
    {
      var s := m.shards[i];
      var blob := Blob(p, m.model, key, i, Pieces(file, size)[i], s.nonce);
      assert blob[..NONCE_BYTES] == s.nonce;
    }
    SortedStays(m.shards);
  }

  function Blobs(disk: Disk, shards: seq<Shard>): (r: seq<Bytes>)
    requires forall k :: 0 <= k < |shards| ==> shards[k].ciphertextHash in disk.blobs
    ensures |r| == |shards| && forall k :: 0 <= k < |r| ==> r[k] == disk.blobs[shards[k].ciphertextHash]
  {
    seq(|shards|, k requires 0 <= k < |shards| => disk.blobs[shards[k].ciphertextHash])
  }

  ghost predicate AllThere(disk: Disk, shards: seq<Shard>) {
    forall k :: 0 <= k < |shards| ==> shards[k].ciphertextHash in disk.blobs
  }

  /** What `verify` hashes: the blobs, and the pairs of the tree over their digests. */
  ghost function VerifyInputs(p: Primitives, disk: Disk, m: Manifest): set<Bytes>
    requires AllThere(disk, SortByIndex(m.shards))
  {
    var sorted := SortByIndex(m.shards);
    (set k | 0 <= k < |sorted| :: Blobs(disk, sorted)[k]) + Merkle.Inputs(p.sha, CiphertextHashes(sorted))
  }

  lemma PassesReads(p: Primitives, disk: Disk, m: Manifest, k: nat)
    requires Passes(p, disk, m) && k < |m.shards|
    ensures var s := SortByIndex(m.shards)[k];
      s.ciphertextHash in disk.blobs && p.sha(disk.blobs[s.ciphertextHash]) == s.ciphertextHash
  {
    assert BlobRight(p, disk, SortByIndex(m.shards)[k]);
  }

  /** Soundness of `verify`: two manifests with the same number of shards and the same root that
      both pass, on any two disks, name the same ciphertext hashes in order and stand for the same
      blobs, or two strings that the checks hashed collide. */
  lemma VerifySound(p: Primitives, d1: Disk, m1: Manifest, d2: Disk, m2: Manifest)
    requires Passes(p, d1, m1) && Passes(p, d2, m2)
    requires m1.nShards == m2.nShards && m1.merkleRoot == m2.merkleRoot
    ensures var s1, s2 := SortByIndex(m1.shards), SortByIndex(m2.shards);
      && AllThere(d1, s1) && AllThere(d2, s2)
      && ((CiphertextHashes(s1) == CiphertextHashes(s2) && Blobs(d1, s1) == Blobs(d2, s2))
          || Collides(p.sha, VerifyInputs(p, d1, m1), VerifyInputs(p, d2, m2)))
  {
    var s1, s2 := SortByIndex(m1.shards), SortByIndex(m2.shards);
    forall k | 0 <= k < |s1| ensures s1[k].ciphertextHash in d1.blobs { PassesReads(p, d1, m1, k); }
    forall k | 0 <= k < |s2| ensures s2[k].ciphertextHash in d2.blobs { PassesReads(p, d2, m2, k); }
    var h1, h2 := CiphertextHashes(s1), CiphertextHashes(s2);
    var v1, v2 := VerifyInputs(p, d1, m1), VerifyInputs(p, d2, m2);
    HashesAreDigests(p, d1, m1);
    HashesAreDigests(p, d2, m2);
    Merkle.RootBinds(p.sha, h1, h2);
    if h1 == h2 && !Collides(p.sha, v1, v2) {
      forall k | 0 <= k < |s1|
        ensures Blobs(d1, s1)[k] == Blobs(d2, s2)[k]
      {
        PassesReads(p, d1, m1, k);
        PassesReads(p, d2, m2, k);
        assert h1[k] == h2[k];
        assert Blobs(d1, s1)[k] in v1 && Blobs(d2, s2)[k] in v2;
      }
    }
  }

  lemma HashesAreDigests(p: Primitives, disk: Disk, m: Manifest)
    requires Passes(p, disk, m)
    ensures forall k :: 0 <= k < |m.shards| ==> |CiphertextHashes(SortByIndex(m.shards))[k]| == DIGEST_BYTES
  {
    forall k | 0 <= k < |m.shards|
      ensures |CiphertextHashes(SortByIndex(m.shards))[k]| == DIGEST_BYTES
    {
      PassesReads(p, disk, m, k);
    }
  }
}
