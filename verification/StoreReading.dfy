/** What can be read back from the sharded store. */
module StoreReading {
  import opened Hashing
  import opened Outcomes
  import opened Protocol
  import opened ShardStore

  // ---------------------------------------------------------------- pieces of a file

  lemma OneMore(n: int, size: int)
    ensures n * size == (n - 1) * size + size && (n + 1) * size == n * size + size
  {
  }

  /** The pieces in order are the file, and there are as many as the size of the file divided by
      `size`, rounded up. */
  lemma {:induction false} PiecesJoin(file: Bytes, size: nat)
    requires size > 0
    ensures Concat(Pieces(file, size)) == file
    ensures var n := |Pieces(file, size)|; (n - 1) * size < |file| <= n * size || (file == [] && n == 0)
  {
    if |file| > size {
      PiecesJoin(file[size..], size);
      assert file[..size] + file[size..] == file;
      OneMore(|Pieces(file[size..], size)|, size);
    } else if file != [] {
      assert Concat([file]) == file + Concat([]) == file;
    }
  }

  lemma SliceOfRest(file: Bytes, size: nat, lo: nat, hi: nat)
    requires size <= lo <= hi <= |file|
    ensures file[size..][lo - size..hi - size] == file[lo..hi]
  {
  }

  /** Piece `i` is the i-th stretch of `size` bytes; only the last may be short, none is empty. */
  lemma {:induction false} PieceIs(file: Bytes, size: nat, i: nat)
    requires size > 0 && i < |Pieces(file, size)|
    ensures i * size < |file| && Pieces(file, size)[i] == file[i * size..Min((i + 1) * size, |file|)]
    ensures 0 < |Pieces(file, size)[i]| <= size
    ensures i + 1 < |Pieces(file, size)| ==> |Pieces(file, size)[i]| == size
  {
    if |file| > size && i > 0 {
      var rest := file[size..];
      PieceIs(rest, size, i - 1);
      OneMore(i, size);
      assert (i - 1) + 1 == i;
      SliceOfRest(file, size, i * size, Min((i + 1) * size, |file|));
    }
  }

  // ---------------------------------------------------------------- reading gives the file back

  /** A shard of a complete copy decrypts to its piece. */
  lemma ShardDecrypts(p: Primitives, disk: Disk, master: Bytes, m: Manifest, key: Bytes, size: nat, file: Bytes, i: nat)
    requires Sound(p) && size > 0 && Complete(p, disk, master, m, key, size, file) && i < |m.shards|
    ensures DecryptShard(p, disk, m, m.shards[i], key) == Ok(Pieces(file, size)[i])
  {
    var piece, s := Pieces(file, size)[i], m.shards[i];
    var text := p.encrypt(key, s.nonce, piece, p.aad(m.model, i, p.sha(piece)));
    assert disk.blobs[s.ciphertextHash] == s.nonce + text;
    assert Take(s.nonce + text, NONCE_BYTES) == s.nonce && (s.nonce + text)[NONCE_BYTES..] == text;
  }

  lemma {:induction false} SortedStays(shards: seq<Shard>)
    requires forall i, j :: 0 <= i < j < |shards| ==> shards[i].index <= shards[j].index
    ensures SortByIndex(shards) == shards
  {
    if |shards| > 1 { SortedStays(shards[1..]); }
  }

  lemma {:induction false} FindByPosition(shards: seq<Shard>, i: nat, base: int)
    requires i < |shards| && forall j :: 0 <= j < |shards| ==> shards[j].index == base + j
    ensures FindShard(shards, base + i) == Some(shards[i])
  {
    if i > 0 { FindByPosition(shards[1..], i - 1, base + 1); }
  }

  lemma {:induction false} AllDecrypt(p: Primitives, disk: Disk, m: Manifest, shards: seq<Shard>, key: Bytes,
                                      texts: seq<Bytes>)
    requires |shards| == |texts|
    requires forall i :: 0 <= i < |shards| ==> DecryptShard(p, disk, m, shards[i], key) == Ok(texts[i])
    ensures DecryptAll(p, disk, m, shards, key) == Ok(texts)
  {
    if shards != [] {
      AllDecrypt(p, disk, m, shards[1..], key, texts[1..]);
      assert texts == [texts[0]] + texts[1..];
    }
  }

  function PlaintextTotal(shards: seq<Shard>): nat {
    if shards == [] then 0 else shards[0].plaintextBytes + PlaintextTotal(shards[1..])
  }

  lemma {:induction false} SizesAddUp(shards: seq<Shard>, pieces: seq<Bytes>)
    requires |shards| == |pieces| && forall i :: 0 <= i < |shards| ==> shards[i].plaintextBytes == |pieces[i]|
    ensures PlaintextTotal(shards) == |Concat(pieces)|
  {
    if shards != [] { SizesAddUp(shards[1..], pieces[1..]); }
  }

  /** Round trip: streaming a complete copy and joining the pieces gives the file, and reading
      shard `i` alone gives its i-th piece; the sizes add up to the size of the file. */
  lemma RoundTrip(p: Primitives, disk: Disk, master: Bytes, m: Manifest, key: Bytes, size: nat, file: Bytes)
    requires Sound(p) && size > 0 && Complete(p, disk, master, m, key, size, file)
    ensures StreamPlaintext(p, disk, master, m) == Ok(Pieces(file, size))
    ensures Concat(Pieces(file, size)) == file && m.sizeBytes == |file| == PlaintextTotal(m.shards)
    ensures forall i :: 0 <= i < m.nShards ==>
      ReadShardPlaintext(p, disk, master, m, i) == Ok(Pieces(file, size)[i])
  {
    var pieces := Pieces(file, size);
    forall i | 0 <= i < |m.shards|
      ensures DecryptShard(p, disk, m, m.shards[i], key) == Ok(pieces[i]) && m.shards[i].index == i
    {
      ShardDecrypts(p, disk, master, m, key, size, file, i);
    }
    SortedStays(m.shards);
    AllDecrypt(p, disk, m, m.shards, key, pieces);
    PiecesJoin(file, size);
    SizesAddUp(m.shards, pieces);
    forall i | 0 <= i < m.nShards
      ensures ReadShardPlaintext(p, disk, master, m, i) == Ok(pieces[i])
    {
      FindByPosition(m.shards, i, 0);
    }
  }

  /** Of a complete copy exactly the indexes of the manifest can be read, each giving its piece. */
  lemma ReadsExactlyThePieces(p: Primitives, disk: Disk, master: Bytes, m: Manifest, key: Bytes, size: nat,
                              file: Bytes, index: int)
    requires Sound(p) && size > 0 && Complete(p, disk, master, m, key, size, file)
    ensures ReadShardPlaintext(p, disk, master, m, index)
         == if 0 <= index < |Pieces(file, size)| then Ok(Pieces(file, size)[index]) else Err(IndexError)
  {
    RoundTrip(p, disk, master, m, key, size, file);
  }

  ghost function Elements(texts: seq<Bytes>): set<Bytes> { set t | t in texts }

  lemma {:induction false} DecryptionsAgree(p: Primitives, d1: Disk, key1: Bytes, d2: Disk, key2: Bytes, m: Manifest,
                                            shards: seq<Shard>)
    requires DecryptAll(p, d1, m, shards, key1).Ok? && DecryptAll(p, d2, m, shards, key2).Ok?
    ensures var a, b := DecryptAll(p, d1, m, shards, key1).value, DecryptAll(p, d2, m, shards, key2).value;
      a == b || Collides(p.sha, Elements(a), Elements(b))
  {
    if shards != [] {
      DecryptionsAgree(p, d1, key1, d2, key2, m, shards[1..]);
      var a, b := DecryptAll(p, d1, m, shards, key1).value, DecryptAll(p, d2, m, shards, key2).value;
      assert a == [a[0]] + a[1..] && b == [b[0]] + b[1..];
      assert Elements(a[1..]) <= Elements(a) && Elements(b[1..]) <= Elements(b);
      assert a[0] in Elements(a) && b[0] in Elements(b);
    }
  }

  /** Whatever has become of the files and of the master key: a manifest streams to one file only.
      Two streams of it that both succeed, on any two disks, are equal, or two of their pieces collide. */
  lemma StreamsAgree(p: Primitives, d1: Disk, master1: Bytes, d2: Disk, master2: Bytes, m: Manifest)
    requires StreamPlaintext(p, d1, master1, m).Ok? && StreamPlaintext(p, d2, master2, m).Ok?
    ensures var a, b := StreamPlaintext(p, d1, master1, m).value, StreamPlaintext(p, d2, master2, m).value;
      a == b || Collides(p.sha, Elements(a), Elements(b))
  {
    DecryptionsAgree(p, d1, UnwrapKey(p, d1, master1, m.keyId).value, d2, UnwrapKey(p, d2, master2, m.keyId).value, m,
                     SortByIndex(m.shards));
  }

  // ---------------------------------------------------------------- damaged and reordered copies

  /** One shard can be read if and only if its blob is there with the digest, the length and the nonce of the manifest
      and decrypts to a text with the digest and the length of the manifest; that text is what is read. */
  lemma DecryptShardIff(p: Primitives, disk: Disk, m: Manifest, s: Shard, key: Bytes, text: Bytes)
    requires |s.nonce| == 12
    ensures DecryptShard(p, disk, m, s, key) == Ok(text) <==>
      && s.ciphertextHash in disk.blobs
      && var blob := disk.blobs[s.ciphertextHash];
      && p.sha(blob) == s.ciphertextHash && |blob| == s.ciphertextBytes && |blob| >= 12 && blob[..12] == s.nonce
      && p.decrypt(key, blob[..12], blob[12..], p.aad(m.model, s.index, s.plaintextHash)) == Some(text)
      && p.sha(text) == s.plaintextHash && |text| == s.plaintextBytes
  {
    if s.ciphertextHash in disk.blobs { TakeTwelve(disk.blobs[s.ciphertextHash], s.nonce); }
  }

  /** A key can be unwrapped if and only if its file is there, holds at least the nonce, the tag and one byte, and
      decrypts. */
  lemma UnwrapKeyIff(p: Primitives, disk: Disk, master: Bytes, keyId: string, key: Bytes)
    ensures UnwrapKey(p, disk, master, keyId) == Ok(key) <==>
      && keyId in disk.keys
      && var blob := disk.keys[keyId];
         |blob| >= 29 && p.decrypt(master, blob[..12], blob[12..], p.utf8(keyId)) == Some(key)
    ensures UnwrapKey(p, disk, master, keyId) == Err(NoSuchFile) <==> keyId !in disk.keys
    ensures UnwrapKey(p, disk, master, keyId) == Err(Truncated) <==> keyId in disk.keys && |disk.keys[keyId]| < 29
    ensures UnwrapKey(p, disk, master, keyId) == Err(InvalidTag) <==>
      && keyId in disk.keys && |disk.keys[keyId]| >= 29
      && p.decrypt(master, disk.keys[keyId][..12], disk.keys[keyId][12..], p.utf8(keyId)) == None
  {
  }

  /** A model's manifest is the one under the digest of its id, if that is of this model. */
  lemma GetManifestIff(p: Primitives, disk: Disk, model: ModelId, m: Manifest)
    ensures GetManifest(p, disk, model) == Some(m) <==>
      p.sha(p.utf8(model)) in disk.manifests && disk.manifests[p.sha(p.utf8(model))] == m && m.model == model
  {
  }

  /** Reading one index is reading the first shard that has it, and nothing at an index outside the manifest. */
  lemma ReadShardIff(p: Primitives, disk: Disk, master: Bytes, m: Manifest, index: int, text: Bytes)
    ensures ReadShardPlaintext(p, disk, master, m, index) == Ok(text) <==>
      && 0 <= index < m.nShards && UnwrapKey(p, disk, master, m.keyId).Ok?
      && exists k :: 0 <= k < |m.shards| && FirstWith(m.shards, k, index)
           && DecryptShard(p, disk, m, m.shards[k], UnwrapKey(p, disk, master, m.keyId).value) == Ok(text)
    ensures ReadShardPlaintext(p, disk, master, m, index) == Err(IndexError) <==>
      !(0 <= index < m.nShards) || forall s :: s in m.shards ==> s.index != index
  {
    hide DecryptShard, UnwrapKey;
    FindShardIs(m.shards, index);
    NeverIndexError(p, disk, master, m);
  }

  ghost predicate FirstWith(shards: seq<Shard>, k: nat, index: int)
    requires k < |shards|
  {
    shards[k].index == index && forall j :: 0 <= j < k ==> shards[j].index != index
  }

  lemma {:induction false} FindShardIs(shards: seq<Shard>, index: int)
    ensures FindShard(shards, index) == None <==> forall s :: s in shards ==> s.index != index
    ensures forall k :: 0 <= k < |shards| && FirstWith(shards, k, index) ==> FindShard(shards, index) == Some(shards[k])
    ensures FindShard(shards, index).Some? ==>
      exists k :: 0 <= k < |shards| && FirstWith(shards, k, index) && FindShard(shards, index) == Some(shards[k])
  {
    if shards != [] {
      if shards[0].index == index {
        assert FirstWith(shards, 0, index);
      } else {
        FindShardIs(shards[1..], index);
        assert forall s :: s in shards <==> s == shards[0] || s in shards[1..];
        forall k | 0 <= k < |shards| && FirstWith(shards, k, index)
          ensures FindShard(shards, index) == Some(shards[k])
        {
          assert FirstWith(shards[1..], k - 1, index);
        }
        if FindShard(shards, index).Some? {
          var k :| 0 <= k < |shards[1..]| && FirstWith(shards[1..], k, index)
                   && FindShard(shards, index) == Some(shards[1..][k]);
          assert FirstWith(shards, k + 1, index);
        }
      }
    }
  }

  lemma NeverIndexError(p: Primitives, disk: Disk, master: Bytes, m: Manifest)
    ensures UnwrapKey(p, disk, master, m.keyId) != Err(IndexError)
    ensures forall s, key :: DecryptShard(p, disk, m, s, key) != Err(IndexError)
  {
  }

  lemma TakeTwelve(blob: Bytes, nonce: Bytes)
    requires |nonce| == 12
    ensures Take(blob, NONCE_BYTES) == nonce <==> |blob| >= 12 && blob[..12] == nonce
    ensures Take(blob, NONCE_BYTES) == nonce ==> blob[|Take(blob, NONCE_BYTES)|..] == blob[12..]
  {
    assert |blob| == 12 ==> blob[..12] == blob;
  }

  /** The blob passes the checks that come before decryption. */
  ghost predicate BlobFits(p: Primitives, disk: Disk, s: Shard) {
    && s.ciphertextHash in disk.blobs
    && p.sha(disk.blobs[s.ciphertextHash]) == s.ciphertextHash && |disk.blobs[s.ciphertextHash]| == s.ciphertextBytes
  }

  ghost predicate NonceFits(disk: Disk, s: Shard)
    requires s.ciphertextHash in disk.blobs
  {
    |disk.blobs[s.ciphertextHash]| >= 12 && disk.blobs[s.ciphertextHash][..12] == s.nonce
  }

  /** Which error a shard that cannot be read gives. */
  lemma DecryptShardFails(p: Primitives, disk: Disk, m: Manifest, s: Shard, key: Bytes)
    requires |s.nonce| == 12
    ensures var r := DecryptShard(p, disk, m, s, key);
      && (r == Err(NoSuchFile) <==> s.ciphertextHash !in disk.blobs)
      && (r == Err(NonceMismatch) <==> BlobFits(p, disk, s) && !NonceFits(disk, s))
      && (r == Err(InvalidTag) <==>
            && BlobFits(p, disk, s) && NonceFits(disk, s)
            && var blob := disk.blobs[s.ciphertextHash];
               p.decrypt(key, blob[..12], blob[12..], p.aad(m.model, s.index, s.plaintextHash)) == None)
      && (r.Err? ==> r.error in {NoSuchFile, Integrity, NonceMismatch, InvalidTag})
  {
    if s.ciphertextHash in disk.blobs {
      TakeTwelve(disk.blobs[s.ciphertextHash], s.nonce);
    }
  }

  lemma {:induction false} SortedAlike(a: seq<Shard>, b: seq<Shard>)
    requires multiset(a) == multiset(b) && Sorted(b)
    requires forall i :: 0 <= i < |a| ==> a[i].index == i
    ensures a == b
  {
    assert |multiset(a)| == |a| && |multiset(b)| == |b|;
    forall i | 0 <= i < |a| ensures a[i] == b[i] { Placed(a, b, i); }
  }

  /** Shard i of the numbered list stands at place i of every sorted list of the same shards. */
  lemma {:induction false} Placed(a: seq<Shard>, b: seq<Shard>, i: nat)
    requires multiset(a) == multiset(b) && Sorted(b) && |a| == |b| && i < |a|
    requires forall k :: 0 <= k < |a| ==> a[k].index == k
    ensures a[i] == b[i]
  {
    forall k | 0 <= k < i ensures a[k] == b[k] { Placed(a, b, k); }
    assert a[i] in multiset(b) && b[i] in multiset(a);
    var j :| 0 <= j < |b| && b[j] == a[i];
    var k :| 0 <= k < |a| && a[k] == b[i];
    assert k < i ==> b[k] == b[i] && a[k].index == k;
    TakenOnce(a, b, i);
  }

  lemma TakenOnce(a: seq<Shard>, b: seq<Shard>, i: nat)
    requires multiset(a) == multiset(b) && |a| == |b| && i < |a|
    requires forall k :: 0 <= k < |a| ==> a[k].index == k
    requires forall k :: 0 <= k < i ==> a[k] == b[k]
    ensures b[i] in a[i..] && a[i] in b[i..]
  {
    assert a == a[..i] + a[i..] && b == b[..i] + b[i..] && a[..i] == b[..i];
    assert multiset(a) == multiset(a[..i]) + multiset(a[i..]) && multiset(b) == multiset(b[..i]) + multiset(b[i..]);
    assert multiset(a[i..]) == multiset(a) - multiset(a[..i]) == multiset(b[i..]);
    assert b[i] in multiset(b[i..]) by { assert b[i] == b[i..][0]; }
    assert a[i] in multiset(a[i..]) by { assert a[i] == a[i..][0]; }
  }

  /** The order in which the manifest has its shards does not matter: from any order a complete copy streams its pieces
      in the order of the file, and reading shard i gives piece i. */
  lemma OrderDoesNotMatter(p: Primitives, disk: Disk, master: Bytes, m: Manifest, key: Bytes, size: nat, file: Bytes,
                           shards: seq<Shard>)
    requires Sound(p) && size > 0 && Complete(p, disk, master, m, key, size, file)
    requires multiset(shards) == multiset(m.shards)
    ensures StreamPlaintext(p, disk, master, m.(shards := shards)) == Ok(Pieces(file, size))
    ensures forall i :: 0 <= i < m.nShards ==>
      ReadShardPlaintext(p, disk, master, m.(shards := shards), i) == Ok(Pieces(file, size)[i])
  {
    hide Complete, UnwrapKey, DecryptShard, DecryptAll, Sorted, SortByIndex, FindShard, Sound;
    Numbered(p, disk, master, m, key, size, file);
    RoundTrip(p, disk, master, m, key, size, file);
    SortSorts(shards);
    SortedAlike(m.shards, SortByIndex(shards));
    SortedStays(m.shards);
    SameText(p, disk, m, shards, m.shards, key);
    forall i | 0 <= i < m.nShards
      ensures ReadShardPlaintext(p, disk, master, m.(shards := shards), i) == Ok(Pieces(file, size)[i])
    {
      OnlyShard(shards, m.shards, i);
      FindByPosition(m.shards, i, 0);
      SameText(p, disk, m, shards, [m.shards[i]], key);
    }
  }

  lemma Numbered(p: Primitives, disk: Disk, master: Bytes, m: Manifest, key: Bytes, size: nat, file: Bytes)
    requires size > 0 && Complete(p, disk, master, m, key, size, file)
    ensures |m.shards| == m.nShards == |Pieces(file, size)| && UnwrapKey(p, disk, master, m.keyId) == Ok(key)
    ensures forall i :: 0 <= i < |m.shards| ==> m.shards[i].index == i
  {
    forall i | 0 <= i < |m.shards| ensures m.shards[i].index == i {
      assert m.shards[i] == MakeShard(p, m.model, key, i, Pieces(file, size)[i], m.shards[i].nonce);
    }
  }

  /** Decryption looks at the model of a manifest only. */
  lemma {:induction false} SameText(p: Primitives, disk: Disk, m: Manifest, shards: seq<Shard>, some: seq<Shard>,
                                    key: Bytes)
    ensures DecryptAll(p, disk, m.(shards := shards), some, key) == DecryptAll(p, disk, m, some, key)
    ensures forall s :: DecryptShard(p, disk, m.(shards := shards), s, key) == DecryptShard(p, disk, m, s, key)
  {
    if some != [] { SameText(p, disk, m, shards, some[1..], key); }
  }

  lemma OnlyShard(shards: seq<Shard>, numbered: seq<Shard>, i: nat)
    requires multiset(shards) == multiset(numbered) && i < |numbered|
    requires forall k :: 0 <= k < |numbered| ==> numbered[k].index == k
    ensures FindShard(shards, i) == Some(numbered[i])
  {
    assert numbered[i] in multiset(shards);
    forall s | s in shards && s.index == i ensures s == numbered[i] {
      assert s in multiset(numbered);
      var k :| 0 <= k < |numbered| && numbered[k] == s;
    }
    FindsIt(shards, numbered[i]);
  }

  lemma {:induction false} FindsIt(shards: seq<Shard>, s: Shard)
    requires s in shards && forall t :: t in shards && t.index == s.index ==> t == s
    ensures FindShard(shards, s.index) == Some(s)
  {
    if shards[0].index != s.index {
      assert forall t :: t in shards[1..] ==> t in shards;
      FindsIt(shards[1..], s);
    } else {
      assert shards[0] in shards;
    }
  }
}
