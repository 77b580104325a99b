/** The encrypted, sharded store of src/vault/store.py and the schemas of src/vault/manifest.py.
    Digests are kept as their 32 bytes where the source writes 64 hex digits. */
module ShardStore {
  import opened Hashing
  import opened Outcomes
  import opened Protocol
  import Merkle

  const NONCE_BYTES: nat := 12
  const TAG_BYTES: nat := 16
  const MAX_MODEL_ID: nat := 512
  type Nonce = b: Bytes | |b| == NONCE_BYTES witness Zeros(NONCE_BYTES)

  /** SHA-256, UTF-8, AES-GCM (key, nonce, text, associated data) and the canonical form of a
      shard's associated data. */
  datatype Primitives = Primitives(
    sha: Hash,
    utf8: string -> Bytes,
    encrypt: (Bytes, Bytes, Bytes, Bytes) -> Bytes,
    decrypt: (Bytes, Bytes, Bytes, Bytes) -> Option<Bytes>,
    aad: (ModelId, int, Bytes) -> Bytes)

  /** All that is assumed of AES-GCM: decrypting undoes encrypting, and a ciphertext is 16 bytes
      longer than its text. */
  ghost predicate Sound(p: Primitives) {
    forall key, nonce, text, aad ::
      && p.decrypt(key, nonce, p.encrypt(key, nonce, text, aad), aad) == Some(text)
      && |p.encrypt(key, nonce, text, aad)| == |text| + TAG_BYTES
  }

  datatype Shard = Shard(index: int, plaintextHash: Bytes, ciphertextHash: Bytes, plaintextBytes: nat,
                         ciphertextBytes: nat, nonce: Bytes)

  datatype Manifest = Manifest(model: ModelId, source: string, license: string, sizeBytes: nat,
                               nShards: nat, merkleRoot: Bytes, keyId: string, shards: seq<Shard>,
                               fileSha: Bytes)

  /** The three directories: blobs by ciphertext digest, wrapped keys by id, manifests by the
      digest of the model id. */
  datatype Disk = Disk(blobs: map<Bytes, Bytes>, keys: map<string, Bytes>, manifests: map<Bytes, Manifest>)

  datatype StoreError = BadSuffix | NotRegular | BadModelId | AlreadyExists | HashClash | EmptyFile
                      | NoPassphrase
  datatype ReadError = NoSuchFile | Truncated | InvalidTag | Integrity | NonceMismatch | IndexError

  // ---------------------------------------------------------------- what add_file makes of a file

  /** What `handle.read(size)` returns, one call after the other, up to the end of the file. */
  function Pieces(file: Bytes, size: nat): seq<Bytes>
    requires size > 0
  {
    if file == [] then []
    else if |file| <= size then [file]
    else [file[..size]] + Pieces(file[size..], size)
  }

  function Blob(p: Primitives, model: ModelId, key: Bytes, index: int, piece: Bytes, nonce: Bytes): Bytes {
    nonce + p.encrypt(key, nonce, piece, p.aad(model, index, p.sha(piece)))
  }

  function MakeShard(p: Primitives, model: ModelId, key: Bytes, index: int, piece: Bytes, nonce: Bytes): Shard {
    var blob := Blob(p, model, key, index, piece, nonce);
    Shard(index, p.sha(piece), p.sha(blob), |piece|, |blob|, nonce)
  }

  function CiphertextHashes(shards: seq<Shard>): (r: seq<Bytes>)
    ensures |r| == |shards| && forall i :: 0 <= i < |r| ==> r[i] == shards[i].ciphertextHash
  {
    seq(|shards|, i requires 0 <= i < |shards| => shards[i].ciphertextHash)
  }

  /** `shards` are the shards of the first pieces of a file, in order. */
  ghost predicate ShardsOf(p: Primitives, model: ModelId, key: Bytes, shards: seq<Shard>, pieces: seq<Bytes>) {
    && |shards| <= |pieces|
    && forall i :: 0 <= i < |shards| ==>
         |shards[i].nonce| == NONCE_BYTES && shards[i] == MakeShard(p, model, key, i, pieces[i], shards[i].nonce)
  }

  /** The blobs of those shards are on disk. */
  ghost predicate BlobsOf(p: Primitives, model: ModelId, key: Bytes, shards: seq<Shard>, pieces: seq<Bytes>,
                          blobs: map<Bytes, Bytes>) {
    && |shards| <= |pieces|
    && forall i :: 0 <= i < |shards| ==>
         && shards[i].ciphertextHash in blobs
         && blobs[shards[i].ciphertextHash] == Blob(p, model, key, i, pieces[i], shards[i].nonce)
  }

  /** `m` describes `file`, encrypted under `key`. */
  ghost predicate ManifestOf(p: Primitives, m: Manifest, key: Bytes, size: nat, file: Bytes)
    requires size > 0
  {
    var pieces := Pieces(file, size);
    && ShardsOf(p, m.model, key, m.shards, pieces) && |m.shards| == |pieces|
    && m.nShards == |pieces| && m.sizeBytes == |file| && m.fileSha == p.sha(file)
    && m.merkleRoot == Merkle.Root(p.sha, CiphertextHashes(m.shards))
  }

  function Wrap(p: Primitives, master: Bytes, keyId: string, key: Bytes, nonce: Bytes): Bytes {
    nonce + p.encrypt(master, nonce, key, p.utf8(keyId))
  }

  function UnwrapKey(p: Primitives, disk: Disk, master: Bytes, keyId: string): Result<Bytes, ReadError> {
    if keyId !in disk.keys then Err(NoSuchFile)
    else if |disk.keys[keyId]| < 29 then Err(Truncated)
    else match p.decrypt(master, disk.keys[keyId][..NONCE_BYTES], disk.keys[keyId][NONCE_BYTES..], p.utf8(keyId))
         case None => Err(InvalidTag)
         case Some(key) => Ok(key)
  }

  /** `m` is a complete, readable copy of `file` on `disk`. */
  ghost predicate Complete(p: Primitives, disk: Disk, master: Bytes, m: Manifest, key: Bytes, size: nat, file: Bytes)
    requires size > 0
  {
    && ManifestOf(p, m, key, size, file)
    && BlobsOf(p, m.model, key, m.shards, Pieces(file, size), disk.blobs)
    && UnwrapKey(p, disk, master, m.keyId) == Ok(key)
  }

  // ---------------------------------------------------------------- reading

  function Take(b: Bytes, n: nat): Bytes { if |b| <= n then b else b[..n] }

  function DecryptShard(p: Primitives, disk: Disk, m: Manifest, s: Shard, key: Bytes): Result<Bytes, ReadError> {
    if s.ciphertextHash !in disk.blobs then Err(NoSuchFile)
    else
      var blob := disk.blobs[s.ciphertextHash];
      if p.sha(blob) != s.ciphertextHash || |blob| != s.ciphertextBytes then Err(Integrity)
      else if Take(blob, NONCE_BYTES) != s.nonce then Err(NonceMismatch)
      else match p.decrypt(key, Take(blob, NONCE_BYTES), blob[|Take(blob, NONCE_BYTES)|..],
                           p.aad(m.model, s.index, s.plaintextHash))
           case None => Err(InvalidTag)
           case Some(text) =>
             if p.sha(text) != s.plaintextHash || |text| != s.plaintextBytes then Err(Integrity) else Ok(text)
  }

  /** Python's stable `sorted(shards, key=index)`. */
  function SortByIndex(shards: seq<Shard>): (r: seq<Shard>)
    ensures |r| == |shards|
  {
    if shards == [] then [] else Insert(shards[0], SortByIndex(shards[1..]))
  }

  function Insert(s: Shard, sorted: seq<Shard>): (r: seq<Shard>)
    ensures |r| == |sorted| + 1
  {
    if sorted == [] || s.index <= sorted[0].index then [s] + sorted
    else [sorted[0]] + Insert(s, sorted[1..])
  }

  ghost predicate Sorted(shards: seq<Shard>) {
    forall i, j :: 0 <= i < j < |shards| ==> shards[i].index <= shards[j].index
  }

  lemma {:induction false} InsertSorts(s: Shard, sorted: seq<Shard>)
    requires Sorted(sorted)
    ensures var r := Insert(s, sorted);
      Sorted(r) && r[0].index == if sorted == [] || s.index <= sorted[0].index then s.index else sorted[0].index
  {
    if sorted != [] && s.index > sorted[0].index {
      InsertSorts(s, sorted[1..]);
      var rest := Insert(s, sorted[1..]);
      assert forall j :: 0 <= j < |rest| ==> rest[0].index <= rest[j].index;
    }
  }

  lemma {:induction false} InsertKeeps(s: Shard, sorted: seq<Shard>)
    ensures multiset(Insert(s, sorted)) == multiset{s} + multiset(sorted)
  {
    if sorted != [] && s.index > sorted[0].index {
      InsertKeeps(s, sorted[1..]);
      assert sorted == [sorted[0]] + sorted[1..];
    }
  }

  lemma {:induction false} SortIsSorted(shards: seq<Shard>)
    ensures Sorted(SortByIndex(shards))
  {
    hide Sorted;
    if shards == [] {
      assert Sorted([]) by { EmptyIsSorted(); }
    } else {
      SortIsSorted(shards[1..]);
      InsertSorts(shards[0], SortByIndex(shards[1..]));
    }
  }

  lemma EmptyIsSorted()
    ensures Sorted([])
  {
  }

  lemma {:induction false} SortKeeps(shards: seq<Shard>)
    ensures multiset(SortByIndex(shards)) == multiset(shards)
  {
    if shards != [] {
      SortKeeps(shards[1..]);
      InsertKeeps(shards[0], SortByIndex(shards[1..]));
      assert shards == [shards[0]] + shards[1..];
    }
  }

  /** The result of `sorted` is in order and holds the same shards, each as often as before. */
  lemma SortSorts(shards: seq<Shard>)
    ensures Sorted(SortByIndex(shards)) && multiset(SortByIndex(shards)) == multiset(shards)
  {
    SortIsSorted(shards);
    SortKeeps(shards);
  }

  function DecryptAll(p: Primitives, disk: Disk, m: Manifest, shards: seq<Shard>,
                      key: Bytes): Result<seq<Bytes>, ReadError> {
    if shards == [] then Ok([])
    else match DecryptShard(p, disk, m, shards[0], key)
         case Err(e) => Err(e)
         case Ok(text) =>
           match DecryptAll(p, disk, m, shards[1..], key)
           case Err(e) => Err(e)
           case Ok(rest) => Ok([text] + rest)
  }

  function StreamPlaintext(p: Primitives, disk: Disk, master: Bytes, m: Manifest): Result<seq<Bytes>, ReadError> {
    match UnwrapKey(p, disk, master, m.keyId)
    case Err(e) => Err(e)
    case Ok(key) => DecryptAll(p, disk, m, SortByIndex(m.shards), key)
  }

  function FindShard(shards: seq<Shard>, index: int): Option<Shard> {
    if shards == [] then None else if shards[0].index == index then Some(shards[0]) else FindShard(shards[1..], index)
  }

  function ReadShardPlaintext(p: Primitives, disk: Disk, master: Bytes, m: Manifest,
                              index: int): Result<Bytes, ReadError> {
    if !(0 <= index < m.nShards) then Err(IndexError)
    else match FindShard(m.shards, index)
         case None => Err(IndexError)
         case Some(s) =>
           match UnwrapKey(p, disk, master, m.keyId)
           case Err(e) => Err(e)
           case Ok(key) => DecryptShard(p, disk, m, s, key)
  }

  function ManifestPath(p: Primitives, model: ModelId): Bytes { p.sha(p.utf8(model)) }

  function GetManifest(p: Primitives, disk: Disk, model: ModelId): Option<Manifest> {
    var path := ManifestPath(p, model);
    if path in disk.manifests && disk.manifests[path].model == model then Some(disk.manifests[path]) else None
  }

  // ---------------------------------------------------------------- the store

  function Lower(c: char): char { if 'A' <= c <= 'Z' then (c - 'A') + 'a' else c }

  function LowerCase(s: string): string { seq(|s|, i requires 0 <= i < |s| => Lower(s[i])) }

  predicate AllowedSuffix(suffix: string) { LowerCase(suffix) in {".bin", ".pt", ".safetensors"} }

  /** `s` in small letters of ASCII is `t`. */
  predicate SameButForCase(s: string, t: string) {
    && |s| == |t|
    && forall i :: 0 <= i < |s| ==> s[i] == t[i] || (65 <= s[i] as int <= 90 && s[i] as int + 32 == t[i] as int)
  }

  predicate WeightSuffix(s: string) {
    SameButForCase(s, ".bin") || SameButForCase(s, ".pt") || SameButForCase(s, ".safetensors")
  }

  lemma SuffixIff(s: string)
    ensures AllowedSuffix(s) <==> WeightSuffix(s)
  {
    LowerIs(s, ".bin");
    LowerIs(s, ".pt");
    LowerIs(s, ".safetensors");
  }

  lemma LowerIs(s: string, t: string)
    requires forall i :: 0 <= i < |t| ==> !(65 <= t[i] as int <= 90)
    ensures LowerCase(s) == t <==> SameButForCase(s, t)
  {
    if LowerCase(s) == t {
      forall i | 0 <= i < |s| ensures s[i] == t[i] || (65 <= s[i] as int <= 90 && s[i] as int + 32 == t[i] as int) {
        assert LowerCase(s)[i] == t[i];
      }
    }
  }

  /** Nothing that was on disk is gone or changed. */
  ghost predicate Keeps(old_: map<Bytes, Bytes>, now: map<Bytes, Bytes>) {
    forall h :: h in old_ ==> h in now && now[h] == old_[h]
  }

  /** The blob made of piece `i` has the digest of a stored blob with other contents. */
  ghost predicate ClashAt(p: Primitives, model: ModelId, key: Bytes, i: nat, piece: Bytes, nonce: Nonce,
                          blobs: map<Bytes, Bytes>) {
    var blob := Blob(p, model, key, i, piece, nonce);
    p.sha(blob) in blobs && blobs[p.sha(blob)] != blob
  }

  /** One of the blobs that `add_file` makes of these pieces clashes with a stored one. */
  ghost predicate Clash(p: Primitives, model: ModelId, key: Bytes, pieces: seq<Bytes>, nonces: nat -> Nonce,
                        blobs: map<Bytes, Bytes>) {
    exists i :: 0 <= i < |pieces| && ClashAt(p, model, key, i, pieces[i], nonces(i), blobs)
  }

  ghost predicate NoncesOf(shards: seq<Shard>, nonces: nat -> Nonce) {
    forall i :: 0 <= i < |shards| ==> shards[i].nonce == nonces(i)
  }

  /** The names of the blobs. */
  function Hashes(shards: seq<Shard>): set<Bytes> { set s | s in shards :: s.ciphertextHash }

  /** What it says of one piece; the blob is longer than the piece by a nonce of 12 bytes and a tag of 16. */
  predicate RecordsPiece(p: Primitives, s: Shard, i: int, piece: Bytes) {
    && s.index == i && s.plaintextHash == p.sha(piece) && s.plaintextBytes == |piece|
    && |s.nonce| == 12 && s.ciphertextBytes == |piece| + 28
  }

  /** What `add_file` writes into the manifest, field by field. */
  ghost predicate Records(p: Primitives, m: Manifest, file: Bytes, size: nat, model: ModelId, source: string,
                          license: string, keyId: string)
    requires size > 0
  {
    && m.model == model && m.source == source && m.license == license && m.keyId == keyId
    && m.sizeBytes == |file| && m.fileSha == p.sha(file)
    && m.nShards == |m.shards| == |Pieces(file, size)|
    && (forall i :: 0 <= i < |m.shards| ==> RecordsPiece(p, m.shards[i], i, Pieces(file, size)[i]))
    && m.merkleRoot == Merkle.Root(p.sha, CiphertextHashes(m.shards))
  }

  class VaultStore {
    const p: Primitives
    const master: Bytes
    const shardSize: nat
    var blobs: map<Bytes, Bytes>
    var keys: map<string, Bytes>
    var manifests: map<Bytes, Manifest>

    function Seen(): Disk reads this { Disk(blobs, keys, manifests) }

    constructor (p: Primitives, master: Bytes, shardSize: nat)
      requires shardSize > 0
      ensures this.p == p && this.master == master && this.shardSize == shardSize
      ensures Seen() == Disk(map[], map[], map[])
    {
      this.p, this.master, this.shardSize := p, master, shardSize;
      blobs, keys, manifests := map[], map[], map[];
    }

    /** A blob of that name with other contents is a hash clash; the same contents are left. */
    method WriteShard(blob: Bytes, hash: Bytes) returns (ok: bool)
      modifies this`blobs
      ensures ok <==> (hash in old(blobs) ==> old(blobs)[hash] == blob)
      ensures blobs == if ok then old(blobs)[hash := blob] else old(blobs)
    {
      if hash in blobs {
        if blobs[hash] != blob { return false; }
        assert blobs[hash := blob] == blobs;
        return true;
      }
      blobs := blobs[hash := blob];
      return true;
    }

    /** The loop of `add_file`: one shard per piece, written before the next piece is read. */
    method WriteShards(file: Bytes, model: ModelId, key: Bytes, nonces: nat -> Nonce)
      returns (ok: bool, shards: seq<Shard>, leaves: seq<Bytes>, total: nat)
      requires shardSize > 0
      modifies this`blobs
      ensures Keeps(old(blobs), blobs)
      ensures ok <==> !Clash(p, model, key, Pieces(file, shardSize), nonces, blobs)
      ensures ok ==> NoncesOf(shards, nonces) && blobs.Keys == old(blobs).Keys + Hashes(shards)
      ensures ok ==>
        && leaves == CiphertextHashes(shards) && total == |file| && |shards| == |Pieces(file, shardSize)|
        && ShardsOf(p, model, key, shards, Pieces(file, shardSize))
        && BlobsOf(p, model, key, shards, Pieces(file, shardSize), blobs)
    {
      hide Blob, MakeShard, Pieces, ShardsOf, BlobsOf, ClashAt, Clash, NoncesOf;
      ghost var pieces := Pieces(file, shardSize);
      shards, leaves, total := [], [], 0;
      assert file[0..] == file && pieces[0..] == pieces;
      NoShards(p, model, key, pieces, nonces, blobs);
      while total < |file|
        invariant total <= |file| && |shards| <= |pieces|
        invariant Pieces(file[total..], shardSize) == pieces[|shards|..]
        invariant leaves == CiphertextHashes(shards) && Keeps(old(blobs), blobs)
        invariant ShardsOf(p, model, key, shards, pieces) && BlobsOf(p, model, key, shards, pieces, blobs)
        invariant NoncesOf(shards, nonces) && blobs.Keys == old(blobs).Keys + Hashes(shards)
        decreases |file| - total
      {
        PieceAt(file, shardSize, pieces, |shards|, total);
        var chunk := if total + shardSize <= |file| then file[total..total + shardSize] else file[total..];
        var nonce := nonces(|shards|);
        var blob := Blob(p, model, key, |shards|, chunk, nonce);
        ghost var before := blobs;
        ok := WriteShard(blob, p.sha(blob));
        if !ok {
          HasClash(p, model, key, pieces, nonces, blobs, |shards|);
          return;
        }
        var shard := MakeShard(p, model, key, |shards|, chunk, nonce);
        AddShard(p, model, key, shards, pieces, before, blobs, nonce);
        assert shard.nonce == nonce && shard.ciphertextHash == p.sha(blob) by {
          MadeShard(p, model, key, |shards|, chunk, nonce);
        }
        AddNonce(shards, shard, nonces);
        AddHash(shards, shard);
        leaves := leaves + [shard.ciphertextHash];
        shards := shards + [shard];
        total := total + |chunk|;
      }
      assert file[total..] == [] && Pieces([], shardSize) == [] by { NoPieces(shardSize); }
      NoClash(p, model, key, shards, pieces, nonces, blobs);
      ok := true;
    }

    /** Either the whole file is published, or no manifest and no key has changed. The master key is asked for only when
        the blobs are written. */
    method AddFile(file: Bytes, suffix: string, regular: bool, model: ModelId, source: string, license: string,
                   key: Bytes, keyId: string, nonces: nat -> Nonce, wrapNonce: Nonce, passphrase: bool)
      returns (r: Result<Manifest, StoreError>)
      requires Sound(p) && shardSize > 0 && |key| == 32
      modifies this
      ensures Keeps(old(blobs), blobs)
      ensures r.Err? ==> keys == old(keys) && manifests == old(manifests)
      ensures if !WeightSuffix(suffix) then r == Err(BadSuffix) && blobs == old(blobs)
              else if !regular then r == Err(NotRegular) && blobs == old(blobs)
              else if !(1 <= |model| <= 512) then r == Err(BadModelId) && blobs == old(blobs)
              else if p.sha(p.utf8(model)) in old(manifests) then r == Err(AlreadyExists) && blobs == old(blobs)
              else if file == [] then r == Err(EmptyFile) && blobs == old(blobs)
              else if Clash(p, model, key, Pieces(file, shardSize), nonces, blobs) then r == Err(HashClash)
              else if passphrase then r.Ok? else r == Err(NoPassphrase)
      ensures r.Ok? ==>
        && Records(p, r.value, file, shardSize, model, source, license, keyId)
        && GetManifest(p, Seen(), model) == Some(r.value)
        && NoncesOf(r.value.shards, nonces) && blobs.Keys == old(blobs).Keys + Hashes(r.value.shards)
        && manifests == old(manifests)[ManifestPath(p, model) := r.value]
        && keys == old(keys)[keyId := Wrap(p, master, keyId, key, wrapNonce)]
        && Complete(p, Seen(), master, r.value, key, shardSize, file)
    {
      hide AllowedSuffix, WeightSuffix, Pieces, ShardsOf, BlobsOf, Clash, NoncesOf, Hashes, RecordsPiece, Wrap,
           UnwrapKey, CiphertextHashes, Sound, Merkle.Root;
      SuffixIff(suffix);
      NothingToWrite(p, model, key, file, shardSize, nonces);
      if !AllowedSuffix(suffix) { return Err(BadSuffix); }
      if !regular { return Err(NotRegular); }
      if |model| == 0 || |model| > MAX_MODEL_ID { return Err(BadModelId); }
      if ManifestPath(p, model) in manifests { return Err(AlreadyExists); }
      var ok, shards, leaves, total := WriteShards(file, model, key, nonces);
      if !ok { return Err(HashClash); }
      if |shards| == 0 {
        assert blobs == old(blobs);
        return Err(EmptyFile);
      }
      if !passphrase { return Err(NoPassphrase); }
      var root := Merkle.MerkleRoot(p.sha, leaves);
      var m := Manifest(model, source, license, total, |shards|, root, keyId, shards, p.sha(file));
      keys := keys[keyId := Wrap(p, master, keyId, key, wrapNonce)];
      manifests := manifests[ManifestPath(p, model) := m];
      WrapUnwrap(p, Seen(), master, keyId, key, wrapNonce);
      PiecesRecorded(p, model, key, shards, Pieces(file, shardSize));
      return Ok(m);
    }
  }

  lemma NothingToWrite(p: Primitives, model: ModelId, key: Bytes, file: Bytes, size: nat, nonces: nat -> Nonce)
    requires size > 0
    ensures file == [] <==> Pieces(file, size) == []
    ensures Hashes([]) == {} && forall blobs :: !Clash(p, model, key, [], nonces, blobs)
  {
  }

  lemma PiecesRecorded(p: Primitives, model: ModelId, key: Bytes, shards: seq<Shard>, pieces: seq<Bytes>)
    requires Sound(p) && ShardsOf(p, model, key, shards, pieces)
    ensures forall i :: 0 <= i < |shards| ==> RecordsPiece(p, shards[i], i, pieces[i])
  {
    forall i | 0 <= i < |shards| ensures RecordsPiece(p, shards[i], i, pieces[i]) {
      var s := shards[i];
      var text := p.encrypt(key, s.nonce, pieces[i], p.aad(model, i, p.sha(pieces[i])));
      assert p.decrypt(key, s.nonce, text, p.aad(model, i, p.sha(pieces[i]))) == Some(pieces[i]);
      assert s == MakeShard(p, model, key, i, pieces[i], s.nonce);
    }
  }

  lemma NoPieces(size: nat)
    requires size > 0
    ensures Pieces([], size) == []
  {
  }

  lemma NoShards(p: Primitives, model: ModelId, key: Bytes, pieces: seq<Bytes>, nonces: nat -> Nonce,
                 blobs: map<Bytes, Bytes>)
    ensures ShardsOf(p, model, key, [], pieces) && BlobsOf(p, model, key, [], pieces, blobs) && NoncesOf([], nonces)
  {
  }

  lemma HasClash(p: Primitives, model: ModelId, key: Bytes, pieces: seq<Bytes>, nonces: nat -> Nonce,
                 blobs: map<Bytes, Bytes>, k: nat)
    requires k < |pieces|
    requires var blob := Blob(p, model, key, k, pieces[k], nonces(k));
      p.sha(blob) in blobs && blobs[p.sha(blob)] != blob
    ensures Clash(p, model, key, pieces, nonces, blobs)
  {
    assert ClashAt(p, model, key, k, pieces[k], nonces(k), blobs);
  }

  /** When all blobs of a file are on disk, none of them clashes. */
  lemma NoClash(p: Primitives, model: ModelId, key: Bytes, shards: seq<Shard>, pieces: seq<Bytes>,
                nonces: nat -> Nonce, blobs: map<Bytes, Bytes>)
    requires ShardsOf(p, model, key, shards, pieces) && BlobsOf(p, model, key, shards, pieces, blobs)
    requires NoncesOf(shards, nonces) && |shards| == |pieces|
    ensures !Clash(p, model, key, pieces, nonces, blobs)
  {
  }

  /** One more shard of the file. */
  lemma AddShard(p: Primitives, model: ModelId, key: Bytes, shards: seq<Shard>, pieces: seq<Bytes>,
                 before: map<Bytes, Bytes>, blobs: map<Bytes, Bytes>, nonce: Nonce)
    requires |shards| < |pieces|
    requires ShardsOf(p, model, key, shards, pieces) && BlobsOf(p, model, key, shards, pieces, before)
    requires var blob := Blob(p, model, key, |shards|, pieces[|shards|], nonce);
      blobs == before[p.sha(blob) := blob] && (p.sha(blob) in before ==> before[p.sha(blob)] == blob)
    ensures var more := shards + [MakeShard(p, model, key, |shards|, pieces[|shards|], nonce)];
      ShardsOf(p, model, key, more, pieces) && BlobsOf(p, model, key, more, pieces, blobs)
  {
  }

  lemma MadeShard(p: Primitives, model: ModelId, key: Bytes, index: int, piece: Bytes, nonce: Bytes)
    ensures var s := MakeShard(p, model, key, index, piece, nonce);
      s.nonce == nonce && s.ciphertextHash == p.sha(Blob(p, model, key, index, piece, nonce))
  {
  }

  lemma AddNonce(shards: seq<Shard>, s: Shard, nonces: nat -> Nonce)
    requires NoncesOf(shards, nonces) && s.nonce == nonces(|shards|)
    ensures NoncesOf(shards + [s], nonces)
  {
  }

  lemma AddHash(shards: seq<Shard>, s: Shard)
    ensures Hashes(shards + [s]) == Hashes(shards) + {s.ciphertextHash}
  {
    assert s in shards + [s];
    assert forall t :: t in shards + [s] <==> t in shards || t == s;
  }

  lemma PieceAt(file: Bytes, size: nat, pieces: seq<Bytes>, k: nat, at: nat)
    requires size > 0 && at < |file| && k <= |pieces| && Pieces(file[at..], size) == pieces[k..]
    ensures var piece := if at + size <= |file| then file[at..at + size] else file[at..];
      && k < |pieces| && pieces[k] == piece && Pieces(file[at + |piece|..], size) == pieces[k + 1..]
  {
    var rest := file[at..];
    if |rest| <= size {
      assert Pieces(rest, size) == [rest];
      assert |pieces[k..]| == 1 && pieces[k] == pieces[k..][0];
      assert at + size == |file| ==> file[at..at + size] == rest;
      assert file[|file|..] == [];
    } else {
      assert rest[..size] == file[at..at + size] && rest[size..] == file[at + size..];
      assert pieces[k] == pieces[k..][0] && pieces[k..][1..] == pieces[k + 1..];
    }
  }

  lemma WrapUnwrap(p: Primitives, disk: Disk, master: Bytes, keyId: string, key: Bytes, nonce: Nonce)
    requires Sound(p) && |key| == 32 && keyId in disk.keys && disk.keys[keyId] == Wrap(p, master, keyId, key, nonce)
    ensures UnwrapKey(p, disk, master, keyId) == Ok(key)
  {
    var wrapped := p.encrypt(master, nonce, key, p.utf8(keyId));
    assert (nonce + wrapped)[..NONCE_BYTES] == nonce && (nonce + wrapped)[NONCE_BYTES..] == wrapped;
  }
}
