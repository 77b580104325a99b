/** Any number of `add_file` calls on one vault, interleaved between any two file operations and
    stopped anywhere. The check for an existing blob and the write of a new one are two steps, as
    they are in `_write_shard`; a write replaces whatever has the name. */
module Publication {
  import opened Hashing
  import opened Outcomes
  import opened Protocol
  import opened ShardStore
  import opened StoreReading
  import opened StoreChecking

  /** What one call knows of its file. */
  datatype Task = Task(model: ModelId, file: Bytes, key: Bytes, started: nat)

  datatype Job =
    | Writing(task: Task, shards: seq<Shard>, pending: Option<Nonce>)
    | Publishing(task: Task, manifest: Manifest)
    | Ended

  /** The disk, the calls, and the history that the claims are about: every blob made, every key
      id given out, the call behind each published manifest, and when it was published. */
  datatype State = State(disk: Disk, jobs: map<nat, Job>, made: set<Bytes>, keyIds: set<string>,
                         origin: map<Bytes, Task>, publishedAt: map<Bytes, nat>, clock: nat)

  datatype Vault = Vault(p: Primitives, master: Bytes, size: nat)

  datatype Act =
    | Start(j: nat, model: ModelId, file: Bytes, key: Bytes)
    | Check(j: nat, nonce: Nonce)
    | Write(j: nat)
    | WrapKey(j: nat, keyId: string, nonce: Nonce)
    | Publish(j: nat)
    | Stop(j: nat)

  function PiecesOf(v: Vault, t: Task): seq<Bytes>
    requires v.size > 0
  {
    Pieces(t.file, v.size)
  }

  function BlobFor(v: Vault, t: Task, k: nat, nonce: Nonce): Bytes
    requires v.size > 0 && k < |PiecesOf(v, t)|
  {
    Blob(v.p, t.model, t.key, k, PiecesOf(v, t)[k], nonce)
  }

  ghost predicate Enabled(v: Vault, s: State, a: Act)
    requires v.size > 0
  {
    match a
    case Start(j, model, file, key) =>
      j !in s.jobs && |key| == 32 && ManifestPath(v.p, model) !in s.disk.manifests
    case Check(j, _) =>
      j in s.jobs && s.jobs[j].Writing? && s.jobs[j].pending.None? && |s.jobs[j].shards| < |PiecesOf(v, s.jobs[j].task)|
    case Write(j) =>
      j in s.jobs && s.jobs[j].Writing? && s.jobs[j].pending.Some? && |s.jobs[j].shards| < |PiecesOf(v, s.jobs[j].task)|
    case WrapKey(j, keyId, _) =>
      && j in s.jobs && s.jobs[j].Writing? && keyId !in s.keyIds && s.jobs[j].shards != []
      && |s.jobs[j].shards| == |PiecesOf(v, s.jobs[j].task)|
    case Publish(j) => j in s.jobs && s.jobs[j].Publishing?
    case Stop(j) => j in s.jobs
  }

  function WithJob(s: State, j: nat, job: Job): State {
    s.(jobs := s.jobs[j := job], clock := s.clock + 1)
  }

  function Grown(v: Vault, t: Task, shards: seq<Shard>, nonce: Nonce): Job
    requires v.size > 0 && |shards| < |PiecesOf(v, t)|
  {
    Writing(t, shards + [MakeShard(v.p, t.model, t.key, |shards|, PiecesOf(v, t)[|shards|], nonce)], None)
  }

  function MakeManifest(v: Vault, t: Task, shards: seq<Shard>, keyId: string): Manifest {
    Manifest(t.model, "", "", |t.file|, |shards|, Merkle.Root(v.p.sha, CiphertextHashes(shards)), keyId, shards,
             v.p.sha(t.file))
  }

  ghost function Next(v: Vault, s: State, a: Act): State
    requires v.size > 0 && Enabled(v, s, a)
  {
    match a
    case Start(j, model, file, key) => WithJob(s, j, Writing(Task(model, file, key, s.clock), [], None))
    case Check(j, nonce) =>
      var job := s.jobs[j];
      var blob := BlobFor(v, job.task, |job.shards|, nonce);
      var h := v.p.sha(blob);
      WithJob(s.(made := s.made + {blob}), j,
              if h !in s.disk.blobs then job.(pending := Some(nonce))
              else if s.disk.blobs[h] != blob then Ended
              else Grown(v, job.task, job.shards, nonce))
    case Write(j) =>
      var job := s.jobs[j];
      var blob := BlobFor(v, job.task, |job.shards|, job.pending.value);
      WithJob(s.(disk := s.disk.(blobs := s.disk.blobs[v.p.sha(blob) := blob])), j,
              Grown(v, job.task, job.shards, job.pending.value))
    case WrapKey(j, keyId, nonce) =>
      var job := s.jobs[j];
      WithJob(s.(disk := s.disk.(keys := s.disk.keys[keyId := Wrap(v.p, v.master, keyId, job.task.key, nonce)]),
                 keyIds := s.keyIds + {keyId}),
              j, Publishing(job.task, MakeManifest(v, job.task, job.shards, keyId)))
    case Publish(j) =>
      var job := s.jobs[j];
      var path := ManifestPath(v.p, job.task.model);
      WithJob(s.(disk := s.disk.(manifests := s.disk.manifests[path := job.manifest]),
                 origin := s.origin[path := job.task], publishedAt := s.publishedAt[path := s.clock]),
              j, Ended)
    case Stop(j) => WithJob(s, j, Ended)
  }

  /** The test before a blob is written: with no file of that name it is still to be written, with a file of other
      contents the call ends, and with one of the same contents the shard is done. Nothing on disk changes. */
  lemma CheckIs(v: Vault, s: State, j: nat, nonce: Nonce)
    requires v.size > 0 && Enabled(v, s, Check(j, nonce))
    ensures var job, t := s.jobs[j], Next(v, s, Check(j, nonce));
      var blob := BlobFor(v, job.task, |job.shards|, nonce);
      && t.disk == s.disk && j in t.jobs && t.jobs == s.jobs[j := t.jobs[j]]
      && (v.p.sha(blob) !in s.disk.blobs ==>
            t.jobs[j].Writing? && t.jobs[j].shards == job.shards && t.jobs[j].pending == Some(nonce))
      && (v.p.sha(blob) in s.disk.blobs && s.disk.blobs[v.p.sha(blob)] != blob ==> t.jobs[j].Ended?)
      && (v.p.sha(blob) in s.disk.blobs && s.disk.blobs[v.p.sha(blob)] == blob ==>
            t.jobs[j].Writing? && |t.jobs[j].shards| == |job.shards| + 1 && t.jobs[j].pending.None?
            && t.jobs[j].shards[|job.shards|].ciphertextHash == v.p.sha(blob))
  {
  }

  ghost predicate Initial(s: State) {
    && s.disk == Disk(map[], map[], map[]) && s.jobs == map[]
    && s.made == {} && s.origin == map[] && s.publishedAt == map[]
  }

  // ---------------------------------------------------------------- what every step keeps

  ghost predicate GoodBlobs(v: Vault, s: State) {
    forall h :: h in s.disk.blobs ==> s.disk.blobs[h] in s.made && v.p.sha(s.disk.blobs[h]) == h
  }

  ghost predicate GoodJob(v: Vault, s: State, job: Job)
    requires v.size > 0
  {
    match job
    case Ended => true
    case Writing(t, shards, pending) =>
      && |t.key| == 32 && t.started < s.clock
      && ShardsOf(v.p, t.model, t.key, shards, PiecesOf(v, t))
      && BlobsOf(v.p, t.model, t.key, shards, PiecesOf(v, t), s.disk.blobs)
      && (pending.Some? ==> |shards| < |PiecesOf(v, t)| && BlobFor(v, t, |shards|, pending.value) in s.made)
    case Publishing(t, m) =>
      m.model == t.model && t.started < s.clock && Complete(v.p, s.disk, v.master, m, t.key, v.size, t.file)
  }

  /** A published manifest is a complete, readable copy of the file its call was given. */
  ghost predicate GoodManifest(v: Vault, s: State, path: Bytes)
    requires v.size > 0 && path in s.disk.manifests
  {
    && path in s.origin && path in s.publishedAt && s.publishedAt[path] < s.clock
    && path == ManifestPath(v.p, s.origin[path].model) && s.disk.manifests[path].model == s.origin[path].model
    && Complete(v.p, s.disk, v.master, s.disk.manifests[path], s.origin[path].key, v.size, s.origin[path].file)
  }

  /** A call still at work started before whatever has been published for its model. */
  ghost predicate StartedFirst(v: Vault, s: State, job: Job) {
    !job.Ended? ==>
      var path := ManifestPath(v.p, job.task.model);
      path in s.disk.manifests ==> path in s.publishedAt && job.task.started < s.publishedAt[path]
  }

  ghost predicate Good(v: Vault, s: State)
    requires v.size > 0
  {
    && GoodBlobs(v, s)
    && (forall id :: id in s.disk.keys ==> id in s.keyIds)
    && (forall j :: j in s.jobs ==> GoodJob(v, s, s.jobs[j]) && StartedFirst(v, s, s.jobs[j]))
    && (forall path :: path in s.disk.manifests ==> GoodManifest(v, s, path))
  }

  /** Blobs stay, keys stay, time passes. */
  ghost predicate Grows(s: State, s': State) {
    && Keeps(s.disk.blobs, s'.disk.blobs) && s.made <= s'.made && s.clock < s'.clock
    && (forall id :: id in s.disk.keys ==> id in s'.disk.keys && s'.disk.keys[id] == s.disk.keys[id])
  }

  lemma CompleteGrows(v: Vault, s: State, s': State, m: Manifest, key: Bytes, file: Bytes)
    requires v.size > 0 && Grows(s, s') && Complete(v.p, s.disk, v.master, m, key, v.size, file)
    ensures Complete(v.p, s'.disk, v.master, m, key, v.size, file)
  {
  }

  lemma JobGrows(v: Vault, s: State, s': State, job: Job)
    requires v.size > 0 && Grows(s, s') && GoodJob(v, s, job)
    ensures GoodJob(v, s', job)
  {
    if job.Publishing? { CompleteGrows(v, s, s', job.manifest, job.task.key, job.task.file); }
  }

  /** A step that changes one job, and of the disk only blobs and keys. */
  lemma JobStepKeeps(v: Vault, s: State, s': State, j: nat)
    requires v.size > 0 && Good(v, s) && Grows(s, s') && j in s'.jobs
    requires s'.jobs == s.jobs[j := s'.jobs[j]]
    requires s'.disk.manifests == s.disk.manifests && s'.origin == s.origin && s'.publishedAt == s.publishedAt
    requires GoodBlobs(v, s') && forall id :: id in s'.disk.keys ==> id in s'.keyIds
    requires GoodJob(v, s', s'.jobs[j]) && StartedFirst(v, s', s'.jobs[j])
    ensures Good(v, s')
  {
    forall i | i in s'.jobs
      ensures GoodJob(v, s', s'.jobs[i]) && StartedFirst(v, s', s'.jobs[i])
    {
      if i != j { JobGrows(v, s, s', s.jobs[i]); }
    }
    forall path | path in s'.disk.manifests
      ensures GoodManifest(v, s', path)
    {
      assert GoodManifest(v, s, path);
      CompleteGrows(v, s, s', s.disk.manifests[path], s.origin[path].key, s.origin[path].file);
    }
  }

  lemma StartKeeps(v: Vault, s: State, a: Act)
    requires v.size > 0 && Good(v, s) && Enabled(v, s, a) && (a.Start? || a.Stop?)
    ensures Good(v, Next(v, s, a))
  {
    JobStepKeeps(v, s, Next(v, s, a), a.j);
  }

  lemma CheckKeeps(v: Vault, s: State, a: Act)
    requires v.size > 0 && Good(v, s) && a.Check? && Enabled(v, s, a)
    ensures Good(v, Next(v, s, a))
  {
    var s', job := Next(v, s, a), s.jobs[a.j];
    assert GoodJob(v, s, job) && StartedFirst(v, s, job);
    var blob := BlobFor(v, job.task, |job.shards|, a.nonce);
    if v.p.sha(blob) in s.disk.blobs && s.disk.blobs[v.p.sha(blob)] == blob {
      assert s.disk.blobs[v.p.sha(blob) := blob] == s.disk.blobs;
      AddShard(v.p, job.task.model, job.task.key, job.shards, PiecesOf(v, job.task), s.disk.blobs, s'.disk.blobs,
               a.nonce);
    }
    JobStepKeeps(v, s, s', a.j);
  }

  /** Without a clash among the blobs made, a write never changes a file that is there. */
  lemma WriteKeeps(v: Vault, s: State, a: Act)
    requires v.size > 0 && Good(v, s) && a.Write? && Enabled(v, s, a)
    requires !Collides(v.p.sha, s.made, s.made)
    ensures Good(v, Next(v, s, a))
  {
    var s', job := Next(v, s, a), s.jobs[a.j];
    assert GoodJob(v, s, job) && StartedFirst(v, s, job);
    var blob := BlobFor(v, job.task, |job.shards|, job.pending.value);
    var h := v.p.sha(blob);
    assert h in s.disk.blobs ==> s.disk.blobs[h] == blob by {
      if h in s.disk.blobs { assert s.disk.blobs[h] in s.made && blob in s.made; }
    }
    AddShard(v.p, job.task.model, job.task.key, job.shards, PiecesOf(v, job.task), s.disk.blobs, s'.disk.blobs,
             job.pending.value);
    JobStepKeeps(v, s, s', a.j);
  }

  lemma WrapKeeps(v: Vault, s: State, a: Act)
    requires v.size > 0 && Sound(v.p) && Good(v, s) && a.WrapKey? && Enabled(v, s, a)
    ensures Good(v, Next(v, s, a))
  {
    var s', job := Next(v, s, a), s.jobs[a.j];
    assert GoodJob(v, s, job) && StartedFirst(v, s, job);
    WrapUnwrap(v.p, s'.disk, v.master, a.keyId, job.task.key, a.nonce);
    JobStepKeeps(v, s, s', a.j);
  }

  lemma PublishKeeps(v: Vault, s: State, a: Act)
    requires v.size > 0 && Good(v, s) && a.Publish? && Enabled(v, s, a)
    ensures Good(v, Next(v, s, a))
  {
    hide Complete, GoodBlobs, ManifestPath;
    var s', job := Next(v, s, a), s.jobs[a.j];
    assert GoodJob(v, s, job);
    var path := ManifestPath(v.p, job.task.model);
    assert GoodBlobs(v, s') by { SameBlobs(v, s, s'); }
    assert Grows(s, s');
    forall i | i in s'.jobs
      ensures GoodJob(v, s', s'.jobs[i]) && StartedFirst(v, s', s'.jobs[i])
    {
      if i != a.j { JobGrows(v, s, s', s.jobs[i]); StartedEarlier(v, s, s.jobs[i]); }
    }
    forall q | q in s'.disk.manifests
      ensures GoodManifest(v, s', q)
    {
      if q == path {
        CompleteGrows(v, s, s', job.manifest, job.task.key, job.task.file);
      } else {
        assert GoodManifest(v, s, q);
        CompleteGrows(v, s, s', s.disk.manifests[q], s.origin[q].key, s.origin[q].file);
      }
    }
  }

  lemma SameBlobs(v: Vault, s: State, s': State)
    requires GoodBlobs(v, s) && s.disk.blobs == s'.disk.blobs && s.made == s'.made
    ensures GoodBlobs(v, s')
  {
  }

  lemma StartedEarlier(v: Vault, s: State, job: Job)
    requires v.size > 0 && GoodJob(v, s, job)
    ensures !job.Ended? ==> job.task.started < s.clock
  {
  }

  // ---------------------------------------------------------------- runs

  ghost predicate Reaches(v: Vault, s: State, acts: seq<Act>, s': State)
    requires v.size > 0
    decreases |acts|
  {
    if acts == [] then s == s' else Enabled(v, s, acts[0]) && Reaches(v, Next(v, s, acts[0]), acts[1..], s')
  }

  lemma {:induction false} MadeGrows(v: Vault, s: State, acts: seq<Act>, s': State)
    requires v.size > 0 && Reaches(v, s, acts, s')
    ensures s.made <= s'.made
    decreases |acts|
  {
    if acts != [] { MadeGrows(v, Next(v, s, acts[0]), acts[1..], s'); }
  }

  lemma {:induction false} RunKeeps(v: Vault, s: State, acts: seq<Act>, s': State)
    requires v.size > 0 && Sound(v.p) && Good(v, s) && Reaches(v, s, acts, s')
    requires !Collides(v.p.sha, s'.made, s'.made)
    ensures Good(v, s')
    decreases |acts|
  {
    if acts != [] {
      MadeGrows(v, s, acts, s');
      assert !Collides(v.p.sha, s.made, s.made) by { NoFewerCollide(v.p.sha, s.made, s'.made); }
      match acts[0]
      case Start(_, _, _, _) => StartKeeps(v, s, acts[0]);
      case Stop(_) => StartKeeps(v, s, acts[0]);
      case Check(_, _) => CheckKeeps(v, s, acts[0]);
      case Write(_) => WriteKeeps(v, s, acts[0]);
      case WrapKey(_, _, _) => WrapKeeps(v, s, acts[0]);
      case Publish(_) => PublishKeeps(v, s, acts[0]);
    }
    if acts != [] { RunKeeps(v, Next(v, s, acts[0]), acts[1..], s'); }
  }

  lemma NoFewerCollide(h: Hash, xs: set<Bytes>, ys: set<Bytes>)
    requires xs <= ys && !Collides(h, ys, ys)
    ensures !Collides(h, xs, xs)
  {
  }

  /** Publish-last: at every moment of every interleaving, every visible manifest has all its
      blobs and its wrapped key on disk, streams back exactly the file that the call which
      published it was given, and passes `verify`; or two blobs that were made collide. */
  lemma VisibleIsReadable(v: Vault, s: State, acts: seq<Act>, s': State, path: Bytes)
    requires v.size > 0 && Sound(v.p) && Initial(s) && Reaches(v, s, acts, s') && path in s'.disk.manifests
    ensures Collides(v.p.sha, s'.made, s'.made) ||
      (&& path in s'.origin
       && var m, file := s'.disk.manifests[path], s'.origin[path].file;
          && StreamPlaintext(v.p, s'.disk, v.master,
                             m) == Ok(Pieces(file, v.size)) && Concat(Pieces(file, v.size)) == file
          && m.sizeBytes == |file| && m.fileSha == v.p.sha(file) && Passes(v.p, s'.disk, m)
          && m.model == s'.origin[path].model && path == ManifestPath(v.p, m.model))
  {
    if !Collides(v.p.sha, s'.made, s'.made) {
      RunKeeps(v, s, acts, s');
      assert GoodManifest(v, s', path);
      var m, t := s'.disk.manifests[path], s'.origin[path];
      RoundTrip(v.p, s'.disk, v.master, m, t.key, v.size, t.file);
      CompletePasses(v.p, s'.disk, v.master, m, t.key, v.size, t.file);
    }
  }

  /** A published manifest only ever changes when a call that was already at work before it was
      published publishes too. Calls that do not overlap never change one. */
  lemma ReplacedOnlyByOverlap(v: Vault, s: State, acts: seq<Act>, s': State, a: Act, path: Bytes)
    requires v.size > 0 && Sound(v.p) && Initial(s) && Reaches(v, s, acts, s') && Enabled(v, s', a)
    requires path in s'.disk.manifests && !Collides(v.p.sha, s'.made, s'.made)
    requires path !in Next(v, s', a).disk.manifests || Next(v, s', a).disk.manifests[path] != s'.disk.manifests[path]
    ensures a.Publish? && path == ManifestPath(v.p, s'.jobs[a.j].task.model)
    ensures path in s'.publishedAt && s'.jobs[a.j].task.started < s'.publishedAt[path]
  {
    RunKeeps(v, s, acts, s');
    assert StartedFirst(v, s', s'.jobs[a.j]);
  }

  // ---------------------------------------------------------------- overlap replaces

  lemma {:induction false} ReachesJoin(v: Vault, s: State, acts: seq<Act>, t: State, more: seq<Act>, u: State)
    requires v.size > 0 && Reaches(v, s, acts, t) && Reaches(v, t, more, u)
    ensures Reaches(v, s, acts + more, u)
    decreases |acts|
  {
    hide Enabled, Next;
    if acts == [] {
      assert acts + more == more;
    } else {
      assert (acts + more)[0] == acts[0] && (acts + more)[1..] == acts[1..] + more;
      ReachesJoin(v, Next(v, s, acts[0]), acts[1..], t, more, u);
    }
  }

  lemma ReachesOne(v: Vault, s: State, a: Act)
    requires v.size > 0 && Enabled(v, s, a)
    ensures Reaches(v, s, [a], Next(v, s, a))
  {
    assert [a][1..] == [];
  }

  /** A call for a file of one shard, with the random values that it draws. */
  datatype Call = Call(j: nat, file: Bytes, key: Bytes, nonce: Nonce, keyId: string, wrapNonce: Nonce)

  ghost predicate OneShard(v: Vault, c: Call) { 0 < |c.file| <= v.size && |c.key| == 32 }

  function BlobOf(v: Vault, model: ModelId, c: Call): Bytes {
    Blob(v.p, model, c.key, 0, c.file, c.nonce)
  }

  function Encrypting(model: ModelId, c: Call): seq<Act> {
    [Check(c.j, c.nonce)] + [Write(c.j)] + [WrapKey(c.j, c.keyId, c.wrapNonce)]
  }

  /** Call `c` has written all but its manifest, and touched nothing of another call and no manifest. */
  ghost predicate Encrypted(v: Vault, s: State, s': State, model: ModelId, c: Call) {
    && s'.disk.blobs == s.disk.blobs[v.p.sha(BlobOf(v, model, c)) := BlobOf(v, model, c)]
    && s'.disk.manifests == s.disk.manifests && s'.keyIds == s.keyIds + {c.keyId}
    && s'.jobs.Keys == s.jobs.Keys && (forall i :: i in s.jobs && i != c.j ==> s'.jobs[i] == s.jobs[i])
    && WaitsToPublish(v, s', model, c)
  }

  ghost predicate WaitsToPublish(v: Vault, s: State, model: ModelId, c: Call) {
    && c.j in s.jobs && s.jobs[c.j].Publishing? && s.jobs[c.j].task.model == model && s.jobs[c.j].task.file == c.file
    && s.jobs[c.j].manifest.model == model && s.jobs[c.j].manifest.fileSha == v.p.sha(c.file)
  }

  /** Such a call goes from its existence check to the point before its manifest. */
  lemma Encrypts(v: Vault, s: State, model: ModelId, c: Call, started: nat) returns (s': State)
    requires v.size > 0 && OneShard(v, c) && c.keyId !in s.keyIds && v.p.sha(BlobOf(v, model, c)) !in s.disk.blobs
    requires c.j in s.jobs && s.jobs[c.j] == Writing(Task(model, c.file, c.key, started), [], None)
    ensures Reaches(v, s, Encrypting(model, c), s') && Encrypted(v, s, s', model, c)
  {
    hide Blob, MakeShard, Wrap;
    assert PiecesOf(v, Task(model, c.file, c.key, started)) == [c.file];
    var s1 := Next(v, s, Check(c.j, c.nonce));
    ReachesOne(v, s, Check(c.j, c.nonce));
    var s2 := Next(v, s1, Write(c.j));
    ReachesOne(v, s1, Write(c.j));
    s' := Next(v, s2, WrapKey(c.j, c.keyId, c.wrapNonce));
    ReachesOne(v, s2, WrapKey(c.j, c.keyId, c.wrapNonce));
    ReachesJoin(v, s, [Check(c.j, c.nonce)], s1, [Write(c.j)], s2);
    ReachesJoin(v, s, [Check(c.j, c.nonce)] + [Write(c.j)], s2, [WrapKey(c.j, c.keyId, c.wrapNonce)], s');
  }

  /** Two calls of one model that both pass the existence check before either publishes. */
  function Overlap(model: ModelId, a: Call, b: Call): seq<Act> {
    [Start(a.j, model, a.file, a.key)] + [Start(b.j, model, b.file, b.key)]
      + Encrypting(model, a) + Encrypting(model, b)
  }

  /** Two calls of one model on an empty vault, whose random values do not get in each other's way. */
  ghost predicate Overlapping(v: Vault, s: State, model: ModelId, a: Call, b: Call) {
    && v.size > 0 && Initial(s) && OneShard(v, a) && OneShard(v, b)
    && a.j != b.j && a.keyId != b.keyId && a.keyId !in s.keyIds && b.keyId !in s.keyIds
    && v.p.sha(BlobOf(v, model, a)) != v.p.sha(BlobOf(v, model, b))
  }

  /** From an empty vault, two overlapping calls for one model come to the point where both have only their
      manifest left to write. */
  lemma OverlapReached(v: Vault, s: State, model: ModelId, a: Call, b: Call) returns (s': State)
    requires Overlapping(v, s, model, a, b)
    ensures Reaches(v, s, Overlap(model, a, b), s') && WaitsToPublish(v, s', model, a)
    ensures WaitsToPublish(v, s', model, b)
  {
    hide Blob, MakeShard, Wrap;
    var startA, startB := Start(a.j, model, a.file, a.key), Start(b.j, model, b.file, b.key);
    var s1 := Next(v, s, startA);
    ReachesOne(v, s, startA);
    var s2 := Next(v, s1, startB);
    ReachesOne(v, s1, startB);
    ReachesJoin(v, s, [startA], s1, [startB], s2);
    var s3 := Encrypts(v, s2, model, a, s.clock);
    ReachesJoin(v, s, [startA] + [startB], s2, Encrypting(model, a), s3);
    s' := Encrypts(v, s3, model, b, s1.clock);
    ReachesJoin(v, s, [startA] + [startB] + Encrypting(model, a), s3, Encrypting(model, b), s');
  }

  /** The manifest that the model's readers find is the one for `file`. */
  ghost predicate Shows(v: Vault, s: State, model: ModelId, file: Bytes) {
    var m := GetManifest(v.p, s.disk, model);
    m.Some? && m.value.fileSha == v.p.sha(file)
  }

  /** Overlap does replace: in every run of this shape both calls publish, and the later one's manifest takes the
      place of the earlier one's. */
  lemma LaterOverlapWins(v: Vault, s: State, model: ModelId, a: Call, b: Call) returns (s1: State, s2: State)
    requires Overlapping(v, s, model, a, b)
    ensures Reaches(v, s, Overlap(model, a, b) + [Publish(a.j)], s1) && Shows(v, s1, model, a.file)
    ensures Reaches(v, s, Overlap(model, a, b) + [Publish(a.j)] + [Publish(b.j)], s2) && Shows(v, s2, model, b.file)
  {
    hide Overlap;
    var t := OverlapReached(v, s, model, a, b);
    s1 := Next(v, t, Publish(a.j));
    ReachesOne(v, t, Publish(a.j));
    s2 := Next(v, s1, Publish(b.j));
    ReachesOne(v, s1, Publish(b.j));
    ReachesJoin(v, s, Overlap(model, a, b), t, [Publish(a.j)], s1);
    ReachesJoin(v, s, Overlap(model, a, b) + [Publish(a.j)], s1, [Publish(b.j)], s2);
  }
}
