/** From `add_file` on one node to the finished `pull_model` on another: the store, the serving
    node, the network and the client together. */
module EndToEnd {
  import opened Hashing
  import opened Outcomes
  import opened Protocol
  import ShardStore
  import StoreReading
  import ShardCache
  import TelepathServer
  import opened TelepathClient
  import TelepathNodes
  import TelepathNetwork
  import TelepathSafety
  import LruFetches

  /** How a model of the store looks to the serving node. */
  function AsPublished(m: ShardStore.Manifest, pieces: seq<Bytes>): TelepathServer.Published {
    TelepathServer.Published(pieces, m.sizeBytes, m.merkleRoot, m.fileSha)
  }

  /** The serving node's view of a complete copy is exact: what it reads from its files at every
      index, inside and outside the manifest, is what `ReadShard` gives, and the announced count,
      size and digest are those of the file that was added. */
  lemma ServedFromTheStore(p: ShardStore.Primitives, disk: ShardStore.Disk, master: Bytes, m: ShardStore.Manifest,
                            key: Bytes, size: nat, file: Bytes, index: int)
    requires ShardStore.Sound(p) && size > 0 && ShardStore.Complete(p, disk, master, m, key, size, file)
    ensures var published := AsPublished(m, ShardStore.Pieces(file, size));
      && TelepathNetwork.GoodPublished(p.sha, published) && Concat(published.shards) == file
      && |published.shards| == m.nShards
      && TelepathServer.ReadShard(Some(map[m.model := published]), m.model, index, TelepathServer.Intact) ==
           match ShardStore.ReadShardPlaintext(p, disk, master, m, index)
           case Ok(data) => TelepathServer.Plain(data)
           case Err(_) => TelepathServer.Unavailable
  {
    StoreReading.RoundTrip(p, disk, master, m, key, size, file);
  }

  /** Whatever the network did in any run, a pull that finished with a node that had added `file`
      under that model has exactly that file, if no other key copied the nonce of one of the puller's requests. */
  lemma PullDeliversAddedFile(p: ShardStore.Primitives, disk: ShardStore.Disk, master: Bytes, m: ShardStore.Manifest,
                              key: Bytes, size: nat, file: Bytes, w: TelepathNetwork.World, b: TelepathNetwork.Bounds,
                              actions: seq<TelepathNetwork.Action>, w': TelepathNetwork.World, k: PubKey, task: nat)
    requires ShardStore.Sound(p) && size > 0 && ShardStore.Complete(p, disk, master, m, key, size, file)
    requires TelepathNetwork.Initial(w, b) && TelepathSafety.Reaches(w, b, actions, w')
    requires TelepathNetwork.HasPull(w', k, task) && w'.nodes[k].pulls[task].Finished?
    requires TelepathNetwork.Uncopied(w', k)
    requires w'.nodes[k].pulls[task].model == m.model && w'.nodes[k].pulls[task].peer in w'.nodes
    requires var v := w'.nodes[w'.nodes[k].pulls[task].peer].server.vault;
      v.Some? && m.model in v.value && v.value[m.model] == AsPublished(m, ShardStore.Pieces(file, size))
    ensures w'.nodes[k].pulls[task].data == file && w'.nodes[k].pulls[task].size == |file| == m.sizeBytes
  {
    TelepathSafety.FinishedPullIsPeers(w, b, actions, w', k, task);
    ServedFromTheStore(p, disk, master, m, key, size, file, 0);
  }

  // ---------------------------------------------------------------- what a pull leaves

  type Files = map<TelepathNodes.FilePath, Bytes>

  predicate SameAt(before: Files, after: Files, f: TelepathNodes.FilePath) {
    (f in after <==> f in before) && (f in before ==> after[f] == before[f])
  }

  /** Even when nothing is known of the network or of the peer: a `pull_model` that gets as far as its last receipt,
      under the digest of `file`, leaves `file` in the target, or the two collide. It touches no file but the target and
      its `.part`, and one that fails before leaves the target as it was. */
  lemma PulledIsOriginal(cfg: TelepathServer.Config, maxEntries: nat, maxBytes: nat, a: TelepathNodes.Attempt,
                         es: seq<ShardCache.Entry>, es1: seq<ShardCache.Entry>, before: Files, after: Files,
                         r: Result<TelepathNodes.Report, Failure>, file: Bytes)
    requires TelepathNodes.Pulled(cfg, maxEntries, maxBytes, a, es, es1, before, after, r)
    ensures var target := TelepathNodes.TargetFile(a.destination, a.model);
      && (forall f :: f != target && f != TelepathNodes.PartFile(a.destination, a.model) ==> SameAt(before, after, f))
      && (TelepathNodes.Opened(cfg, a).Ok? && TelepathNodes.Opened(cfg, a).value.SessionAccept? ==>
            TelepathNodes.PartFile(a.destination, a.model) !in after)
      && (!(TelepathNodes.Opened(cfg, a).Ok? && TelepathNodes.Opened(cfg, a).value.SessionAccept?) ==> after == before)
      && (if r.Err? && !r.error.ReceiptFailed? then SameAt(before, after, target)
          else
            && target in after && TelepathNodes.Opened(cfg, a).Ok? && TelepathNodes.Opened(cfg, a).value.SessionAccept?
            && (TelepathNodes.Opened(cfg, a).value.fileSha == cfg.hash(file) ==>
                  after[target] == file || Collides(cfg.hash, {after[target]}, {file})))
  {
    hide TelepathNodes.FetchAll, CheckReply;
    TelepathNodes.PartIsNotTarget(a.destination, a.model);
    assert |cfg.hash(file)| == DIGEST_BYTES;
    ReceiptIsLast(cfg, a);
    var p := TelepathNodes.Opened(cfg, a);
    if p.Ok? && p.value.SessionAccept? {
      FetchesFailBefore(es, maxEntries, maxBytes, cfg, a.peer, a.model, 0, p.value.nShards, a.script);
    }
  }

  lemma ReceiptIsLast(cfg: TelepathServer.Config, a: TelepathNodes.Attempt)
    ensures TelepathNodes.Opened(cfg, a) != Err(ReceiptFailed)
  {
  }

  lemma {:induction false} FetchesFailBefore(es: seq<ShardCache.Entry>, maxEntries: nat, maxBytes: nat,
                                             cfg: TelepathServer.Config, peer: PubKey, model: ModelId, index: nat,
                                             count: nat, script: seq<TelepathNodes.Exchange>)
    ensures TelepathNodes.FetchAll(es, maxEntries, maxBytes, cfg, peer, model, index, count, script).1
         != Err(ReceiptFailed)
    decreases count - index
  {
    hide Verify, ShardCache.GetStep, ShardCache.PutStep;
    if index < count {
      var key := ShardCache.Key(peer, model, index);
      var es1 := TelepathNodes.Fetch(es, maxEntries, maxBytes, cfg, key, TelepathNodes.At(script, index)).0;
      FetchesFailBefore(es1, maxEntries, maxBytes, cfg, peer, model, index + 1, count, script);
    }
  }

  // ---------------------------------------------------------------- cached and fetched shards mix

  /** Every cached shard of the model is the shard of that index. */
  ghost predicate CacheTells(es: seq<ShardCache.Entry>, peer: PubKey, model: ModelId, shards: seq<Bytes>) {
    forall e :: e in es ==> Tells(e, peer, model, shards)
  }

  predicate Tells(e: ShardCache.Entry, peer: PubKey, model: ModelId, shards: seq<Bytes>) {
    e.key.peer == peer && e.key.model == model && 0 <= e.key.index < |shards| ==> e.value == shards[e.key.index]
  }

  lemma GetAndPutTell(es: seq<ShardCache.Entry>, maxEntries: nat, maxBytes: nat, key: ShardCache.Key, data: Bytes,
                      shards: seq<Bytes>)
    requires CacheTells(es, key.peer, key.model, shards)
    ensures CacheTells(ShardCache.GetStep(es, key).0, key.peer, key.model, shards)
    ensures ShardCache.Find(es, key).Some? ==>
      Tells(ShardCache.Entry(key, ShardCache.Find(es, key).value), key.peer, key.model, shards)
    ensures Tells(ShardCache.Entry(key, data), key.peer, key.model, shards) ==>
      CacheTells(ShardCache.PutStep(es, maxEntries, maxBytes, key, data), key.peer, key.model, shards)
  {
    hide Tells;
    ShardCache.FindIn(es, key);
    ShardCache.WithoutMembers(es, key);
    ShardCache.TrimIsLongest(ShardCache.Without(es, key) + [ShardCache.Entry(key, data)], maxEntries, maxBytes, 0);
  }

  /** Every reply that passes the checks is the shard that was asked for. */
  ghost predicate RepliesTell(cfg: TelepathServer.Config, peer: PubKey, script: seq<TelepathNodes.Exchange>,
                              shards: seq<Bytes>) {
    forall i :: 0 <= i < |script| && i < |shards| ==>
      var r := ReceiveShard(cfg.hash, script[i].received, peer, script[i].nonce, cfg.limits.skew);
      r.Ok? ==> r.value == shards[i]
  }

  lemma FetchTells(es: seq<ShardCache.Entry>, maxEntries: nat, maxBytes: nat, cfg: TelepathServer.Config, peer: PubKey,
                   model: ModelId, index: nat, script: seq<TelepathNodes.Exchange>, shards: seq<Bytes>)
    requires CacheTells(es, peer, model, shards) && RepliesTell(cfg, peer, script, shards) && index < |shards|
    ensures var (es1, r) := TelepathNodes.Fetch(es, maxEntries, maxBytes, cfg, ShardCache.Key(peer, model, index),
                                                TelepathNodes.At(script, index));
      CacheTells(es1, peer, model, shards) && (r.Ok? ==> r.value == shards[index])
  {
    hide Verify, CacheTells, ShardCache.GetStep, ShardCache.PutStep;
    var key, e := ShardCache.Key(peer, model, index), TelepathNodes.At(script, index);
    var got := ReceiveShard(cfg.hash, e.received, peer, e.nonce, cfg.limits.skew);
    assert got.Ok? ==> Tells(ShardCache.Entry(key, got.value), peer, model, shards) by {
      if index < |script| { assert script[index] == e; }
    }
    GetFinds(es, key);
    GetAndPutTell(es, maxEntries, maxBytes, key, if got.Ok? then got.value else [], shards);
  }

  lemma GetFinds(es: seq<ShardCache.Entry>, key: ShardCache.Key)
    ensures ShardCache.GetStep(es, key).1 == ShardCache.Find(es, key)
    ensures ShardCache.Find(es, key).None? ==> ShardCache.GetStep(es, key).0 == es
  {
  }

  /** A pull that gets through gives the shards in order, whichever of them came from the cache,
      and however the cache was evicted on the way. */
  lemma {:induction false} AnyMixIsTheFile(es: seq<ShardCache.Entry>, maxEntries: nat, maxBytes: nat,
                                           cfg: TelepathServer.Config, peer: PubKey, model: ModelId, index: nat,
                                           script: seq<TelepathNodes.Exchange>, shards: seq<Bytes>)
    requires CacheTells(es, peer, model, shards) && RepliesTell(cfg, peer, script, shards) && index <= |shards|
    ensures var (es1, r) := TelepathNodes.FetchAll(es, maxEntries, maxBytes, cfg, peer, model, index, |shards|, script);
      CacheTells(es1, peer, model, shards) && (r.Ok? ==> r.value == shards[index..])
    decreases |shards| - index
  {
    hide TelepathNodes.Fetch, RepliesTell;
    if index < |shards| {
      FetchTells(es, maxEntries, maxBytes, cfg, peer, model, index, script, shards);
      var (es1, r) := TelepathNodes.Fetch(es, maxEntries, maxBytes, cfg, ShardCache.Key(peer, model, index),
                                          TelepathNodes.At(script, index));
      AnyMixIsTheFile(es1, maxEntries, maxBytes, cfg, peer, model, index + 1, script, shards);
      assert shards[index..] == [shards[index]] + shards[index + 1..];
    }
  }

  // ---------------------------------------------------------------- in the world

  /** Each exchange of a pull brought nothing, or a message that the network carried to a request of the client for
      that shard, with the signature check that it gets. */
  ghost predicate Carried(w: TelepathNetwork.World, k: PubKey, sid: SessionId, script: seq<TelepathNodes.Exchange>) {
    forall i :: 0 <= i < |script| ==> CarriedAt(w, k, sid, script[i], i)
  }

  ghost predicate CarriedAt(w: TelepathNetwork.World, k: PubKey, sid: SessionId, e: TelepathNodes.Exchange, i: nat) {
    e.received.Received? ==>
      && e.received.signed == (e.received.message in w.signed)
      && exists q :: TelepathNetwork.Wanted(w, k, q, e.nonce, sid, i)
  }

  /** In a good world, for a client whose nonces nobody copied, what a session of a node answers are that node's
      shards. */
  lemma WorldRepliesTell(w: TelepathNetwork.World, b: TelepathNetwork.Bounds, k: PubKey, peer: PubKey, model: ModelId,
                         sid: SessionId, script: seq<TelepathNodes.Exchange>, shards: seq<Bytes>)
    requires TelepathNetwork.Good(w, b) && TelepathNetwork.Uncopied(w, k) && k in w.nodes && peer in w.nodes
    requires (peer, sid) in w.granted && w.granted[(peer, sid)] == model
    requires TelepathServer.ShardsOf(w.nodes[peer].server.vault, model) == Some(shards) && Carried(w, k, sid, script)
    ensures RepliesTell(b.cfg, peer, script, shards)
  {
    hide TelepathNetwork.Uncopied, TelepathNetwork.GoodServer, TelepathNetwork.GoodClient;
    forall i | 0 <= i < |script| && i < |shards|
      ensures var r := ReceiveShard(b.cfg.hash, script[i].received, peer, script[i].nonce, b.cfg.limits.skew);
        r.Ok? ==> r.value == shards[i]
    {
      var r := ReceiveShard(b.cfg.hash, script[i].received, peer, script[i].nonce, b.cfg.limits.skew);
      assert CarriedAt(w, k, sid, script[i], i);
      if r.Ok? {
        var m := script[i].received.message;
        assert m in w.signed && TelepathNetwork.GoodShard(w, m);
        var sent :| TelepathNetwork.Wanted(w, k, sent, script[i].nonce, sid, i);
        var q :| TelepathNetwork.Answers(w, m, q) && q.payload.RequestShard? && (peer, q.payload.sid) in w.granted
          && TelepathNetwork.Stores(w, peer, w.granted[(peer, q.payload.sid)], q.payload.index, m.payload.data);
        TelepathSafety.SameRequest(w, k, sent, q);
      }
    }
  }

  lemma GoodCacheTells(w: TelepathNetwork.World, cache: seq<ShardCache.Entry>, peer: PubKey, model: ModelId,
                       shards: seq<Bytes>)
    requires TelepathNetwork.GoodCache(w, cache) && peer in w.nodes
    requires TelepathServer.ShardsOf(w.nodes[peer].server.vault, model) == Some(shards)
    ensures CacheTells(cache, peer, model, shards)
  {
    forall e | e in cache ensures Tells(e, peer, model, shards) {
      if e.key.peer == peer { assert TelepathNetwork.Stores(w, e.key.peer, e.key.model, e.key.index, e.value); }
    }
  }

  /** What a client's cache holds at some point of a run is still right at every later one. */
  lemma EarlierCacheTells(w1: TelepathNetwork.World, b: TelepathNetwork.Bounds, actions: seq<TelepathNetwork.Action>,
                          w': TelepathNetwork.World, k: PubKey, peer: PubKey, model: ModelId, shards: seq<Bytes>)
    requires TelepathNetwork.Good(w1, b) && TelepathSafety.Reaches(w1, b, actions, w')
    requires TelepathNetwork.Uncopied(w', k) && k in w1.nodes && peer in w'.nodes
    requires TelepathServer.ShardsOf(w'.nodes[peer].server.vault, model) == Some(shards)
    ensures CacheTells(w1.nodes[k].cache, peer, model, shards)
  {
    hide TelepathNetwork.Uncopied, TelepathNetwork.GoodServer, TelepathNetwork.GoodCache, TelepathSafety.Grows,
         CacheTells;
    TelepathSafety.RunGrows(w1, b, actions, w');
    TelepathSafety.UncopiedBack(w1, w', k);
    assert TelepathNetwork.GoodClient(w1, k);
    TelepathSafety.CacheGrows(w1, w', w1.nodes[k].cache);
    GoodCacheTells(w', w1.nodes[k].cache, peer, model, shards);
  }

  /** `w1` is reached from a beginning, and `w'` from `w1`. */
  ghost predicate Through(b: TelepathNetwork.Bounds, w1: TelepathNetwork.World, w': TelepathNetwork.World) {
    && (exists w, earlier :: TelepathNetwork.Initial(w, b) && TelepathSafety.Reaches(w, b, earlier, w1))
    && exists later :: TelepathSafety.Reaches(w1, b, later, w')
  }

  /** A client whose nonces nobody copied has a session of a node for a model that the node stores. */
  ghost predicate InSession(w: TelepathNetwork.World, k: PubKey, peer: PubKey, model: ModelId, sid: SessionId,
                            shards: seq<Bytes>) {
    && TelepathNetwork.Uncopied(w, k) && k in w.nodes && peer in w.nodes
    && (peer, sid) in w.granted && w.granted[(peer, sid)] == model
    && TelepathServer.ShardsOf(w.nodes[peer].server.vault, model) == Some(shards)
  }

  /** In every run: a `pull_model` of a client whose nonces nobody copied, in a session that a node granted for the
      model, starting from the cache as it was at any point `w1` of the run, over whatever the network has carried up to
      a later point `w'`, and whatever mix of cached and fetched shards comes of it, that reports success leaves the
      node's file in the target. */
  lemma PullInTheWorld(b: TelepathNetwork.Bounds, w1: TelepathNetwork.World, w': TelepathNetwork.World, k: PubKey,
                       peer: PubKey, model: ModelId, sid: SessionId, fileSha: Bytes,
                       script: seq<TelepathNodes.Exchange>, shards: seq<Bytes>)
    requires Through(b, w1, w') && InSession(w', k, peer, model, sid, shards) && Carried(w', k, sid, script)
    requires k in w1.nodes
    ensures var whole := TelepathNodes.Reassemble(w1.nodes[k].cache, b.maxEntries, b.maxBytes, b.cfg, peer, model,
                                                  |shards|, fileSha, script).1;
      whole.Ok? ==> whole.value == Concat(shards)
  {
    hide TelepathNetwork.Good, TelepathNetwork.Initial, TelepathNetwork.Uncopied, Carried, CacheTells, RepliesTell,
         TelepathNodes.FetchAll, TelepathSafety.Reaches;
    var w, earlier :| TelepathNetwork.Initial(w, b) && TelepathSafety.Reaches(w, b, earlier, w1);
    var later :| TelepathSafety.Reaches(w1, b, later, w');
    TelepathSafety.RunKeeps(w, b, earlier, w1) by { InitialIsGood(w, b); }
    TelepathSafety.RunKeeps(w1, b, later, w');
    WorldRepliesTell(w', b, k, peer, model, sid, script, shards);
    EarlierCacheTells(w1, b, later, w', k, peer, model, shards);
    AnyMixIsTheFile(w1.nodes[k].cache, b.maxEntries, b.maxBytes, b.cfg, peer, model, 0, script, shards);
    assert shards[0..] == shards;
  }

  lemma InitialIsGood(w: TelepathNetwork.World, b: TelepathNetwork.Bounds)
    requires TelepathNetwork.Initial(w, b)
    ensures TelepathNetwork.Good(w, b)
  {
  }

  // ---------------------------------------------------------------- how a fetch uses the cache

  /** `fetch_shard` on its cache is a fetch of LruFetches: answered is what passes the checks. */
  lemma FetchIsRequest(es: seq<ShardCache.Entry>, maxEntries: nat, maxBytes: nat, cfg: TelepathServer.Config,
                       key: ShardCache.Key, e: TelepathNodes.Exchange, shard: LruFetches.Store)
    requires var got := ReceiveShard(cfg.hash, e.received, key.peer, e.nonce, cfg.limits.skew);
      got.Ok? ==> got.value == shard(key)
    ensures var got := ReceiveShard(cfg.hash, e.received, key.peer, e.nonce, cfg.limits.skew);
      TelepathNodes.Fetch(es, maxEntries, maxBytes, cfg, key, e).0
        == LruFetches.Fetch(es, maxEntries, maxBytes, shard, LruFetches.Request(key, got.Ok?))
  {
    hide ReceiveShard, ShardCache.PutStep;
  }
}
