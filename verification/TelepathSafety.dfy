/** In every world a network of nodes can reach, what a client accepts is what its peer stores. */
module TelepathSafety {
  import opened Hashing
  import opened Outcomes
  import opened Protocol
  import opened ShardCache
  import opened TelepathServer
  import opened TelepathClient
  import opened TelepathRuns
  import opened TelepathNetwork

  // ---------------------------------------------------------------- the world only grows

  ghost predicate VaultGrows(v: Option<Vault>, v': Option<Vault>) {
    v.Some? ==> v'.Some? && forall model :: model in v.value ==> model in v'.value && v'.value[model] == v.value[model]
  }

  ghost predicate Grows(w: World, w': World) {
    && w.signed <= w'.signed && w.nodes.Keys == w'.nodes.Keys
    && (forall g :: g in w.granted ==> g in w'.granted && w'.granted[g] == w.granted[g])
    && (forall k :: k in w.nodes ==> VaultGrows(w.nodes[k].server.vault, w'.nodes[k].server.vault))
  }

  lemma StoresGrows(w: World, w': World, k: PubKey, model: ModelId, index: int, data: Bytes)
    requires Grows(w, w') && Stores(w, k, model, index, data)
    ensures Stores(w', k, model, index, data)
  {
    assert VaultGrows(w.nodes[k].server.vault, w'.nodes[k].server.vault);
  }

  lemma DescribesGrows(w: World, w': World, k: PubKey, model: ModelId, count: nat, size: nat, fileSha: Bytes)
    requires Grows(w, w') && Describes(w, k, model, count, size, fileSha)
    ensures Describes(w', k, model, count, size, fileSha)
  {
    assert VaultGrows(w.nodes[k].server.vault, w'.nodes[k].server.vault);
  }

  lemma AcceptGrows(w: World, w': World, r: Message)
    requires Grows(w, w') && GoodAccept(w, r)
    ensures GoodAccept(w', r)
  {
    if r.payload.SessionAccept? && r.sender in w'.nodes {
      var q :| Answers(w, r, q) && q.payload.SessionOpen? && q.payload.model == r.payload.model;
      assert Answers(w', r, q);
      DescribesGrows(w, w', r.sender, r.payload.model, r.payload.nShards, r.payload.sizeBytes, r.payload.fileSha);
    }
  }

  lemma ShardGrows(w: World, w': World, r: Message)
    requires Grows(w, w') && GoodShard(w, r)
    ensures GoodShard(w', r)
  {
    if r.payload.ShardData? && r.sender in w'.nodes {
      var q :| Answers(w, r, q) && q.payload.RequestShard? && (r.sender, q.payload.sid) in w.granted
        && Stores(w, r.sender, w.granted[(r.sender, q.payload.sid)], q.payload.index, r.payload.data);
      assert Answers(w', r, q);
      StoresGrows(w, w', r.sender, w.granted[(r.sender, q.payload.sid)], q.payload.index, r.payload.data);
    }
  }

  lemma CacheGrows(w: World, w': World, cache: seq<Entry>)
    requires Grows(w, w') && GoodCache(w, cache)
    ensures GoodCache(w', cache)
  {
    forall e | e in cache && e.key.peer in w'.nodes
      ensures Stores(w', e.key.peer, e.key.model, e.key.index, e.value)
    {
      StoresGrows(w, w', e.key.peer, e.key.model, e.key.index, e.value);
    }
  }

  lemma PullGrows(w: World, w': World, k: PubKey, p: Pull)
    requires Grows(w, w') && GoodPull(w, k, p)
    ensures GoodPull(w', k, p)
  {
    if p.Opening? {
      var q :| Requested(w, k, q) && q.nonce == p.nonce && q.payload.SessionOpen? && q.payload.model == p.model;
      assert Requested(w', k, q);
    } else if p.Fetching? && p.awaiting.Some? {
      var q :| Wanted(w, k, q, p.awaiting.value, p.sid, |p.got|);
      assert Wanted(w', k, q, p.awaiting.value, p.sid, |p.got|);
    }
    if p.Fetching? && p.peer in w'.nodes {
      DescribesGrows(w, w', p.peer, p.model, p.count, p.size, p.fileSha);
      forall i | 0 <= i < |p.got|
        ensures Stores(w', p.peer, p.model, i, p.got[i])
      {
        StoresGrows(w, w', p.peer, p.model, i, p.got[i]);
      }
    } else if p.Finished? && p.peer in w'.nodes {
      assert VaultGrows(w.nodes[p.peer].server.vault, w'.nodes[p.peer].server.vault);
    }
  }

  /** What was signed and good stays good in a grown world. */
  lemma OldStaysGood(w: World, w': World, b: Bounds)
    requires Good(w, b) && Grows(w, w')
    ensures forall r :: r in w.signed ==> GoodAccept(w', r) && GoodShard(w', r)
  {
    hide GoodAccept, GoodShard, GoodServer, GoodClient, Names, Grows;
    forall r | r in w.signed ensures GoodAccept(w', r) && GoodShard(w', r) {
      AcceptGrows(w, w', r);
      ShardGrows(w, w', r);
    }
  }

  /** Copies do not go away. */
  lemma UncopiedBack(w: World, w': World, k: PubKey)
    requires Grows(w, w') && Uncopied(w', k)
    ensures Uncopied(w, k)
  {
    assert forall q :: Requested(w, k, q) ==> Requested(w', k, q);
  }

  lemma AwaitsGrows(w: World, w': World, k: PubKey, p: Pull)
    requires Grows(w, w') && Awaits(w, k, p)
    ensures Awaits(w', k, p)
  {
    if p.Fetching? && p.awaiting.Some? {
      var q :| Wanted(w, k, q, p.awaiting.value, p.sid, |p.got|);
      assert Wanted(w', k, q, p.awaiting.value, p.sid, |p.got|);
    }
  }

  /** A client that has not moved stays good. */
  lemma ClientStays(w: World, w': World, k: PubKey)
    requires Grows(w, w') && k in w.nodes && GoodClient(w, k)
    requires w'.nodes[k].cache == w.nodes[k].cache && w'.nodes[k].pulls == w.nodes[k].pulls
    ensures GoodClient(w', k)
  {
    hide Grows, Uncopied, GoodCache, GoodPull, Awaits;
    assert k in w'.nodes by { GrowsNodes(w, w'); }
    forall t | t in w'.nodes[k].pulls ensures Awaits(w', k, w'.nodes[k].pulls[t]) {
      AwaitsGrows(w, w', k, w.nodes[k].pulls[t]);
    }
    if Uncopied(w', k) {
      UncopiedBack(w, w', k);
      CacheGrows(w, w', w.nodes[k].cache);
      forall t | t in w'.nodes[k].pulls ensures GoodPull(w', k, w'.nodes[k].pulls[t]) {
        PullGrows(w, w', k, w.nodes[k].pulls[t]);
      }
    }
  }

  lemma GrowsNodes(w: World, w': World)
    requires Grows(w, w')
    ensures w.nodes.Keys == w'.nodes.Keys
  {
  }

  /** A client that changed its cache and one pull is good if these are. */
  lemma ClientMoves(w: World, w': World, k: PubKey, task: nat)
    requires Grows(w, w') && k in w.nodes && k in w'.nodes && GoodClient(w, k)
    requires task in w'.nodes[k].pulls
    requires w'.nodes[k].pulls == w.nodes[k].pulls[task := w'.nodes[k].pulls[task]]
    requires Awaits(w', k, w'.nodes[k].pulls[task])
    requires Uncopied(w', k) ==> GoodCache(w', w'.nodes[k].cache) && GoodPull(w', k, w'.nodes[k].pulls[task])
    ensures GoodClient(w', k)
  {
    hide Grows, Uncopied, GoodCache, GoodPull, Awaits;
    forall t | t in w'.nodes[k].pulls ensures Awaits(w', k, w'.nodes[k].pulls[t]) {
      if t != task { AwaitsGrows(w, w', k, w.nodes[k].pulls[t]); }
    }
    if Uncopied(w', k) {
      UncopiedBack(w, w', k);
      forall t | t in w'.nodes[k].pulls ensures GoodPull(w', k, w'.nodes[k].pulls[t]) {
        if t != task { PullGrows(w, w', k, w.nodes[k].pulls[t]); }
      }
    }
  }

  // ---------------------------------------------------------------- every step keeps it

  lemma SameVaultsGrow(w: World, w': World, k: PubKey)
    requires w'.nodes.Keys == w.nodes.Keys && (forall o :: o in w.nodes && o != k ==> w'.nodes[o] == w.nodes[o])
    requires k in w.nodes && w'.nodes[k].server == w.nodes[k].server && w'.granted == w.granted && w.signed <= w'.signed
    ensures Grows(w, w')
  {
  }

  lemma StillNames(w: World, w': World, sent: Option<Message>)
    requires Names(w) && w'.granted == w.granted && w'.sids == w.sids && w'.nodes.Keys == w.nodes.Keys
    requires sent.None? ==> w'.signed == w.signed && w'.nonces == w.nonces
    requires sent.Some? ==>
      && w'.signed == w.signed + {sent.value}
      && w'.nonces == w.nonces + {sent.value.nonce} && sent.value.nonce !in w.nonces
    ensures Names(w')
  {
  }

  /** Node `k` changes its client half, and perhaps signs one message with a fresh nonce that is neither an
      accept nor a shard. */
  lemma ClientStepKeeps(w: World, b: Bounds, w': World, k: PubKey, sent: Option<Message>)
    requires Good(w, b) && k in w.nodes
    requires w'.nodes.Keys == w.nodes.Keys && (forall o :: o in w.nodes && o != k ==> w'.nodes[o] == w.nodes[o])
    requires w'.nodes[k].server == w.nodes[k].server && w'.granted == w.granted && w'.sids == w.sids
    requires sent.None? ==> w'.signed == w.signed && w'.nonces == w.nonces
    requires sent.Some? ==>
      && w'.signed == w.signed + {sent.value} && w'.nonces == w.nonces + {sent.value.nonce}
      && sent.value.nonce !in w.nonces && !sent.value.payload.SessionAccept? && !sent.value.payload.ShardData?
    requires GoodClient(w', k)
    ensures Good(w', b)
  {
    hide GoodAccept, GoodShard, GoodClient, Names, Grows;
    assert Grows(w, w') by { SameVaultsGrow(w, w', k); }
    OldStaysGood(w, w', b);
    assert Names(w') by { StillNames(w, w', sent); }
    if sent.Some? { Harmless(w', sent.value); }
    forall o | o in w'.nodes
      ensures GoodServer(w', b, o) && GoodClient(w', o)
    {
      assert GoodServer(w, b, o) && w'.nodes[o].server == w.nodes[o].server;
      if o != k { ClientStays(w, w', o); }
    }
  }

  lemma Harmless(w: World, m: Message)
    requires !m.payload.SessionAccept? && !m.payload.ShardData?
    ensures GoodAccept(w, m) && GoodShard(w, m)
  {
  }

  /** When nobody copied a client's nonces, what answers a message with the nonce of its request answers
      that very request. */
  lemma SameRequest(w: World, k: PubKey, q: Message, q': Message)
    requires Names(w) && Uncopied(w, k) && k in w.nodes && Requested(w, k, q) && q' in w.signed && q.nonce == q'.nonce
    ensures q == q'
  {
  }

  /** The session a client is granted is one for the model it asked for, described as its peer
      holds it. */
  lemma AcceptedPull(w: World, b: Bounds, k: PubKey, p: Pull, m: Message, now: real)
    requires Good(w, b) && Uncopied(w, k) && k in w.nodes && p.Opening? && GoodPull(w, k, p)
    ensures GoodPull(w, k, AfterAccept(w, b, k, p, m, now))
  {
    hide Uncopied;
    if AfterAccept(w, b, k, p, m, now).Fetching? && p.peer in w.nodes {
      assert m in w.signed && GoodAccept(w, m);
      var sent :| Requested(w, k, sent) && sent.nonce == p.nonce
        && sent.payload.SessionOpen? && sent.payload.model == p.model;
      var q :| Answers(w, m, q) && q.payload.SessionOpen? && q.payload.model == m.payload.model;
      SameRequest(w, k, sent, q);
    }
  }

  /** The request that an accepted reply answers decides what it holds. It need not be the client's own. */
  ghost predicate AnsweredBy(w: World, peer: PubKey, nonce: string, data: Bytes, q: Message) {
    && q in w.signed && q.nonce == nonce && q.payload.RequestShard? && (peer, q.payload.sid) in w.granted
    && Stores(w, peer, w.granted[(peer, q.payload.sid)], q.payload.index, data)
  }

  lemma AcceptedAnswersSomeone(w: World, b: Bounds, k: PubKey, task: nat, m: Message, now: real, data: Bytes)
    returns (q: Message)
    requires Good(w, b) && Enabled(w, b, GetShard(k, task, m, now))
    requires var p := w.nodes[k].pulls[task];
      && p.peer in w.nodes
      && ReceiveShard(b.cfg.hash, Received(m, m in w.signed, now), p.peer, p.awaiting.value,
                      b.cfg.limits.skew) == Ok(data)
    ensures var p := w.nodes[k].pulls[task];
      && AnsweredBy(w, p.peer, p.awaiting.value, data, q)
      && (q.sender in w.nodes ==> q.sender == k && q.payload == RequestShard(p.sid, |p.got|))
  {
    hide Uncopied, GoodServer, GoodCache, GoodPull;
    var p := w.nodes[k].pulls[task];
    assert GoodClient(w, k) && Awaits(w, k, p);
    assert m in w.signed && GoodShard(w, m);
    var sent :| Wanted(w, k, sent, p.awaiting.value, p.sid, |p.got|);
    q :| Answers(w, m, q) && q.payload.RequestShard? && (m.sender, q.payload.sid) in w.granted
      && Stores(w, m.sender, w.granted[(m.sender, q.payload.sid)], q.payload.index, m.payload.data);
  }

  /** Fetch correctness: the bytes a client accepts for shard `index` of a model, from a peer that
      is a node, are that shard of that node's model, when nobody copied the nonces of its requests. */
  lemma ShardIsPeers(w: World, b: Bounds, k: PubKey, task: nat, m: Message, now: real, data: Bytes)
    requires Good(w, b) && Uncopied(w, k) && Enabled(w, b, GetShard(k, task, m, now))
    requires var p := w.nodes[k].pulls[task];
      && p.peer in w.nodes
      && ReceiveShard(b.cfg.hash, Received(m, m in w.signed, now), p.peer, p.awaiting.value,
                      b.cfg.limits.skew) == Ok(data)
    ensures var p := w.nodes[k].pulls[task]; Stores(w, p.peer, p.model, |p.got|, data)
  {
    hide Uncopied, GoodServer, GoodCache;
    var p := w.nodes[k].pulls[task];
    assert GoodClient(w, k) && GoodPull(w, k, p);
    var q := AcceptedAnswersSomeone(w, b, k, task, m, now, data);
    var sent :| Wanted(w, k, sent, p.awaiting.value, p.sid, |p.got|);
    SameRequest(w, k, sent, q);
  }

  /** A pull stays good when it takes in a stored shard of its model. */
  lemma TakeIn(w: World, k: PubKey, p: Pull, data: Bytes)
    requires GoodPull(w, k, p) && p.Fetching? && |p.got| < p.count
    requires p.peer in w.nodes ==> Stores(w, p.peer, p.model, |p.got|, data)
    ensures GoodPull(w, k, p.(got := p.got + [data], awaiting := None))
  {
    var got := p.got + [data];
    assert forall i :: 0 <= i < |got| ==> got[i] == if i < |p.got| then p.got[i] else data;
  }

  lemma ReceivedNode(w: World, b: Bounds, k: PubKey, task: nat, m: Message, now: real)
    requires Good(w, b) && Uncopied(w, k) && Enabled(w, b, GetShard(k, task, m, now))
    ensures var node := AfterShard(w, b, w.nodes[k], task, m, now);
            GoodPull(w, k, node.pulls[task]) && GoodCache(w, node.cache)
  {
    hide Uncopied, GoodServer, Names;
    var p := w.nodes[k].pulls[task];
    assert GoodClient(w, k) && GoodPull(w, k, p) && GoodCache(w, w.nodes[k].cache);
    match ReceiveShard(b.cfg.hash, Received(m, m in w.signed, now), p.peer, p.awaiting.value, b.cfg.limits.skew)
    case Err(_) =>
    case Ok(data) =>
      if p.peer in w.nodes { ShardIsPeers(w, b, k, task, m, now, data); }
      TakeIn(w, k, p, data);
      PutKeepsGood(w, b, w.nodes[k].cache, WantedKey(p), data);
  }

  lemma PutKeepsGood(w: World, b: Bounds, cache: seq<Entry>, key: Key, data: Bytes)
    requires GoodCache(w, cache)
    requires key.peer in w.nodes ==> Stores(w, key.peer, key.model, key.index, data)
    ensures GoodCache(w, PutStep(cache, b.maxEntries, b.maxBytes, key, data))
  {
    WithoutMembers(cache, key);
    if |data| <= b.maxBytes {
      TrimIsLongest(Without(cache, key) + [Entry(key, data)], b.maxEntries, b.maxBytes, 0);
    }
  }

  lemma GetKeepsGood(w: World, cache: seq<Entry>, key: Key)
    requires GoodCache(w, cache)
    ensures GoodCache(w, GetStep(cache, key).0)
    ensures Find(cache, key).Some? && key.peer in w.nodes ==>
      Stores(w, key.peer, key.model, key.index, Find(cache, key).value)
  {
    WithoutMembers(cache, key);
    FindIn(cache, key);
  }

  /** A finished pull holds the peer's file, and the digest check never turns down a node's file. */
  lemma FinishedPull(w: World, b: Bounds, k: PubKey, p: Pull)
    requires Good(w, b) && GoodPull(w, k, p) && p.Fetching? && |p.got| == p.count
    ensures GoodPull(w, k, Finished(p.peer, p.model, Concat(p.got), p.size))
    ensures p.peer in w.nodes ==> !Mismatched(b.cfg.hash, p.fileSha, Concat(p.got))
  {
    if p.peer in w.nodes {
      assert GoodServer(w, b, p.peer);
      var shards := ShardsOf(w.nodes[p.peer].server.vault, p.model).value;
      assert forall i :: 0 <= i < |shards| ==> Stores(w, p.peer, p.model, i, p.got[i]);
      assert shards == p.got;
    }
  }

  /** Steps of a client's pull. */
  lemma PullStepKeeps(w: World, b: Bounds, a: Action)
    requires Good(w, b) && Enabled(w, b, a)
    requires a.GetAccept? || a.CacheHit? || a.GetShard? || a.Finish? || a.Break?
    ensures Good(Next(w, b, a), b)
  {
    hide Delivered, GoodAccept, GoodShard, GoodServer, Names, Uncopied, GoodCache, GoodPull, Good, Grows;
    var w' := Next(w, b, a);
    assert GoodClient(w, a.k) by { KnowsClient(w, b, a.k); }
    assert w'.nodes.Keys == w.nodes.Keys;
    assert Grows(w, w') by { SameVaultsGrow(w, w', a.k); }
    if Uncopied(w', a.k) {
      UncopiedBack(w, w', a.k);
      PullAndCache(w, b, a);
      assert GoodPull(w', a.k, w'.nodes[a.k].pulls[a.task]) by { PullGrows(w, w', a.k, w'.nodes[a.k].pulls[a.task]); }
      assert GoodCache(w', w'.nodes[a.k].cache) by { CacheGrows(w, w', w'.nodes[a.k].cache); }
    }
    ClientMoves(w, w', a.k, a.task);
    ClientStepKeeps(w, b, w', a.k, None);
  }

  lemma KnowsClient(w: World, b: Bounds, k: PubKey)
    requires Good(w, b) && k in w.nodes
    ensures GoodClient(w, k)
  {
  }

  /** The pull and the cache after such a step. */
  lemma PullAndCache(w: World, b: Bounds, a: Action)
    requires Good(w, b) && Enabled(w, b, a)
    requires a.GetAccept? || a.CacheHit? || a.GetShard? || a.Finish? || a.Break?
    requires Uncopied(w, a.k)
    ensures var w' := Next(w, b, a);
      GoodPull(w, a.k, w'.nodes[a.k].pulls[a.task]) && GoodCache(w, w'.nodes[a.k].cache)
  {
    hide Delivered, GoodAccept, GoodShard, GoodServer, Names, Uncopied;
    var p := w.nodes[a.k].pulls[a.task];
    assert GoodClient(w, a.k) && GoodPull(w, a.k, p) && GoodCache(w, w.nodes[a.k].cache);
    match a {
      case GetAccept(k, task, m, now) => AcceptedPull(w, b, k, p, m, now);
      case CacheHit(k, task) =>
        GetKeepsGood(w, w.nodes[k].cache, WantedKey(p));
        TakeIn(w, k, p, Find(w.nodes[k].cache, WantedKey(p)).value);
      case GetShard(k, task, m, now) => ReceivedNode(w, b, k, task, m, now);
      case Finish(k, task) => FinishedPull(w, b, k, p);
      case Break(k, task) =>
    }
  }

  /** A client signs a request of its own. */
  lemma RequestKeeps(w: World, b: Bounds, w': World, k: PubKey, task: nat, p: Pull, m: Message)
    requires Good(w, b) && k in w.nodes && w' == Sign(WithPull(w, k, task, p), m)
    requires m.sender == k && m.requestNonce.None? && m.nonce !in w.nonces
    requires (m.payload.SessionOpen? || m.payload.RequestShard?)
    requires Awaits(w', k, p) && (Uncopied(w, k) ==> GoodPull(w', k, p))
    ensures Good(w', b)
  {
    hide GoodAccept, GoodShard, GoodServer, Names, Uncopied, GoodCache, GoodPull, Good, Grows, Awaits;
    assert GoodClient(w, k) by { KnowsClient(w, b, k); }
    assert Grows(w, w') by { SameVaultsGrow(w, w', k); }
    if Uncopied(w', k) {
      UncopiedBack(w, w', k);
      CacheGrows(w, w', w.nodes[k].cache);
    }
    ClientMoves(w, w', k, task);
    ClientStepKeeps(w, b, w', k, Some(m));
  }

  /** A client signs its request for a session. */
  lemma StartKeeps(w: World, b: Bounds, a: Action)
    requires Good(w, b) && a.StartPull? && Enabled(w, b, a)
    ensures Good(Next(w, b, a), b)
  {
    hide GoodAccept, GoodShard, GoodServer, Names, Uncopied, GoodCache, Good;
    var w' := Next(w, b, a);
    var m := Message(a.k, a.nonce, Time(a.ts), SessionOpen(a.model, "pull", Some(1_000_000), Some(3600.0)), None);
    assert Requested(w', a.k, m);
    RequestKeeps(w, b, w', a.k, a.task, Opening(a.peer, a.model, a.nonce), m);
  }

  lemma AskedPull(w: World, w': World, k: PubKey, p: Pull, m: Message)
    requires Grows(w, w') && GoodPull(w, k, p) && Idle(p) && Wanted(w', k, m, m.nonce, p.sid, |p.got|)
    ensures GoodPull(w', k, p.(awaiting := Some(m.nonce)))
  {
    hide Grows;
    PullGrows(w, w', k, p);
  }

  /** A client signs its request for a shard. */
  lemma AskKeeps(w: World, b: Bounds, a: Action)
    requires Good(w, b) && a.AskShard? && Enabled(w, b, a)
    ensures Good(Next(w, b, a), b)
  {
    hide GoodAccept, GoodShard, GoodServer, Names, Uncopied, GoodCache, Good, GoodPull, Grows;
    var w', p := Next(w, b, a), w.nodes[a.k].pulls[a.task];
    var m := Message(a.k, a.nonce, Time(a.ts), RequestShard(p.sid, |p.got|), None);
    assert Wanted(w', a.k, m, a.nonce, p.sid, |p.got|);
    assert GoodClient(w, a.k) by { KnowsClient(w, b, a.k); }
    assert Grows(w, w') by { SameVaultsGrow(w, w', a.k); }
    if Uncopied(w, a.k) { AskedPull(w, w', a.k, p, m); }
    RequestKeeps(w, b, w', a.k, a.task, p.(awaiting := Some(a.nonce)), m);
  }

  /** Another key signs what it likes, also with a nonce of a node. */
  lemma ForeignKeeps(w: World, b: Bounds, m: Message)
    requires Good(w, b) && Enabled(w, b, Foreign(m))
    ensures Good(Sign(w, m), b)
  {
    hide GoodClient;
    var w' := Sign(w, m);
    assert Grows(w, w');
    OldStaysGood(w, w', b);
    forall k | k in w'.nodes ensures GoodServer(w', b, k) && GoodClient(w', k) {
      assert GoodServer(w, b, k);
      ClientStays(w, w', k);
    }
  }

  // ---------------------------------------------------------------- a connection is handled

  lemma ServerFields(s: Server, cfg: Config, e: Event)
    ensures var (s', reply) := Step(s, cfg, e);
      && s'.pub == s.pub
      && (!e.Publish? ==> s'.vault == s.vault) && (!e.Arrive? ==> s'.registry == s.registry && reply == None)
      && (reply.Some? ==> reply.value == Reply(s, e.message, reply.value.payload, e.x))
  {
  }

  /** The registry of the node that handled a message names only sessions the world has recorded. */
  lemma DeliveredServer(w: World, b: Bounds, k: PubKey, m: Message, x: Inputs)
    requires Good(w, b) && Enabled(w, b, Deliver(k, m, x))
    ensures GoodServer(Delivered(w, b, k, m, x), b, k)
  {
    hide HandleConnection, Used, Opened, GoodClient, BodySize;
    var s, e, w' := w.nodes[k].server, Arrive(m, m in w.signed, x), Delivered(w, b, k, m, x);
    assert GoodServer(w, b, k);
    var s' := Step(s, b.cfg, e).0;
    assert w'.nodes[k].server == s';
    ServerFields(s, b.cfg, e);
    AcceptMeansOpened(s, b.cfg, e);
    assert forall v :: v in s.registry ==> v.id in w.sids;
    IdsStayDistinct(s, b.cfg, e);
    forall v | v in s'.registry
      ensures (k, v.id) in w'.granted && w'.granted[(k, v.id)] == v.model
    {
      var u := RegistryAfter(s, b.cfg, e, v);
    }
  }

  /** The reply of a node is good in the world after it. */
  lemma DeliveredReply(w: World, b: Bounds, k: PubKey, m: Message, x: Inputs, r: Message)
    requires Good(w, b) && Enabled(w, b, Deliver(k, m, x))
    requires Step(w.nodes[k].server, b.cfg, Arrive(m, m in w.signed, x)).1 == Some(r)
    ensures GoodAccept(Delivered(w, b, k, m, x), r) && GoodShard(Delivered(w, b, k, m, x), r)
  {
    hide HandleConnection, Used, Opened, GoodClient, BodySize;
    var s, e, w' := w.nodes[k].server, Arrive(m, m in w.signed, x), Delivered(w, b, k, m, x);
    assert GoodServer(w, b, k);
    ServerFields(s, b.cfg, e);
    AcceptMeansOpened(s, b.cfg, e);
    ReplyMeansUsed(s, b.cfg, e);
    if r.payload.SessionAccept? {
      assert Answers(w', r, m) && m.payload.SessionOpen?;
    } else if r.payload.ShardData? {
      var v := Used(s, b.cfg, e).value;
      assert Answers(w', r, m) && m.payload.RequestShard?;
      assert w'.granted[(k, v.id)] == v.model;
      assert Stores(w', k, v.model, m.payload.index, r.payload.data);
    }
  }

  /** Node `k` changes its serving state, and perhaps signs one good message. */
  lemma ServerStepKeeps(w: World, b: Bounds, w': World, k: PubKey, sent: Option<Message>)
    requires Good(w, b) && Grows(w, w') && Names(w') && k in w.nodes
    requires w'.signed == if sent.Some? then w.signed + {sent.value} else w.signed
    requires sent.Some? ==> GoodAccept(w', sent.value) && GoodShard(w', sent.value)
    requires w'.nodes == w.nodes[k := w.nodes[k].(server := w'.nodes[k].server)] && GoodServer(w', b, k)
    ensures Good(w', b)
  {
    hide GoodAccept, GoodShard, GoodClient, Grows;
    OldStaysGood(w, w', b);
    forall o | o in w'.nodes
      ensures GoodServer(w', b, o) && GoodClient(w', o)
    {
      if o != k { OtherServer(w, w', b, o); }
      ClientStays(w, w', o);
    }
  }

  lemma OtherServer(w: World, w': World, b: Bounds, k: PubKey)
    requires Good(w, b) && Grows(w, w') && k in w.nodes && w'.nodes[k].server == w.nodes[k].server
    ensures GoodServer(w', b, k)
  {
    assert GoodServer(w, b, k);
  }

  lemma DeliveredGrows(w: World, b: Bounds, k: PubKey, m: Message, x: Inputs)
    requires Good(w, b) && Enabled(w, b, Deliver(k, m, x))
    ensures Grows(w, Delivered(w, b, k, m, x))
  {
    hide HandleConnection, Used, Opened, Asks, GoodAccept, GoodShard, GoodClient, GoodServer;
    ServerFields(w.nodes[k].server, b.cfg, Arrive(m, m in w.signed, x));
    assert forall g :: g in w.granted ==> g.1 != x.sid;
  }

  lemma DeliveredNames(w: World, b: Bounds, k: PubKey, m: Message, x: Inputs)
    requires Good(w, b) && Enabled(w, b, Deliver(k, m, x))
    ensures Names(Delivered(w, b, k, m, x))
  {
    hide HandleConnection, Used, Opened, Asks, GoodAccept, GoodShard, GoodClient, GoodServer;
    ServerFields(w.nodes[k].server, b.cfg, Arrive(m, m in w.signed, x));
  }

  lemma DeliveredShape(w: World, b: Bounds, k: PubKey, m: Message, x: Inputs)
    requires k in w.nodes
    ensures var w', reply := Delivered(w, b, k, m, x), Step(w.nodes[k].server, b.cfg, Arrive(m, m in w.signed, x)).1;
      && w'.signed == (if reply.Some? then w.signed + {reply.value} else w.signed)
      && w'.nodes.Keys == w.nodes.Keys
      && w'.nodes == w.nodes[k := w.nodes[k].(server := w'.nodes[k].server)]
  {
    hide HandleConnection, Step, Opened;
  }

  lemma DeliverKeeps(w: World, b: Bounds, k: PubKey, m: Message, x: Inputs)
    requires k in w.nodes && Good(w, b) && Enabled(w, b, Deliver(k, m, x))
    ensures Good(Delivered(w, b, k, m, x), b)
  {
    hide *;
    var w' := Delivered(w, b, k, m, x);
    var reply := Step(w.nodes[k].server, b.cfg, Arrive(m, m in w.signed, x)).1;
    DeliveredShape(w, b, k, m, x);
    DeliveredGrows(w, b, k, m, x);
    DeliveredNames(w, b, k, m, x);
    DeliveredServer(w, b, k, m, x);
    if reply.Some? { DeliveredReply(w, b, k, m, x, reply.value); }
    ServerStepKeeps(w, b, w', k, reply);
  }

  /** A node publishes a model or changes its allowlist. */
  lemma OwnerStepKeeps(w: World, b: Bounds, k: PubKey, e: Event)
    requires Good(w, b) && k in w.nodes && !e.Arrive?
    requires e.Publish? ==> GoodPublished(b.cfg.hash, e.published) && IsNew(w.nodes[k].server, e.model)
    ensures Good(WithServer(w, k, Step(w.nodes[k].server, b.cfg, e).0), b)
  {
    hide HandleConnection, GoodAccept, GoodShard, GoodClient, GoodServer, Names;
    var w' := WithServer(w, k, Step(w.nodes[k].server, b.cfg, e).0);
    ServerFields(w.nodes[k].server, b.cfg, e);
    assert Grows(w, w');
    assert GoodServer(w', b, k) by { OwnerServer(w, b, k, e); }
    assert Names(w') by { StillNames(w, w', None); }
    ServerStepKeeps(w, b, w', k, None);
  }

  lemma OwnerServer(w: World, b: Bounds, k: PubKey, e: Event)
    requires k in w.nodes && GoodServer(w, b, k) && !e.Arrive?
    requires e.Publish? ==> GoodPublished(b.cfg.hash, e.published) && IsNew(w.nodes[k].server, e.model)
    ensures GoodServer(WithServer(w, k, Step(w.nodes[k].server, b.cfg, e).0), b, k)
  {
    hide HandleConnection;
    ServerFields(w.nodes[k].server, b.cfg, e);
  }

  // ---------------------------------------------------------------- runs

  lemma StepKeeps(w: World, b: Bounds, a: Action)
    requires Good(w, b) && Enabled(w, b, a)
    ensures Good(Next(w, b, a), b)
  {
    hide Good, Delivered, AfterShard, AfterAccept, HandleConnection;
    match a {
      case Deliver(k, m, x) => DeliverKeeps(w, b, k, m, x);
      case Publishes(k, model, p) => OwnerStepKeeps(w, b, k, Event.Publish(model, p));
      case Allows(k, rules) => OwnerStepKeeps(w, b, k, SetRules(rules));
      case StartPull(_, _, _, _, _, _) => StartKeeps(w, b, a);
      case AskShard(_, _, _, _) => AskKeeps(w, b, a);
      case Foreign(m) => ForeignKeeps(w, b, m);
      case _ => PullStepKeeps(w, b, a);
    }
  }

  /** The worlds of a run; a run stops being one at its first action that is not enabled. */
  ghost predicate Reaches(w: World, b: Bounds, actions: seq<Action>, w': World)
    decreases |actions|
  {
    if actions == [] then w == w'
    else Enabled(w, b, actions[0]) && Reaches(Next(w, b, actions[0]), b, actions[1..], w')
  }

  lemma {:induction false} RunKeeps(w: World, b: Bounds, actions: seq<Action>, w': World)
    requires Good(w, b) && Reaches(w, b, actions, w')
    ensures Good(w', b)
    decreases |actions|
  {
    hide Good, Enabled, Next;
    if actions != [] {
      StepKeeps(w, b, actions[0]);
      RunKeeps(Next(w, b, actions[0]), b, actions[1..], w');
    }
  }

  lemma StepGrows(w: World, b: Bounds, a: Action)
    requires Good(w, b) && Enabled(w, b, a)
    ensures Grows(w, Next(w, b, a))
  {
    hide Good, Delivered, AfterShard, AfterAccept, HandleConnection, Grows;
    match a {
      case Deliver(k, m, x) => DeliveredGrows(w, b, k, m, x);
      case Publishes(k, model, p) => OwnerGrows(w, b, k, Event.Publish(model, p));
      case Allows(k, rules) => OwnerGrows(w, b, k, SetRules(rules));
      case Foreign(m) => SignedGrows(w, m);
      case _ => ClientGrows(w, b, a);
    }
  }

  lemma ClientGrows(w: World, b: Bounds, a: Action)
    requires Enabled(w, b, a) && !a.Deliver? && !a.Publishes? && !a.Allows? && !a.Foreign?
    ensures Grows(w, Next(w, b, a))
  {
    hide ReceiveShard, AfterAccept, Grows;
    SameVaultsGrow(w, Next(w, b, a), a.k);
  }

  lemma SignedGrows(w: World, m: Message)
    ensures Grows(w, Sign(w, m))
  {
  }

  lemma OwnerGrows(w: World, b: Bounds, k: PubKey, e: Event)
    requires k in w.nodes && !e.Arrive? && (e.Publish? ==> IsNew(w.nodes[k].server, e.model))
    ensures Grows(w, WithServer(w, k, Step(w.nodes[k].server, b.cfg, e).0))
  {
  }

  /** What is signed, granted and stored stays so over every run. */
  lemma {:induction false} RunGrows(w: World, b: Bounds, actions: seq<Action>, w': World)
    requires Good(w, b) && Reaches(w, b, actions, w')
    ensures Grows(w, w')
    decreases |actions|
  {
    hide Good, Enabled, Next;
    if actions != [] {
      StepKeeps(w, b, actions[0]);
      StepGrows(w, b, actions[0]);
      RunGrows(Next(w, b, actions[0]), b, actions[1..], w');
    }
  }

  /** Fetch correctness over every run: whatever the network did, shard bytes that a client accepts from a
      node are the requested shard of the requested model in that node's vault, if no other key copied the
      nonce of one of the client's requests. */
  lemma AcceptedShardIsPeers(w: World, b: Bounds, actions: seq<Action>, w': World, k: PubKey, task: nat,
                             m: Message, now: real, data: Bytes)
    requires Initial(w, b) && Reaches(w, b, actions, w') && Enabled(w', b, GetShard(k, task, m, now))
    requires Uncopied(w', k)
    requires var p := w'.nodes[k].pulls[task];
      && p.peer in w'.nodes
      && ReceiveShard(b.cfg.hash, Received(m, m in w'.signed, now), p.peer, p.awaiting.value,
                      b.cfg.limits.skew) == Ok(data)
    ensures var p := w'.nodes[k].pulls[task]; Stores(w', p.peer, p.model, |p.got|, data)
  {
    RunKeeps(w, b, actions, w');
    ShardIsPeers(w', b, k, task, m, now, data);
  }

  /** Without that proviso: in every run the accepted bytes are the shard that some signed request with this nonce
      asked for. If a node signed that request, it is the client's own, for this shard of this session. */
  lemma AcceptedShardIsSomeones(w: World, b: Bounds, actions: seq<Action>, w': World, k: PubKey, task: nat,
                                m: Message, now: real, data: Bytes) returns (q: Message)
    requires Initial(w, b) && Reaches(w, b, actions, w') && Enabled(w', b, GetShard(k, task, m, now))
    requires var p := w'.nodes[k].pulls[task];
      && p.peer in w'.nodes
      && ReceiveShard(b.cfg.hash, Received(m, m in w'.signed, now), p.peer, p.awaiting.value,
                      b.cfg.limits.skew) == Ok(data)
    ensures var p := w'.nodes[k].pulls[task];
      && AnsweredBy(w', p.peer, p.awaiting.value, data, q)
      && (q.sender in w'.nodes ==> q.sender == k && q.payload == RequestShard(p.sid, |p.got|))
  {
    RunKeeps(w, b, actions, w');
    q := AcceptedAnswersSomeone(w', b, k, task, m, now, data);
  }

  /** Cache coherence over every run: a hit gives the bytes the peer would send. */
  lemma CachedShardIsPeers(w: World, b: Bounds, actions: seq<Action>, w': World, k: PubKey, key: Key)
    requires Initial(w, b) && Reaches(w, b, actions, w') && k in w'.nodes && key.peer in w'.nodes
    requires Uncopied(w', k) && Find(w'.nodes[k].cache, key).Some?
    ensures Stores(w', key.peer, key.model, key.index, Find(w'.nodes[k].cache, key).value)
  {
    RunKeeps(w, b, actions, w');
    assert GoodClient(w', k);
    GetKeepsGood(w', w'.nodes[k].cache, key);
  }

  /** Pull correctness over every run, for any mix of cached and fetched shards: a finished pull
      from a node holds the node's file, whole and in order, of the announced size. */
  lemma FinishedPullIsPeers(w: World, b: Bounds, actions: seq<Action>, w': World, k: PubKey, task: nat)
    requires Initial(w, b) && Reaches(w, b, actions, w') && HasPull(w', k, task) && Uncopied(w', k)
    requires w'.nodes[k].pulls[task].Finished? && w'.nodes[k].pulls[task].peer in w'.nodes
    ensures var p := w'.nodes[k].pulls[task];
      var shards := ShardsOf(w'.nodes[p.peer].server.vault, p.model);
      shards.Some? && p.data == Concat(shards.value) && |p.data| == p.size
  {
    RunKeeps(w, b, actions, w');
    assert GoodClient(w', k) && GoodPull(w', k, w'.nodes[k].pulls[task]);
  }

  /** The last check of a pull, on the digest of the whole file, never turns down a node's file. */
  lemma DigestCheckPasses(w: World, b: Bounds, actions: seq<Action>, w': World, k: PubKey, task: nat)
    requires Initial(w, b) && Reaches(w, b, actions, w') && Enabled(w', b, Finish(k, task)) && Uncopied(w', k)
    requires w'.nodes[k].pulls[task].peer in w'.nodes
    ensures Next(w', b, Finish(k, task)).nodes[k].pulls[task].Finished?
  {
    RunKeeps(w, b, actions, w');
    assert GoodClient(w', k) && GoodPull(w', k, w'.nodes[k].pulls[task]);
    FinishedPull(w', b, k, w'.nodes[k].pulls[task]);
  }

  /** A pull with all its shards ends with their bytes if and only if these have the digest of the accept, if it has
      one. */
  lemma FinishIff(w: World, b: Bounds, k: PubKey, task: nat)
    requires Enabled(w, b, Finish(k, task))
    ensures var p, after := w.nodes[k].pulls[task], Next(w, b, Finish(k, task)).nodes[k].pulls[task];
      && (after.Finished? <==> p.fileSha == [] || b.cfg.hash(Concat(p.got)) == p.fileSha)
      && (after.Finished? ==> after == Finished(p.peer, p.model, Concat(p.got), p.size))
      && (!after.Finished? ==> after == Failed)
  {
  }

  // ---------------------------------------------------------------- the exact condition

  /** What the client's checks look at: a reply that a node made for any request passes them exactly when it is in
      the window, its own nonce is long enough, and the request carried the awaited nonce. Who sent that request
      plays no part. */
  lemma ReplyAcceptedIff(s: Server, cfg: Config, m: Message, p: Payload, x: Inputs, nonce: string, now: real)
    ensures var r := Reply(s, m, p, x);
      (CheckReply(Received(r, true, now), s.pub, nonce, cfg.limits.skew) == Ok(p)) ==
        (Abs(now - x.sentAt) <= cfg.limits.skew && |x.replyNonce| >= MIN_NONCE_LENGTH && m.nonce == nonce)
  {
  }

  /** So a shard that a node serves to anyone is accepted by every client that awaits the nonce of that request. */
  lemma ServedToAnyoneIsAccepted(s: Server, cfg: Config, e: Event, now: real)
    requires e.Arrive? && Step(s, cfg, e).1.Some? && Step(s, cfg, e).1.value.payload.ShardData?
    requires Abs(now - e.x.sentAt) <= cfg.limits.skew && |e.x.replyNonce| >= MIN_NONCE_LENGTH
    ensures Used(s, cfg, e).Some? && e.message.payload.RequestShard?
    ensures var v, index := Used(s, cfg, e).value, e.message.payload.index;
      && ReadShard(s.vault, v.model, index, e.x.disk).Plain?
      && ReceiveShard(cfg.hash, Received(Step(s, cfg, e).1.value, true, now), s.pub, e.message.nonce, cfg.limits.skew)
         == Ok(ReadShard(s.vault, v.model, index, e.x.disk).data)
  {
    hide HandleConnection, Used, BodySize;
    ReplyMeansUsed(s, cfg, e);
  }
}
