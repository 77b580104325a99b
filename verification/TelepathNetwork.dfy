/** Many nodes and a network that may drop, delay, reorder, duplicate and redirect frames, and may
    carry messages of keys that are not nodes, which may say anything and copy any nonce. What stays true:
    only the holder of a key signs for it, and the names that uuid4 gives a node are new. */
module TelepathNetwork {
  import opened Hashing
  import opened Outcomes
  import opened Protocol
  import opened Sessions
  import opened ShardCache
  import opened TelepathServer
  import opened TelepathClient
  import opened TelepathRuns

  /** A `pull_model` in progress, between two points where it awaits the network. */
  datatype Pull =
    | Opening(peer: PubKey, model: ModelId, nonce: string)
    | Fetching(peer: PubKey, model: ModelId, sid: SessionId, count: nat, size: nat, fileSha: Bytes,
               got: seq<Bytes>, awaiting: Option<string>)
    | Finished(peer: PubKey, model: ModelId, data: Bytes, size: nat)
    | Failed

  datatype Node = Node(server: Server, cache: seq<Entry>, pulls: map<nat, Pull>)

  /** `signed` holds every message anyone has signed, `nonces` and `sids` every name given out, and
      `granted` the model of every session ever opened, by serving node and session id. */
  datatype World = World(nodes: map<PubKey, Node>, signed: set<Message>, nonces: set<string>,
                         sids: set<SessionId>, granted: map<(PubKey, SessionId), ModelId>)

  datatype Bounds = Bounds(cfg: Config, maxEntries: nat, maxBytes: nat)

  datatype Action =
    | Deliver(k: PubKey, message: Message, x: Inputs)
    | Publishes(k: PubKey, model: ModelId, published: Published)
    | Allows(k: PubKey, rules: AccessList.Rules)
    | StartPull(k: PubKey, task: nat, peer: PubKey, model: ModelId, nonce: string, ts: real)
    | GetAccept(k: PubKey, task: nat, message: Message, now: real)
    | CacheHit(k: PubKey, task: nat)
    | AskShard(k: PubKey, task: nat, nonce: string, ts: real)
    | GetShard(k: PubKey, task: nat, message: Message, now: real)
    | Finish(k: PubKey, task: nat)
    | Break(k: PubKey, task: nat)
    | Foreign(message: Message)

  // ---------------------------------------------------------------- steps

  /** The vault of a well-run node: sizes and digests are those of the file. */
  ghost predicate GoodPublished(hash: Hash, p: Published) {
    p.sizeBytes == |Concat(p.shards)| && p.fileSha == hash(Concat(p.shards))
  }

  ghost predicate HasPull(w: World, k: PubKey, task: nat) {
    k in w.nodes && task in w.nodes[k].pulls
  }

  /** When an action can happen: names are fresh, replies are whatever the network offers. */
  ghost predicate Enabled(w: World, b: Bounds, a: Action) {
    match a
    case Deliver(k, m, x) => k in w.nodes && x.replyNonce !in w.nonces && x.sid !in w.sids
    case Publishes(k, model, p) => k in w.nodes && GoodPublished(b.cfg.hash, p) && IsNew(w.nodes[k].server, model)
    case Allows(k, _) => k in w.nodes
    case StartPull(k, task, _, _, nonce, _) => k in w.nodes && task !in w.nodes[k].pulls && nonce !in w.nonces
    case GetAccept(k, task, _, _) => HasPull(w, k, task) && w.nodes[k].pulls[task].Opening?
    case CacheHit(k, task) =>
      && HasPull(w, k, task) && Idle(w.nodes[k].pulls[task])
      && Find(w.nodes[k].cache, WantedKey(w.nodes[k].pulls[task])).Some?
    case AskShard(k, task, nonce, _) =>
      && HasPull(w, k, task) && Idle(w.nodes[k].pulls[task])
      && Find(w.nodes[k].cache, WantedKey(w.nodes[k].pulls[task])).None? && nonce !in w.nonces
    case GetShard(k, task, _, _) =>
      HasPull(w, k, task) && w.nodes[k].pulls[task].Fetching? && w.nodes[k].pulls[task].awaiting.Some?
    case Finish(k, task) =>
      && HasPull(w, k, task) && w.nodes[k].pulls[task].Fetching? && w.nodes[k].pulls[task].awaiting.None?
      && |w.nodes[k].pulls[task].got| == w.nodes[k].pulls[task].count
    case Break(k, task) => HasPull(w, k, task) && !w.nodes[k].pulls[task].Finished?
    case Foreign(m) => m.sender !in w.nodes
  }

  /** No manifest of the model is there yet. */
  predicate IsNew(s: Server, model: ModelId) { s.vault.Some? ==> model !in s.vault.value }

  /** A pull about to fetch its next shard. */
  predicate Idle(p: Pull) { p.Fetching? && p.awaiting.None? && |p.got| < p.count }

  function WantedKey(p: Pull): Key
    requires p.Fetching?
  {
    Key(p.peer, p.model, |p.got|)
  }

  function WithPull(w: World, k: PubKey, task: nat, p: Pull): World
    requires k in w.nodes
  {
    w.(nodes := w.nodes[k := w.nodes[k].(pulls := w.nodes[k].pulls[task := p])])
  }

  function Sign(w: World, m: Message): World {
    w.(signed := w.signed + {m}, nonces := w.nonces + {m.nonce})
  }

  function WithServer(w: World, k: PubKey, s: Server): World
    requires k in w.nodes
  {
    w.(nodes := w.nodes[k := w.nodes[k].(server := s)])
  }

  /** A connection to node `k` delivers `m`; its signature check is exact. */
  function Delivered(w: World, b: Bounds, k: PubKey, m: Message, x: Inputs): World
    requires k in w.nodes
  {
    var s, e := w.nodes[k].server, Arrive(m, m in w.signed, x);
    var (s', reply) := Step(s, b.cfg, e);
    var w1 := WithServer(w, k, s').(sids := w.sids + {x.sid});
    var opening := Opened(s, b.cfg, e);
    var w2 := if opening.Some? then w1.(granted := w1.granted[(k, x.sid) := opening.value.model]) else w1;
    if reply.Some? then Sign(w2, reply.value) else w2
  }

  function AfterAccept(w: World, b: Bounds, k: PubKey, p: Pull, message: Message, now: real): Pull
    requires p.Opening?
  {
    match CheckReply(Received(message, message in w.signed, now), p.peer, p.nonce, b.cfg.limits.skew)
    case Ok(SessionAccept(sid, _, count, size, _, fileSha, _)) =>
      Fetching(p.peer, p.model, sid, count, size, fileSha, [], None)
    case _ => Failed
  }

  function AfterShard(w: World, b: Bounds, node: Node, task: nat, message: Message, now: real): Node
    requires task in node.pulls && node.pulls[task].Fetching? && node.pulls[task].awaiting.Some?
  {
    var p := node.pulls[task];
    match ReceiveShard(b.cfg.hash, Received(message, message in w.signed, now), p.peer, p.awaiting.value,
                       b.cfg.limits.skew)
    case Err(_) => node.(pulls := node.pulls[task := Failed])
    case Ok(data) =>
      node.(cache := PutStep(node.cache, b.maxEntries, b.maxBytes, WantedKey(p), data),
            pulls := node.pulls[task := p.(got := p.got + [data], awaiting := None)])
  }

  ghost function Next(w: World, b: Bounds, a: Action): World
    requires Enabled(w, b, a)
  {
    match a
    case Deliver(k, m, x) => Delivered(w, b, k, m, x)
    case Publishes(k, model, p) => WithServer(w, k, Step(w.nodes[k].server, b.cfg, Event.Publish(model, p)).0)
    case Allows(k, rules) => WithServer(w, k, Step(w.nodes[k].server, b.cfg, SetRules(rules)).0)
    case StartPull(k, task, peer, model, nonce, ts) =>
      Sign(WithPull(w, k, task, Opening(peer, model, nonce)),
           Message(k, nonce, Time(ts), SessionOpen(model, "pull", Some(1_000_000), Some(3600.0)), None))
    case GetAccept(k, task, m, now) => WithPull(w, k, task, AfterAccept(w, b, k, w.nodes[k].pulls[task], m, now))
    case CacheHit(k, task) =>
      var node, p := w.nodes[k], w.nodes[k].pulls[task];
      var (cache, hit) := GetStep(node.cache, WantedKey(p));
      w.(nodes := w.nodes[k := node.(cache := cache, pulls := node.pulls[task := p.(got := p.got + [hit.value])])])
    case AskShard(k, task, nonce, ts) =>
      var p := w.nodes[k].pulls[task];
      Sign(WithPull(w, k, task, p.(awaiting := Some(nonce))),
           Message(k, nonce, Time(ts), RequestShard(p.sid, |p.got|), None))
    case GetShard(k, task, m, now) =>
      w.(nodes := w.nodes[k := AfterShard(w, b, w.nodes[k], task, m, now)])
    case Finish(k, task) =>
      var p := w.nodes[k].pulls[task];
      WithPull(w, k, task, if Mismatched(b.cfg.hash, p.fileSha, Concat(p.got)) then Failed
                           else Finished(p.peer, p.model, Concat(p.got), p.size))
    case Break(k, task) => WithPull(w, k, task, Failed)
    case Foreign(m) => Sign(w, m)
  }

  /** Nodes with stores, and nothing sent or opened yet. */
  ghost predicate Initial(w: World, b: Bounds) {
    && w.signed == {} && w.granted == map[]
    && forall k :: k in w.nodes ==>
         && w.nodes[k].server.pub == k && w.nodes[k].server.registry == []
         && w.nodes[k].cache == [] && w.nodes[k].pulls == map[]
         && GoodVault(b, w.nodes[k].server)
  }

  ghost predicate GoodVault(b: Bounds, s: Server) {
    s.vault.Some? ==> forall model :: model in s.vault.value ==> GoodPublished(b.cfg.hash, s.vault.value[model])
  }

  // ---------------------------------------------------------------- what holds in every world

  /** Node `k` stores `data` as shard `index` of `model`. */
  ghost predicate Stores(w: World, k: PubKey, model: ModelId, index: int, data: Bytes) {
    k in w.nodes && var shards := ShardsOf(w.nodes[k].server.vault, model);
                    shards.Some? && 0 <= index < |shards.value| && shards.value[index] == data
  }

  /** `q` is the request that a reply with `r`'s echo answers. */
  predicate Answers(w: World, r: Message, q: Message) {
    q in w.signed && r.requestNonce == Some(q.nonce)
  }

  /** A node's SESSION_ACCEPT answers a request for its model, describes that model, and holds nothing else. */
  ghost predicate GoodAccept(w: World, r: Message) {
    r.payload.SessionAccept? && r.sender in w.nodes ==>
      && (exists q :: Answers(w, r, q) && q.payload.SessionOpen? && q.payload.model == r.payload.model)
      && (r.sender, r.payload.sid) in w.granted && w.granted[(r.sender, r.payload.sid)] == r.payload.model
      && Describes(w, r.sender, r.payload.model, r.payload.nShards, r.payload.sizeBytes, r.payload.fileSha)
      && r.payload.extras == map[]
      && r.payload.merkleRoot == w.nodes[r.sender].server.vault.value[r.payload.model].merkleRoot
  }

  ghost predicate Describes(w: World, k: PubKey, model: ModelId, count: nat, size: nat, fileSha: Bytes) {
    k in w.nodes && var v := w.nodes[k].server.vault;
      && v.Some? && model in v.value && |v.value[model].shards| == count
      && v.value[model].sizeBytes == size && v.value[model].fileSha == fileSha
  }

  /** A node's SHARD_DATA answers a request for that shard of the session's model. */
  ghost predicate GoodShard(w: World, r: Message) {
    r.payload.ShardData? && r.sender in w.nodes ==>
      exists q :: Answers(w, r, q) && q.payload.RequestShard?
        && (r.sender, q.payload.sid) in w.granted
        && Stores(w, r.sender, w.granted[(r.sender, q.payload.sid)], q.payload.index, r.payload.data)
  }

  ghost predicate Names(w: World) {
    && (forall m :: m in w.signed ==> m.nonce in w.nonces)
    && (forall m, n :: m in w.signed && n in w.signed && m.sender in w.nodes && n.sender in w.nodes ==>
          (m.nonce == n.nonce ==> m == n))
    && (forall g :: g in w.granted ==> g.1 in w.sids)
  }

  /** `q` is a request that node `k` has sent. */
  ghost predicate Requested(w: World, k: PubKey, q: Message) {
    q in w.signed && q.sender == k && q.requestNonce.None?
  }

  /** No message of another key than a node's carries the nonce of a request of node `k`. */
  ghost predicate Uncopied(w: World, k: PubKey) {
    forall q, m :: Requested(w, k, q) && m in w.signed && m.sender !in w.nodes ==> m.nonce != q.nonce
  }

  ghost predicate GoodServer(w: World, b: Bounds, k: PubKey)
    requires k in w.nodes
  {
    var s := w.nodes[k].server;
    && s.pub == k && GoodVault(b, s) && DistinctIds(s.registry)
    && forall v :: v in s.registry ==> (k, v.id) in w.granted && w.granted[(k, v.id)] == v.model
  }

  /** Every cached shard of a node is that node's shard. */
  ghost predicate GoodCache(w: World, cache: seq<Entry>) {
    forall e :: e in cache && e.key.peer in w.nodes ==> Stores(w, e.key.peer, e.key.model, e.key.index, e.value)
  }

  /** `q` is the request of node `k` with that nonce, for that shard of a session. */
  ghost predicate Wanted(w: World, k: PubKey, q: Message, nonce: string, sid: SessionId, index: int) {
    Requested(w, k, q) && q.nonce == nonce && q.payload == RequestShard(sid, index)
  }

  ghost predicate GoodPull(w: World, k: PubKey, p: Pull) {
    match p
    case Opening(peer, model, nonce) =>
      exists q :: Requested(w, k, q) && q.nonce == nonce && q.payload.SessionOpen? && q.payload.model == model
    case Fetching(peer, model, sid, count, size, fileSha, got, awaiting) =>
      && |got| <= count
      && (awaiting.Some? ==> |got| < count && exists q :: Wanted(w, k, q, awaiting.value, sid, |got|))
      && (peer in w.nodes ==>
           && (peer, sid) in w.granted && w.granted[(peer, sid)] == model
           && Describes(w, peer, model, count, size, fileSha)
           && forall i :: 0 <= i < |got| ==> Stores(w, peer, model, i, got[i]))
    case Finished(peer, model, data, size) =>
      peer in w.nodes ==>
        var shards := ShardsOf(w.nodes[peer].server.vault, model);
        shards.Some? && data == Concat(shards.value) && |data| == size
    case Failed => true
  }

  /** What a client holds is right, as long as nobody copied the nonce of one of its requests; what it awaits it
      has asked for in any case. */
  ghost predicate GoodClient(w: World, k: PubKey)
    requires k in w.nodes
  {
    && (forall t :: t in w.nodes[k].pulls ==> Awaits(w, k, w.nodes[k].pulls[t]))
    && (Uncopied(w, k) ==>
          && GoodCache(w, w.nodes[k].cache)
          && forall t :: t in w.nodes[k].pulls ==> GoodPull(w, k, w.nodes[k].pulls[t]))
  }

  ghost predicate Awaits(w: World, k: PubKey, p: Pull) {
    p.Fetching? && p.awaiting.Some? ==> exists q :: Wanted(w, k, q, p.awaiting.value, p.sid, |p.got|)
  }

  ghost predicate Good(w: World, b: Bounds) {
    && Names(w)
    && (forall r :: r in w.signed ==> GoodAccept(w, r) && GoodShard(w, r))
    && (forall k :: k in w.nodes ==> GoodServer(w, b, k))
    && (forall k :: k in w.nodes ==> GoodClient(w, k))
  }
}
