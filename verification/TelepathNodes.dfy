/** The class `TelepathNode` of src/telepath/node.py: its handlers and its client calls over the
    objects they update. The handlers are proved to be the steps of TelepathServer, the client
    calls to be made of the checks of TelepathClient. */
module TelepathNodes {
  import opened Hashing
  import opened Outcomes
  import opened Protocol
  import opened ReplayCache
  import opened Sessions
  import opened AccessList
  import ShardCache
  import TelepathServer
  import opened TelepathClient

  type Server = TelepathServer.Server
  type Inputs = TelepathServer.Inputs

  /** One request of a client: its nonce, what came back, and whether its receipt and its chunk could be written. */
  datatype Exchange = Exchange(nonce: string, received: Received, written: bool)

  // ---------------------------------------------------------------- what the client calls compute

  /** `fetch_shard`: the cache after it, and the bytes. */
  function Fetch(es: seq<ShardCache.Entry>, maxEntries: nat, maxBytes: nat, cfg: TelepathServer.Config,
                 key: ShardCache.Key, e: Exchange): (seq<ShardCache.Entry>, Result<Bytes, Failure>) {
    var (es1, hit) := ShardCache.GetStep(es, key);
    if hit.Some? then (es1, Ok(hit.value))
    else match ReceiveShard(cfg.hash, e.received, key.peer, e.nonce, cfg.limits.skew)
         case Err(f) => (es1, Err(f))
         case Ok(data) => (ShardCache.PutStep(es1, maxEntries, maxBytes, key, data), Ok(data))
  }

  /** The exchange of the i-th shard; without one the connection is lost. */
  function At(script: seq<Exchange>, i: nat): Exchange {
    if i < |script| then script[i] else Exchange("", Nothing, false)
  }

  /** Shards `index`, `index + 1`, ... `count - 1`: the cache after them, and the chunks. */
  function FetchAll(es: seq<ShardCache.Entry>, maxEntries: nat, maxBytes: nat, cfg: TelepathServer.Config, peer: PubKey,
                    model: ModelId, index: nat, count: nat, script: seq<Exchange>)
    : (seq<ShardCache.Entry>, Result<seq<Bytes>, Failure>)
    decreases count - index
  {
    if index >= count then (es, Ok([]))
    else
      var (es1, r) := Fetch(es, maxEntries, maxBytes, cfg, ShardCache.Key(peer, model, index), At(script, index));
      match r
      case Err(f) => (es1, Err(f))
      case Ok(chunk) =>
        if !At(script, index).written then (es1, Err(DiskError))
        else
          var (es2, rest) := FetchAll(es1, maxEntries, maxBytes, cfg, peer, model, index + 1, count, script);
          (es2, match rest case Err(f) => Err(f) case Ok(chunks) => Ok([chunk] + chunks))
  }

  /** `model_id.replace("/", "__")` */
  function Flattened(model: ModelId): string {
    if model == "" then ""
    else (if model[0] == '/' then "__" else [model[0]]) + Flattened(model[1..])
  }

  type FilePath = seq<string>

  /** A component of a path: `pathlib` drops an empty one and a single dot. */
  function Component(name: string): FilePath { if name == "" || name == "." then [] else [name] }

  function TargetFile(destination: string, model: ModelId): FilePath {
    [destination] + Component(Flattened(model)) + ["model.bin"]
  }

  function PartFile(destination: string, model: ModelId): FilePath {
    [destination] + Component(Flattened(model)) + ["model.part"]
  }

  lemma PartIsNotTarget(destination: string, model: ModelId)
    ensures TargetFile(destination, model) != PartFile(destination, model)
  {
    var n := |[destination] + Component(Flattened(model))|;
    assert TargetFile(destination, model)[n] != PartFile(destination, model)[n];
  }

  /** What `pull_model` returns: names and values. */
  type Report = map<string, Value>

  /** The payload of an accept as its sender wrote it, with the nonce it answers. */
  function Fields(p: Payload, nonce: string): Report
    requires p.SessionAccept?
  {
    p.extras + map["session_id" := Text(p.sid), "model_id" := Text(p.model), "n_shards" := Number(p.nShards),
                   "size_bytes" := Number(p.sizeBytes), "merkle_root" := Digest(p.merkleRoot),
                   "file_sha256" := if p.fileSha == [] then Null else Digest(p.fileSha),
                   "request_nonce" := Text(nonce)]
  }

  /** `{"model_id": ..., "path": ..., "bytes": ..., **initial}`: the payload overrides what stands before it. */
  function MakeReport(model: ModelId, path: FilePath, total: nat, p: Payload, nonce: string): Report
    requires p.SessionAccept?
  {
    map["model_id" := Text(model), "path" := FilePath(path), "bytes" := Number(total)] + Fields(p, nonce)
  }

  /** The file that `pull_model` puts together from its shards, and the cache it leaves. */
  function Reassemble(es: seq<ShardCache.Entry>, maxEntries: nat, maxBytes: nat, cfg: TelepathServer.Config,
                      peer: PubKey, model: ModelId, count: nat, fileSha: Bytes, script: seq<Exchange>)
    : (seq<ShardCache.Entry>, Result<Bytes, Failure>)
  {
    var (es1, fetched) := FetchAll(es, maxEntries, maxBytes, cfg, peer, model, 0, count, script);
    match fetched
    case Err(f) => (es1, Err(f))
    case Ok(chunks) =>
      (es1, if Mismatched(cfg.hash, fileSha, Concat(chunks)) then Err(WrongFile) else Ok(Concat(chunks)))
  }

  /** One `pull_model`: what it is called with, what its requests bring, and whether its last receipt is written. */
  datatype Attempt = Attempt(peer: PubKey, model: ModelId, destination: string, opening: Exchange,
                             script: seq<Exchange>, noted: bool)

  /** What `open_session` gets back. */
  function Opened(cfg: TelepathServer.Config, a: Attempt): Result<Payload, Failure> {
    CheckReply(a.opening.received, a.peer, a.opening.nonce, cfg.limits.skew)
  }

  /** What a pull makes of the cache (`es`, then `es1`) and of the files (`before`, then `after`). Its receipt comes
      last: when that is not `noted`, the file is in place all the same. */
  ghost predicate Pulled(cfg: TelepathServer.Config, maxEntries: nat, maxBytes: nat, a: Attempt,
                         es: seq<ShardCache.Entry>, es1: seq<ShardCache.Entry>,
                         before: map<FilePath, Bytes>, after: map<FilePath, Bytes>, r: Result<Report, Failure>) {
    var target, part := TargetFile(a.destination, a.model), PartFile(a.destination, a.model);
    match Opened(cfg, a)
    case Err(f) => r == Err(f) && after == before && es1 == es
    case Ok(p) =>
      if !p.SessionAccept? then r == Err(Denied) && after == before && es1 == es
      else
        var (es2, whole) := Reassemble(es, maxEntries, maxBytes, cfg, a.peer, a.model, p.nShards, p.fileSha, a.script);
        es1 == es2 && (
        match whole
        case Ok(data) =>
          && r == (if a.noted then Ok(MakeReport(a.model, target, |data|, p, a.opening.nonce)) else Err(ReceiptFailed))
          && after == (before - {part})[target := data]
        case Err(f) => r == Err(f) && after == before - {part})
  }

  class TelepathNode {
    const pub: PubKey
    const cfg: TelepathServer.Config
    const nonces: NonceCache
    const registry: SessionRegistry
    const acl: ACL?
    const cache: ShardCache.ShardCache
    var vault: Option<TelepathServer.Vault>
    /** The files below the destination directories. */
    var files: map<FilePath, Bytes>

    ghost predicate Valid() reads registry, cache {
      && registry.Valid() && registry.maxSessions == cfg.maxSessions
      && nonces.ttl == cfg.limits.ttl && nonces.maxEntries == cfg.limits.maxEntries
      && cache.Valid()
    }

    function State(): Server reads this, nonces, registry, registry.sessions, if acl == null then {} else {acl} {
      TelepathServer.Server(pub, nonces.seen, registry.Seen(), vault, if acl == null then None else Some(acl.rules))
    }

    constructor (pub: PubKey, cfg: TelepathServer.Config, vault: Option<TelepathServer.Vault>, acl: ACL?,
                 maxEntries: nat, maxBytes: nat)
      ensures Valid() && fresh(nonces) && fresh(registry) && fresh(cache) && this.acl == acl && this.cfg == cfg
      ensures State() == TelepathServer.Server(pub, map[], [], vault, if acl == null then None else Some(acl.rules))
      ensures cache.entries == [] && files == map[]
    {
      this.pub, this.cfg, this.vault, this.acl := pub, cfg, vault, acl;
      nonces := new NonceCache(cfg.limits.ttl, cfg.limits.maxEntries);
      registry := new SessionRegistry(cfg.maxSessions);
      cache := new ShardCache.ShardCache(maxEntries, maxBytes);
      files := map[];
    }

    // -------------------------------------------------------------- serving

    method OpenSession(sender: PubKey, p: Payload, x: Inputs) returns (r: Payload)
      requires Valid() && p.SessionOpen? && forall s :: s in registry.sessions ==> s.id != x.sid
      modifies registry`sessions
      ensures Valid() && (State(), r) == TelepathServer.OpenSession(old(State()), cfg, sender, p, x)
    {
      if vault.None? { return SessionDeny(p.model, NoVault); }
      if p.model !in vault.value { return SessionDeny(p.model, NotFound); }
      if acl != null && !IsAllowed(acl.rules, p.model, sender) { return SessionDeny(p.model, AclDenied); }
      var published := vault.value[p.model];
      var budget := if p.budget.Some? then p.budget.value else |published.shards|;
      var ttl := if p.ttl.Some? then p.ttl.value else 600.0;
      var session := registry.Open(x.sid, sender, p.model, p.purpose, budget, ttl, x.gcAt, x.useAt);
      if session.Err? { return SessionDeny(p.model, session.error); }
      return SessionAccept(session.value.id, p.model, |published.shards|, published.sizeBytes, published.merkleRoot,
                           published.fileSha, map[]);
    }

    /** The condition at the head of `_serve_shard`: look the session up, check its owner, and spend
        one shard of its budget. */
    method UseSession(sid: SessionId, sender: PubKey, gcAt: real, useAt: real) returns (r: Option<Session>)
      requires Valid()
      modifies registry`sessions, registry.sessions
      ensures Valid()
      ensures var (vs, used) := UseStep(old(registry.Seen()), sid, sender, gcAt, useAt);
        registry.Seen() == vs && r.Some? == used.Some? && (r.Some? ==> r.value.model == used.value.model)
    {
      hide Collect, Lookup;
      r := registry.Get(sid, gcAt);
      ghost var kept, k := registry.Seen(), Lookup(registry.Seen(), sid);
      assert k.Some? ==> registry.sessions[k.value] in registry.sessions;
      if r.None? || r.value.peer != sender { return None; }
      var ok := r.value.Consume(useAt);
      assert registry.Seen() == if ok then kept[k.value := kept[k.value].(used := kept[k.value].used + 1)] else kept;
      if !ok { return None; }
    }

    method ServeShard(sender: PubKey, p: Payload, x: Inputs) returns (r: Option<Payload>)
      requires Valid() && p.RequestShard?
      modifies registry`sessions, registry.sessions
      ensures Valid() && (State(), r) == TelepathServer.ServeShard(old(State()), cfg, sender, p, x)
    {
      hide Collect, Lookup;
      var session := UseSession(p.sid, sender, x.gcAt, x.useAt);
      assert State() == old(State()).(registry := registry.Seen());
      if session.None? { return Some(ShardDeny(p.index, InvalidSession)); }
      match TelepathServer.ReadShard(vault, session.value.model, p.index, x.disk) {
        case Plain(data) => return Some(ShardData(session.value.model, p.index, cfg.hash(data), data));
        case Unavailable => return Some(ShardDeny(p.index, ShardUnavailable));
        case Crash => return None;
      }
    }

    method Dispatch(m: Message, x: Inputs) returns (r: Option<Payload>)
      requires Valid() && forall s :: s in registry.sessions ==> s.id != x.sid
      modifies registry`sessions, registry.sessions
      ensures Valid() && (State(), r) == TelepathServer.Dispatch(old(State()), cfg, m, x)
    {
      match m.payload {
        case Hello => return Some(Hello);
        case SessionOpen(_, _, _, _) =>
          var p := OpenSession(m.sender, m.payload, x);
          return Some(p);
        case RequestShard(_, _) => r := ServeShard(m.sender, m.payload, x);
        case RamBroadcast(key, _) => return Some(Ack(key));
        case _ => return Some(Error(Unsupported));
      }
    }

    /** One connection; no reply where the source closes it without one. */
    method HandleConnection(m: Message, signed: bool, x: Inputs) returns (r: Option<Message>)
      requires Valid() && forall s :: s in registry.sessions ==> s.id != x.sid
      modifies nonces, registry`sessions, registry.sessions
      ensures Valid() && (State(), r) == TelepathServer.HandleConnection(old(State()), cfg, m, signed, x)
    {
      var p: Option<Payload>;
      var reason := Verify(m, signed, x.checkedAt, cfg.limits.skew);
      if reason.Some? {
        p := Some(Error(reason.value));
      } else {
        var accepted := nonces.Accept(m.sender, m.nonce, x.acceptedAt);
        if !accepted {
          p := Some(Error(Replayed));
        } else {
          p := Dispatch(m, x);
        }
      }
      if p.None? { return None; }
      var reply := Message(pub, x.replyNonce, Time(x.sentAt), p.value, Some(m.nonce));
      if !TelepathServer.Sendable(cfg, reply) { return None; }
      return Some(reply);
    }

    // -------------------------------------------------------------- requesting

    method FetchShard(peer: PubKey, model: ModelId, index: int, e: Exchange) returns (r: Result<Bytes, Failure>)
      requires Valid()
      modifies cache
      ensures Valid()
      ensures (cache.entries, r) == Fetch(old(cache.entries), cache.maxEntries, cache.maxBytes, cfg,
                                          ShardCache.Key(peer, model, index), e)
    {
      var key := ShardCache.Key(peer, model, index);
      var cached := cache.Get(key);
      if cached.Some? { return Ok(cached.value); }
      var reply := CheckReply(e.received, peer, e.nonce, cfg.limits.skew);
      if reply.Err? { return Err(reply.error); }
      if !reply.value.ShardData? { return Err(Denied); }
      var data := reply.value.data;
      if cfg.hash(data) != reply.value.plaintextHash { return Err(HashMismatch); }
      cache.Put(key, data);
      return Ok(data);
    }

    /** The loop of `pull_model`: every chunk is fetched, written, digested and counted. */
    method FetchInto(part: FilePath, peer: PubKey, model: ModelId, count: nat, script: seq<Exchange>)
      returns (r: Result<(Bytes, nat), Failure>)
      requires Valid() && part in files && files[part] == []
      modifies cache, this`files
      ensures Valid()
      ensures var (es, fetched) := FetchAll(old(cache.entries), cache.maxEntries, cache.maxBytes, cfg, peer, model, 0,
                                            count, script);
        && cache.entries == es
        && match fetched
           case Err(f) => r == Err(f) && files.Keys == old(files).Keys && files - {part} == old(files) - {part}
           case Ok(chunks) => r == Ok((Concat(chunks), |Concat(chunks)|)) && files == old(files)[part := Concat(chunks)]
    {
      hide Fetch;
      ghost var es0, n, bytes := cache.entries, cache.maxEntries, cache.maxBytes;
      var digested: Bytes := [];
      var total: nat := 0;
      ghost var chunks: seq<Bytes> := [];
      assert Continue([], FetchAll(es0, n, bytes, cfg, peer, model, 0, count, script))
          == FetchAll(es0, n, bytes, cfg, peer, model, 0, count,
                      script) by { ContinueNothing(FetchAll(es0, n, bytes, cfg, peer, model, 0, count, script)); }
      assert old(files)[part := []] == old(files);
      for index := 0 to count
        invariant Valid() && files == old(files)[part := Concat(chunks)]
        invariant digested == Concat(chunks) && total == |Concat(chunks)|
        invariant FetchAll(es0, n, bytes, cfg, peer, model, 0, count, script)
               == Continue(chunks, FetchAll(cache.entries, n, bytes, cfg, peer, model, index, count, script))
      {
        ContinueStep(chunks, cache.entries, n, bytes, cfg, peer, model, index, count, script);
        var chunk := FetchShard(peer, model, index, At(script, index));
        if chunk.Err? { return Err(chunk.error); }
        if !At(script, index).written { return Err(DiskError); }
        ConcatSnoc(chunks, chunk.value);
        chunks := chunks + [chunk.value];
        files := files[part := files[part] + chunk.value];
        digested := digested + chunk.value;
        total := total + |chunk.value|;
      }
      assert chunks + [] == chunks;
      return Ok((digested, total));
    }

    /** All or nothing: on success, and if only the last receipt fails, the target holds exactly the fetched chunks in
        order, whose digest is the announced one; on any other failure the target and every other file are as before.
        The `.part` file is gone either way, unless the session was refused before it was opened. */
    method PullModel(peer: PubKey, model: ModelId, destination: string, opening: Exchange, script: seq<Exchange>,
                     noted: bool)
      returns (r: Result<Report, Failure>)
      requires Valid()
      modifies cache, this`files
      ensures Valid()
      ensures Pulled(cfg, cache.maxEntries, cache.maxBytes,
                     Attempt(peer, model, destination, opening, script, noted),
                     old(cache.entries), cache.entries, old(files), files, r)
    {
      hide Fetch, FetchAll, CheckReply;
      var target, part := TargetFile(destination, model), PartFile(destination, model);
      PartIsNotTarget(destination, model);
      var initial := CheckReply(opening.received, peer, opening.nonce, cfg.limits.skew);
      if initial.Err? { return Err(initial.error); }
      if !initial.value.SessionAccept? { return Err(Denied); }
      files := files[part := []];
      var fetched := FetchInto(part, peer, model, initial.value.nShards, script);
      if fetched.Err? {
        files := files - {part};
        assert files == old(files) - {part};
        return Err(fetched.error);
      }
      var (digested, total) := fetched.value;
      if initial.value.fileSha != [] && cfg.hash(digested) != initial.value.fileSha {
        files := files - {part};
        assert files == old(files) - {part};
        return Err(WrongFile);
      }
      files := files[target := files[part]] - {part};
      assert files == (old(files) - {part})[target := digested];
      if !noted { return Err(ReceiptFailed); }
      return Ok(MakeReport(model, target, total, initial.value, opening.nonce));
    }
  }

  lemma ContinueNothing(rest: (seq<ShardCache.Entry>, Result<seq<Bytes>, Failure>))
    ensures Continue([], rest) == rest
  {
    if rest.1.Ok? { assert [] + rest.1.value == rest.1.value; }
  }

  /** Chunks already written, in front of what is still to come. */
  function Continue(chunks: seq<Bytes>, rest: (seq<ShardCache.Entry>, Result<seq<Bytes>, Failure>))
    : (seq<ShardCache.Entry>, Result<seq<Bytes>, Failure>)
  {
    (rest.0, match rest.1 case Err(f) => Err(f) case Ok(more) => Ok(chunks + more))
  }

  lemma ContinueStep(chunks: seq<Bytes>, es: seq<ShardCache.Entry>, maxEntries: nat, maxBytes: nat,
                     cfg: TelepathServer.Config, peer: PubKey, model: ModelId, index: nat, count: nat,
                     script: seq<Exchange>)
    requires index < count
    ensures var (es1, r) := Fetch(es, maxEntries, maxBytes, cfg, ShardCache.Key(peer, model, index), At(script, index));
      Continue(chunks, FetchAll(es, maxEntries, maxBytes, cfg, peer, model, index, count, script)) ==
        if r.Err? then (es1, Err(r.error))
        else if !At(script, index).written then (es1, Err(DiskError))
        else Continue(chunks + [r.value],
                      FetchAll(es1, maxEntries, maxBytes, cfg, peer, model, index + 1, count, script))
  {
    var (es1, r) := Fetch(es, maxEntries, maxBytes, cfg, ShardCache.Key(peer, model, index), At(script, index));
    if r.Ok? {
      var (es2, rest) := FetchAll(es1, maxEntries, maxBytes, cfg, peer, model, index + 1, count, script);
      if rest.Ok? { assert chunks + ([r.value] + rest.value) == (chunks + [r.value]) + rest.value; }
    }
  }
}
