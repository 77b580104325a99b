/** What `pull_model` of src/telepath/node.py reports: its own numbers under the payload of the peer's accept. */
module PullReports {
  import opened Hashing
  import opened Outcomes
  import opened Protocol
  import opened TelepathClient
  import opened TelepathNodes
  import opened EndToEnd
  import ShardCache
  import TelepathServer
  import TelepathNetwork
  import TelepathSafety
  import WholePull

  predicate Reports(report: Report, name: string, v: Value) { name in report && report[name] == v }

  /** The accept's own payload says otherwise. */
  predicate Overrides(p: Payload, name: string, v: Value)
    requires p.SessionAccept?
  {
    name in p.extras && p.extras[name] != v
  }

  /** A successful pull reports the size and the path of what is there if and only if the peer's accept has no other
      `bytes` and `path` of its own. The reported model is always the peer's. */
  lemma ReportIff(cfg: TelepathServer.Config, maxEntries: nat, maxBytes: nat, a: Attempt,
                  es: seq<ShardCache.Entry>, es1: seq<ShardCache.Entry>, before: Files, after: Files,
                  report: Report)
    requires Pulled(cfg, maxEntries, maxBytes, a, es, es1, before, after, Ok(report))
    ensures var target := TargetFile(a.destination, a.model);
      && target in after && Opened(cfg, a).Ok? && Opened(cfg, a).value.SessionAccept?
      && var p, size := Opened(cfg, a).value, Number(|after[target]|);
      && (Reports(report, "bytes", size) <==> !Overrides(p, "bytes", size))
      && (Reports(report, "path", FilePath(target)) <==> !Overrides(p, "path", FilePath(target)))
      && Reports(report, "model_id", Text(p.model))
  {
    hide Reassemble, CheckReply;
  }

  /** A pull of no shards from a peer whose accept says `bytes: v`. */
  function Boast(peer: PubKey, model: ModelId, destination: string, now: real, v: Value): Attempt {
    var nonce := "0123456789abcdef";
    var accept := SessionAccept("", model, 0, 0, [], [], map["bytes" := v]);
    var reply := Message(peer, nonce, Time(now), accept, Some(nonce));
    var opening := Exchange(nonce, Received(reply, true, now), true);
    Attempt(peer, model, destination, opening, [], true)
  }

  ghost predicate EmptyReportedAs(cfg: TelepathServer.Config, maxEntries: nat, maxBytes: nat, a: Attempt,
                                  v: Value, es: seq<ShardCache.Entry>, before: Files, after: Files,
                                  report: Report) {
    var target := TargetFile(a.destination, a.model);
    && Pulled(cfg, maxEntries, maxBytes, a, es, es, before, after, Ok(report))
    && target in after && after[target] == [] && Reports(report, "bytes", v)
  }

  /** Any value can be what a successful pull reports as the size of an empty file. */
  lemma PeerNamesTheSize(cfg: TelepathServer.Config, maxEntries: nat, maxBytes: nat, peer: PubKey, model: ModelId,
                         destination: string, now: real, v: Value, es: seq<ShardCache.Entry>, before: Files)
    requires cfg.limits.skew >= 0.0
    ensures exists after, report ::
      EmptyReportedAs(cfg, maxEntries, maxBytes, Boast(peer, model, destination, now, v), v, es, before, after, report)
  {
    var a := Boast(peer, model, destination, now, v);
    var target, part := TargetFile(destination, model), PartFile(destination, model);
    var accept := a.opening.received.message.payload;
    assert Opened(cfg, a) == Ok(accept);
    assert Concat([]) == [];
    var report := MakeReport(model, target, 0, accept, a.opening.nonce);
    var after := (before - {part})[target := []];
    assert Reassemble(es, maxEntries, maxBytes, cfg, peer, model, 0, [], []) == (es, Ok([]));
    assert EmptyReportedAs(cfg, maxEntries, maxBytes, a, v, es, before, after, report);
  }

  /** What every other name of the report holds: what the peer's accept has under it. */
  lemma ReportFields(cfg: TelepathServer.Config, maxEntries: nat, maxBytes: nat, a: Attempt,
                     es: seq<ShardCache.Entry>, es1: seq<ShardCache.Entry>, before: Files, after: Files, report: Report)
    requires Pulled(cfg, maxEntries, maxBytes, a, es, es1, before, after, Ok(report))
    ensures Opened(cfg, a).Ok? && Opened(cfg, a).value.SessionAccept?
    ensures var p := Opened(cfg, a).value;
      && Reports(report, "session_id", Text(p.sid)) && Reports(report, "merkle_root", Digest(p.merkleRoot))
      && Reports(report, "n_shards", Number(p.nShards)) && Reports(report, "size_bytes", Number(p.sizeBytes))
      && Reports(report, "request_nonce", Text(a.opening.nonce))
      && (Reports(report, "file_sha256", Null) <==> p.fileSha == [])
      && (p.fileSha != [] ==> Reports(report, "file_sha256", Digest(p.fileSha)))
    ensures var p := Opened(cfg, a).value;
      forall name, v :: name !in OWN_NAMES ==> (Reports(report, name, v) <==> name in p.extras && p.extras[name] == v)
  {
    hide Reassemble, CheckReply, MakeReport;
    var p, n := Opened(cfg, a).value, |after[TargetFile(a.destination, a.model)]|;
    NamedFields(a.model, TargetFile(a.destination, a.model), n, p, a.opening.nonce);
    OtherFields(a.model, TargetFile(a.destination, a.model), n, p, a.opening.nonce);
  }

  lemma NamedFields(model: ModelId, path: FilePath, total: nat, p: Payload, nonce: string)
    requires p.SessionAccept?
    ensures var report := MakeReport(model, path, total, p, nonce);
      && Reports(report, "session_id", Text(p.sid)) && Reports(report, "merkle_root", Digest(p.merkleRoot))
      && Reports(report, "n_shards", Number(p.nShards)) && Reports(report, "size_bytes", Number(p.sizeBytes))
      && Reports(report, "request_nonce", Text(nonce))
      && Reports(report, "file_sha256", if p.fileSha == [] then Null else Digest(p.fileSha))
  {
  }

  lemma OtherFields(model: ModelId, path: FilePath, total: nat, p: Payload, nonce: string)
    requires p.SessionAccept?
    ensures forall name, v :: name !in OWN_NAMES ==>
      (Reports(MakeReport(model, path, total, p, nonce), name, v) <==> name in p.extras && p.extras[name] == v)
  {
  }

  /** The names that a node or a pull writes itself. */
  const OWN_NAMES: set<string> := {"model_id", "path", "bytes", "session_id", "n_shards", "size_bytes", "merkle_root",
                                   "file_sha256", "request_nonce"}

  /** A file that does not have the digest of the accept is never taken. */
  lemma PullChecksDigest(cfg: TelepathServer.Config, maxEntries: nat, maxBytes: nat, a: Attempt,
                         es: seq<ShardCache.Entry>, es1: seq<ShardCache.Entry>, before: Files, after: Files,
                         report: Report)
    requires Pulled(cfg, maxEntries, maxBytes, a, es, es1, before, after, Ok(report))
    ensures var target := TargetFile(a.destination, a.model);
      && target in after && Opened(cfg, a).Ok? && Opened(cfg, a).value.SessionAccept?
      && (Opened(cfg, a).value.fileSha == [] || cfg.hash(after[target]) == Opened(cfg, a).value.fileSha)
  {
    hide FetchAll, CheckReply, MakeReport;
  }

  /** Why a pull fails: the session is refused, which touches neither cache nor files, or one shard fails, or the digest
      is another, or the last receipt cannot be written. */
  lemma PullFails(cfg: TelepathServer.Config, maxEntries: nat, maxBytes: nat, a: Attempt,
                  es: seq<ShardCache.Entry>, es1: seq<ShardCache.Entry>, before: Files, after: Files,
                  r: Result<Report, Failure>)
    requires Pulled(cfg, maxEntries, maxBytes, a, es, es1, before, after, r)
    ensures Opened(cfg, a).Err? ==> r == Err(Opened(cfg, a).error) && after == before && es1 == es
    ensures Opened(cfg, a).Ok? && !Opened(cfg, a).value.SessionAccept? ==>
      r == Err(Denied) && after == before && es1 == es
    ensures Opened(cfg, a).Ok? && Opened(cfg, a).value.SessionAccept? ==>
      var p := Opened(cfg, a).value;
      var (c, got) := FetchAll(es, maxEntries, maxBytes, cfg, a.peer, a.model, 0, p.nShards, a.script);
      && es1 == c
      && match got
         case Err(f) =>
           && r == Err(f)
           && exists i :: 0 <= i < p.nShards
                && WholePull.FailsAt(es, maxEntries, maxBytes, cfg, a.peer, a.model, i, a.script, f)
         case Ok(chunks) =>
           if p.fileSha != [] && cfg.hash(Concat(chunks)) != p.fileSha then r == Err(WrongFile)
           else if a.noted then r.Ok? else r == Err(ReceiptFailed)
  {
    hide FetchAll, CheckReply, MakeReport;
    if Opened(cfg, a).Ok? && Opened(cfg, a).value.SessionAccept? {
      var n := Opened(cfg, a).value.nShards;
      var got := FetchAll(es, maxEntries, maxBytes, cfg, a.peer, a.model, 0, n, a.script).1;
      if got.Err? {
        WholePull.FirstFailure(es, maxEntries, maxBytes, cfg, a.peer, a.model, n, a.script, got.error);
      }
    }
  }

  /** The manifest that node `k` serves of `model`, in the fields of an accept. */
  ghost predicate Serves(w: TelepathNetwork.World, k: PubKey, model: ModelId, m: TelepathServer.Published) {
    k in w.nodes && var v := w.nodes[k].server.vault; v.Some? && model in v.value && v.value[model] == m
  }

  ghost predicate Arrived(w: TelepathNetwork.World, r: Received) {
    r.Received? && r.signed ==> r.message in w.signed
  }

  /** In every run against a node a successful pull reports the node's manifest: the number of its shards, the length
      of its file, its root and its digest. The length is that of the file in the target, or the two files collide. */
  lemma NodeReportsManifest(w: TelepathNetwork.World, b: TelepathNetwork.Bounds, actions: seq<TelepathNetwork.Action>,
                            w': TelepathNetwork.World, a: Attempt, es: seq<ShardCache.Entry>,
                            es1: seq<ShardCache.Entry>, before: Files, after: Files, report: Report)
    requires TelepathNetwork.Initial(w, b) && TelepathSafety.Reaches(w, b, actions, w') && a.peer in w'.nodes
    requires Arrived(w', a.opening.received)
    requires Pulled(b.cfg, b.maxEntries, b.maxBytes, a, es, es1, before, after, Ok(report))
    ensures var target := TargetFile(a.destination, a.model);
      && target in after
      && exists model, m :: Serves(w', a.peer, model, m) && Describes(b, report, model, m, after[target])
  {
    hide TelepathNetwork.Initial, Pulled, TelepathNetwork.GoodServer, TelepathNetwork.GoodClient;
    TelepathSafety.RunKeeps(w, b, actions, w') by { InitialIsGood(w, b); }
    ReportFields(b.cfg, b.maxEntries, b.maxBytes, a, es, es1, before, after, report);
    ReportIff(b.cfg, b.maxEntries, b.maxBytes, a, es, es1, before, after, report);
    PullChecksDigest(b.cfg, b.maxEntries, b.maxBytes, a, es, es1, before, after, report);
    assert TelepathNetwork.GoodAccept(w', a.opening.received.message);
    var p := Opened(b.cfg, a).value;
    var m := w'.nodes[a.peer].server.vault.value[p.model];
    assert TelepathNetwork.GoodServer(w', b, a.peer);
    GoodVaultOf(w', b, a.peer, p.model);
    assert Serves(w', a.peer, p.model, m);
    assert Describes(b, report, p.model, m, after[TargetFile(a.destination, a.model)]);
  }

  /** The report says of the file what the manifest says. */
  ghost predicate Describes(b: TelepathNetwork.Bounds, report: Report, model: ModelId, m: TelepathServer.Published,
                            file: Bytes) {
    && Reports(report, "model_id", Text(model)) && Reports(report, "n_shards", Number(|m.shards|))
    && Reports(report, "size_bytes", Number(|Concat(m.shards)|)) && Reports(report, "merkle_root", Digest(m.merkleRoot))
    && Reports(report, "file_sha256", Digest(b.cfg.hash(Concat(m.shards))))
    && (file == Concat(m.shards) || Collides(b.cfg.hash, {file}, {Concat(m.shards)}))
  }

  /** When nobody copied the nonce of the client's own request, the reported model is the one that was asked for. */
  lemma NodeReportsAskedModel(w: TelepathNetwork.World, b: TelepathNetwork.Bounds,
                              actions: seq<TelepathNetwork.Action>, w': TelepathNetwork.World, a: Attempt,
                              es: seq<ShardCache.Entry>, es1: seq<ShardCache.Entry>, before: Files, after: Files,
                              report: Report, k: PubKey, q: Message)
    requires TelepathNetwork.Initial(w, b) && TelepathSafety.Reaches(w, b, actions, w')
    requires a.peer in w'.nodes && k in w'.nodes && TelepathNetwork.Uncopied(w', k)
    requires TelepathNetwork.Requested(w', k, q) && q.nonce == a.opening.nonce
    requires q.payload.SessionOpen? && q.payload.model == a.model
    requires Arrived(w', a.opening.received)
    requires Pulled(b.cfg, b.maxEntries, b.maxBytes, a, es, es1, before, after, Ok(report))
    ensures Reports(report, "model_id", Text(a.model))
  {
    hide TelepathNetwork.Initial, Pulled, MakeReport, TelepathNetwork.GoodServer, TelepathNetwork.GoodClient,
         TelepathNetwork.Uncopied;
    TelepathSafety.RunKeeps(w, b, actions, w') by { InitialIsGood(w, b); }
    ReportIff(b.cfg, b.maxEntries, b.maxBytes, a, es, es1, before, after, report);
    var m := a.opening.received.message;
    assert TelepathNetwork.GoodAccept(w', m);
    var asked :| TelepathNetwork.Answers(w', m, asked) && asked.payload.SessionOpen?
                 && asked.payload.model == m.payload.model;
    TelepathSafety.SameRequest(w', k, q, asked);
  }

  lemma GoodVaultOf(w: TelepathNetwork.World, b: TelepathNetwork.Bounds, k: PubKey, model: ModelId)
    requires k in w.nodes && TelepathNetwork.GoodServer(w, b, k)
    requires w.nodes[k].server.vault.Some? && model in w.nodes[k].server.vault.value
    ensures TelepathNetwork.GoodPublished(b.cfg.hash, w.nodes[k].server.vault.value[model])
  {
  }

  /** A node's own accept overrides nothing: in every run a successful pull from a node reports size and path. */
  lemma NodeReportsSize(w: TelepathNetwork.World, b: TelepathNetwork.Bounds, actions: seq<TelepathNetwork.Action>,
                        w': TelepathNetwork.World, a: Attempt, es: seq<ShardCache.Entry>,
                        es1: seq<ShardCache.Entry>, before: Files, after: Files, report: Report)
    requires TelepathNetwork.Initial(w, b) && TelepathSafety.Reaches(w, b, actions, w') && a.peer in w'.nodes
    requires var m := a.opening.received; m.Received? && m.signed ==> m.message in w'.signed
    requires Pulled(b.cfg, b.maxEntries, b.maxBytes, a, es, es1, before, after, Ok(report))
    ensures var target := TargetFile(a.destination, a.model);
      && target in after && Reports(report, "bytes", Number(|after[target]|))
      && Reports(report, "path", FilePath(target))
  {
    hide TelepathNetwork.Initial, Pulled, MakeReport, TelepathNetwork.GoodServer,
         TelepathNetwork.GoodClient;
    TelepathSafety.RunKeeps(w, b, actions, w') by { InitialIsGood(w, b); }
    ReportIff(b.cfg, b.maxEntries, b.maxBytes, a, es, es1, before, after, report);
    assert TelepathNetwork.GoodAccept(w', a.opening.received.message);
  }
}
