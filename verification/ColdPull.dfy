/** A pull of a whole model from a new node into an empty cache: how large a replay table it takes. */
module ColdPull {
  import opened Hashing
  import opened Outcomes
  import opened Protocol
  import opened TelepathServer
  import opened TelepathRuns
  import opened PullService
  import opened FullTable
  import opened TelepathClient
  import opened WholePull
  import TelepathNodes
  import ShardCache
  import EndToEnd

  function Opening(at: real, owner: PubKey, model: ModelId): Event {
    Ask(at, 0, owner, SessionOpen(model, "pull", Some(PULL_BUDGET), Some(PULL_TTL)))
  }

  function Request(at: real, owner: PubKey, i: nat): Event { Ask(at, i + 1, owner, RequestShard(Name(0), i)) }

  /** The owner opens a session as `pull_model` does, and asks for shards 0 to `n - 1`. */
  function Pulling(at: real, owner: PubKey, model: ModelId, n: nat): seq<Event> {
    if n == 0 then [Opening(at, owner, model)] else Pulling(at, owner, model, n - 1) + [Request(at, owner, n - 1)]
  }

  lemma {:induction false} PullingIs(at: real, owner: PubKey, model: ModelId, n: nat)
    ensures var es := Pulling(at, owner, model, n);
      && |es| == n + 1 && es[0] == Opening(at, owner, model)
      && (forall i :: 1 <= i <= n ==> es[i] == Request(at, owner, i - 1))
      && (forall i :: 0 <= i <= n ==> es[i].Arrive? && es[i].x == At(at, i) && es[i].message.nonce == Name(i))
  {
    if n > 0 { PullingIs(at, owner, model, n - 1); }
  }

  lemma {:induction false} PullingPrefix(at: real, owner: PubKey, model: ModelId, n: nat, k: nat)
    requires k <= n
    ensures |Pulling(at, owner, model, n)| == n + 1
    ensures Pulling(at, owner, model, n)[..k + 1] == Pulling(at, owner, model, k)
  {
    PullingIs(at, owner, model, n);
    if k < n {
      PullingIs(at, owner, model, n - 1);
      PullingPrefix(at, owner, model, n - 1, k);
      assert Pulling(at, owner, model, n)[..k + 1] == Pulling(at, owner, model, n - 1)[..k + 1];
    } else {
      assert Pulling(at, owner, model, n)[..n + 1] == Pulling(at, owner, model, n);
    }
  }

  /** Every message of the pull takes a place in the table, as long as there is one. */
  lemma {:induction false} RecentIs(s: Server, cfg: Config, at: real, owner: PubKey, model: ModelId, n: nat)
    requires Ready(s, cfg, owner, model) && at >= 0.0
    ensures Recent(s, cfg, Pulling(at, owner, model, n), at)
         == if n + 1 < cfg.limits.maxEntries then n + 1 else cfg.limits.maxEntries
  {
    hide HandleConnection, Dispatches, Step, Recent, After;
    NothingYet(s, cfg, at);
    if n == 0 {
      Dispatched(s, cfg, [], at, 0, owner, Opening(at, owner, model).message.payload);
      RecentSnoc(s, cfg, [], Opening(at, owner, model), at);
      assert [] + [Opening(at, owner, model)] == Pulling(at, owner, model, 0);
    } else {
      PullingIs(at, owner, model, n - 1);
      RecentIs(s, cfg, at, owner, model, n - 1);
      Dispatched(s, cfg, Pulling(at, owner, model, n - 1), at, n, owner, RequestShard(Name(0), n - 1));
      RecentSnoc(s, cfg, Pulling(at, owner, model, n - 1), Request(at, owner, n - 1), at);
    }
  }

  lemma RequestOpensNothing(s: Server, cfg: Config, e: Event)
    requires e.Arrive? && e.message.payload.RequestShard?
    ensures TelepathRuns.Opened(s, cfg, e).None?
  {
    hide HandleConnection, Dispatches;
  }

  lemma {:induction false} OpensOnce(s: Server, cfg: Config, at: real, owner: PubKey, model: ModelId, n: nat)
    ensures Opens(s, cfg, Pulling(at, owner, model, n), 1) == 0
  {
    hide HandleConnection, Step, TelepathRuns.Opened, After;
    if n > 0 {
      hide Opens;
      PullingIs(at, owner, model, n - 1);
      OpensOnce(s, cfg, at, owner, model, n - 1);
      OpensSnoc(s, cfg, Pulling(at, owner, model, n - 1), Request(at, owner, n - 1), 1);
      RequestOpensNothing(After(s, cfg, Pulling(at, owner, model, n - 1)), cfg, Request(at, owner, n - 1));
    }
  }

  lemma {:induction false} RequestsAre(at: real, owner: PubKey, model: ModelId, n: nat)
    ensures Requests(Pulling(at, owner, model, n), Name(0)) == n
  {
    var es := Pulling(at, owner, model, n);
    if n > 0 {
      RequestsAre(at, owner, model, n - 1);
      assert es[..|es| - 1] == Pulling(at, owner, model, n - 1) && es[|es| - 1] == Request(at, owner, n - 1);
    } else {
      assert es[..0] == [] && Requests([], Name(0)) == 0;
    }
  }

  lemma FirstOpens(s: Server, cfg: Config, at: real, owner: PubKey, model: ModelId)
    requires Ready(s, cfg, owner, model) && at >= 0.0
    ensures TelepathRuns.Opened(s, cfg, Opening(at, owner, model)) == Some(Session(at, owner, model))
  {
    FullTable.FirstOpens(s, cfg, at, owner, model);
  }

  /** Request i comes in time. */
  lemma RequestInTime(s: Server, cfg: Config, at: real, owner: PubKey, model: ModelId, i: nat)
    requires Ready(s, cfg, owner, model) && at >= 0.0 && i < PULL_BUDGET
    ensures var es := Pulling(at, owner, model, i);
      |es| > 0 && InTime(s, cfg, es, 0, Request(at, owner, i), Session(at, owner, model))
  {
    hide HandleConnection, TelepathRuns.Opened, Opens, Requests, Pulling;
    var es, e := Pulling(at, owner, model, i), Request(at, owner, i);
    PullingIs(at, owner, model, i);
    OpensOnce(s, cfg, at, owner, model, i);
    RequestsAre(at, owner, model, i);
    assert es[..0] == [] && After(s, cfg, []) == s;
    FirstOpens(s, cfg, at, owner, model);
    assert forall k :: 0 <= k <= i + 1 ==> (es + [e])[k].Arrive? && (es + [e])[k].x == At(at, k);
    forall k, l | 0 <= k < l < |es + [e]| ensures (es + [e])[k].x.sid != (es + [e])[l].x.sid { NamesDiffer(k, l); }
  }

  // ---------------------------------------------------------------- the pull

  function Answer(sent: Option<Message>, at: real): Received {
    match sent case None => Nothing case Some(m) => Received(m, true, at)
  }

  /** The whole run as the serving node sees it. */
  function Run(s: Server, cfg: Config, at: real, owner: PubKey, model: ModelId, shards: seq<Bytes>): Serving {
    Serving(s, cfg, Pulling(at, owner, model, |shards|), 0, Session(at, owner, model), shards, i => i + 1)
  }

  /** What the exchange with event `k` of the run brings, and nothing else fails. */
  function Brings(v: Serving, at: real, k: nat): TelepathNodes.Exchange
    requires k < |v.es|
  {
    TelepathNodes.Exchange(Name(k), Answer(Step(Before(v, k), v.cfg, v.es[k]).1, at), true)
  }

  /** The client of that run, with an empty cache. */
  function Puller(v: Serving, at: real, maxEntries: nat, maxBytes: nat, destination: string): Client
    requires |v.es| == |v.shards| + 1
  {
    var script := seq(|v.shards|, i requires 0 <= i < |v.shards| => Brings(v, at, i + 1));
    WholePull.Client([], maxEntries, maxBytes,
                     TelepathNodes.Attempt(v.start.pub, v.session.model, destination, Brings(v, at, 0), script, true))
  }

  lemma AnswerCarries(s: Server, cfg: Config, e: Event, at: real)
    requires e.Arrive? && e.x.sentAt == at && cfg.limits.skew >= 0.0
    ensures Carries(cfg, Answer(Step(s, cfg, e).1, at), Step(s, cfg, e).1)
  {
    hide Dispatch, BodySize;
  }

  /** What is asked of node and model: a new node that has it, with the digest of its file, and no more shards than a
      pull's budget. */
  ghost predicate Offers(s: Server, cfg: Config, owner: PubKey, model: ModelId, shards: seq<Bytes>) {
    && Ready(s, cfg, owner, model) && ShardsOf(s.vault, model) == Some(shards) && |shards| <= PULL_BUDGET
    && s.vault.value[model].fileSha in {[], cfg.hash(Concat(shards))}
  }

  lemma RunServes(s: Server, cfg: Config, at: real, owner: PubKey, model: ModelId, shards: seq<Bytes>)
    requires Offers(s, cfg, owner, model, shards) && at >= 0.0
    ensures var v := Run(s, cfg, at, owner, model, shards);
      Serves(v) && |v.es| == |shards| + 1 && Before(v, 0) == s && v.es[0] == Opening(at, owner, model)
  {
    hide HandleConnection, TelepathRuns.Opened, Pulling;
    var v := Run(s, cfg, at, owner, model, shards);
    PullingIs(at, owner, model, |shards|);
    assert v.es[..0] == [] && After(s, cfg, []) == s;
    FirstOpens(s, cfg, at, owner, model);
  }

  lemma RunRequests(s: Server, cfg: Config, at: real, owner: PubKey, model: ModelId, shards: seq<Bytes>, i: nat)
    requires Offers(s, cfg, owner, model, shards) && at >= 0.0 && i < |shards|
    requires |Pulling(at, owner, model, |shards|)| == |shards| + 1
    ensures var v := Run(s, cfg, at, owner, model, shards); RequestFor(v, i, Brings(v, at, i + 1))
  {
    hide HandleConnection, InTime, Pulling, Step, Dispatches, Recent;
    var v := Run(s, cfg, at, owner, model, shards);
    PullingIs(at, owner, model, |shards|);
    PullingIs(at, owner, model, i);
    PullingPrefix(at, owner, model, |shards|, i);
    RequestInTime(s, cfg, at, owner, model, i);
    Dispatched(s, cfg, Pulling(at, owner, model, i), at, i + 1, owner, RequestShard(Name(0), i));
    AnswerCarries(Before(v, i + 1), cfg, v.es[i + 1], at);
  }

  lemma RoomIff(s: Server, cfg: Config, at: real, owner: PubKey, model: ModelId, shards: seq<Bytes>, i: nat)
    requires Offers(s, cfg, owner, model, shards) && at >= 0.0 && i < |shards|
    ensures var v := Run(s, cfg, at, owner, model, shards);
      HasRoom(v, i) <==> i + 1 < cfg.limits.maxEntries && ReplyFits(v, i)
  {
    hide HandleConnection, Recent, Pulling, Sendable;
    PullingIs(at, owner, model, |shards|);
    PullingPrefix(at, owner, model, |shards|, i);
    RecentIs(s, cfg, at, owner, model, i);
  }

  /** The SHARD_DATA with shard i fits into a frame. */
  predicate ReplyFits(v: Serving, i: nat) {
    && i < |v.shards| && v.at(i) < |v.es| && v.es[v.at(i)].Arrive?
    && var p := ShardData(v.session.model, i, v.cfg.hash(v.shards[i]), v.shards[i]);
       Sendable(v.cfg, Reply(Before(v, v.at(i)), v.es[v.at(i)].message, p, v.es[v.at(i)].x))
  }

  // ---------------------------------------------------------------- nothing comes from the cache

  ghost predicate Below(es: seq<ShardCache.Entry>, n: nat) { forall e :: e in es ==> e.key.index < n }

  lemma FetchBelow(es: seq<ShardCache.Entry>, c: Client, cfg: Config, key: ShardCache.Key, e: TelepathNodes.Exchange)
    requires key.index >= 0 && Below(es, key.index)
    ensures Below(TelepathNodes.Fetch(es, c.maxEntries, c.maxBytes, cfg, key, e).0, key.index + 1)
  {
    hide ReceiveShard;
    var data := ReceiveShard(cfg.hash, e.received, key.peer, e.nonce, cfg.limits.skew);
    ShardCache.FindIn(es, key);
    ShardCache.WithoutMembers(es, key);
    if data.Ok? {
      var wanted := ShardCache.Without(es, key) + [ShardCache.Entry(key, data.value)];
      ShardCache.TrimIsLongest(wanted, c.maxEntries, c.maxBytes, 0);
    }
  }

  lemma {:induction false} UptoBelow(v: Serving, c: Client, n: nat)
    requires c.cache == []
    ensures Below(Upto(v, c, n).0, n)
  {
    hide TelepathNodes.Fetch;
    if n > 0 {
      UptoBelow(v, c, n - 1);
      FetchOneMore(c.cache, c.maxEntries, c.maxBytes, v.cfg, v.start.pub, v.session.model, 0, n - 1, c.attempt.script);
      FetchBelow(Upto(v, c, n - 1).0, c, v.cfg, KeyOf(v, n - 1), TelepathNodes.At(c.attempt.script, n - 1));
    }
  }

  /** From an empty cache every shard is asked for, so all need room. */
  lemma {:induction false} AllNeedRoom(v: Serving, c: Client, n: nat)
    requires PullsInTime(v, c) && c.cache == [] && n <= |v.shards|
    ensures AllHaveRoom(v, c, n) <==> forall i :: 0 <= i < n ==> HasRoom(v, i)
  {
    hide HasRoom, PullsInTime;
    if n > 0 {
      AllNeedRoom(v, c, n - 1);
      FetchesEndIff(v, c, n - 1);
      UptoBelow(v, c, n - 1);
      ShardCache.FindIn(Upto(v, c, n - 1).0, KeyOf(v, n - 1));
      assert AllHaveRoom(v, c, n) <==> AllHaveRoom(v, c, n - 1) && RoomIfAsked(v, c, n - 1);
    }
  }

  lemma RunInTime(s: Server, cfg: Config, at: real, owner: PubKey, model: ModelId, shards: seq<Bytes>,
                  maxEntries: nat, maxBytes: nat, destination: string)
    requires Offers(s, cfg, owner, model, shards) && at >= 0.0
    ensures var v := Run(s, cfg, at, owner, model, shards);
      && |v.es| == |shards| + 1
      && PullsInTime(v, Puller(v, at, maxEntries, maxBytes, destination))
      && OpensInTime(v, Puller(v, at, maxEntries, maxBytes, destination))
  {
    hide HandleConnection, RequestFor, Serves, Step, Pulling;
    RunServes(s, cfg, at, owner, model, shards);
    var v := Run(s, cfg, at, owner, model, shards);
    var c := Puller(v, at, maxEntries, maxBytes, destination);
    forall i | 0 <= i < |shards| ensures ShardInTime(v, c, i) {
      RunRequests(s, cfg, at, owner, model, shards, i);
    }
    AnswerCarries(s, cfg, v.es[0], at);
  }

  /** A pull at one instant, from any new node that has the model and allows the client, into an empty cache, over a
      network that carries everything: it ends with the file in the target if and only if the node's replay table has
      more entries than the model has shards, and the accept and every shard fit into a frame. */
  lemma ColdPullEndsIff(s: Server, cfg: Config, at: real, owner: PubKey, model: ModelId, shards: seq<Bytes>,
                        maxEntries: nat, maxBytes: nat, destination: string, es1: seq<ShardCache.Entry>,
                        before: map<TelepathNodes.FilePath, Bytes>, after: map<TelepathNodes.FilePath, Bytes>,
                        r: Result<TelepathNodes.Report, Failure>)
    requires Offers(s, cfg, owner, model, shards) && at >= 0.0
    requires var v := Run(s, cfg, at, owner, model, shards);
      && |v.es| == |shards| + 1
      && var c := Puller(v, at, maxEntries, maxBytes, destination);
      TelepathNodes.Pulled(cfg, maxEntries, maxBytes, c.attempt, [], es1, before, after, r)
    ensures var v := Run(s, cfg, at, owner, model, shards);
      r.Ok? <==> && |shards| < cfg.limits.maxEntries
                 && AcceptFits(v) && forall i :: 0 <= i < |shards| ==> ReplyFits(v, i)
    ensures r.Ok? ==> var target := TelepathNodes.TargetFile(destination, model);
      target in after && after[target] == Concat(shards)
  {
    hide PullsInTime, OpensInTime, TelepathNodes.Pulled, Pulling, AllHaveRoom, HasRoom, ReplyFits, AcceptFits;
    var v := Run(s, cfg, at, owner, model, shards);
    var c := Puller(v, at, maxEntries, maxBytes, destination);
    RunInTime(s, cfg, at, owner, model, shards, maxEntries, maxBytes, destination);
    PullEndsIff(v, c, es1, before, after, r);
    AllNeedRoom(v, c, |shards|);
    forall i | 0 <= i < |shards|
      ensures HasRoom(v, i) <==> i + 1 < cfg.limits.maxEntries && ReplyFits(v, i)
    {
      RoomIff(s, cfg, at, owner, model, shards, i);
    }
    if |shards| > 0 { assert HasRoom(v, |shards| - 1) ==> |shards| < cfg.limits.maxEntries; }
  }
}
