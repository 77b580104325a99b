/** Why fetch correctness needs its proviso: a run, for any two models of a node, in which another key copies the
    nonce of a client's request and the client takes in a shard that it did not ask for. */
module NonceCopies {
  import opened Hashing
  import opened Outcomes
  import opened Protocol
  import opened Sessions
  import opened ShardCache
  import opened TelepathServer
  import opened TelepathClient
  import opened TelepathRuns
  import opened TelepathNetwork
  import opened TelepathSafety

  // ---------------------------------------------------------------- two requests that a node grants

  function At(at: real, sid: SessionId, nonce: string): Inputs { Inputs(at, at, at, at, at, sid, nonce, Intact) }

  ghost predicate AllLive(vs: seq<View>, at: real) { forall i :: 0 <= i < |vs| ==> !Expired(vs[i], at) }

  lemma {:induction false} CollectsNothing(vs: seq<View>, at: real)
    requires AllLive(vs, at)
    ensures Collect(vs, at) == vs
  {
    if vs != [] {
      CollectsNothing(vs[1..], at);
      assert vs == [vs[0]] + vs[1..];
    }
  }

  /** A signed message of the moment, with a new nonce, at a node with room in its table. */
  ghost predicate Arrives(s: Server, cfg: Config, m: Message, at: real) {
    && m.ts == Time(at) && at >= 0.0 && cfg.limits.skew >= 0.0 && |m.nonce| >= MIN_NONCE_LENGTH
    && (m.sender, m.nonce) !in s.seen && |s.seen| < cfg.limits.maxEntries
  }

  function Remember(s: Server, cfg: Config, m: Message, at: real): Server {
    s.(seen := s.seen[(m.sender, m.nonce) := at + cfg.limits.ttl])
  }

  lemma Handled(s: Server, cfg: Config, m: Message, x: Inputs, at: real)
    requires Arrives(s, cfg, m, at) && x.checkedAt == x.acceptedAt == at
    ensures var (s', p) := Dispatch(Remember(s, cfg, m, at), cfg, m, x);
      HandleConnection(s, cfg, m, true, x) == (s', if p.Some? then Sent(cfg, Reply(s, m, p.value, x)) else None)
    ensures Dispatches(s, cfg, Arrive(m, true, x))
  {
    hide Dispatch, Sent;
    assert Abs(0.0) == 0.0;
  }

  ghost predicate CanOpen(s: Server, cfg: Config, p: Payload, at: real) {
    && p.SessionOpen? && s.vault.Some? && p.model in s.vault.value && s.acl.None?
    && p.budget.Some? && p.ttl.Some? && InBounds(p.budget.value, p.ttl.value)
    && AllLive(s.registry, at) && |s.registry| < cfg.maxSessions
  }

  function Granted(m: Message, x: Inputs): View
    requires m.payload.SessionOpen? && m.payload.budget.Some? && m.payload.ttl.Some?
  {
    View(x.sid, m.sender, m.payload.model, m.payload.purpose, m.payload.budget.value, 0, x.useAt, m.payload.ttl.value)
  }

  function Accept(s: Server, sid: SessionId, model: ModelId): Payload
    requires s.vault.Some? && model in s.vault.value
  {
    var p := s.vault.value[model];
    SessionAccept(sid, model, |p.shards|, p.sizeBytes, p.merkleRoot, p.fileSha, map[])
  }

  lemma OpenGranted(s: Server, cfg: Config, m: Message, sid: SessionId, nonce: string, at: real)
    requires Arrives(s, cfg, m, at) && CanOpen(s, cfg, m.payload, at)
    ensures var x := At(at, sid, nonce);
      && Step(s, cfg, Arrive(m, true, x)) == (Remember(s, cfg, m, at).(registry := s.registry + [Granted(m, x)]),
                                              Sent(cfg, Reply(s, m, Accept(s, sid, m.payload.model), x)))
      && Opened(s, cfg, Arrive(m, true, x)) == Some(Granted(m, x))
  {
    hide HandleConnection, Sent;
    var x := At(at, sid, nonce);
    Handled(s, cfg, m, x, at);
    CollectsNothing(s.registry, at);
    assert OpenSession(Remember(s, cfg, m, at), cfg, m.sender, m.payload, x)
        == (Remember(s, cfg, m, at).(registry := s.registry + [Granted(m, x)]), Accept(s, sid, m.payload.model));
  }

  /** The first session of the registry is the sender's, live and unused, and its shard can be read. */
  ghost predicate CanServe(s: Server, m: Message, at: real) {
    && m.payload.RequestShard? && AllLive(s.registry, at)
    && s.registry != [] && s.registry[0].id == m.payload.sid && s.registry[0].peer == m.sender
    && s.registry[0].used < s.registry[0].budget
    && ReadShard(s.vault, s.registry[0].model, m.payload.index, Intact).Plain?
  }

  lemma ShardGranted(s: Server, cfg: Config, m: Message, sid: SessionId, nonce: string, at: real)
    requires Arrives(s, cfg, m, at) && CanServe(s, m, at)
    ensures var x, data := At(at, sid, nonce), ReadShard(s.vault, s.registry[0].model, m.payload.index, Intact).data;
      Step(s, cfg, Arrive(m, true, x)).1
        == Sent(cfg, Reply(s, m, ShardData(s.registry[0].model, m.payload.index, cfg.hash(data), data), x))
    ensures Opened(s, cfg, Arrive(m, true, At(at, sid, nonce))).None?
  {
    hide HandleConnection, Sent, Dispatches;
    var x := At(at, sid, nonce);
    Handled(s, cfg, m, x, at);
    CollectsNothing(s.registry, at);
    assert Lookup(s.registry, m.payload.sid) == Some(0);
  }

  // ---------------------------------------------------------------- the run

  /** A peer with two models, a client without a pull, another key, and names that nobody has used. */
  datatype Setting = Setting(peer: PubKey, client: PubKey, other: PubKey, model: ModelId, others: ModelId, index: nat,
                             task: nat, at: real, names: seq<string>)

  ghost predicate Fits(w: World, b: Bounds, c: Setting) {
    && Initial(w, b) && c.peer in w.nodes && c.client in w.nodes && c.peer != c.client && c.other !in w.nodes
    && HasModels(w.nodes[c.peer].server, c)
    && c.at >= 0.0 && b.cfg.limits.skew >= 0.0 && b.cfg.limits.maxEntries >= 3 && b.cfg.maxSessions >= 2
    && NewNames(w, c) && RepliesFit(w.nodes[c.peer].server, b.cfg, c)
  }

  ghost predicate HasModels(s: Server, c: Setting) {
    && s.seen == map[] && s.acl.None? && s.vault.Some? && c.model in s.vault.value && c.others in s.vault.value
    && s.vault.value[c.model].shards != [] && c.index < |s.vault.value[c.others].shards|
  }

  ghost predicate NewNames(w: World, c: Setting) {
    && |c.names| == 6
    && (forall i :: 0 <= i < 6 ==> |c.names[i]| >= MIN_NONCE_LENGTH && c.names[i] !in w.nonces && c.names[i] !in w.sids)
    && (forall i, j :: 0 <= i < j < 6 ==> c.names[i] != c.names[j])
  }

  function OthersOpen(c: Setting): Message
    requires |c.names| == 6
  {
    Message(c.other, c.names[0], Time(c.at), SessionOpen(c.others, "pull", Some(1), Some(1.0)), None)
  }

  function ClientsOpen(c: Setting): Message
    requires |c.names| == 6
  {
    Message(c.client, c.names[2], Time(c.at), SessionOpen(c.model, "pull", Some(1_000_000), Some(3600.0)), None)
  }

  /** The client's request for its first shard, and its copy under another key for another shard. */
  function ClientsRequest(c: Setting): Message
    requires |c.names| == 6
  {
    Message(c.client, c.names[4], Time(c.at), RequestShard(c.names[3], 0), None)
  }

  function Copy(c: Setting): Message
    requires |c.names| == 6
  {
    Message(c.other, c.names[4], Time(c.at), RequestShard(c.names[1], c.index), None)
  }

  function Inputs1(c: Setting): Inputs requires |c.names| == 6 { At(c.at, c.names[1], c.names[1]) }
  function Inputs2(c: Setting): Inputs requires |c.names| == 6 { At(c.at, c.names[3], c.names[3]) }
  function Inputs3(c: Setting): Inputs requires |c.names| == 6 { At(c.at, c.names[5], c.names[5]) }

  /** The peer after the two sessions are open. */
  function Server1(s: Server, cfg: Config, c: Setting): Server
    requires |c.names| == 6
  {
    Remember(s, cfg, OthersOpen(c), c.at).(registry := [Granted(OthersOpen(c), Inputs1(c))])
  }

  function Server2(s: Server, cfg: Config, c: Setting): Server
    requires |c.names| == 6
  {
    Remember(Server1(s, cfg, c), cfg, ClientsOpen(c), c.at).(
      registry := [Granted(OthersOpen(c), Inputs1(c)), Granted(ClientsOpen(c), Inputs2(c))])
  }

  // The three replies of the peer.

  function Reply1(s: Server, c: Setting): Message
    requires |c.names| == 6 && HasModels(s, c)
  {
    Reply(s, OthersOpen(c), Accept(s, c.names[1], c.others), Inputs1(c))
  }

  function Reply2(s: Server, c: Setting): Message
    requires |c.names| == 6 && HasModels(s, c)
  {
    Reply(s, ClientsOpen(c), Accept(s, c.names[3], c.model), Inputs2(c))
  }

  function Reply3(s: Server, cfg: Config, c: Setting): Message
    requires |c.names| == 6 && HasModels(s, c)
  {
    Reply(s, Copy(c), ShardData(c.others, c.index, cfg.hash(Stolen(s, c)), Stolen(s, c)), Inputs3(c))
  }

  ghost predicate RepliesFit(s: Server, cfg: Config, c: Setting)
    requires |c.names| == 6 && HasModels(s, c)
  {
    Sendable(cfg, Reply1(s, c)) && Sendable(cfg, Reply2(s, c)) && Sendable(cfg, Reply3(s, cfg, c))
  }

  lemma FirstOpen(s: Server, cfg: Config, c: Setting)
    requires |c.names| == 6 && |c.names[0]| >= MIN_NONCE_LENGTH && HasModels(s, c) && s.registry == []
    requires c.at >= 0.0 && cfg.limits.skew >= 0.0 && cfg.limits.maxEntries >= 3 && cfg.maxSessions >= 2
    requires Sendable(cfg, Reply1(s, c))
    ensures Step(s, cfg, Arrive(OthersOpen(c), true, Inputs1(c)))
         == (Server1(s, cfg, c), Some(Reply(s, OthersOpen(c), Accept(s, c.names[1], c.others), Inputs1(c))))
    ensures Opened(s, cfg, Arrive(OthersOpen(c), true, Inputs1(c))) == Some(Granted(OthersOpen(c), Inputs1(c)))
  {
    hide Step, Opened, Sendable;
    OpenGranted(s, cfg, OthersOpen(c), c.names[1], c.names[1], c.at);
    assert [] + [Granted(OthersOpen(c), Inputs1(c))] == [Granted(OthersOpen(c), Inputs1(c))];
  }

  lemma SecondOpen(s: Server, cfg: Config, c: Setting)
    requires |c.names| == 6 && |c.names[2]| >= MIN_NONCE_LENGTH && HasModels(s, c) && c.other != c.client
    requires c.at >= 0.0 && cfg.limits.skew >= 0.0 && cfg.limits.maxEntries >= 3 && cfg.maxSessions >= 2
    requires Sendable(cfg, Reply2(s, c))
    ensures Step(Server1(s, cfg, c), cfg, Arrive(ClientsOpen(c), true, Inputs2(c)))
         == (Server2(s, cfg, c), Some(Reply(s, ClientsOpen(c), Accept(s, c.names[3], c.model), Inputs2(c))))
    ensures Opened(Server1(s, cfg, c), cfg,
                   Arrive(ClientsOpen(c), true, Inputs2(c))) == Some(Granted(ClientsOpen(c), Inputs2(c)))
  {
    hide Step, Opened, Sendable;
    var s1 := Server1(s, cfg, c);
    OpenGranted(s1, cfg, ClientsOpen(c), c.names[3], c.names[3], c.at);
    assert s1.registry + [Granted(ClientsOpen(c), Inputs2(c))]
        == [Granted(OthersOpen(c), Inputs1(c)), Granted(ClientsOpen(c), Inputs2(c))];
  }

  function Stolen(s: Server, c: Setting): Bytes
    requires s.vault.Some? && c.others in s.vault.value && c.index < |s.vault.value[c.others].shards|
  {
    s.vault.value[c.others].shards[c.index]
  }

  lemma CopyServed(s: Server, cfg: Config, c: Setting)
    requires |c.names| == 6 && |c.names[4]| >= MIN_NONCE_LENGTH && HasModels(s, c) && c.other != c.client
    requires c.names[4] != c.names[0]
    requires c.at >= 0.0 && cfg.limits.skew >= 0.0 && cfg.limits.maxEntries >= 3
    requires Sendable(cfg, Reply3(s, cfg, c))
    ensures Step(Server2(s, cfg, c), cfg, Arrive(Copy(c), true, Inputs3(c))).1
         == Some(Reply(s, Copy(c), ShardData(c.others, c.index, cfg.hash(Stolen(s, c)), Stolen(s, c)), Inputs3(c)))
    ensures Opened(Server2(s, cfg, c), cfg, Arrive(Copy(c), true, Inputs3(c))).None?
  {
    hide Step, Opened, Sendable;
    var s2 := Server2(s, cfg, c);
    var until := c.at + cfg.limits.ttl;
    assert s2.seen == map[(c.other, c.names[0]) := until][(c.client, c.names[2]) := until];
    ShardGranted(s2, cfg, Copy(c), c.names[5], c.names[5], c.at);
  }

  /** What matters of a world on the way: the peer's serving state, the client's pull, and the names in use. */
  ghost predicate On(w0: World, w: World, c: Setting, server: Server, pulls: map<nat, Pull>, nonces: set<string>,
                     sids: set<SessionId>) {
    && w.nodes.Keys == w0.nodes.Keys && c.peer in w.nodes && c.client in w.nodes && c.peer != c.client
    && w.nodes[c.peer].server == server
    && w.nodes[c.client].cache == [] && w.nodes[c.client].pulls == pulls
    && w.nonces == w0.nonces + nonces && w.sids == w0.sids + sids
  }

  lemma ForeignOn(w0: World, w: World, b: Bounds, c: Setting, server: Server, pulls: map<nat, Pull>,
                  nonces: set<string>, sids: set<SessionId>, m: Message)
    requires On(w0, w, c, server, pulls, nonces, sids) && m.sender !in w0.nodes
    ensures Enabled(w, b, Foreign(m))
    ensures var w' := Next(w, b, Foreign(m));
      On(w0, w', c, server, pulls, nonces + {m.nonce}, sids) && w'.signed == w.signed + {m}
  {
    var w' := Next(w, b, Foreign(m));
    assert w'.nonces == w0.nonces + (nonces + {m.nonce});
  }

  lemma DeliverOn(w0: World, w: World, b: Bounds, c: Setting, server: Server, pulls: map<nat, Pull>,
                  nonces: set<string>, sids: set<SessionId>, m: Message, x: Inputs, server': Server, r: Message)
    requires On(w0, w, c, server, pulls, nonces, sids) && m in w.signed
    requires x.replyNonce !in w0.nonces + nonces && x.sid !in w0.sids + sids && r.nonce == x.replyNonce
    requires Step(server, b.cfg, Arrive(m, true, x)) == (server', Some(r))
    ensures Enabled(w, b, Deliver(c.peer, m, x))
    ensures var w' := Next(w, b, Deliver(c.peer, m, x));
      On(w0, w', c, server', pulls, nonces + {r.nonce}, sids + {x.sid}) && w'.signed == w.signed + {r}
  {
    hide Step, Opened;
    var w' := Next(w, b, Deliver(c.peer, m, x));
    assert w'.nonces == w0.nonces + (nonces + {r.nonce}) && w'.sids == w0.sids + (sids + {x.sid});
  }

  lemma Snoc(w: World, b: Bounds, actions: seq<Action>, w1: World, a: Action)
    requires Reaches(w, b, actions, w1) && Enabled(w1, b, a)
    ensures Reaches(w, b, actions + [a], Next(w1, b, a))
    decreases |actions|
  {
    hide Enabled, Next;
    if actions == [] {
      assert actions + [a] == [a] && [a][1..] == [];
    } else {
      assert (actions + [a])[0] == actions[0] && (actions + [a])[1..] == actions[1..] + [a];
      Snoc(Next(w, b, actions[0]), b, actions[1..], w1, a);
    }
  }

  function Fetched(s: Server, c: Setting, got: seq<Bytes>, awaiting: Option<string>): Pull
    requires |c.names| == 6 && s.vault.Some? && c.model in s.vault.value
  {
    var p := s.vault.value[c.model];
    Fetching(c.peer, c.model, c.names[3], |p.shards|, p.sizeBytes, p.fileSha, got, awaiting)
  }

  /** The other key opens a session for its model. */
  lemma OtherOpens(w0: World, b: Bounds, c: Setting) returns (w: World)
    requires Fits(w0, b, c)
    ensures Reaches(w0, b, [Foreign(OthersOpen(c)), Deliver(c.peer, OthersOpen(c), Inputs1(c))], w)
    ensures On(w0, w, c, Server1(w0.nodes[c.peer].server, b.cfg, c), map[], {c.names[0], c.names[1]}, {c.names[1]})
    ensures w.signed == {OthersOpen(c), Reply1(w0.nodes[c.peer].server, c)}
  {
    hide Step, Opened, Server1, Enabled, Next;
    var s := w0.nodes[c.peer].server;
    assert w0.nonces == w0.nonces + {} && w0.sids == w0.sids + {};
    assert On(w0, w0, c, s, map[], {}, {});
    FirstOpen(s, b.cfg, c);
    ForeignOn(w0, w0, b, c, s, map[], {}, {}, OthersOpen(c));
    var w1 := Next(w0, b, Foreign(OthersOpen(c)));
    DeliverOn(w0, w1, b, c, s, map[], {} + {c.names[0]}, {}, OthersOpen(c), Inputs1(c), Server1(s, b.cfg, c),
              Reply1(s, c));
    w := Next(w1, b, Deliver(c.peer, OthersOpen(c), Inputs1(c)));
    Snoc(w0, b, [], w0, Foreign(OthersOpen(c)));
    Snoc(w0, b, [] + [Foreign(OthersOpen(c))], w1, Deliver(c.peer, OthersOpen(c), Inputs1(c)));
    assert [] + [Foreign(OthersOpen(c))] + [Deliver(c.peer, OthersOpen(c), Inputs1(c))]
        == [Foreign(OthersOpen(c)), Deliver(c.peer, OthersOpen(c), Inputs1(c))];
    assert {} + {c.names[0]} + {c.names[1]} == {c.names[0], c.names[1]} && {} + {c.names[1]} == {c.names[1]};
  }

  lemma StartOn(w0: World, w: World, b: Bounds, c: Setting, server: Server, nonces: set<string>, sids: set<SessionId>)
    requires |c.names| == 6 && On(w0, w, c, server, map[], nonces, sids) && c.names[2] !in w0.nonces + nonces
    ensures Enabled(w, b, StartPull(c.client, c.task, c.peer, c.model, c.names[2], c.at))
    ensures var w' := Next(w, b, StartPull(c.client, c.task, c.peer, c.model, c.names[2], c.at));
      && On(w0, w', c, server, map[c.task := Opening(c.peer, c.model, c.names[2])], nonces + {c.names[2]}, sids)
      && w'.signed == w.signed + {ClientsOpen(c)}
  {
    var w' := Next(w, b, StartPull(c.client, c.task, c.peer, c.model, c.names[2], c.at));
    assert w'.nonces == w0.nonces + (nonces + {c.names[2]});
  }

  lemma AcceptOn(w0: World, w: World, b: Bounds, c: Setting, server: Server, s: Server, nonces: set<string>,
                 sids: set<SessionId>)
    requires |c.names| == 6 && HasModels(s, c) && s.pub == c.peer && |c.names[3]| >= MIN_NONCE_LENGTH
    requires b.cfg.limits.skew >= 0.0
    requires On(w0, w, c, server, map[c.task := Opening(c.peer, c.model, c.names[2])], nonces, sids)
    requires Reply2(s, c) in w.signed
    ensures Enabled(w, b, GetAccept(c.client, c.task, Reply2(s, c), c.at))
    ensures var w' := Next(w, b, GetAccept(c.client, c.task, Reply2(s, c), c.at));
      On(w0, w', c, server, map[c.task := Fetched(s, c, [], None)], nonces, sids) && w'.signed == w.signed
  {
    assert Abs(0.0) == 0.0;
    var r := Reply2(s, c);
    assert CheckReply(Received(r, true, c.at), c.peer, c.names[2], b.cfg.limits.skew) == Ok(r.payload);
    assert map[c.task := Opening(c.peer, c.model, c.names[2])][c.task := Fetched(s, c, [], None)]
        == map[c.task := Fetched(s, c, [], None)];
  }

  lemma AskOn(w0: World, w: World, b: Bounds, c: Setting, server: Server, s: Server, nonces: set<string>,
              sids: set<SessionId>)
    requires |c.names| == 6 && HasModels(s, c) && c.names[4] !in w0.nonces + nonces
    requires On(w0, w, c, server, map[c.task := Fetched(s, c, [], None)], nonces, sids)
    ensures Enabled(w, b, AskShard(c.client, c.task, c.names[4], c.at))
    ensures var w' := Next(w, b, AskShard(c.client, c.task, c.names[4], c.at));
      && On(w0, w', c, server, map[c.task := Fetched(s, c, [], Some(c.names[4]))], nonces + {c.names[4]}, sids)
      && w'.signed == w.signed + {ClientsRequest(c)}
  {
    var w' := Next(w, b, AskShard(c.client, c.task, c.names[4], c.at));
    assert w'.nonces == w0.nonces + (nonces + {c.names[4]});
    assert map[c.task := Fetched(s, c, [], None)][c.task := Fetched(s, c, [], Some(c.names[4]))]
        == map[c.task := Fetched(s, c, [], Some(c.names[4]))];
  }

  /** The client opens its session and asks for its first shard. */
  function ClientActions(s: Server, c: Setting): seq<Action>
    requires |c.names| == 6 && HasModels(s, c)
  {
    [StartPull(c.client, c.task, c.peer, c.model, c.names[2], c.at)] + [Deliver(c.peer, ClientsOpen(c), Inputs2(c))]
    + [GetAccept(c.client, c.task, Reply2(s, c), c.at)] + [AskShard(c.client, c.task, c.names[4], c.at)]
  }

  lemma ClientAsks(w0: World, w: World, b: Bounds, c: Setting) returns (w': World)
    requires Fits(w0, b, c)
    requires On(w0, w, c, Server1(w0.nodes[c.peer].server, b.cfg, c), map[], {c.names[0], c.names[1]}, {c.names[1]})
    ensures Reaches(w, b, ClientActions(w0.nodes[c.peer].server, c), w') && Waits(w0, b, c, w')
  {
    hide Step, Opened, Server1, Server2, On, Next, Enabled, Initial, HasModels;
    var s, n := w0.nodes[c.peer].server, c.names;
    assert HasModels(s, c) && s.pub == c.peer by { SettingServer(w0, b, c); }
    var server1, server2 := Server1(s, b.cfg, c), Server2(s, b.cfg, c);
    StartOn(w0, w, b, c, server1, {n[0], n[1]}, {n[1]});
    var a1 := StartPull(c.client, c.task, c.peer, c.model, n[2], c.at);
    var w1 := Next(w, b, a1);
    Snoc(w, b, [], w, a1);
    assert [] + [a1] == [a1];
    SecondOpen(s, b.cfg, c);
    var pulls := map[c.task := Opening(c.peer, c.model, n[2])];
    DeliverOn(w0, w1, b, c, server1, pulls, {n[0], n[1]} + {n[2]}, {n[1]}, ClientsOpen(c), Inputs2(c), server2,
              Reply2(s, c));
    var a2 := Deliver(c.peer, ClientsOpen(c), Inputs2(c));
    var w2 := Next(w1, b, a2);
    Snoc(w, b, [a1], w1, a2);
    AcceptOn(w0, w2, b, c, server2, s, {n[0], n[1]} + {n[2]} + {n[3]}, {n[1]} + {n[3]});
    var a3 := GetAccept(c.client, c.task, Reply2(s, c), c.at);
    var w3 := Next(w2, b, a3);
    Snoc(w, b, [a1] + [a2], w2, a3);
    AskOn(w0, w3, b, c, server2, s, {n[0], n[1]} + {n[2]} + {n[3]}, {n[1]} + {n[3]});
    var a4 := AskShard(c.client, c.task, n[4], c.at);
    w' := Next(w3, b, a4);
    Snoc(w, b, [a1] + [a2] + [a3], w3, a4);
    assert {n[0], n[1]} + {n[2]} + {n[3]} + {n[4]} == {n[0], n[1], n[2], n[3], n[4]} && {n[1]} + {n[3]} == {n[1], n[3]};
  }

  lemma SettingServer(w: World, b: Bounds, c: Setting)
    requires Fits(w, b, c)
    ensures HasModels(w.nodes[c.peer].server, c) && w.nodes[c.peer].server.pub == c.peer
    ensures w.nodes[c.peer].server.registry == [] && c.other != c.client
    ensures var v := w.nodes[c.peer].server.vault;
      v.Some? && c.model in v.value && c.others in v.value && c.index < |v.value[c.others].shards|
  {
  }

  lemma GetOn(w0: World, w: World, b: Bounds, c: Setting, server: Server, s: Server, nonces: set<string>,
              sids: set<SessionId>)
    requires |c.names| == 6 && HasModels(s, c) && s.pub == c.peer && |c.names[5]| >= MIN_NONCE_LENGTH
    requires b.cfg.limits.skew >= 0.0
    requires On(w0, w, c, server, map[c.task := Fetched(s, c, [], Some(c.names[4]))], nonces, sids)
    requires Reply3(s, b.cfg, c) in w.signed
    ensures Enabled(w, b, GetShard(c.client, c.task, Reply3(s, b.cfg, c), c.at))
    ensures var w' := Next(w, b, GetShard(c.client, c.task, Reply3(s, b.cfg, c), c.at));
      && c.client in w'.nodes && c.peer in w'.nodes && w'.nodes[c.peer].server == server
      && w'.nodes[c.client].pulls == map[c.task := Fetched(s, c, [Stolen(s, c)], None)]
      && w'.nodes[c.client].cache == PutStep([], b.maxEntries, b.maxBytes, Key(c.peer, c.model, 0), Stolen(s, c))
      && w'.signed == w.signed
  {
    assert Abs(0.0) == 0.0;
    var r := Reply3(s, b.cfg, c);
    assert ReceiveShard(b.cfg.hash, Received(r, true, c.at), c.peer, c.names[4], b.cfg.limits.skew) == Ok(Stolen(s, c));
    assert [] + [Stolen(s, c)] == [Stolen(s, c)];
    assert map[c.task := Fetched(s, c, [], Some(c.names[4]))][c.task := Fetched(s, c, [Stolen(s, c)], None)]
        == map[c.task := Fetched(s, c, [Stolen(s, c)], None)];
  }

  function CopyActions(s: Server, cfg: Config, c: Setting): seq<Action>
    requires |c.names| == 6 && HasModels(s, c)
  {
    [Foreign(Copy(c))] + [Deliver(c.peer, Copy(c), Inputs3(c))] + [GetShard(c.client, c.task, Reply3(s, cfg, c), c.at)]
  }

  /** The client has taken in the other model's shard as its first one, and cached it as such. */
  ghost predicate Taken(w0: World, b: Bounds, c: Setting, w: World)
    requires c.peer in w0.nodes && |c.names| == 6 && HasModels(w0.nodes[c.peer].server, c)
  {
    var s := w0.nodes[c.peer].server;
    && c.client in w.nodes && c.peer in w.nodes && w.nodes[c.peer].server.vault == s.vault
    && w.nodes[c.client].pulls == map[c.task := Fetched(s, c, [Stolen(s, c)], None)]
    && w.nodes[c.client].cache == PutStep([], b.maxEntries, b.maxBytes, Key(c.peer, c.model, 0), Stolen(s, c))
  }

  /** The client awaits its first shard, and both sessions are open. */
  ghost predicate Waits(w0: World, b: Bounds, c: Setting, w: World)
    requires c.peer in w0.nodes && |c.names| == 6 && HasModels(w0.nodes[c.peer].server, c)
  {
    var s := w0.nodes[c.peer].server;
    On(w0, w, c, Server2(s, b.cfg, c), map[c.task := Fetched(s, c, [], Some(c.names[4]))],
       {c.names[0], c.names[1], c.names[2], c.names[3], c.names[4]}, {c.names[1], c.names[3]})
  }

  lemma CopyTaken(w0: World, w: World, b: Bounds, c: Setting) returns (w': World)
    requires Fits(w0, b, c) && Waits(w0, b, c, w)
    ensures Reaches(w, b, CopyActions(w0.nodes[c.peer].server, b.cfg, c), w') && Taken(w0, b, c, w')
  {
    hide Step, Opened, Server2, On, Next, Enabled, Initial, HasModels;
    var s, n := w0.nodes[c.peer].server, c.names;
    SettingServer(w0, b, c);
    assert Server2(s, b.cfg, c).vault == s.vault by { SecondVault(s, b.cfg, c); }
    var server2, pulls := Server2(s, b.cfg, c), map[c.task := Fetched(s, c, [], Some(n[4]))];
    var nonces, sids := {n[0], n[1], n[2], n[3], n[4]}, {n[1], n[3]};
    ForeignOn(w0, w, b, c, server2, pulls, nonces, sids, Copy(c));
    var a1, a2 := Foreign(Copy(c)), Deliver(c.peer, Copy(c), Inputs3(c));
    var w1 := Next(w, b, a1);
    Snoc(w, b, [], w, a1);
    assert [] + [a1] == [a1];
    CopyServed(s, b.cfg, c);
    var server3 := Step(server2, b.cfg, Arrive(Copy(c), true, Inputs3(c))).0;
    DeliverOn(w0, w1, b, c, server2, pulls, nonces + {n[4]}, sids, Copy(c), Inputs3(c), server3, Reply3(s, b.cfg, c));
    var w2 := Next(w1, b, a2);
    Snoc(w, b, [a1], w1, a2);
    GetOn(w0, w2, b, c, server3, s, nonces + {n[4]} + {n[5]}, sids + {n[5]});
    var a3 := GetShard(c.client, c.task, Reply3(s, b.cfg, c), c.at);
    w' := Next(w2, b, a3);
    Snoc(w, b, [a1] + [a2], w2, a3);
    VaultKept(server2, b.cfg, Arrive(Copy(c), true, Inputs3(c)));
  }

  lemma VaultKept(s: Server, cfg: Config, e: Event)
    requires e.Arrive?
    ensures Step(s, cfg, e).0.vault == s.vault
  {
  }

  lemma SecondVault(s: Server, cfg: Config, c: Setting)
    requires |c.names| == 6
    ensures Server2(s, cfg, c).vault == s.vault
  {
  }

  lemma {:induction false} ReachesJoin(w: World, b: Bounds, actions: seq<Action>, w1: World, more: seq<Action>,
                                       w2: World)
    requires Reaches(w, b, actions, w1) && Reaches(w1, b, more, w2)
    ensures Reaches(w, b, actions + more, w2)
    decreases |actions|
  {
    hide Enabled, Next;
    if actions == [] {
      assert actions + more == more;
    } else {
      assert (actions + more)[0] == actions[0] && (actions + more)[1..] == actions[1..] + more;
      ReachesJoin(Next(w, b, actions[0]), b, actions[1..], w1, more, w2);
    }
  }

  /** The client holds the other model's shard as shard 0 of the one it asked for, in its pull and, if it fits, in
      its cache; the peer stores no such shard there, unless the two are equal. */
  ghost predicate Misled(w0: World, b: Bounds, c: Setting, w: World)
    requires c.peer in w0.nodes && |c.names| == 6 && HasModels(w0.nodes[c.peer].server, c)
  {
    var s := w0.nodes[c.peer].server;
    && c.client in w.nodes && c.peer in w.nodes && c.task in w.nodes[c.client].pulls
    && w.nodes[c.client].pulls[c.task] == Fetched(s, c, [Stolen(s, c)], None)
    && (b.maxEntries >= 1 && |Stolen(s, c)| <= b.maxBytes ==>
          Find(w.nodes[c.client].cache, Key(c.peer, c.model, 0)) == Some(Stolen(s, c)))
    && (Stolen(s, c) != s.vault.value[c.model].shards[0] ==> !Stores(w, c.peer, c.model, 0, Stolen(s, c)))
  }

  /** Fetch correctness fails once a nonce is copied. For every setting of a peer with two models, a client, and
      another key that the peer serves: there is a run in which the client has taken in, as shard 0 of the model it
      asked for, whatever shard of the other model the other key asked for with the client's nonce. It is in the
      client's pull and, if it fits, in its cache. */
  lemma CopiedNonceMisleads(w0: World, b: Bounds, c: Setting) returns (actions: seq<Action>, w: World)
    requires Fits(w0, b, c)
    ensures Reaches(w0, b, actions, w) && Misled(w0, b, c, w)
  {
    hide On, Next, Enabled, Server1, Server2, Initial;
    var s := w0.nodes[c.peer].server;
    SettingServer(w0, b, c);
    var w1 := OtherOpens(w0, b, c);
    var w2 := ClientAsks(w0, w1, b, c);
    w := CopyTaken(w0, w2, b, c);
    var first := [Foreign(OthersOpen(c)), Deliver(c.peer, OthersOpen(c), Inputs1(c))];
    ReachesJoin(w0, b, first, w1, ClientActions(s, c), w2);
    ReachesJoin(w0, b, first + ClientActions(s, c), w2, CopyActions(s, b.cfg, c), w);
    actions := first + ClientActions(s, c) + CopyActions(s, b.cfg, c);
    if b.maxEntries >= 1 && |Stolen(s, c)| <= b.maxBytes { OnlyEntry(b, c.peer, c.model, Stolen(s, c)); }
  }

  lemma OnlyEntry(b: Bounds, peer: PubKey, model: ModelId, data: Bytes)
    requires b.maxEntries >= 1 && |data| <= b.maxBytes
    ensures var key := Key(peer, model, 0); Find(PutStep([], b.maxEntries, b.maxBytes, key, data), key) == Some(data)
  {
    var key := Key(peer, model, 0);
    assert Without([], key) + [Entry(key, data)] == [Entry(key, data)];
    assert Size([Entry(key, data)]) == |data|;
  }
}
