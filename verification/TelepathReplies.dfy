/** What a serving node answers, kind by kind, in terms of the request and of the node's state. */
module TelepathReplies {
  import opened Outcomes
  import opened Protocol
  import opened Sessions
  import opened AccessList
  import opened TelepathServer
  import opened TelepathRuns
  import Base64

  /** The length of a message's body: with a shard, four symbols for every three bytes of it. */
  function Length(cfg: Config, m: Message): nat {
    if m.payload.ShardData?
    then 2 + cfg.envelope(m.(payload := m.payload.(data := []))) + 4 * ((|m.payload.data| + 2) / 3)
    else 2 + cfg.envelope(m)
  }

  lemma LengthIs(cfg: Config, m: Message)
    ensures BodySize(cfg, m) == Length(cfg, m)
  {
    hide Base64.Encode;
    if m.payload.ShardData? { Base64.EncodedLength(m.payload.data); }
  }

  lemma LengthIsAlways(cfg: Config)
    ensures forall m :: BodySize(cfg, m) == Length(cfg, m)
  {
    hide BodySize, Length;
    forall m ensures BodySize(cfg, m) == Length(cfg, m) { LengthIs(cfg, m); }
  }

  /** The reply to `e` is `p`, signed by the node and bound to the request, if it fits into a frame of 4 MiB. */
  ghost predicate Answers(s: Server, cfg: Config, e: Event, p: Payload)
    requires e.Arrive?
  {
    var r := Message(s.pub, e.x.replyNonce, Time(e.x.sentAt), p, Some(e.message.nonce));
    Step(s, cfg, e).1 == if Length(cfg, r) <= 4 * 1024 * 1024 then Some(r) else None
  }

  /** None of the four kinds that a node serves. */
  predicate OtherKind(p: Payload) { !p.Hello? && !p.SessionOpen? && !p.RequestShard? && !p.RamBroadcast? }

  /** A message that is turned away: the reply names the first check that it fails. */
  lemma TurnedAway(s: Server, cfg: Config, e: Event)
    requires e.Arrive? && !Dispatches(s, cfg, e)
    ensures var m, skew := e.message, cfg.limits.skew;
      && (OutOfWindow(e.x.checkedAt, m.ts, skew) ==> Answers(s, cfg, e, Error(BadWindow)))
      && (!OutOfWindow(e.x.checkedAt, m.ts, skew) && |m.nonce| < 16 ==> Answers(s, cfg, e, Error(BadNonce)))
      && (!OutOfWindow(e.x.checkedAt, m.ts, skew) && |m.nonce| >= 16 && !e.signed ==>
            Answers(s, cfg, e, Error(BadSignature)))
      && (!OutOfWindow(e.x.checkedAt, m.ts, skew) && |m.nonce| >= 16 && e.signed ==>
            Answers(s, cfg, e, Error(Replayed)))
  {
    hide BodySize, Length;
    LengthIsAlways(cfg);
  }

  /** A dispatched message of one of the simple kinds. */
  lemma SimpleKinds(s: Server, cfg: Config, e: Event)
    requires Dispatches(s, cfg, e)
    ensures e.message.payload.Hello? ==> Answers(s, cfg, e, Hello)
    ensures e.message.payload.RamBroadcast? ==> Answers(s, cfg, e, Ack(e.message.payload.key))
    ensures OtherKind(e.message.payload) ==> Answers(s, cfg, e, Error(Unsupported))
  {
    hide BodySize, Length;
    LengthIsAlways(cfg);
  }

  /** Over every connection of every run: an accepted message is answered with HELLO exactly when it is one, with an
      ACK exactly when it is a RAM_BROADCAST, of the same key, and with an unsupported-message error exactly when it is
      of none of the four kinds. No other error answers an accepted message. */
  lemma AnsweredInKind(s: Server, cfg: Config, es: seq<Event>, i: nat)
    requires i < |es| && Dispatches(After(s, cfg, es[..i]), cfg, es[i]) && ReplyAt(s, cfg, es, i).Some?
    ensures var p, r := es[i].message.payload, ReplyAt(s, cfg, es, i).value;
      && r.sender == s.pub && r.requestNonce == Some(es[i].message.nonce)
      && (r.payload.Hello? <==> p.Hello?)
      && (r.payload.Ack? <==> p.RamBroadcast?) && (p.RamBroadcast? ==> r.payload.key == p.key)
      && (r.payload == Error(Unsupported) <==> OtherKind(p)) && (r.payload.Error? ==> OtherKind(p))
      && (r.payload.SessionAccept? || r.payload.SessionDeny? <==> p.SessionOpen?)
      && (r.payload.ShardData? || r.payload.ShardDeny? <==> p.RequestShard?)
  {
    hide BodySize, OpenStep, UseStep, After;
    PubOfRun(s, cfg, es[..i]);
  }

  lemma {:induction false} PubOfRun(s: Server, cfg: Config, es: seq<Event>)
    ensures After(s, cfg, es).pub == s.pub
  {
    if es != [] {
      PubOfRun(s, cfg, es[..|es| - 1]);
      PubOfStep(After(s, cfg, es[..|es| - 1]), cfg, es[|es| - 1]);
    }
  }

  lemma PubOfStep(s: Server, cfg: Config, e: Event)
    ensures Step(s, cfg, e).0.pub == s.pub
  {
  }

  /** The owner's own steps: new rules if there is an allowlist, a manifest in the place of that model's, and nothing
      else. */
  lemma OwnerSteps(s: Server, cfg: Config, rules: Rules, model: ModelId, p: Published)
    ensures Step(s, cfg, SetRules(rules)).1 == None && Step(s, cfg, Event.Publish(model, p)).1 == None
    ensures var t := Step(s, cfg, SetRules(rules)).0;
      t.acl.Some? == s.acl.Some? && (t.acl.Some? ==> t.acl.value == rules) && t == s.(acl := t.acl)
    ensures var t := Step(s, cfg, Event.Publish(model, p)).0;
      && t.vault.Some? == s.vault.Some? && t == s.(vault := t.vault)
      && (s.vault.Some? ==>
            && model in t.vault.value && t.vault.value[model] == p
            && forall other :: other != model ==>
                 && (other in t.vault.value <==> other in s.vault.value)
                 && (other in s.vault.value ==> t.vault.value[other] == s.vault.value[other]))
  {
  }

  // ---------------------------------------------------------------- a request for a session

  /** What a request asks for: without a budget the number of shards, without a lifetime 600 seconds. */
  predicate AsksFor(shards: nat, p: Payload, budget: int, ttl: real)
    requires p.SessionOpen?
  {
    && (p.budget.Some? ==> budget == p.budget.value) && (p.budget.None? ==> budget == shards)
    && (p.ttl.Some? ==> ttl == p.ttl.value) && (p.ttl.None? ==> ttl == 600.0)
  }

  /** The allowlist keeps the key from the model. */
  ghost predicate Denied(s: Server, model: ModelId, key: PubKey) {
    s.acl.Some? && !("*" in s.acl.value && key in s.acl.value["*"])
    && !(model in s.acl.value && key in s.acl.value[model])
  }

  /** A live session at that moment. */
  predicate LiveAt(v: View, now: real) { now <= v.openedAt + v.ttl }

  predicate NobodyLeft(vs: seq<View>, now: real) { forall v :: v in vs ==> !LiveAt(v, now) }

  /** The budget and the lifetime that the registry takes. */
  predicate Acceptable(budget: int, ttl: real) { 1 <= budget <= 1_000_000 && 1.0 <= ttl <= 86_400.0 }

  /** A dispatched request for a session: denied for the first reason that holds, else granted on its terms. */
  lemma SessionAnswer(s: Server, cfg: Config, e: Event, budget: int, ttl: real)
    requires Dispatches(s, cfg, e) && e.message.payload.SessionOpen?
    requires s.vault.Some? && e.message.payload.model in s.vault.value ==>
      AsksFor(|s.vault.value[e.message.payload.model].shards|, e.message.payload, budget, ttl)
    ensures var model := e.message.payload.model;
      if s.vault.None? then Answers(s, cfg, e, SessionDeny(model, NoVault))
      else if model !in s.vault.value then Answers(s, cfg, e, SessionDeny(model, NotFound))
      else if Denied(s, model, e.message.sender) then Answers(s, cfg, e, SessionDeny(model, AclDenied))
      else if !Acceptable(budget, ttl) || (cfg.maxSessions == 0 && NobodyLeft(s.registry, e.x.gcAt))
      then Answers(s, cfg, e, SessionDeny(model, OutOfBounds))
      else
        var p := s.vault.value[model];
        && Answers(s, cfg, e, SessionAccept(e.x.sid, model, |p.shards|, p.sizeBytes, p.merkleRoot, p.fileSha, map[]))
        && View(e.x.sid, e.message.sender, model, e.message.payload.purpose, budget, 0, e.x.useAt, ttl)
             in Step(s, cfg, e).0.registry
  {
    hide BodySize, Length, Collect, Oldest, DropAt;
    LengthIsAlways(cfg);
    NothingCollected(s.registry, e.x.gcAt);
  }

  lemma {:induction false} NothingCollected(vs: seq<View>, now: real)
    ensures Collect(vs, now) == [] <==> NobodyLeft(vs, now)
  {
    CollectMembers(vs, now);
    if v :| v in vs && LiveAt(v, now) { assert v in Collect(vs, now); }
    if Collect(vs, now) != [] { assert Collect(vs, now)[0] in Collect(vs, now); }
  }

  // ---------------------------------------------------------------- a request for a shard

  /** A session of the sender with that id that is live at both clock readings and has budget left. */
  ghost predicate Entitled(s: Server, e: Event, v: View)
    requires e.Arrive? && e.message.payload.RequestShard?
  {
    && v in s.registry && v.id == e.message.payload.sid && v.peer == e.message.sender
    && LiveAt(v, e.x.gcAt) && LiveAt(v, e.x.useAt) && v.used < v.budget
  }

  /** A dispatched request for a shard: without such a session it is an invalid session. With one, an index outside
      the manifest or an unreadable shard is unavailable, a shard that cannot be decrypted or a model that is gone
      closes the connection, and anything else is the shard with its digest. */
  lemma ShardAnswer(s: Server, cfg: Config, e: Event)
    requires Dispatches(s, cfg, e) && e.message.payload.RequestShard? && DistinctIds(s.registry)
    ensures (forall v :: !Entitled(s, e, v)) ==>
      Answers(s, cfg, e, ShardDeny(e.message.payload.index, InvalidSession))
    ensures forall v :: Entitled(s, e, v) ==>
      var index := e.message.payload.index;
      if s.vault.None? || v.model !in s.vault.value then Step(s, cfg, e).1 == None
      else
        var shards := s.vault.value[v.model].shards;
        if !(0 <= index < |shards|) || e.x.disk == Unreadable
        then Answers(s, cfg, e, ShardDeny(index, ShardUnavailable))
        else if e.x.disk == Undecryptable then Step(s, cfg, e).1 == None
        else Answers(s, cfg, e, ShardData(v.model, index, cfg.hash(shards[index]), shards[index]))
  {
    hide BodySize, Length, Collect, Lookup;
    LengthIsAlways(cfg);
    CollectMembers(s.registry, e.x.gcAt);
    CollectDistinct(s.registry, e.x.gcAt);
    LookupFinds(Collect(s.registry, e.x.gcAt), e.message.payload.sid);
    UsedIsEntitled(s, e);
  }

  /** The session that the request is charged to is the one that entitles its sender. */
  lemma UsedIsEntitled(s: Server, e: Event)
    requires e.Arrive? && e.message.payload.RequestShard? && DistinctIds(s.registry)
    ensures var u := UseStep(s.registry, e.message.payload.sid, e.message.sender, e.x.gcAt, e.x.useAt).1;
      && (u.Some? ==> Entitled(s, e, u.value))
      && forall v :: Entitled(s, e, v) ==> u == Some(v)
  {
    hide Collect, Lookup;
    var kept := Collect(s.registry, e.x.gcAt);
    CollectMembers(s.registry, e.x.gcAt);
    CollectDistinct(s.registry, e.x.gcAt);
    LookupFinds(kept, e.message.payload.sid);
    var k := Lookup(kept, e.message.payload.sid);
    if k.Some? { assert kept[k.value] in kept; }
    forall v | Entitled(s, e, v)
      ensures k.Some? && kept[k.value] == v
    {
      assert v in kept;
      var i :| 0 <= i < |kept| && kept[i] == v;
    }
  }
}
