/** When a pull is served to its end: what a client can count on from a node over a whole run. */
module PullService {
  import opened Hashing
  import opened Outcomes
  import opened Protocol
  import opened ReplayCache
  import opened Sessions
  import opened SessionSurvival
  import opened TelepathServer
  import opened TelepathRuns

  function NonceKey(e: Event): Key
    requires e.Arrive?
  {
    (e.message.sender, e.message.nonce)
  }

  /** How many dispatched messages of a run the replay table must still hold at `now`. */
  function Recent(s: Server, cfg: Config, es: seq<Event>, now: real): nat {
    if es == [] then 0
    else
      var before, e := es[..|es| - 1], es[|es| - 1];
      Recent(s, cfg, before, now)
      + (if Dispatches(After(s, cfg, before), cfg, e) && e.x.acceptedAt + cfg.limits.ttl > now then 1 else 0)
  }

  /** `accept` changes what is live by the entry of the accepted pair, which was not live before. */
  lemma AcceptAdds(seen: Table, lim: Limits, key: (string, string), at: real, now: real)
    requires 0.0 <= at <= now
    ensures var (next, ok) := AcceptStep(seen, lim.ttl, lim.maxEntries, key, at);
      && Live(next, now).Keys == Live(seen, now).Keys + (if ok && at + lim.ttl > now then {key} else {})
      && (ok ==> key !in Live(seen, now))
  {
  }

  lemma AcceptKeys(seen: Table, lim: Limits, key: (string, string), at: real)
    ensures var (next, ok) := AcceptStep(seen, lim.ttl, lim.maxEntries, key, at);
      next.Keys <= seen.Keys + (if ok then {key} else {})
  {
  }

  lemma TableStep(s: Server, cfg: Config, e: Event)
    ensures var s' := Step(s, cfg, e).0;
            && s'.seen.Keys <= s.seen.Keys + (if Dispatches(s, cfg, e) then {NonceKey(e)} else {})
            && (0 <= cfg.limits.maxEntries && |s.seen| <= cfg.limits.maxEntries ==> |s'.seen| <= cfg.limits.maxEntries)
  {
    if e.Arrive? {
      ReplayPart(s, cfg, e.message, e.signed, e.x);
      hide HandleConnection, Step, AcceptStep, Live;
      AcceptKeys(s.seen, cfg.limits, NonceKey(e), e.x.acceptedAt);
      BoundKept(s.seen, cfg.limits.ttl, cfg.limits.maxEntries, NonceKey(e), e.x.acceptedAt);
    }
  }

  lemma LiveStep(s: Server, cfg: Config, e: Event, now: real)
    requires e.Arrive? ==> 0.0 <= e.x.acceptedAt <= now
    ensures |Live(Step(s, cfg, e).0.seen, now)| == |Live(s.seen, now)|
      + (if Dispatches(s, cfg, e) && e.x.acceptedAt + cfg.limits.ttl > now then 1 else 0)
  {
    var live, live' := Live(s.seen, now), Live(Step(s, cfg, e).0.seen, now);
    assert |live| == |live.Keys| && |live'| == |live'.Keys|;
    if e.Arrive? {
      ReplayPart(s, cfg, e.message, e.signed, e.x);
      hide HandleConnection, Step, AcceptStep, Live;
      AcceptAdds(s.seen, cfg.limits, NonceKey(e), e.x.acceptedAt, now);
    }
  }

  /** No message was accepted after `now`, on a clock that starts at 0. */
  ghost predicate AcceptedBy(es: seq<Event>, now: real) {
    forall i :: 0 <= i < |es| && es[i].Arrive? ==> 0.0 <= es[i].x.acceptedAt <= now
  }

  /** The live entries of the table of a node that started empty are exactly the recently dispatched messages. */
  lemma {:induction false} LiveIsRecent(s: Server, cfg: Config, es: seq<Event>, now: real)
    requires s.seen == map[] && AcceptedBy(es, now)
    ensures |Live(After(s, cfg, es).seen, now)| == Recent(s, cfg, es, now)
  {
    hide HandleConnection, Step, Dispatches;
    if es != [] {
      var before, e := es[..|es| - 1], es[|es| - 1];
      LiveIsRecent(s, cfg, before, now);
      LiveStep(After(s, cfg, before), cfg, e, now);
    }
  }

  ghost predicate NonceSent(es: seq<Event>, key: Key) {
    exists i :: 0 <= i < |es| && es[i].Arrive? && NonceKey(es[i]) == key
  }

  /** Only messages that arrived are remembered. */
  lemma {:induction false} SeenWasSent(s: Server, cfg: Config, es: seq<Event>, key: Key)
    requires s.seen == map[] && key in After(s, cfg, es).seen
    ensures NonceSent(es, key)
  {
    hide HandleConnection;
    if es != [] {
      var before, e := es[..|es| - 1], es[|es| - 1];
      TableStep(After(s, cfg, before), cfg, e);
      if key in After(s, cfg, before).seen {
        SeenWasSent(s, cfg, before, key);
        var i :| 0 <= i < |before| && before[i].Arrive? && NonceKey(before[i]) == key;
        assert es[i] == before[i];
      } else {
        assert es[|es| - 1] == e && NonceKey(e) == key;
      }
    }
  }

  lemma {:induction false} TableBounded(s: Server, cfg: Config, es: seq<Event>)
    requires s.seen == map[] && 0 <= cfg.limits.maxEntries
    ensures |After(s, cfg, es).seen| <= cfg.limits.maxEntries
  {
    hide HandleConnection;
    if es != [] {
      TableBounded(s, cfg, es[..|es| - 1]);
      TableStep(After(s, cfg, es[..|es| - 1]), cfg, es[|es| - 1]);
    }
  }

  /** Exactly when a message that verifies and carries a new nonce is dispatched: fewer than `max_entries`
      messages were dispatched within the last `ttl`. */
  lemma FreshMessageDispatchedIff(s: Server, cfg: Config, es: seq<Event>, e: Event)
    requires s.seen == map[] && 0 <= cfg.limits.maxEntries
    requires e.Arrive? && e.x.acceptedAt >= 0.0 && AcceptedBy(es, e.x.acceptedAt)
    requires Verify(e.message, e.signed, e.x.checkedAt, cfg.limits.skew).None?
    requires !NonceSent(es, NonceKey(e))
    ensures Dispatches(After(s, cfg, es), cfg, e) <==> Recent(s, cfg, es, e.x.acceptedAt) < cfg.limits.maxEntries
  {
    hide HandleConnection;
    var t := After(s, cfg, es);
    LiveIsRecent(s, cfg, es, e.x.acceptedAt);
    TableBounded(s, cfg, es);
    if NonceKey(e) in t.seen { SeenWasSent(s, cfg, es, NonceKey(e)); }
    AcceptedIff(t.seen, cfg.limits.ttl, cfg.limits.maxEntries, NonceKey(e), e.x.acceptedAt);
  }

  // ---------------------------------------------------------------- the vault under a run

  /** No manifest of the run takes the place of one that is there. */
  ghost predicate NothingReplaced(s: Server, cfg: Config, es: seq<Event>) {
    forall i :: 0 <= i < |es| && es[i].Publish? ==>
      var v := After(s, cfg, es[..i]).vault; v.Some? ==> es[i].model !in v.value
  }

  lemma VaultStep(s: Server, cfg: Config, e: Event, model: ModelId)
    requires s.vault.Some? && model in s.vault.value && (e.Publish? ==> e.model != model)
    ensures var v := Step(s, cfg, e).0.vault;
            v.Some? && model in v.value && v.value[model] == s.vault.value[model]
  {
  }

  lemma {:induction false} PublishedStays(s: Server, cfg: Config, es: seq<Event>, j: nat, model: ModelId)
    requires j <= |es| && NothingReplaced(s, cfg, es)
    requires var v := After(s, cfg, es[..j]).vault; v.Some? && model in v.value
    ensures var v, now := After(s, cfg, es[..j]).vault, After(s, cfg, es).vault;
            now.Some? && model in now.value && now.value[model] == v.value[model]
  {
    hide HandleConnection;
    if j == |es| {
      assert es[..j] == es;
    } else {
      var before := es[..|es| - 1];
      assert before[..j] == es[..j];
      assert forall i :: 0 <= i < |before| ==> before[..i] == es[..i] && before[i] == es[i];
      PublishedStays(s, cfg, before, j, model);
      VaultStep(After(s, cfg, before), cfg, es[|es| - 1], model);
    }
  }

  // ---------------------------------------------------------------- a pull

  /** How many requests for a session arrived in a run. */
  function Requests(es: seq<Event>, sid: SessionId): nat {
    if es == [] then 0
    else
      var e := es[|es| - 1];
      Requests(es[..|es| - 1], sid)
      + (if e.Arrive? && e.message.payload.RequestShard? && e.message.payload.sid == sid then 1 else 0)
  }

  lemma {:induction false} UsesAreRequested(s: Server, cfg: Config, es: seq<Event>, sid: SessionId)
    ensures UseCount(s, cfg, es, sid) <= Requests(es, sid)
  {
    hide HandleConnection, Used;
    if es != [] {
      var before, e := es[..|es| - 1], es[|es| - 1];
      UsesAreRequested(s, cfg, before, sid);
      ReplyMeansUsed(After(s, cfg, before), cfg, e);
    }
  }

  /** A request `e` that comes after the run `es`, for session `u`, opened by event `j`: from its
      owner, within its lifetime, before `max_sessions` later opens, and with fewer requests for
      the session so far than its budget. */
  ghost predicate InTime(s: Server, cfg: Config, es: seq<Event>, j: nat, e: Event, u: View)
    requires j < |es|
  {
    && Opened(After(s, cfg, es[..j]), cfg, es[j]) == Some(u)
    && Asking(e, u)
    && FreshSids(es + [e]) && TelepathRuns.ClockRuns(es + [e])
    && AllBefore(es + [e], j + 1, u.openedAt + u.ttl)
    && Opens(s, cfg, es, j + 1) < cfg.maxSessions
    && Requests(es, u.id) < u.budget
  }

  /** A request in time that reaches the dispatcher is let in. */
  lemma UseGranted(s: Server, cfg: Config, es: seq<Event>, j: nat, e: Event, u: View)
    requires s.registry == [] && j < |es| && InTime(s, cfg, es, j, e, u)
    requires Dispatches(After(s, cfg, es), cfg, e)
    ensures var used := Used(After(s, cfg, es), cfg, e); used.Some? && used.value.model == u.model
  {
    hide HandleConnection, Opened, Dispatches;
    assert (es + [e])[|es|] == e;
    assert e.x.useAt <= u.openedAt + u.ttl;
    PrefixRuns(es, e);
    assert AllBefore(es, j + 1, u.openedAt + u.ttl) by {
      assert forall i :: j + 1 <= i < |es| ==> (es + [e])[i] == es[i];
    }
    var q := SessionSurvives(s, cfg, es, j);
    UsesAreRequested(s, cfg, es, u.id);
    RegistryIds(s, cfg, es);
    UseSucceeds(After(s, cfg, es).registry, u.id, e.x.gcAt, e.x.useAt, q);
  }

  /** A request in time, with a new nonce, for a shard of an intact model is answered with that shard if and
      only if the replay table has room and the reply can be sent, and never with another shard. `pull_model` opens with
      a budget of a million and asks for each shard once. */
  lemma RequestServedIff(s: Server, cfg: Config, es: seq<Event>, j: nat, e: Event, u: View, shards: seq<Bytes>)
    requires s.registry == [] && s.seen == map[] && 0 <= cfg.limits.maxEntries
    requires j < |es| && InTime(s, cfg, es, j, e, u) && NothingReplaced(s, cfg, es)
    requires ShardsOf(After(s, cfg, es[..j]).vault, u.model) == Some(shards)
    requires 0 <= e.message.payload.index < |shards| && e.x.disk == Intact
    requires Verify(e.message, e.signed, e.x.checkedAt, cfg.limits.skew).None? && !NonceSent(es, NonceKey(e))
    ensures var t, index := After(s, cfg, es), e.message.payload.index;
      var reply := Reply(t, e.message, ShardData(u.model, index, cfg.hash(shards[index]), shards[index]), e.x);
      && (Step(t, cfg, e).1 == Some(reply)) ==
           (Recent(s, cfg, es, e.x.acceptedAt) < cfg.limits.maxEntries && Sendable(cfg, reply))
      && (Step(t, cfg, e).1 in {None, Some(reply)} || !Step(t, cfg, e).1.value.payload.ShardData?)
  {
    hide HandleConnection, Opened, Used, Dispatches, BodySize;
    assert (es + [e])[|es|] == e;
    AcceptedInOrder(es, e);
    FreshMessageDispatchedIff(s, cfg, es, e);
    ReplyMeansUsed(After(s, cfg, es), cfg, e);
    if Dispatches(After(s, cfg, es), cfg, e) {
      UseGranted(s, cfg, es, j, e, u);
      PublishedStays(s, cfg, es, j, u.model);
    } else {
      UseNeedsDispatch(After(s, cfg, es), cfg, e);
    }
  }

  lemma UseNeedsDispatch(s: Server, cfg: Config, e: Event)
    ensures Used(s, cfg, e).Some? ==> Dispatches(s, cfg, e)
  {
    hide HandleConnection;
  }

  lemma AcceptedInOrder(es: seq<Event>, e: Event)
    requires e.Arrive? && TelepathRuns.ClockRuns(es + [e])
    ensures AcceptedBy(es, e.x.acceptedAt) && e.x.acceptedAt >= 0.0
  {
    assert (es + [e])[|es|] == e && forall i :: 0 <= i < |es| ==> (es + [e])[i] == es[i];
  }

  /** A request for a shard by the owner of a session. */
  predicate Asking(e: Event, u: View) {
    e.Arrive? && e.message.payload.RequestShard? && e.message.sender == u.peer && e.message.payload.sid == u.id
  }

  lemma PrefixRuns(es: seq<Event>, e: Event)
    requires FreshSids(es + [e]) && TelepathRuns.ClockRuns(es + [e])
    ensures FreshSids(es) && TelepathRuns.ClockRuns(es)
  {
    assert forall i :: 0 <= i < |es| ==> (es + [e])[i] == es[i];
  }

  /** The replay table is a limit of its own: with `max_entries` live entries every new message
      is turned away, whatever session it belongs to. */
  lemma FullTableRefuses(s: Server, cfg: Config, e: Event)
    requires e.Arrive? && e.x.acceptedAt >= 0.0 && |s.seen| <= cfg.limits.maxEntries
    requires |Live(s.seen, e.x.acceptedAt)| == cfg.limits.maxEntries
    ensures !Dispatches(s, cfg, e) && Step(s, cfg, e).0.registry == s.registry
    ensures Step(s, cfg, e).1.Some? ==> Step(s, cfg, e).1.value.payload.Error?
  {
    AcceptedIff(s.seen, cfg.limits.ttl, cfg.limits.maxEntries, NonceKey(e), e.x.acceptedAt);
  }
}
