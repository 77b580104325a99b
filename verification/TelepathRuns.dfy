/** Safety and survival of sessions over whole runs of a serving node. */
module TelepathRuns {
  import opened Outcomes
  import opened Protocol
  import opened ReplayCache
  import opened Sessions
  import opened SessionSurvival
  import opened AccessList
  import opened TelepathServer

  // ---------------------------------------------------------------- what one event does

  predicate Dispatches(s: Server, cfg: Config, e: Event) {
    && e.Arrive?
    && Verify(e.message, e.signed, e.x.checkedAt, cfg.limits.skew).None?
    && AcceptStep(s.seen, cfg.limits.ttl, cfg.limits.maxEntries, (e.message.sender, e.message.nonce), e.x.acceptedAt).1
  }

  /** A connection treats the replay table as the run of the replay cache does. */
  lemma ReplayPart(s: Server, cfg: Config, m: Message, signed: bool, x: Inputs)
    ensures Handle(s.seen, cfg.limits, Handling(m, signed, x.checkedAt, x.acceptedAt))
         == (HandleConnection(s, cfg, m, signed, x).0.seen, Dispatches(s, cfg, Arrive(m, signed, x)))
  {
  }

  /** The event reaches the registry with a request for a session. */
  predicate Asks(s: Server, cfg: Config, e: Event) {
    && Dispatches(s, cfg, e) && e.message.payload.SessionOpen?
    && s.vault.Some? && e.message.payload.model in s.vault.value
    && (s.acl.Some? ==> IsAllowed(s.acl.value, e.message.payload.model, e.message.sender))
  }

  function Asked(s: Server, cfg: Config, e: Event): View
    requires Asks(s, cfg, e)
  {
    Made(s.vault.value, e.message.sender, e.message.payload, e.x)
  }

  /** The session an event opens. */
  function Opened(s: Server, cfg: Config, e: Event): Option<View> {
    if Asks(s, cfg, e) && OpenStep(s.registry, cfg.maxSessions, Asked(s, cfg, e), e.x.gcAt).1.Ok?
    then Some(Asked(s, cfg, e)) else None
  }

  /** The session, as it was before, from whose budget an event takes a shard. */
  function Used(s: Server, cfg: Config, e: Event): Option<View> {
    if Dispatches(s, cfg, e) && e.message.payload.RequestShard? then
      UseStep(s.registry, e.message.payload.sid, e.message.sender, e.x.gcAt, e.x.useAt).1
    else None
  }

  /** The registry after an event. */
  lemma RegistryStep(s: Server, cfg: Config, e: Event)
    ensures Step(s, cfg, e).0.registry ==
      if Asks(s, cfg, e) then OpenStep(s.registry, cfg.maxSessions, Asked(s, cfg, e), e.x.gcAt).0
      else if Dispatches(s, cfg, e) && e.message.payload.RequestShard?
      then UseStep(s.registry, e.message.payload.sid, e.message.sender, e.x.gcAt, e.x.useAt).0
      else s.registry
  {
  }

  /** A session is announced to a client exactly when one is opened, on the terms stated. */
  lemma AcceptMeansOpened(s: Server, cfg: Config, e: Event)
    ensures match Opened(s, cfg, e)
            case None => !(Step(s, cfg, e).1.Some? && Step(s, cfg, e).1.value.payload.SessionAccept?)
            case Some(v) =>
              && e.Arrive? && e.signed && e.message.payload.SessionOpen?
              && v.peer == e.message.sender && v.id == e.x.sid && v.openedAt == e.x.useAt
              && v in Step(s, cfg, e).0.registry && v.used == 0 && InBounds(v.budget, v.ttl)
              && (s.acl.Some? ==> IsAllowed(s.acl.value, v.model, v.peer))
              && s.vault.Some? && v.model in s.vault.value && v.model == e.message.payload.model
              && var published := s.vault.value[v.model];
                 Step(s, cfg, e).1 == Sent(cfg, Reply(s, e.message,
                   SessionAccept(v.id, v.model, |published.shards|, published.sizeBytes,
                                 published.merkleRoot, published.fileSha, map[]), e.x))
  {
    if Asks(s, cfg, e) {
      OpenMembers(s.registry, cfg.maxSessions, Asked(s, cfg, e), e.x.gcAt);
    }
  }

  /** Shard bytes, and the denial for an unreadable shard, are sent exactly when a use is counted;
      what is sent is the requested shard of the session's model. */
  lemma ReplyMeansUsed(s: Server, cfg: Config, e: Event)
    ensures match Used(s, cfg, e)
            case None =>
              Step(s, cfg, e).1.Some? ==>
                var p := Step(s, cfg, e).1.value.payload;
                !p.ShardData? && !(p.ShardDeny? && p.reason == ShardUnavailable)
            case Some(v) =>
              && e.Arrive? && e.signed && e.message.payload.RequestShard? && v.id == e.message.payload.sid
              && v in s.registry && v.peer == e.message.sender && CanConsume(v, e.x.useAt)
              && var index := e.message.payload.index;
                 match ReadShard(s.vault, v.model, index, e.x.disk)
                 case Plain(data) =>
                   Step(s, cfg, e).1
                     == Sent(cfg, Reply(s, e.message, ShardData(v.model, index, cfg.hash(data), data), e.x))
                 case Unavailable =>
                   Step(s, cfg, e).1 == Sent(cfg, Reply(s, e.message, ShardDeny(index, ShardUnavailable), e.x))
                 case Crash => Step(s, cfg, e).1 == None
  {
    if Used(s, cfg, e).Some? {
      CollectMembers(s.registry, e.x.gcAt);
    }
  }

  /** Sessions after an event are sessions from before, with their uses counted, or the one the
      event opened. */
  lemma RegistryAfter(s: Server, cfg: Config, e: Event, v: View) returns (u: View)
    requires DistinctIds(s.registry) && v in Step(s, cfg, e).0.registry
    ensures || Opened(s, cfg, e) == Some(v)
            || (u in s.registry && v == u.(used := if Used(s, cfg, e).Some? && Used(s, cfg, e).value.id == u.id
                                                   then u.used + 1 else u.used))
  {
    u := v;
    RegistryStep(s, cfg, e);
    hide HandleConnection;
    if Asks(s, cfg, e) {
      OpenMembers(s.registry, cfg.maxSessions, Asked(s, cfg, e), e.x.gcAt);
    } else if Dispatches(s, cfg, e) && e.message.payload.RequestShard? {
      u := UseMembers(s.registry, e.message.payload.sid, e.message.sender, e.x.gcAt, e.x.useAt, v);
      CollectMembers(s.registry, e.x.gcAt);
    }
  }

  lemma IdsStayDistinct(s: Server, cfg: Config, e: Event)
    requires DistinctIds(s.registry)
    requires e.Arrive? ==> forall v :: v in s.registry ==> v.id != e.x.sid
    ensures DistinctIds(Step(s, cfg, e).0.registry)
  {
    RegistryStep(s, cfg, e);
    hide HandleConnection;
    if Asks(s, cfg, e) {
      OpenDistinct(s.registry, cfg.maxSessions, Asked(s, cfg, e), e.x.gcAt);
    } else if Dispatches(s, cfg, e) && e.message.payload.RequestShard? {
      UseDistinct(s.registry, e.message.payload.sid, e.message.sender, e.x.gcAt, e.x.useAt);
    }
  }

  // ---------------------------------------------------------------- runs

  /** uuid4: no two connections are given one session id. */
  ghost predicate FreshSids(es: seq<Event>) {
    forall i, j :: 0 <= i < j < |es| && es[i].Arrive? && es[j].Arrive? ==> es[i].x.sid != es[j].x.sid
  }

  /** How often a session's budget was used in a run. */
  function UseCount(s: Server, cfg: Config, es: seq<Event>, sid: SessionId): nat {
    if es == [] then 0
    else
      var before := es[..|es| - 1];
      var used := Used(After(s, cfg, before), cfg, es[|es| - 1]);
      UseCount(s, cfg, before, sid) + (if used.Some? && used.value.id == sid then 1 else 0)
  }

  ghost predicate SidSeen(es: seq<Event>, sid: SessionId) {
    exists i :: 0 <= i < |es| && es[i].Arrive? && es[i].x.sid == sid
  }

  lemma SidSeenLater(es: seq<Event>, n: nat, sid: SessionId)
    requires n <= |es| && SidSeen(es[..n], sid)
    ensures SidSeen(es, sid)
  {
    var i :| 0 <= i < n && es[..n][i].Arrive? && es[..n][i].x.sid == sid;
    assert es[i] == es[..n][i];
  }

  lemma NotSeenEarlier(es: seq<Event>, n: nat, sid: SessionId)
    requires n <= |es| && !SidSeen(es, sid)
    ensures !SidSeen(es[..n], sid)
  {
    forall i | 0 <= i < n && es[..n][i].Arrive?
      ensures es[..n][i].x.sid != sid
    {
      assert es[i] == es[..n][i];
    }
  }

  /** In every run the registry's ids differ and were all handed out in the run. */
  lemma {:induction false} RegistryIds(s: Server, cfg: Config, es: seq<Event>)
    requires s.registry == [] && FreshSids(es)
    ensures DistinctIds(After(s, cfg, es).registry)
    ensures forall v :: v in After(s, cfg, es).registry ==> SidSeen(es, v.id)
  {
    hide HandleConnection, Used;
    if es != [] {
      var before, e := es[..|es| - 1], es[|es| - 1];
      RegistryIds(s, cfg, before);
      var t := After(s, cfg, before);
      forall v | v in Step(t, cfg, e).0.registry
        ensures SidSeen(es, v.id)
      {
        var u := RegistryAfter(t, cfg, e, v);
        AcceptMeansOpened(t, cfg, e);
        if Opened(t, cfg, e) == Some(v) {
          assert es[|es| - 1].x.sid == v.id;
        } else {
          SidSeenLater(es, |es| - 1, u.id);
        }
      }
      assert e.Arrive? ==> !SidSeen(before, e.x.sid);
      IdsStayDistinct(t, cfg, e);
    }
  }

  /** Every live session goes back to one event of the run that opened it with those terms. */
  lemma {:induction false} LiveSessionWasOpened(s: Server, cfg: Config, es: seq<Event>, v: View) returns (j: nat)
    requires s.registry == [] && FreshSids(es) && v in After(s, cfg, es).registry
    ensures j < |es|
    ensures var u := Opened(After(s, cfg, es[..j]), cfg, es[j]);
            u.Some? && v == u.value.(used := v.used)
  {
    hide HandleConnection, Used, Opened;
    var before, e := es[..|es| - 1], es[|es| - 1];
    RegistryIds(s, cfg, before);
    var u := RegistryAfter(After(s, cfg, before), cfg, e, v);
    if Opened(After(s, cfg, before), cfg, e) == Some(v) {
      j := |es| - 1;
    } else {
      j := LiveSessionWasOpened(s, cfg, before, u);
      assert es[..j] == before[..j];
    }
  }

  /** Nothing is counted for a session id before it is handed out. */
  lemma {:induction false} UnseenIsUnused(s: Server, cfg: Config, es: seq<Event>, sid: SessionId)
    requires s.registry == [] && FreshSids(es) && !SidSeen(es, sid)
    ensures UseCount(s, cfg, es, sid) == 0
  {
    hide HandleConnection, Used, Opened;
    if es != [] {
      var before, e := es[..|es| - 1], es[|es| - 1];
      NotSeenEarlier(es, |es| - 1, sid);
      UnseenIsUnused(s, cfg, before, sid);
      RegistryIds(s, cfg, before);
      ReplyMeansUsed(After(s, cfg, before), cfg, e);
    }
  }

  /** `used_shards` of a live session is the number of uses counted for it in the run. */
  lemma {:induction false} UsedIsCounted(s: Server, cfg: Config, es: seq<Event>, v: View)
    requires s.registry == [] && FreshSids(es) && v in After(s, cfg, es).registry
    ensures v.used == UseCount(s, cfg, es, v.id)
  {
    hide HandleConnection, Used, Opened;
    var before, e := es[..|es| - 1], es[|es| - 1];
    var t := After(s, cfg, before);
    RegistryIds(s, cfg, before);
    var u := RegistryAfter(t, cfg, e, v);
    AcceptMeansOpened(t, cfg, e);
    if Opened(t, cfg, e) == Some(v) {
      assert !SidSeen(before, v.id);
      UnseenIsUnused(s, cfg, before, v.id);
      ReplyMeansUsed(t, cfg, e);
    } else {
      UsedIsCounted(s, cfg, before, u);
    }
  }

  /** The denial of a shard that cannot be read, and shard bytes, are the replies that cost budget. */
  predicate Charged(reply: Option<Message>) {
    reply.Some? && (reply.value.payload.ShardData?
                    || (reply.value.payload.ShardDeny? && reply.value.payload.reason == ShardUnavailable))
  }

  predicate RequestsShard(e: Event, sid: SessionId) {
    e.Arrive? && e.message.payload.RequestShard? && e.message.payload.sid == sid
  }

  /** How many requests for a session a run answered with shard bytes or "shard unavailable". */
  function Replies(s: Server, cfg: Config, es: seq<Event>, sid: SessionId): nat {
    if es == [] then 0
    else
      var n := |es| - 1;
      Replies(s, cfg, es[..n], sid) + (if RequestsShard(es[n], sid) && Charged(ReplyAt(s, cfg, es, n)) then 1 else 0)
  }

  /** The store is intact for a use, and the reply to it can be sent. */
  ghost predicate Answerable(s: Server, cfg: Config, e: Event) {
    Used(s, cfg, e).Some? ==>
      e.Arrive? && e.message.payload.RequestShard? &&
      var v, index := Used(s, cfg, e).value, e.message.payload.index;
      match ReadShard(s.vault, v.model, index, e.x.disk)
      case Plain(data) => Sendable(cfg, Reply(s, e.message, ShardData(v.model, index, cfg.hash(data), data), e.x))
      case Unavailable => Sendable(cfg, Reply(s, e.message, ShardDeny(index, ShardUnavailable), e.x))
      case Crash => false
  }

  /** One event: an answer that costs budget is a counted use, and over an intact store the other way round. */
  lemma AnswerMeansUse(s: Server, cfg: Config, e: Event, sid: SessionId)
    ensures RequestsShard(e, sid) && Charged(Step(s, cfg, e).1) ==>
      Used(s, cfg, e).Some? && Used(s, cfg, e).value.id == sid
    ensures Used(s, cfg, e).Some? && Used(s, cfg, e).value.id == sid && Answerable(s, cfg, e) ==>
      RequestsShard(e, sid) && Charged(Step(s, cfg, e).1)
  {
    hide HandleConnection, Used, BodySize;
    ReplyMeansUsed(s, cfg, e);
  }

  /** In every run a session is charged at least for what was answered, and for exactly that when every
      use could be answered: no read crashed and no reply was too large. */
  lemma {:induction false} UsesAreReplies(s: Server, cfg: Config, es: seq<Event>, sid: SessionId)
    ensures Replies(s, cfg, es, sid) <= UseCount(s, cfg, es, sid)
    ensures (forall i :: 0 <= i < |es| ==> Answerable(After(s, cfg, es[..i]), cfg, es[i])) ==>
      Replies(s, cfg, es, sid) == UseCount(s, cfg, es, sid)
  {
    hide HandleConnection, Used, Step, Charged, RequestsShard, Answerable;
    if es != [] {
      var n := |es| - 1;
      UsesAreReplies(s, cfg, es[..n], sid);
      AnswerMeansUse(After(s, cfg, es[..n]), cfg, es[n], sid);
      assert forall i :: 0 <= i < n ==> es[..n][..i] == es[..i] && es[..n][i] == es[i];
    }
  }

  /** Over an intact store `used_shards` is the number of replies served plus "shard unavailable" denials. */
  lemma UsedIsReplies(s: Server, cfg: Config, es: seq<Event>, v: View)
    requires s.registry == [] && FreshSids(es) && v in After(s, cfg, es).registry
    requires forall i :: 0 <= i < |es| ==> Answerable(After(s, cfg, es[..i]), cfg, es[i])
    ensures v.used == Replies(s, cfg, es, v.id)
  {
    hide HandleConnection, Used, Opened, Answerable;
    UsedIsCounted(s, cfg, es, v);
    UsesAreReplies(s, cfg, es, v.id);
  }

  /** Served-shard safety: whenever a run uses a session's budget (to send a shard, or to say
      that it cannot be read), the request came from the key that opened the session; at opening
      time that key was allowed; the session has not outlived its lifetime; and the uses so far,
      this one included, are within its budget, which is at most a million. */
  lemma ServedShardSafe(s: Server, cfg: Config, es: seq<Event>, i: nat) returns (j: nat)
    requires s.registry == [] && FreshSids(es) && i < |es|
    requires Used(After(s, cfg, es[..i]), cfg, es[i]).Some?
    ensures j < i && es[i].Arrive? && es[j].Arrive? && es[j].message.sender == es[i].message.sender
    ensures var at, session := After(s, cfg, es[..j]), Opened(After(s, cfg, es[..j]), cfg, es[j]);
            && session.Some?
            && session.value.peer == es[i].message.sender
            && session.value.id == Used(After(s, cfg, es[..i]), cfg, es[i]).value.id
            && session.value.model == Used(After(s, cfg, es[..i]), cfg, es[i]).value.model
            && (at.acl.Some? ==> IsAllowed(at.acl.value, session.value.model, es[i].message.sender))
            && es[i].x.useAt <= session.value.openedAt + session.value.ttl
            && UseCount(s, cfg, es[..i + 1], session.value.id) <= session.value.budget <= MAX_BUDGET
  {
    hide HandleConnection, Used, Opened, Step, After, BodySize;
    var now := After(s, cfg, es[..i]);
    var v := Used(now, cfg, es[i]).value;
    ReplyMeansUsed(now, cfg, es[i]);
    j := LiveSessionWasOpened(s, cfg, es[..i], v);
    assert es[..i][..j] == es[..j];
    AcceptMeansOpened(After(s, cfg, es[..j]), cfg, es[j]);
    UsedIsCounted(s, cfg, es[..i], v);
    assert es[..i + 1][..i] == es[..i] && es[..i + 1][i] == es[i];
  }

  /** No session id is ever charged more than a million times, collected and evicted sessions
      included. */
  lemma {:induction false} BudgetHolds(s: Server, cfg: Config, es: seq<Event>, sid: SessionId)
    requires s.registry == [] && FreshSids(es)
    ensures UseCount(s, cfg, es, sid) <= MAX_BUDGET
  {
    hide HandleConnection, Used, Opened;
    if es != [] {
      var n := |es| - 1;
      BudgetHolds(s, cfg, es[..n], sid);
      var used := Used(After(s, cfg, es[..n]), cfg, es[n]);
      if used.Some? && used.value.id == sid {
        var j := ServedShardSafe(s, cfg, es, n);
        assert es[..n + 1] == es;
      }
    }
  }

  /** Only the owner's requests change a session. */
  lemma OthersLeaveSessionAlone(s: Server, cfg: Config, e: Event, u: View, v: View)
    requires DistinctIds(s.registry) && u in s.registry && v in Step(s, cfg, e).0.registry && u.id == v.id
    requires e.Arrive? ==> e.message.sender != u.peer && e.x.sid != u.id
    ensures u == v
  {
    hide HandleConnection, Used, Opened;
    var w := RegistryAfter(s, cfg, e, v);
    ReplyMeansUsed(s, cfg, e);
    AcceptMeansOpened(s, cfg, e);
    SameIdSameSession(s.registry, u, w);
    var used := Used(s, cfg, e);
    if used.Some? { OtherSessionOtherId(s.registry, u, used.value); }
  }

  // ---------------------------------------------------------------- survival

  /** One clock for the node: its readings never run back, within and across connections. */
  ghost predicate ClockRuns(es: seq<Event>) {
    && (forall i :: 0 <= i < |es| && es[i].Arrive? ==>
          0.0 <= es[i].x.checkedAt <= es[i].x.acceptedAt <= es[i].x.gcAt <= es[i].x.useAt)
    && (forall i, j :: 0 <= i < j < |es| && es[i].Arrive? && es[j].Arrive? ==> es[i].x.useAt <= es[j].x.checkedAt)
  }

  /** A bound on every clock reading of a run. */
  ghost predicate ReadBefore(es: seq<Event>, now: real) {
    forall i :: 0 <= i < |es| && es[i].Arrive? ==> es[i].x.useAt <= now
  }

  /** The registry never exceeds its size, and stays in order of opening. */
  lemma {:induction false} RegistryWellFormed(s: Server, cfg: Config, es: seq<Event>, now: real)
    requires s.registry == [] && FreshSids(es) && ClockRuns(es) && ReadBefore(es, now)
    ensures WellFormed(After(s, cfg, es).registry, cfg.maxSessions, now)
  {
    if es != [] {
      var before, e := es[..|es| - 1], es[|es| - 1];
      var t := After(s, cfg, before);
      RegistryIds(s, cfg, before);
      var last := if e.Arrive? then e.x.checkedAt else now;
      RegistryWellFormed(s, cfg, before, last);
      RegistryStep(t, cfg, e);
      hide HandleConnection;
      if Asks(t, cfg, e) {
        assert !SidSeen(before, e.x.sid);
        OpenWellFormed(t.registry, cfg.maxSessions, Asked(t, cfg, e), e.x.gcAt, last);
      } else if Dispatches(t, cfg, e) && e.message.payload.RequestShard? {
        UseWellFormed(t.registry, cfg.maxSessions, e.message.payload.sid, e.message.sender, e.x.gcAt, e.x.useAt, last);
      }
    }
  }

  /** How many sessions events `from` onwards opened. */
  function Opens(s: Server, cfg: Config, es: seq<Event>, from: nat): nat {
    if |es| <= from then 0
    else
      var before := es[..|es| - 1];
      Opens(s, cfg, before, from) + (if Opened(After(s, cfg, before), cfg, es[|es| - 1]).Some? then 1 else 0)
  }

  /** No event from `from` on reads the clock after `deadline`. */
  ghost predicate AllBefore(es: seq<Event>, from: nat, deadline: real) {
    forall i :: from <= i < |es| && es[i].Arrive? ==> es[i].x.useAt <= deadline
  }

  /** Session survival: a session stays in the registry until its lifetime is over or
      `max_sessions` later opens have succeeded. Its place shows how many came after it. */
  lemma {:induction false} SessionSurvives(s: Server, cfg: Config, es: seq<Event>, j: nat) returns (q: nat)
    requires s.registry == [] && FreshSids(es) && ClockRuns(es) && j < |es|
    requires Opened(After(s, cfg, es[..j]), cfg, es[j]).Some?
    requires var u := Opened(After(s, cfg, es[..j]), cfg, es[j]).value; AllBefore(es, j + 1, u.openedAt + u.ttl)
    requires Opens(s, cfg, es, j + 1) < cfg.maxSessions
    ensures var u, now := Opened(After(s, cfg, es[..j]), cfg, es[j]).value, After(s, cfg, es).registry;
            && q < |now| && |now| - q <= 1 + Opens(s, cfg, es, j + 1)
            && now[q] == u.(used := UseCount(s, cfg, es, u.id))
  {
    hide HandleConnection, Used, Opened;
    var n := |es| - 1;
    var u := Opened(After(s, cfg, es[..j]), cfg, es[j]).value;
    if n == j {
      OpenedIsLast(After(s, cfg, es[..n]), cfg, es[n]);
      q := |After(s, cfg, es).registry| - 1;
    } else {
      assert es[..n][..j] == es[..j];
      q := SessionSurvives(s, cfg, es[..n], j);
      q := SurvivesOne(s, cfg, es, u, q);
    }
    UsedIsCounted(s, cfg, es, After(s, cfg, es).registry[q]);
  }

  lemma OpenedIsLast(s: Server, cfg: Config, e: Event)
    requires Opened(s, cfg, e).Some?
    ensures var now := Step(s, cfg, e).0.registry;
            now != [] && now[|now| - 1] == Opened(s, cfg, e).value
  {
    RegistryStep(s, cfg, e);
    hide HandleConnection;
  }

  lemma SurvivesOne(s: Server, cfg: Config, es: seq<Event>, u: View, p: nat) returns (q: nat)
    requires es != [] && s.registry == [] && FreshSids(es) && ClockRuns(es)
    requires var n := |es| - 1; var t := After(s, cfg, es[..n]);
      && p < |t.registry| && t.registry[p] == u.(used := t.registry[p].used)
      && (es[n].Arrive? ==> es[n].x.useAt <= u.openedAt + u.ttl)
      && (Opened(t, cfg, es[n]).Some? ==> |t.registry| - p < cfg.maxSessions)
    ensures var n := |es| - 1; var t, now := After(s, cfg, es[..n]), After(s, cfg, es);
      && q < |now.registry| && now.registry[q] == u.(used := now.registry[q].used)
      && |now.registry| - q <= |t.registry| - p + (if Opened(t, cfg, es[n]).Some? then 1 else 0)
  {
    var n := |es| - 1;
    var t, e := After(s, cfg, es[..n]), es[n];
    RegistryIds(s, cfg, es[..n]);
    RegistryStep(t, cfg, e);
    hide HandleConnection;
    q := p;
    if e.Arrive? { assert ReadBefore(es[..n], e.x.checkedAt); }
    if Asks(t, cfg, e) {
      RegistryWellFormed(s, cfg, es[..n], e.x.checkedAt);
      q := OpenKeeps(t.registry, cfg.maxSessions, Asked(t, cfg, e), e.x.gcAt, e.x.checkedAt, p);
    } else if Dispatches(t, cfg, e) && e.message.payload.RequestShard? {
      q := UseKeeps(t.registry, e.message.payload.sid, e.message.sender, e.x.gcAt, e.x.useAt, p);
    }
  }
}
