/** A run that fills the replay table of a node: after it the owner of a live session with budget left is
    refused, although nothing is wrong with its request. */
module FullTable {
  import opened Outcomes
  import opened Protocol
  import opened Sessions
  import opened TelepathServer
  import opened TelepathRuns
  import opened PullService
  import opened AccessList

  /** Different names for different numbers, long enough for a nonce. */
  function Name(i: nat): string { seq(MIN_NONCE_LENGTH + i, _ => 'x') }

  lemma NamesDiffer(i: nat, j: nat)
    requires i != j
    ensures Name(i) != Name(j)
  {
    assert |Name(i)| != |Name(j)|;
  }

  /** All clock readings of event `i` are `at`. */
  function At(at: real, i: nat): Inputs { Inputs(at, at, at, at, at, Name(i), Name(i), Intact) }

  function Ask(at: real, i: nat, sender: PubKey, p: Payload): Event {
    Arrive(Message(sender, Name(i), Time(at), p, None), true, At(at, i))
  }

  const PULL_BUDGET: int := 1_000_000
  const PULL_TTL: real := 3600.0

  /** The owner opens a session as `pull_model` does, then `n` greetings arrive. */
  function Filling(at: real, owner: PubKey, other: PubKey, model: ModelId, n: nat): seq<Event> {
    if n == 0 then [Ask(at, 0, owner, SessionOpen(model, "pull", Some(PULL_BUDGET), Some(PULL_TTL)))]
    else Filling(at, owner, other, model, n - 1) + [Ask(at, n, other, Hello)]
  }

  lemma {:induction false} FillingIs(at: real, owner: PubKey, other: PubKey, model: ModelId, n: nat)
    ensures var es := Filling(at, owner, other, model, n);
      && |es| == n + 1
      && (forall i :: 0 <= i <= n ==> es[i].Arrive? && es[i].x == At(at, i) && es[i].message.nonce == Name(i))
      && es[0] == Filling(at, owner, other, model,
                          0)[0] && (forall i :: 1 <= i <= n ==> es[i] == Ask(at, i, other, Hello))
  {
    if n > 0 { FillingIs(at, owner, other, model, n - 1); }
  }

  /** A new node that has the model, allows the owner and has room for one session. */
  ghost predicate Ready(s: Server, cfg: Config, owner: PubKey, model: ModelId) {
    && s.seen == map[] && s.registry == [] && s.vault.Some? && model in s.vault.value
    && (s.acl.Some? ==> IsAllowed(s.acl.value, model, owner))
    && cfg.limits.ttl > 0.0 && cfg.limits.skew >= 0.0 && cfg.maxSessions >= 1 && cfg.limits.maxEntries >= 1
  }

  function Session(at: real, owner: PubKey, model: ModelId): View {
    View(Name(0), owner, model, "pull", PULL_BUDGET, 0, at, PULL_TTL)
  }

  lemma Dispatched(s: Server, cfg: Config, es: seq<Event>, at: real, n: nat, sender: PubKey, p: Payload)
    requires s.seen == map[] && at >= 0.0 && cfg.limits.skew >= 0.0 && 0 <= cfg.limits.maxEntries && |es| == n
    requires forall i :: 0 <= i < n ==> es[i].Arrive? && es[i].x == At(at, i) && es[i].message.nonce == Name(i)
    ensures var e := Ask(at, n, sender, p);
      && !NonceSent(es, NonceKey(e)) && Verify(e.message, e.signed, at, cfg.limits.skew).None?
      && (Dispatches(After(s, cfg, es), cfg, e) <==> Recent(s, cfg, es, at) < cfg.limits.maxEntries)
  {
    hide HandleConnection, After, Dispatches, Recent;
    var e := Ask(at, n, sender, p);
    assert !NonceSent(es, NonceKey(e)) by {
      forall i | 0 <= i < n ensures es[i].message.nonce != Name(n) { NamesDiffer(i, n); }
    }
    FreshMessageDispatchedIff(s, cfg, es, e);
  }

  lemma RecentSnoc(s: Server, cfg: Config, es: seq<Event>, e: Event, now: real)
    ensures Recent(s, cfg, es + [e], now) == Recent(s, cfg, es, now)
      + (if Dispatches(After(s, cfg, es), cfg, e) && e.x.acceptedAt + cfg.limits.ttl > now then 1 else 0)
  {
    hide Dispatches, After;
    assert (es + [e])[..|es|] == es && (es + [e])[|es|] == e;
  }

  lemma OpensSnoc(s: Server, cfg: Config, es: seq<Event>, e: Event, from: nat)
    requires from <= |es|
    ensures Opens(s, cfg, es + [e], from)
         == Opens(s, cfg, es, from) + (if Opened(After(s, cfg, es), cfg, e).Some? then 1 else 0)
  {
    hide Opened, After;
    assert (es + [e])[..|es|] == es && (es + [e])[|es|] == e;
  }

  /** Every message of the run is dispatched until the table is full. */
  lemma {:induction false} EachDispatched(s: Server, cfg: Config, at: real, owner: PubKey, other: PubKey,
                                          model: ModelId, n: nat)
    requires Ready(s, cfg, owner, model) && at >= 0.0 && n < cfg.limits.maxEntries
    ensures Recent(s, cfg, Filling(at, owner, other, model, n), at) == n + 1
  {
    hide HandleConnection, Dispatches, Step, Recent, After;
    var es := Filling(at, owner, other, model, n);
    FillingIs(at, owner, other, model, n);
    NothingYet(s, cfg, at);
    if n == 0 {
      var p := SessionOpen(model, "pull", Some(PULL_BUDGET), Some(PULL_TTL));
      Dispatched(s, cfg, [], at, 0, owner, p);
      RecentSnoc(s, cfg, [], Ask(at, 0, owner, p), at);
      assert es == [] + [Ask(at, 0, owner, p)];
    } else {
      var before := Filling(at, owner, other, model, n - 1);
      FillingIs(at, owner, other, model, n - 1);
      EachDispatched(s, cfg, at, owner, other, model, n - 1);
      Dispatched(s, cfg, before, at, n, other, Hello);
      RecentSnoc(s, cfg, before, Ask(at, n, other, Hello), at);
    }
  }

  lemma NothingYet(s: Server, cfg: Config, now: real)
    ensures Recent(s, cfg, [], now) == 0 && After(s, cfg, []) == s && Opens(s, cfg, [], 1) == 0
  {
  }

  lemma FirstOpens(s: Server, cfg: Config, at: real, owner: PubKey, model: ModelId)
    requires Ready(s, cfg, owner, model) && at >= 0.0
    ensures Opened(s, cfg, Filling(at, owner, owner, model, 0)[0]) == Some(Session(at, owner, model))
  {
    hide HandleConnection;
    Dispatched(s, cfg, [], at, 0, owner, SessionOpen(model, "pull", Some(PULL_BUDGET), Some(PULL_TTL)));
    assert Recent(s, cfg, [], at) == 0 && After(s, cfg, []) == s;
    assert Collect([], at) == [];
  }

  lemma GreetingOpensNothing(s: Server, cfg: Config, e: Event)
    requires e.Arrive? && e.message.payload.Hello?
    ensures Opened(s, cfg, e).None?
  {
    hide HandleConnection, Dispatches;
  }

  lemma {:induction false} OnlyFirstOpens(s: Server, cfg: Config, at: real, owner: PubKey, other: PubKey,
                                          model: ModelId, n: nat)
    ensures Opens(s, cfg, Filling(at, owner, other, model, n), 1) == 0
  {
    hide HandleConnection, Step, Opened, After;
    if n > 0 {
      hide Opens;
      var before, e := Filling(at, owner, other, model, n - 1), Ask(at, n, other, Hello);
      FillingIs(at, owner, other, model, n - 1);
      OnlyFirstOpens(s, cfg, at, owner, other, model, n - 1);
      OpensSnoc(s, cfg, before, e, 1);
      GreetingOpensNothing(After(s, cfg, before), cfg, e);
    }
  }

  lemma {:induction false} NothingRequested(at: real, owner: PubKey, other: PubKey, model: ModelId, n: nat)
    ensures Requests(Filling(at, owner, other, model, n), Name(0)) == 0
  {
    var es := Filling(at, owner, other, model, n);
    FillingIs(at, owner, other, model, n);
    if n > 0 {
      NothingRequested(at, owner, other, model, n - 1);
      FillingIs(at, owner, other, model, n - 1);
      assert es[..n] == Filling(at, owner, other, model, n - 1) && es[n] == Ask(at, n, other, Hello);
    } else {
      assert es[..0] == [] && Requests([], Name(0)) == 0;
    }
  }

  /** The owner's next request, for a shard of its session. */
  function Next(at: real, owner: PubKey, n: nat, index: int): Event {
    Ask(at, n + 1, owner, RequestShard(Name(0), index))
  }

  lemma StillInTime(s: Server, cfg: Config, at: real, owner: PubKey, other: PubKey, model: ModelId, n: nat, index: int)
    requires Ready(s, cfg, owner, model) && at >= 0.0
    ensures var es := Filling(at, owner, other, model, n);
      |es| > 0 && InTime(s, cfg, es, 0, Next(at, owner, n, index), Session(at, owner, model))
  {
    hide HandleConnection, Opened, Opens, Requests, Filling;
    var es, e := Filling(at, owner, other, model, n), Next(at, owner, n, index);
    FillingIs(at, owner, other, model, n);
    OnlyFirstOpens(s, cfg, at, owner, other, model, n);
    NothingRequested(at, owner, other, model, n);
    assert es[0] == Filling(at, owner, owner, model, 0)[0] by {
      FillingIs(at, owner, owner, model, 0);
      SameFirst(at, owner, other, model);
    }
    assert es[..0] == [] && After(s, cfg, []) == s;
    FirstOpens(s, cfg, at, owner, model);
    assert forall i :: 0 <= i <= n + 1 ==> (es + [e])[i].Arrive? && (es + [e])[i].x == At(at, i);
    forall i, j | 0 <= i < j < |es + [e]| ensures (es + [e])[i].x.sid != (es + [e])[j].x.sid { NamesDiffer(i, j); }
  }

  lemma SameFirst(at: real, owner: PubKey, other: PubKey, model: ModelId)
    ensures Filling(at, owner, other, model, 0) == Filling(at, owner, owner, model, 0)
  {
  }

  /** The table does fill: for every new node that has the model and allows the owner, after a session and
      `max_entries - 1` greetings the owner's request, in time and with a new nonce, is not dispatched, its session is
      left as it was, and the answer, if one can be sent, is an error. One greeting fewer and it is dispatched. */
  lemma TableFills(s: Server, cfg: Config, at: real, owner: PubKey, other: PubKey, model: ModelId, n: nat, index: int)
    requires Ready(s, cfg, owner, model) && at >= 0.0 && n < cfg.limits.maxEntries
    ensures var es, e := Filling(at, owner, other, model, n), Next(at, owner, n, index);
      && InTime(s, cfg, es, 0, e, Session(at, owner, model))
      && !NonceSent(es, NonceKey(e)) && Verify(e.message, e.signed, e.x.checkedAt, cfg.limits.skew).None?
      && (Dispatches(After(s, cfg, es), cfg, e) <==> n + 1 < cfg.limits.maxEntries)
      && (n + 1 == cfg.limits.maxEntries ==>
           && Step(After(s, cfg, es), cfg, e).0.registry == After(s, cfg, es).registry
           && (Step(After(s, cfg, es), cfg, e).1.Some? ==> Step(After(s, cfg, es), cfg, e).1.value.payload.Error?))
  {
    hide HandleConnection, Filling, After, Dispatches, Recent, InTime, NonceSent, Step;
    var es, e := Filling(at, owner, other, model, n), Next(at, owner, n, index);
    FillingIs(at, owner, other, model, n);
    EachDispatched(s, cfg, at, owner, other, model, n);
    Dispatched(s, cfg, es, at, n + 1, owner, RequestShard(Name(0), index));
    StillInTime(s, cfg, at, owner, other, model, n, index);
    if n + 1 == cfg.limits.maxEntries { Refusal(After(s, cfg, es), cfg, e); }
  }

  lemma Refusal(s: Server, cfg: Config, e: Event)
    requires e.Arrive? && !Dispatches(s, cfg, e)
    ensures Step(s, cfg, e).0.registry == s.registry
    ensures Step(s, cfg, e).1.Some? ==> Step(s, cfg, e).1.value.payload.Error?
  {
    hide BodySize;
  }
}
