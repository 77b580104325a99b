/** Peer-bound, model-bound, budgeted sessions, src/telepath/session.py. */
module Sessions {
  import opened Outcomes
  import opened Protocol

  const MAX_BUDGET: int := 1_000_000
  const MAX_TTL: real := 86_400.0

  /** The fields of a session at one moment. */
  datatype View = View(id: SessionId, peer: PubKey, model: ModelId, purpose: string, budget: int,
                       used: int, openedAt: real, ttl: real)

  predicate Expired(v: View, now: real) { now > v.openedAt + v.ttl }

  predicate InBounds(budget: int, ttl: real) {
    1 <= budget <= MAX_BUDGET && 1.0 <= ttl <= MAX_TTL
  }

  // ---------------------------------------------------------------- what the registry computes

  function Collect(vs: seq<View>, now: real): (r: seq<View>)
    ensures |r| <= |vs|
  {
    if vs == [] then []
    else if Expired(vs[0], now) then Collect(vs[1..], now)
    else [vs[0]] + Collect(vs[1..], now)
  }

  /** The first of the sessions that were opened earliest, which is the one `min` returns. */
  function Oldest(vs: seq<View>): (k: nat)
    requires vs != []
    ensures k < |vs|
  {
    if |vs| == 1 then 0
    else
      var k := Oldest(vs[1..]);
      if vs[1 + k].openedAt < vs[0].openedAt then 1 + k else 0
  }

  /** `open`: collect, check the bounds, make room, then add. The clock is read by the collection
      and again when the session is made. `min` of an empty registry raises ValueError too. */
  function OpenStep(vs: seq<View>, maxSessions: nat, made: View, gcAt: real): (seq<View>, Result<View, Reason>) {
    var kept := Collect(vs, gcAt);
    if !InBounds(made.budget, made.ttl) then (kept, Err(OutOfBounds))
    else match Room(kept, maxSessions)
         case None => (kept, Err(OutOfBounds))
         case Some(rest) => (rest + [made], Ok(made))
  }

  /** What is left once there is room for one more session. */
  function Room(kept: seq<View>, maxSessions: nat): Option<seq<View>> {
    if |kept| < maxSessions then Some(kept)
    else if kept == [] then None
    else Some(DropAt(kept, Oldest(kept)))
  }

  function DropAt(vs: seq<View>, k: nat): seq<View>
    requires k < |vs|
  {
    vs[..k] + vs[k + 1..]
  }

  function Lookup(vs: seq<View>, id: SessionId): (k: Option<nat>)
    ensures k.Some? ==> k.value < |vs| && vs[k.value].id == id
  {
    if vs == [] then None
    else if vs[0].id == id then Some(0)
    else match Lookup(vs[1..], id)
         case None => None
         case Some(k) => Some(k + 1)
  }

  predicate CanConsume(v: View, now: real) { !Expired(v, now) && v.used < v.budget }

  /** `get`, the owner check and `consume`, as `_serve_shard` chains them. */
  function UseStep(vs: seq<View>, id: SessionId, sender: PubKey, gcAt: real, useAt: real): (seq<View>, Option<View>) {
    var kept := Collect(vs, gcAt);
    match Lookup(kept, id)
    case None => (kept, None)
    case Some(k) =>
      if kept[k].peer == sender && CanConsume(kept[k], useAt)
      then (kept[k := kept[k].(used := kept[k].used + 1)], Some(kept[k]))
      else (kept, None)
  }

  lemma {:induction false} LookupFinds(vs: seq<View>, id: SessionId)
    ensures Lookup(vs, id) == None ==> forall v :: v in vs ==> v.id != id
  {
    if vs != [] {
      LookupFinds(vs[1..], id);
      assert forall v :: v in vs <==> v == vs[0] || v in vs[1..];
    }
  }

  ghost predicate DistinctIds(vs: seq<View>) {
    forall i, j :: 0 <= i < j < |vs| ==> vs[i].id != vs[j].id
  }

  lemma {:induction false} CollectMembers(vs: seq<View>, now: real)
    ensures forall v :: v in Collect(vs, now) <==> v in vs && !Expired(v, now)
  {
    if vs != [] {
      CollectMembers(vs[1..], now);
      assert forall v :: v in vs <==> v == vs[0] || v in vs[1..];
    }
  }

  lemma {:induction false} CollectDistinct(vs: seq<View>, gcAt: real)
    requires DistinctIds(vs)
    ensures DistinctIds(Collect(vs, gcAt))
  {
    if vs != [] {
      CollectDistinct(vs[1..], gcAt);
      CollectMembers(vs[1..], gcAt);
      var tail := Collect(vs[1..], gcAt);
      forall j | 0 <= j < |tail|
        ensures vs[0].id != tail[j].id
      {
        assert tail[j] in vs[1..];
      }
    }
  }

  // ---------------------------------------------------------------- the objects

  class Session {
    const id: SessionId
    const peer: PubKey
    const model: ModelId
    const purpose: string
    const budget: int
    const openedAt: real
    const ttl: real
    var used: int

    constructor (id: SessionId, peer: PubKey, model: ModelId, purpose: string, budget: int,
                 openedAt: real, ttl: real)
      ensures Seen() == View(id, peer, model, purpose, budget, 0, openedAt, ttl)
      ensures this.id == id && this.peer == peer && this.model == model && this.purpose == purpose
      ensures this.budget == budget && this.openedAt == openedAt && this.ttl == ttl && used == 0
    {
      this.id, this.peer, this.model, this.purpose := id, peer, model, purpose;
      this.budget, this.openedAt, this.ttl, used := budget, openedAt, ttl, 0;
    }

    function Seen(): View reads this {
      View(id, peer, model, purpose, budget, used, openedAt, ttl)
    }

    method Consume(now: real) returns (ok: bool)
      modifies this`used
      ensures ok <==> CanConsume(old(Seen()), now)
      ensures used == old(used) + (if ok then 1 else 0)
    {
      if now > openedAt + ttl || used >= budget { return false; }
      used := used + 1;
      return true;
    }
  }

  class SessionRegistry {
    const maxSessions: nat
    /** The dictionary's values in insertion order. */
    var sessions: seq<Session>

    ghost predicate Valid() reads this {
      forall i, j :: 0 <= i < j < |sessions| ==> sessions[i].id != sessions[j].id
    }

    function Seen(): (vs: seq<View>)
      reads this, sessions
      ensures |vs| == |sessions|
      ensures forall i :: 0 <= i < |vs| ==> vs[i] == sessions[i].Seen()
    {
      seq(|sessions|, i requires 0 <= i < |sessions| reads this, sessions => sessions[i].Seen())
    }

    constructor (maxSessions: nat)
      ensures Valid() && Seen() == [] && this.maxSessions == maxSessions
    {
      this.maxSessions := maxSessions;
      sessions := [];
    }

    /** The sessions that `_gc` leaves in the dictionary. */
    method Unexpired(now: real) returns (kept: seq<Session>)
      ensures |kept| == |Collect(Seen(), now)|
      ensures forall k :: 0 <= k < |kept| ==> kept[k] in sessions && kept[k].Seen() == Collect(Seen(), now)[k]
    {
      hide Collect;
      kept := [];
      ghost var before, seen: seq<View> := Seen(), [];
      CollectNone(before, now);
      for i := 0 to |sessions|
        invariant |seen| == |kept|
        invariant forall k :: 0 <= k < |kept| ==> kept[k] in sessions && kept[k].Seen() == seen[k]
        invariant seen + Collect(before[i..], now) == Collect(before, now)
      {
        CollectAt(seen, before, i, now);
        if !(now > sessions[i].openedAt + sessions[i].ttl) {
          kept := kept + [sessions[i]];
          seen := seen + [before[i]];
        }
      }
      CollectAll(seen, before, now);
    }

    method Gc(now: real)
      requires Valid()
      modifies this`sessions
      ensures Valid() && Seen() == Collect(old(Seen()), now)
      ensures forall s :: s in sessions ==> s in old(sessions)
    {
      hide Collect;
      ghost var before := Seen();
      var kept := Unexpired(now);
      CollectDistinct(before, now);
      assert forall k :: 0 <= k < |kept| ==> kept[k].id == Collect(before, now)[k].id;
      sessions := kept;
      assert Seen() == Collect(before, now);
    }

    method OldestIndex() returns (k: nat)
      requires sessions != []
      ensures k == Oldest(Seen())
    {
      k := 0;
      for i := 1 to |sessions|
        invariant k < i
        invariant forall a :: 0 <= a < i ==> sessions[k].openedAt <= sessions[a].openedAt
        invariant forall a :: 0 <= a < k ==> sessions[k].openedAt < sessions[a].openedAt
      {
        if sessions[i].openedAt < sessions[k].openedAt { k := i; }
      }
      OldestIs(Seen(), k);
    }

    /** `sessions.pop(oldest.session_id)` */
    method Pop(k: nat)
      requires Valid() && k < |sessions|
      modifies this`sessions
      ensures Valid() && Seen() == DropAt(old(Seen()), k)
      ensures forall s :: s in sessions ==> s in old(sessions)
    {
      ghost var vs := Seen();
      sessions := sessions[..k] + sessions[k + 1..];
      assert Seen() == DropAt(vs, k);
    }

    method MakeRoom() returns (ok: bool)
      requires Valid()
      modifies this`sessions
      ensures Valid() && forall s :: s in sessions ==> s in old(sessions)
      ensures match Room(old(Seen()), maxSessions)
              case None => !ok && Seen() == old(Seen())
              case Some(rest) => ok && Seen() == rest
    {
      assert |Seen()| == |sessions|;
      if |sessions| < maxSessions { return true; }
      if |sessions| == 0 { return false; }
      var k := OldestIndex();
      Pop(k);
      return true;
    }

    method Append(s: Session)
      requires Valid() && forall t :: t in sessions ==> t.id != s.id
      modifies this`sessions
      ensures Valid() && Seen() == old(Seen()) + [s.Seen()]
      ensures sessions == old(sessions) + [s]
    {
      sessions := sessions + [s];
    }

    method Open(id: SessionId, peer: PubKey, model: ModelId, purpose: string, budget: int, ttl: real,
                gcAt: real, openAt: real)
      returns (r: Result<Session, Reason>)
      requires Valid()
      requires forall s :: s in sessions ==> s.id != id
      modifies this`sessions
      ensures Valid()
      ensures var made := View(id, peer, model, purpose, budget, 0, openAt, ttl);
              var (vs, outcome) := OpenStep(old(Seen()), maxSessions, made, gcAt);
              && Seen() == vs
              && (outcome.Ok? ==> r.Ok? && fresh(r.value) && r.value.Seen() == made)
              && (outcome.Err? ==> r == Err(outcome.error))
    {
      Gc(gcAt);
      if !InBounds(budget, ttl) { return Err(OutOfBounds); }
      var ok := MakeRoom();
      if !ok { return Err(OutOfBounds); }
      var s := new Session(id, peer, model, purpose, budget, openAt, ttl);
      Append(s);
      return Ok(s);
    }

    method Get(id: SessionId, now: real) returns (r: Option<Session>)
      requires Valid()
      modifies this`sessions
      ensures Valid() && Seen() == Collect(old(Seen()), now)
      ensures forall s :: s in sessions ==> s in old(sessions)
      ensures match Lookup(Seen(), id)
              case None => r == None
              case Some(k) => k < |sessions| && r == Some(sessions[k])
    {
      hide Collect, Lookup;
      Gc(now);
      LookupFinds(Seen(), id);
      for i := 0 to |sessions|
        invariant forall a :: 0 <= a < i ==> sessions[a].id != id
      {
        if sessions[i].id == id {
          LookupIs(Seen(), id, i);
          return Some(sessions[i]);
        }
      }
      assert forall v :: v in Seen() ==> v.id != id;
      return None;
    }
  }

  lemma CollectNone(vs: seq<View>, now: real)
    ensures [] + Collect(vs[0..], now) == Collect(vs, now)
  {
    assert vs[0..] == vs;
  }

  lemma CollectAll(kept: seq<View>, vs: seq<View>, now: real)
    ensures kept + Collect(vs[|vs|..], now) == kept
  {
    assert vs[|vs|..] == [];
  }

  lemma CollectAt(kept: seq<View>, vs: seq<View>, i: nat, now: real)
    requires i < |vs|
    ensures kept + Collect(vs[i..], now)
         == (if Expired(vs[i], now) then kept else kept + [vs[i]]) + Collect(vs[i + 1..], now)
  {
    assert vs[i..][1..] == vs[i + 1..];
  }

  lemma {:induction false} OldestIs(vs: seq<View>, k: nat)
    requires k < |vs|
    requires forall a :: 0 <= a < |vs| ==> vs[k].openedAt <= vs[a].openedAt
    requires forall a :: 0 <= a < k ==> vs[k].openedAt < vs[a].openedAt
    ensures Oldest(vs) == k
  {
    if |vs| > 1 {
      if k > 0 {
        OldestIs(vs[1..], k - 1);
      } else {
        assert vs[1..][Oldest(vs[1..])] == vs[1 + Oldest(vs[1..])];
      }
    }
  }

  lemma {:induction false} LookupIs(vs: seq<View>, id: SessionId, k: nat)
    requires k < |vs| && vs[k].id == id && forall a :: 0 <= a < k ==> vs[a].id != id
    ensures Lookup(vs, id) == Some(k)
  {
    if k > 0 { LookupIs(vs[1..], id, k - 1); }
  }
}
