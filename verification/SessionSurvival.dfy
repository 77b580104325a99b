/** What one registry call does to a given session: which calls keep it, count it or evict it. */
module SessionSurvival {
  import opened Outcomes
  import opened Protocol
  import opened Sessions

  /** Insertion order is order of opening, which a clock that never runs back gives. */
  ghost predicate InOrder(vs: seq<View>) {
    forall i, j :: 0 <= i < j < |vs| ==> vs[i].openedAt <= vs[j].openedAt
  }

  ghost predicate OpenedBy(vs: seq<View>, now: real) {
    forall v :: v in vs ==> v.openedAt <= now
  }

  ghost predicate WellFormed(vs: seq<View>, maxSessions: nat, now: real) {
    DistinctIds(vs) && InOrder(vs) && OpenedBy(vs, now) && |vs| <= maxSessions
  }

  // ---------------------------------------------------------------- collection

  lemma {:induction false} CollectInOrder(vs: seq<View>, gcAt: real)
    requires InOrder(vs)
    ensures InOrder(Collect(vs, gcAt))
  {
    if vs != [] {
      CollectInOrder(vs[1..], gcAt);
      CollectMembers(vs[1..], gcAt);
      var tail := Collect(vs[1..], gcAt);
      forall j | 0 <= j < |tail|
        ensures vs[0].openedAt <= tail[j].openedAt
      {
        assert tail[j] in vs[1..];
      }
    }
  }

  lemma CollectWellFormed(vs: seq<View>, maxSessions: nat, now: real, gcAt: real)
    requires WellFormed(vs, maxSessions, now)
    ensures WellFormed(Collect(vs, gcAt), maxSessions, now)
  {
    CollectDistinct(vs, gcAt);
    CollectInOrder(vs, gcAt);
    CollectMembers(vs, gcAt);
  }

  /** A session that has not expired stays, with no more sessions behind it than before. */
  lemma {:induction false} CollectKeeps(vs: seq<View>, now: real, p: nat) returns (q: nat)
    requires p < |vs| && !Expired(vs[p], now)
    ensures q < |Collect(vs, now)| && Collect(vs, now)[q] == vs[p]
    ensures |Collect(vs, now)| - q <= |vs| - p
  {
    if p == 0 {
      q := 0;
    } else {
      q := CollectKeeps(vs[1..], now, p - 1);
      if !Expired(vs[0], now) { q := q + 1; }
    }
  }

  // ---------------------------------------------------------------- opening

  lemma {:induction false} OldestIsFirst(vs: seq<View>)
    requires vs != [] && InOrder(vs)
    ensures Oldest(vs) == 0
  {
    if |vs| > 1 {
      OldestIsFirst(vs[1..]);
      assert vs[0].openedAt <= vs[1].openedAt;
    }
  }

  lemma OpenWellFormed(vs: seq<View>, maxSessions: nat, made: View, gcAt: real, now: real)
    requires WellFormed(vs, maxSessions, now) && now <= made.openedAt
    requires forall v :: v in vs ==> v.id != made.id
    ensures WellFormed(OpenStep(vs, maxSessions, made, gcAt).0, maxSessions, made.openedAt)
  {
    hide Collect, Oldest;
    var kept := Collect(vs, gcAt);
    CollectWellFormed(vs, maxSessions, now, gcAt);
    CollectMembers(vs, gcAt);
    if kept != [] { OldestIsFirst(kept); }
    var (out, r) := OpenStep(vs, maxSessions, made, gcAt);
    if r.Ok? {
      var rest := Room(kept, maxSessions).value;
      assert rest == kept || rest == kept[1..];
      assert WellFormed(rest, maxSessions, now) && forall i :: 0 <= i < |rest| ==> rest[i] in kept;
      AppendWellFormed(rest, maxSessions, made, now);
    }
  }

  lemma AppendWellFormed(rest: seq<View>, maxSessions: nat, made: View, now: real)
    requires WellFormed(rest, maxSessions, now) && |rest| < maxSessions && now <= made.openedAt
    requires forall i :: 0 <= i < |rest| ==> rest[i].id != made.id
    ensures WellFormed(rest + [made], maxSessions, made.openedAt)
  {
  }

  /** Sessions after an open are old ones, and the new one if the open succeeded. */
  lemma OpenMembers(vs: seq<View>, maxSessions: nat, made: View, gcAt: real)
    ensures var (out, r) := OpenStep(vs, maxSessions, made, gcAt);
            && (forall v :: v in out ==> v in vs || (r.Ok? && v == made))
            && (r.Ok? ==> r.value == made && made in out && InBounds(made.budget, made.ttl))
  {
    CollectMembers(vs, gcAt);
  }

  /** An open that is turned down evicts no live session. */
  lemma RejectedOpenEvictsNothing(vs: seq<View>, maxSessions: nat, made: View, gcAt: real)
    requires OpenStep(vs, maxSessions, made, gcAt).1.Err?
    ensures forall v :: v in vs && !Expired(v, gcAt) ==> v in OpenStep(vs, maxSessions, made, gcAt).0
  {
    CollectMembers(vs, gcAt);
  }

  /** A live session outlasts an open unless `maxSessions` sessions, the new one among them,
      have been opened behind it. */
  lemma OpenKeeps(vs: seq<View>, maxSessions: nat, made: View, gcAt: real, now: real, p: nat) returns (q: nat)
    requires WellFormed(vs, maxSessions, now) && p < |vs| && !Expired(vs[p], gcAt)
    requires OpenStep(vs, maxSessions, made, gcAt).1.Ok? ==> |vs| - p < maxSessions
    ensures var (out, r) := OpenStep(vs, maxSessions, made, gcAt);
            && q < |out| && out[q] == vs[p]
            && |out| - q <= |vs| - p + (if r.Ok? then 1 else 0)
  {
    q := CollectKeeps(vs, gcAt, p);
    var kept := Collect(vs, gcAt);
    CollectWellFormed(vs, maxSessions, now, gcAt);
    OldestIsFirst(kept);
    if InBounds(made.budget, made.ttl) && |kept| >= maxSessions {
      assert q > 0;
      q := q - 1;
    }
  }

  // ---------------------------------------------------------------- using

  lemma UseWellFormed(vs: seq<View>, maxSessions: nat, id: SessionId, sender: PubKey, gcAt: real, useAt: real,
                      now: real)
    requires WellFormed(vs, maxSessions, now)
    ensures WellFormed(UseStep(vs, id, sender, gcAt, useAt).0, maxSessions, now)
  {
    CollectWellFormed(vs, maxSessions, now, gcAt);
    var kept := Collect(vs, gcAt);
    var (out, r) := UseStep(vs, id, sender, gcAt, useAt);
    if r.Some? {
      var k := Lookup(kept, id).value;
      assert out == kept[k := kept[k].(used := kept[k].used + 1)];
      assert forall i :: 0 <= i < |out| ==> out[i].id == kept[i].id && out[i].openedAt == kept[i].openedAt;
      forall v | v in out ensures v.openedAt <= now {
        var i :| 0 <= i < |out| && out[i] == v;
        assert kept[i] in kept;
      }
    }
  }

  /** Each session after a use is an old one, unchanged but for the count of the one used. */
  lemma UseMembers(vs: seq<View>, id: SessionId, sender: PubKey, gcAt: real, useAt: real, v: View) returns (u: View)
    requires DistinctIds(vs) && v in UseStep(vs, id, sender, gcAt, useAt).0
    ensures var r := UseStep(vs, id, sender, gcAt, useAt).1;
            && u in vs && v == u.(used := if r.Some? && v.id == id then u.used + 1 else u.used)
            && (r.Some? && v.id == id ==> r.value == u)
  {
    var kept := Collect(vs, gcAt);
    CollectDistinct(vs, gcAt);
    CollectMembers(vs, gcAt);
    var (out, r) := UseStep(vs, id, sender, gcAt, useAt);
    var i :| 0 <= i < |out| && out[i] == v;
    u := kept[i];
    assert u in kept;
    if r.Some? {
      var k := Lookup(kept, id).value;
      if i != k { assert kept[i].id != kept[k].id; }
    }
  }

  /** A live session outlasts a use, and counts it if it is the one used. */
  lemma UseKeeps(vs: seq<View>, id: SessionId, sender: PubKey, gcAt: real, useAt: real, p: nat) returns (q: nat)
    requires DistinctIds(vs) && p < |vs| && !Expired(vs[p], gcAt)
    ensures var (out, r) := UseStep(vs, id, sender, gcAt, useAt);
            && q < |out| && |out| - q <= |vs| - p
            && out[q] == vs[p].(used := if r.Some? && vs[p].id == id then vs[p].used + 1 else vs[p].used)
  {
    q := CollectKeeps(vs, gcAt, p);
    CollectDistinct(vs, gcAt);
    var kept := Collect(vs, gcAt);
    var k := Lookup(kept, id);
    if k.Some? && k.value != q { assert kept[k.value].id != kept[q].id; }
  }

  /** A use succeeds for the owner of a live session that has budget left. */
  lemma UseSucceeds(vs: seq<View>, id: SessionId, gcAt: real, useAt: real, p: nat)
    requires DistinctIds(vs) && p < |vs| && vs[p].id == id && gcAt <= useAt
    requires CanConsume(vs[p], useAt)
    ensures UseStep(vs, id, vs[p].peer, gcAt, useAt).1 == Some(vs[p])
  {
    var q := CollectKeeps(vs, gcAt, p);
    CollectDistinct(vs, gcAt);
    var kept := Collect(vs, gcAt);
    LookupFinds(kept, id);
    var k := Lookup(kept, id).value;
    assert kept[k].id == id == kept[q].id;
  }

  lemma OpenDistinct(vs: seq<View>, maxSessions: nat, made: View, gcAt: real)
    requires DistinctIds(vs) && forall v :: v in vs ==> v.id != made.id
    ensures DistinctIds(OpenStep(vs, maxSessions, made, gcAt).0)
  {
    CollectDistinct(vs, gcAt);
    CollectMembers(vs, gcAt);
    var kept := Collect(vs, gcAt);
    var (out, r) := OpenStep(vs, maxSessions, made, gcAt);
    if r.Ok? {
      var rest := Room(kept, maxSessions).value;
      assert forall i :: 0 <= i < |rest| ==> rest[i] in kept;
      assert DistinctIds(rest);
    }
  }

  lemma UseDistinct(vs: seq<View>, id: SessionId, sender: PubKey, gcAt: real, useAt: real)
    requires DistinctIds(vs)
    ensures DistinctIds(UseStep(vs, id, sender, gcAt, useAt).0)
  {
    CollectDistinct(vs, gcAt);
    var kept, out := Collect(vs, gcAt), UseStep(vs, id, sender, gcAt, useAt).0;
    assert forall i :: 0 <= i < |out| ==> out[i].id == kept[i].id;
  }

  /** In a registry with distinct ids an id names one session. */
  lemma SameIdSameSession(vs: seq<View>, u: View, v: View)
    requires DistinctIds(vs) && u in vs && v in vs && u.id == v.id
    ensures u == v
  {
    var i :| 0 <= i < |vs| && vs[i] == u;
    var k :| 0 <= k < |vs| && vs[k] == v;
    assert vs[i].id == vs[k].id;
  }

  lemma OtherSessionOtherId(vs: seq<View>, u: View, v: View)
    requires DistinctIds(vs) && u in vs && v in vs && u != v
    ensures u.id != v.id
  {
    var i :| 0 <= i < |vs| && vs[i] == u;
    var k :| 0 <= k < |vs| && vs[k] == v;
    assert if i < k then vs[i].id != vs[k].id else vs[k].id != vs[i].id;
  }
}
