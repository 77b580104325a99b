/** The replay cache of src/vault/access.py and the at-most-once dispatch it gives a node. */
module ReplayCache {
  import opened Protocol

  /** A sender and a nonce. */
  type Key = (string, string)
  /** When each remembered pair expires. */
  type Table = map<Key, real>

  function Live(seen: Table, now: real): (live: Table)
    ensures live.Keys <= seen.Keys && |live| <= |seen|
  {
    var live := map k | k in seen && seen[k] > now :: seen[k];
    assert live.Keys <= seen.Keys;
    SubsetIsSmaller(live.Keys, seen.Keys);
    live
  }

  lemma SubsetIsSmaller<T>(a: set<T>, b: set<T>)
    requires a <= b
    ensures |a| <= |b|
  {
    if a != {} {
      var x :| x in a;
      SubsetIsSmaller(a - {x}, b - {x});
    }
  }

  /** `self._seen.get(key, 0) > current`: an absent key counts as expired at time 0. */
  predicate Remembered(seen: Table, key: Key, now: real) {
    (if key in seen then seen[key] else 0.0) > now
  }

  /** `accept` as written: expired entries are dropped only when the table is full. */
  function AcceptStep(seen: Table, ttl: real, maxEntries: int, key: Key, now: real): (Table, bool) {
    var kept := if |seen| >= maxEntries then Live(seen, now) else seen;
    if |kept| >= maxEntries || Remembered(kept, key, now) then (kept, false)
    else (kept[key := now + ttl], true)
  }

  /** The cache a reader has in mind: every expired entry is gone at once. */
  function EagerAccept(seen: Table, ttl: real, maxEntries: int, key: Key, now: real): (Table, bool) {
    var live := Live(seen, now);
    if key in live || |live| >= maxEntries then (live, false) else (live[key := now + ttl], true)
  }

  class NonceCache {
    const ttl: real
    const maxEntries: int
    var seen: Table

    constructor (ttl: real, maxEntries: int)
      ensures this.ttl == ttl && this.maxEntries == maxEntries && seen == map[]
    {
      this.ttl := ttl;
      this.maxEntries := maxEntries;
      seen := map[];
    }

    method Accept(pubkey: string, nonce: string, now: real) returns (ok: bool)
      modifies this`seen
      ensures (seen, ok) == AcceptStep(old(seen), ttl, maxEntries, (pubkey, nonce), now)
      ensures 0 <= maxEntries && |old(seen)| <= maxEntries ==> |seen| <= maxEntries
    {
      BoundKept(seen, ttl, maxEntries, (pubkey, nonce), now);
      if |seen| >= maxEntries {
        seen := Live(seen, now);
        if |seen| >= maxEntries { return false; }
      }
      if Remembered(seen, (pubkey, nonce), now) { return false; }
      seen := seen[(pubkey, nonce) := now + ttl];
      return true;
    }
  }

  /** The table never outgrows `maxEntries`. */
  lemma BoundKept(seen: Table, ttl: real, maxEntries: int, key: Key, now: real)
    ensures 0 <= maxEntries && |seen| <= maxEntries
        ==> |AcceptStep(seen, ttl, maxEntries, key, now).0| <= maxEntries
  {
    var kept := if |seen| >= maxEntries then Live(seen, now) else seen;
    assert kept[key := now + ttl].Keys == kept.Keys + {key};
  }

  /** Exactly when a pair is accepted: no live entry for it, and fewer than `maxEntries` live
      entries in all. Expired entries play no part. */
  lemma AcceptedIff(seen: Table, ttl: real, maxEntries: int, key: Key, now: real)
    requires now >= 0.0 && |seen| <= maxEntries
    ensures AcceptStep(seen, ttl, maxEntries, key, now).1
       <==> key !in Live(seen, now) && |Live(seen, now)| < maxEntries
  {
    if Live(seen, now) == seen {
    } else if |seen| == maxEntries && |Live(seen, now)| == maxEntries {
      SameSizeSubset(Live(seen, now).Keys, seen.Keys);
    }
  }

  lemma SameSizeSubset<T>(a: set<T>, b: set<T>)
    requires a <= b && |a| == |b|
    ensures a == b
  {
    if x :| x in b && x !in a { SubsetIsSmaller(a, b - {x}); }
  }

  // ---------------------------------------------------------------- lazy purging refines eager

  datatype Call = Call(key: Key, now: real)

  predicate ClockRuns(calls: seq<Call>) {
    (forall i :: 0 <= i < |calls| ==> calls[i].now >= 0.0) &&
    (forall i, j :: 0 <= i < j < |calls| ==> calls[i].now <= calls[j].now)
  }

  function Decisions(seen: Table, ttl: real, maxEntries: int, calls: seq<Call>): seq<bool>
    decreases |calls|
  {
    if calls == [] then []
    else
      var (next, ok) := AcceptStep(seen, ttl, maxEntries, calls[0].key, calls[0].now);
      [ok] + Decisions(next, ttl, maxEntries, calls[1..])
  }

  function EagerDecisions(seen: Table, ttl: real, maxEntries: int, calls: seq<Call>): seq<bool>
    decreases |calls|
  {
    if calls == [] then []
    else
      var (next, ok) := EagerAccept(seen, ttl, maxEntries, calls[0].key, calls[0].now);
      [ok] + EagerDecisions(next, ttl, maxEntries, calls[1..])
  }

  /** Over any run the cache answers as if expired entries vanished at once. */
  lemma {:induction false} LazyRefinesEager(seen: Table, eager: Table, ttl: real, maxEntries: int,
                                            calls: seq<Call>, since: real)
    requires ttl > 0.0 && |seen| <= maxEntries && ClockRuns(calls)
    requires calls != [] ==> calls[0].now >= since
    requires Live(seen, since) == Live(eager, since)
    ensures Decisions(seen, ttl, maxEntries, calls) == EagerDecisions(eager, ttl, maxEntries, calls)
    decreases |calls|
  {
    if calls != [] {
      var c := calls[0];
      LiveLater(seen, eager, since, c.now);
      AcceptedIff(seen, ttl, maxEntries, c.key, c.now);
      BoundKept(seen, ttl, maxEntries, c.key, c.now);
      var (s, _) := AcceptStep(seen, ttl, maxEntries, c.key, c.now);
      var (e, _) := EagerAccept(eager, ttl, maxEntries, c.key, c.now);
      assert Live(s, c.now) == Live(e, c.now);
      LazyRefinesEager(s, e, ttl, maxEntries, calls[1..], c.now);
    }
  }

  lemma LiveLater(a: Table, b: Table, since: real, now: real)
    requires Live(a, since) == Live(b, since) && since <= now
    ensures Live(a, now) == Live(b, now)
  {
    forall k
      ensures k in Live(a, now) <==> k in Live(b, now)
      ensures k in Live(a, now) ==> a[k] == b[k]
    {
      assert k in Live(a, since) <==> k in Live(b, since);
      assert k in Live(a, since) ==> Live(a, since)[k] == Live(b, since)[k];
    }
  }

  // ---------------------------------------------------------------- at most one dispatch

  /** One message arriving: the clock is read once by `verify` and once more by `accept`. */
  datatype Handling = Handling(message: Message, signed: bool, checkedAt: real, acceptedAt: real)

  predicate OrderedClock(hs: seq<Handling>) {
    (forall i :: 0 <= i < |hs| ==> 0.0 <= hs[i].checkedAt <= hs[i].acceptedAt) &&
    (forall i, j :: 0 <= i < j < |hs| ==> hs[i].acceptedAt <= hs[j].checkedAt)
  }

  datatype Limits = Limits(ttl: real, maxEntries: int, skew: real)

  /** The replay table after one arrival, and whether the message went on to be dispatched. */
  function Handle(seen: Table, lim: Limits, h: Handling): (Table, bool) {
    if Verify(h.message, h.signed, h.checkedAt, lim.skew).Some? then (seen, false)
    else AcceptStep(seen, lim.ttl, lim.maxEntries, (h.message.sender, h.message.nonce), h.acceptedAt)
  }

  function Dispatched(seen: Table, lim: Limits, hs: seq<Handling>): (r: seq<bool>)
    ensures |r| == |hs|
    decreases |hs|
  {
    if hs == [] then [] else
      var (next, ok) := Handle(seen, lim, hs[0]);
      [ok] + Dispatched(next, lim, hs[1..])
  }

  /** While the entry made by an accepted pair is live, no run forgets it and no arrival with
      that pair is dispatched. */
  lemma {:induction false} RememberedUntilExpiry(seen: Table, lim: Limits, hs: seq<Handling>,
                                                 key: Key, until: real, j: nat)
    requires OrderedClock(hs) && j < |hs| && hs[j].acceptedAt < until
    requires key in seen && seen[key] >= until
    requires (hs[j].message.sender, hs[j].message.nonce) == key
    ensures !Dispatched(seen, lim, hs)[j]
    decreases j
  {
    assert hs[0].acceptedAt <= hs[j].acceptedAt;
    if j > 0 {
      var (next, _) := Handle(seen, lim, hs[0]);
      assert key in next && next[key] >= until;
      RememberedUntilExpiry(next, lim, hs[1..], key, until, j - 1);
    }
  }

  /** Two dispatches of one (sender, nonce) pair are at least `ttl` apart, whatever else the node
      handles before, between and after. */
  lemma {:induction false} DispatchesAreTtlApart(seen: Table, lim: Limits, hs: seq<Handling>, i: nat, j: nat)
    requires OrderedClock(hs) && i < j < |hs|
    requires hs[i].message.sender == hs[j].message.sender && hs[i].message.nonce == hs[j].message.nonce
    requires Dispatched(seen, lim, hs)[i] && Dispatched(seen, lim, hs)[j]
    ensures hs[j].acceptedAt >= hs[i].acceptedAt + lim.ttl
    decreases i
  {
    var (next, _) := Handle(seen, lim, hs[0]);
    assert Dispatched(seen, lim, hs)[1..] == Dispatched(next, lim, hs[1..]);
    if i > 0 {
      DispatchesAreTtlApart(next, lim, hs[1..], i - 1, j - 1);
    } else if hs[j].acceptedAt < hs[i].acceptedAt + lim.ttl {
      var key := (hs[0].message.sender, hs[0].message.nonce);
      RememberedUntilExpiry(next, lim, hs[1..], key, hs[0].acceptedAt + lim.ttl, j - 1);
    }
  }

  lemma {:induction false} DispatchedInWindow(seen: Table, lim: Limits, hs: seq<Handling>, i: nat)
    requires i < |hs| && Dispatched(seen, lim, hs)[i]
    ensures !OutOfWindow(hs[i].checkedAt, hs[i].message.ts, lim.skew)
    decreases i
  {
    if i > 0 { DispatchedInWindow(Handle(seen, lim, hs[0]).0, lim, hs[1..], i - 1); }
  }

  /** A message whose timestamp is not NaN is dispatched at most once in a whole run if no arrival waits
      `ttl - 2 * skew` or longer between its two clock readings. With one reading that is `ttl > 2 * skew`. */
  lemma AtMostOnce(seen: Table, lim: Limits, hs: seq<Handling>, i: nat, j: nat)
    requires OrderedClock(hs) && i < j < |hs| && hs[i].message == hs[j].message
    requires !hs[i].message.ts.NotANumber?
    requires hs[j].acceptedAt - hs[j].checkedAt < lim.ttl - 2.0 * lim.skew
    ensures !(Dispatched(seen, lim, hs)[i] && Dispatched(seen, lim, hs)[j])
  {
    if Dispatched(seen, lim, hs)[i] && Dispatched(seen, lim, hs)[j] {
      DispatchesAreTtlApart(seen, lim, hs, i, j);
      DispatchedInWindow(seen, lim, hs, i);
      DispatchedInWindow(seen, lim, hs, j);
    }
  }

  const SHIPPED: Limits := Limits(600.0, 100_000, MAX_SKEW)

  /** With the shipped limits `ttl` equals `2 * skew`, so the bound above is out of reach. What is
      left, with one reading per arrival: a second dispatch needs the first at the very start of
      the window and itself at the very end. */
  lemma ShippedRepeatOnlyAtBothEnds(seen: Table, hs: seq<Handling>, i: nat, j: nat)
    requires OrderedClock(hs) && i < j < |hs| && hs[i].message == hs[j].message
    requires hs[j].acceptedAt == hs[j].checkedAt && hs[i].message.ts.Time?
    requires Dispatched(seen, SHIPPED, hs)[i] && Dispatched(seen, SHIPPED, hs)[j]
    ensures hs[i].checkedAt == hs[i].acceptedAt == hs[i].message.ts.at - MAX_SKEW
    ensures hs[j].checkedAt == hs[i].message.ts.at + MAX_SKEW
  {
    DispatchesAreTtlApart(seen, SHIPPED, hs, i, j);
    DispatchedInWindow(seen, SHIPPED, hs, i);
    DispatchedInWindow(seen, SHIPPED, hs, j);
  }

  /** The conditions above are exact: two arrivals of one message at a new node are both
      dispatched if and only if both pass `verify` and their accept times are `ttl` apart. */
  lemma DispatchedTwiceIff(lim: Limits, first: Handling, second: Handling)
    requires lim.ttl > 0.0 && lim.maxEntries >= 1 && OrderedClock([first, second])
    requires first.message == second.message
    ensures Dispatched(map[], lim, [first, second]) == [true, true]
       <==> && Verify(first.message, first.signed, first.checkedAt, lim.skew).None?
            && Verify(second.message, second.signed, second.checkedAt, lim.skew).None?
            && second.acceptedAt >= first.acceptedAt + lim.ttl
  {
    var key := (first.message.sender, first.message.nonce);
    assert 0.0 <= [first, second][0].checkedAt <= first.acceptedAt;
    assert first.acceptedAt <= [first, second][1].checkedAt <= second.acceptedAt;
    var (one, ok1) := Handle(map[], lim, first);
    var (two, ok2) := Handle(one, lim, second);
    assert [first, second][1..] == [second];
    assert Dispatched(one, lim, [second]) == [ok2] + Dispatched(two, lim, []);
    assert Dispatched(map[], lim, [first, second]) == [ok1, ok2];
    if ok1 {
      assert one == map[key := first.acceptedAt + lim.ttl];
      assert Live(one, second.acceptedAt) == if first.acceptedAt + lim.ttl > second.acceptedAt then one else map[];
      if Verify(second.message, second.signed, second.checkedAt, lim.skew).None? {
        AcceptedIff(one, lim.ttl, lim.maxEntries, key, second.acceptedAt);
      }
    }
  }

  /** With the shipped limits every message with a good nonce, signed at `ts` on a clock that was 300 or
      later, is dispatched twice by a new node that gets it at `ts - 300` and at `ts + 300`. */
  lemma ShippedDispatchesTwice(m: Message)
    requires m.ts.Time? && m.ts.at >= MAX_SKEW && |m.nonce| >= MIN_NONCE_LENGTH
    ensures Dispatched(map[], SHIPPED, [Handling(m, true, m.ts.at - MAX_SKEW, m.ts.at - MAX_SKEW),
                                        Handling(m, true, m.ts.at + MAX_SKEW, m.ts.at + MAX_SKEW)]) == [true, true]
  {
    DispatchedTwiceIff(SHIPPED, Handling(m, true, m.ts.at - MAX_SKEW, m.ts.at - MAX_SKEW),
                       Handling(m, true, m.ts.at + MAX_SKEW, m.ts.at + MAX_SKEW));
  }

  /** A run with one clock reading per arrival that dispatches a message twice. */
  ghost predicate Repeats(lim: Limits, m: Message, hs: seq<Handling>, i: nat, j: nat) {
    && OrderedClock(hs) && (forall k :: 0 <= k < |hs| ==> hs[k].acceptedAt == hs[k].checkedAt)
    && i < j < |hs| && hs[i].message == hs[j].message == m
    && Dispatched(map[], lim, hs)[i] && Dispatched(map[], lim, hs)[j]
  }

  /** With `ttl > 2 * skew` and one reading per arrival, a signed message with a good nonce can be dispatched more
      than once by a new node if and only if its timestamp is NaN: that is in every window, so the message is dispatched
      again whenever its entry has expired. */
  lemma RepeatsIffNotANumber(lim: Limits, m: Message)
    requires lim.skew >= 0.0 && lim.ttl > 2.0 * lim.skew && lim.maxEntries >= 1 && |m.nonce| >= MIN_NONCE_LENGTH
    ensures (exists hs, i, j :: Repeats(lim, m, hs, i, j)) <==> m.ts.NotANumber?
  {
    if m.ts.NotANumber? {
      var first, second := Handling(m, true, 0.0, 0.0), Handling(m, true, lim.ttl, lim.ttl);
      DispatchedTwiceIff(lim, first, second);
      assert Repeats(lim, m, [first, second], 0, 1);
    } else {
      forall hs: seq<Handling>, i: nat, j: nat | OrderedClock(hs) && i < j < |hs| && hs[i].message == hs[j].message == m
        && hs[j].acceptedAt == hs[j].checkedAt
        ensures !(Dispatched(map[], lim, hs)[i] && Dispatched(map[], lim, hs)[j])
      {
        AtMostOnce(map[], lim, hs, i, j);
      }
    }
  }
}
