/** The inclusion property of the shard cache: what a larger cache holds when a smaller one has
    seen the same operations. */
module LruInclusion {
  import opened Hashing
  import opened Outcomes
  import opened ShardCache

  function Keys(es: seq<Entry>): set<Key> { set e | e in es :: e.key }

  /** The entries whose keys are in `ks`, in their order. */
  function Restrict(es: seq<Entry>, ks: set<Key>): seq<Entry> {
    if es == [] then []
    else if es[0].key in ks then [es[0]] + Restrict(es[1..], ks)
    else Restrict(es[1..], ks)
  }

  /** The smaller cache holds some of the larger one's entries: the same values, in the same
      order of recency. */
  ghost predicate Included(small: seq<Entry>, large: seq<Entry>) {
    small == Restrict(large, Keys(small))
  }

  /** `Included` in the words of a cache user: every hit of the smaller cache is a hit of the
      larger with the same bytes, and its keys are among the larger's. */
  lemma IncludedMeansHits(small: seq<Entry>, large: seq<Entry>, k: Key)
    requires Included(small, large) && Distinct(large)
    ensures Keys(small) <= Keys(large)
    ensures Find(small, k).Some? ==> Find(large, k) == Find(small, k)
  {
    RestrictIsSublist(large, Keys(small));
    FindIn(small, k);
    if Find(small, k).Some? { FindThe(large, Entry(k, Find(small, k).value)); }
  }

  /** No put of the run makes the byte bound evict anything from the larger cache. */
  ghost predicate BytesNeverBind(maxEntries: nat, maxBytes: nat, ops: seq<Op>) {
    forall i :: 0 <= i < |ops| && ops[i].Put? ==> PutHasRoom(maxEntries, maxBytes, ops[..i], ops[i])
  }

  ghost predicate PutHasRoom(maxEntries: nat, maxBytes: nat, before: seq<Op>, op: Op)
    requires op.Put?
  {
    |op.value| <= maxBytes ==>
      Size(Without(After(maxEntries, maxBytes, before), op.key) + [Entry(op.key, op.value)]) <= maxBytes
  }

  // ---------------------------------------------------------------- Restrict and the list steps

  lemma {:induction false} RestrictIsSublist(es: seq<Entry>, ks: set<Key>)
    ensures forall e :: e in Restrict(es, ks) <==> e in es && e.key in ks
  {
    if es != [] { RestrictIsSublist(es[1..], ks); }
  }

  lemma {:induction false} RestrictAppend(a: seq<Entry>, b: seq<Entry>, ks: set<Key>)
    ensures Restrict(a + b, ks) == Restrict(a, ks) + Restrict(b, ks)
  {
    if a == [] {
      assert a + b == b;
    } else {
      RestrictAppend(a[1..], b, ks);
      assert (a + b)[1..] == a[1..] + b;
    }
  }

  lemma {:induction false} RestrictOfWithout(es: seq<Entry>, ks: set<Key>, k: Key)
    ensures Restrict(Without(es, k), ks) == Restrict(es, ks - {k})
    ensures Restrict(Without(es, k), ks + {k}) == Restrict(es, ks - {k})
    ensures Without(Restrict(es, ks), k) == Restrict(es, ks - {k})
  {
    if es != [] { RestrictOfWithout(es[1..], ks, k); }
  }

  lemma {:induction false} RestrictSize(es: seq<Entry>, ks: set<Key>)
    ensures Size(Restrict(es, ks)) <= Size(es) && |Restrict(es, ks)| <= |es|
  {
    if es != [] { RestrictSize(es[1..], ks); }
  }

  lemma KeysOfMoved(es: seq<Entry>, e: Entry)
    ensures Keys(Without(es, e.key) + [e]) == Keys(es) + {e.key}
  {
    var moved := Without(es, e.key) + [e];
    WithoutMembers(es, e.key);
    assert e in moved;
    forall k | k in Keys(es) + {e.key}
      ensures k in Keys(moved)
    {
      if k != e.key {
        var x :| x in es && x.key == k;
        assert x in moved;
      }
    }
  }

  /** Moving one entry to the end of both lists keeps inclusion. */
  lemma MovedIncluded(small: seq<Entry>, large: seq<Entry>, e: Entry)
    requires Included(small, large)
    ensures Included(Without(small, e.key) + [e], Without(large, e.key) + [e])
  {
    var ks := Keys(small) + {e.key};
    KeysOfMoved(small, e);
    RestrictAppend(Without(large, e.key), [e], ks);
    RestrictOfWithout(large, Keys(small), e.key);
    RestrictOfWithout(large, ks, e.key);
    assert ks - {e.key} == Keys(small) - {e.key};
    assert Restrict([e], ks) == [e];
  }

  /** Moving an entry that only the larger list has keeps inclusion. */
  lemma LargeMoveIncluded(small: seq<Entry>, large: seq<Entry>, e: Entry)
    requires Included(small, large) && e.key !in Keys(small)
    ensures Included(small, Without(large, e.key) + [e])
  {
    RestrictAppend(Without(large, e.key), [e], Keys(small));
    RestrictOfWithout(large, Keys(small), e.key);
    assert Keys(small) - {e.key} == Keys(small);
  }

  lemma DropKeys(es: seq<Entry>)
    requires es != [] && Distinct(es)
    ensures Keys(es[1..]) == Keys(es) - {es[0].key}
  {
    assert forall e :: e in es <==> e == es[0] || e in es[1..];
  }

  /** Evicting the oldest entry of the smaller list keeps inclusion. */
  lemma SmallDropIncluded(small: seq<Entry>, large: seq<Entry>)
    requires Included(small, large) && small != [] && Distinct(small)
    ensures Included(small[1..], large)
  {
    var k := small[0].key;
    DropKeys(small);
    RestrictOfWithout(large, Keys(small), k);
    assert Without(small, k) == small[1..] by {
      Removed(small, k);
      assert Without(small, k) == Without(small[1..], k);
      FindIn(small[1..], k);
      assert k !in Keys(small[1..]);
      Removed(small[1..], k);
    }
  }

  /** Evicting from both: the larger's oldest entry is the smaller's oldest, or is not in it. */
  lemma BothDropIncluded(small: seq<Entry>, large: seq<Entry>)
    requires Included(small, large) && small != [] && large != [] && Distinct(small) && Distinct(large)
    ensures Included(small[1..], large[1..])
  {
    SmallDropIncluded(small, large);
    if large[0].key in Keys(small) {
      assert small[0] == large[0];
      DropKeys(small);
    }
  }

  // ---------------------------------------------------------------- inclusion over runs

  /** A cache is below its entry bound only until its first eviction. */
  ghost predicate FullOrEqual(small: seq<Entry>, large: seq<Entry>, maxSmall: nat) {
    |small| == maxSmall || small == large
  }

  /** With room for the bytes, the eviction loop runs at most once. */
  lemma TrimOnce(es: seq<Entry>, maxEntries: nat, maxBytes: nat)
    requires |es| <= maxEntries + 1 && Size(es) <= maxBytes
    ensures Trim(es, maxEntries, maxBytes) == if |es| > maxEntries then es[1..] else es
  {
    if es != [] { SizeOfSuffix(es, 1); }
  }

  /** One `put` on both caches. */
  lemma PutKeepsInclusion(small: seq<Entry>, large: seq<Entry>, m1: nat, m2: nat, maxBytes: nat, k: Key, v: Bytes)
    requires m1 <= m2 && |v| <= maxBytes
    requires Distinct(small) && Distinct(large) && |small| <= m1 && |large| <= m2
    requires Included(small, large) && FullOrEqual(small, large, m1)
    requires Size(Without(large, k) + [Entry(k, v)]) <= maxBytes
    ensures var s, l := PutStep(small, m1, maxBytes, k, v), PutStep(large, m2, maxBytes, k, v);
            Included(s, l) && FullOrEqual(s, l, m1)
  {
    var e := Entry(k, v);
    var ws, wl := Without(small, k) + [e], Without(large, k) + [e];
    assert Included(ws, wl) by { MovedIncluded(small, large, e); }
    assert Distinct(ws) && Distinct(wl) && |ws| <= |small| + 1 && |wl| <= |large| + 1
        && (|ws| == |small| || |ws| == |small| + 1) && (|wl| == |large| + 1 ==> |ws| == |small| + 1) by {
      Removed(small, k);
      Removed(large, k);
      WithoutMembers(small, k);
      WithoutMembers(large, k);
      Appended(Without(small, k), e);
      Appended(Without(large, k), e);
      IncludedMeansHits(small, large, k);
    }
    assert Size(ws) <= maxBytes && |ws| <= |wl| by { RestrictSize(wl, Keys(ws)); }
    EvictFromBoth(small, large, ws, wl, m1, m2, maxBytes);
  }

  lemma EvictFromBoth(small: seq<Entry>, large: seq<Entry>, ws: seq<Entry>, wl: seq<Entry>,
                      m1: nat, m2: nat, maxBytes: nat)
    requires m1 <= m2 && |small| <= m1 && |large| <= m2 && FullOrEqual(small, large, m1)
    requires Included(ws, wl) && Distinct(ws) && Distinct(wl) && Size(ws) <= maxBytes && Size(wl) <= maxBytes
    requires |wl| <= |large| + 1 && (|ws| == |small| || |ws| == |small| + 1)
    requires |ws| <= |wl| && (|wl| == |large| + 1 ==> |ws| == |small| + 1)
    requires small == large ==> ws == wl
    ensures var s, l := Trim(ws, m1, maxBytes), Trim(wl, m2, maxBytes);
            Included(s, l) && FullOrEqual(s, l, m1)
  {
    TrimOnce(ws, m1, maxBytes);
    TrimOnce(wl, m2, maxBytes);
    if |ws| > m1 && |wl| > m2 {
      BothDropIncluded(ws, wl);
    } else if |ws| > m1 {
      SmallDropIncluded(ws, wl);
    }
  }

  /** One `get` on both caches. */
  lemma GetKeepsInclusion(small: seq<Entry>, large: seq<Entry>, m1: nat, k: Key)
    requires Distinct(small) && Distinct(large)
    requires Included(small, large) && FullOrEqual(small, large, m1)
    ensures Included(GetStep(small, k).0, GetStep(large, k).0)
    ensures FullOrEqual(GetStep(small, k).0, GetStep(large, k).0, m1)
  {
    IncludedMeansHits(small, large, k);
    match Find(large, k)
    case None =>
    case Some(v) =>
      FindIn(small, k);
      Removed(small, k);
      if Find(small, k).Some? {
        MovedIncluded(small, large, Entry(k, v));
      } else {
        LargeMoveIncluded(small, large, Entry(k, v));
      }
  }

  /** Run the same gets and puts on two caches that differ only in `max_entries`. While the byte
      bound does not bind, the smaller cache is included in the larger one after every step. */
  lemma {:induction false} Inclusion(m1: nat, m2: nat, maxBytes: nat, ops: seq<Op>)
    requires m1 <= m2 && BytesNeverBind(m2, maxBytes, ops)
    ensures Included(After(m1, maxBytes, ops), After(m2, maxBytes, ops))
    ensures FullOrEqual(After(m1, maxBytes, ops), After(m2, maxBytes, ops), m1)
  {
    if ops != [] {
      var before, op := ops[..|ops| - 1], ops[|ops| - 1];
      forall i | 0 <= i < |before| && before[i].Put?
        ensures PutHasRoom(m2, maxBytes, before[..i], before[i])
      {
        assert before[..i] == ops[..i] && before[i] == ops[i];
        assert PutHasRoom(m2, maxBytes, ops[..i], ops[i]);
      }
      Inclusion(m1, m2, maxBytes, before);
      RunKeepsValid(m1, maxBytes, before);
      RunKeepsValid(m2, maxBytes, before);
      var small, large := After(m1, maxBytes, before), After(m2, maxBytes, before);
      if op.Get? {
        GetKeepsInclusion(small, large, m1, op.key);
      } else if |op.value| <= maxBytes {
        assert PutHasRoom(m2, maxBytes, ops[..|ops| - 1], op);
        PutKeepsInclusion(small, large, m1, m2, maxBytes, op.key, op.value);
      }
    }
  }

  // ---------------------------------------------------------------- which bounds keep it on every run

  /** A hit of the smaller cache is a hit of the larger with the same bytes. */
  predicate HitKept(small: seq<Entry>, large: seq<Entry>, k: Key) {
    Find(small, k).Some? ==> Find(large, k) == Find(small, k)
  }

  /** A put at the end of a run: `wanted` is what it would keep without bounds. */
  lemma PutAtEnd(maxEntries: nat, maxBytes: nat, before: seq<Op>, es: seq<Entry>, e: Entry, wanted: seq<Entry>)
    requires After(maxEntries, maxBytes, before) == es && |e.value| <= maxBytes
    requires wanted == Without(es, e.key) + [e]
    requires Fits(wanted, maxEntries, maxBytes) || Fits(wanted[1..], maxEntries, maxBytes)
    ensures After(maxEntries, maxBytes, before + [Put(e.key, e.value)])
         == if Fits(wanted, maxEntries, maxBytes) then wanted else wanted[1..]
  {
    assert (before + [Put(e.key, e.value)])[..|before|] == before;
    var rest := wanted[1..];
    assert Fits(rest, maxEntries, maxBytes) ==> Trim(rest, maxEntries, maxBytes) == rest;
  }

  lemma GetAtEnd(maxEntries: nat, maxBytes: nat, before: seq<Op>, es: seq<Entry>, k: Key)
    requires After(maxEntries, maxBytes, before) == es
    ensures After(maxEntries, maxBytes, before + [Get(k)]) == GetStep(es, k).0
  {
    assert (before + [Get(k)])[..|before|] == before;
  }

  /** The list functions one entry at a time. */
  lemma Cons(e: Entry, es: seq<Entry>, k: Key)
    ensures Size([e] + es) == |e.value| + Size(es)
    ensures Without([e] + es, k) == (if e.key == k then [] else [e]) + Without(es, k)
    ensures Find([e] + es, k) == if e.key == k then Some(e.value) else Find(es, k)
  {
    assert ([e] + es)[1..] == es;
  }

  function KeyAt(i: int): Key { Key("", "", i) }
  function Full(i: int, maxBytes: nat): Entry { Entry(KeyAt(i), Zeros(maxBytes)) }
  function Empties(n: nat): seq<Entry> { seq(n, i => Entry(KeyAt(i + 1), [])) }

  /** A shard that fills the byte bound, then `n` empty ones. */
  function Filling(n: nat, maxBytes: nat): seq<Op> {
    if n == 0 then [Put(KeyAt(0), Zeros(maxBytes))] else Filling(n - 1, maxBytes) + [Put(KeyAt(n), [])]
  }

  lemma {:induction false} NoKey(es: seq<Entry>, k: Key)
    requires forall e :: e in es ==> e.key != k
    ensures Without(es, k) == es && Find(es, k) == None
  {
    if es != [] { NoKey(es[1..], k); }
  }

  lemma {:induction false} EmptiesSize(n: nat)
    ensures Size(Empties(n)) == 0
  {
    if n > 0 {
      EmptiesSize(n - 1);
      Appended(Empties(n - 1), Entry(KeyAt(n), []));
      assert Empties(n) == Empties(n - 1) + [Entry(KeyAt(n), [])];
    }
  }

  lemma FilledOnce(m: nat, maxBytes: nat)
    requires m >= 1
    ensures After(m, maxBytes, Filling(0, maxBytes)) == [Full(0, maxBytes)]
  {
    assert [] + Filling(0, maxBytes) == Filling(0, maxBytes);
    PutAtEnd(m, maxBytes, [], [], Full(0, maxBytes), [Full(0, maxBytes)]);
  }

  /** The empty shards push the full one out only when there are as many as entries. */
  lemma {:induction false} Filled(m: nat, maxBytes: nat, n: nat)
    requires m >= 1 && n <= m
    ensures After(m, maxBytes, Filling(n, maxBytes)) == (if n < m then [Full(0, maxBytes)] else []) + Empties(n)
  {
    if n == 0 {
      FilledOnce(m, maxBytes);
    } else {
      hide Without, Find, Size, Trim, After;
      EmptiesSize(n);
      var full := Full(0, maxBytes);
      assert ([full] + Empties(n))[1..] == Empties(n);
      Filled(m, maxBytes, n - 1);
      var e, before := Entry(KeyAt(n), []), [full] + Empties(n - 1);
      NoKey(before, KeyAt(n));
      assert before + [e] == [full] + Empties(n);
      PutAtEnd(m, maxBytes, Filling(n - 1, maxBytes), before, e, [full] + Empties(n));
    }
  }

  /** The full shard is looked up again, and another full one put. */
  function Binding(m: nat, maxBytes: nat): seq<Op> {
    Filling(m, maxBytes) + [Get(KeyAt(0))] + [Put(KeyAt(m + 1), Zeros(maxBytes))]
  }

  lemma NewestFits(m: nat, maxBytes: nat)
    requires m >= 1
    ensures var es, e := Empties(m), Full(m + 1, maxBytes);
      (es + [e])[1..] == es[1..] + [e] && Fits(es[1..] + [e], m, maxBytes) && !Fits(es + [e], m, maxBytes)
  {
    var es, e := Empties(m), Full(m + 1, maxBytes);
    EmptiesSize(m);
    SizeOfSuffix(es, 1);
    Appended(es[1..], e);
  }

  lemma BindingSmall(m: nat, maxBytes: nat)
    requires m >= 2 && maxBytes >= 1
    ensures After(m, maxBytes, Binding(m, maxBytes)) == Empties(m)[1..] + [Full(m + 1, maxBytes)]
  {
    hide After, Without, Find, Size, Trim;
    var es, e := Empties(m), Full(m + 1, maxBytes);
    Filled(m, maxBytes, m);
    assert [] + es == es;
    NoKey(es, KeyAt(0));
    NoKey(es, e.key);
    GetAtEnd(m, maxBytes, Filling(m, maxBytes), es, KeyAt(0));
    NewestFits(m, maxBytes);
    PutAtEnd(m, maxBytes, Filling(m, maxBytes) + [Get(KeyAt(0))], es, e, es + [e]);
  }

  lemma BindingLarge(m: nat, m2: nat, maxBytes: nat)
    requires 1 <= m < m2 && maxBytes >= 1
    ensures Find(After(m2, maxBytes, Binding(m, maxBytes)), KeyAt(m)) == None
  {
    var es, a, e := Empties(m), Full(0, maxBytes), Full(m + 1, maxBytes);
    var moved, kept := es + [a], After(m2, maxBytes, Binding(m, maxBytes));
    LargeKeeps(m, m2, maxBytes);
    if |kept| >= 2 {
      assert kept[|kept| - 2..] == [a] + [e];
      SizeOfSuffix(kept, |kept| - 2);
      TwoSize(a, e);
      assert false;
    }
    NoKey(kept, KeyAt(m));
  }

  lemma TwoSize(a: Entry, b: Entry)
    ensures Size([a] + [b]) == |a.value| + |b.value|
  {
    Appended([a], b);
    Appended([], a);
    assert [] + [a] == [a];
  }

  lemma LargeKeeps(m: nat, m2: nat, maxBytes: nat)
    requires 1 <= m < m2 && maxBytes >= 1
    ensures var kept := After(m2, maxBytes, Binding(m, maxBytes));
      Suffix(kept, Empties(m) + [Full(0, maxBytes)] + [Full(m + 1, maxBytes)]) && Size(kept) <= maxBytes
  {
    hide After, Without, Find, Size, Trim;
    var es, a, e := Empties(m), Full(0, maxBytes), Full(m + 1, maxBytes);
    var moved := es + [a];
    Filled(m2, maxBytes, m);
    NoKey(es, a.key);
    Cons(a, es, a.key);
    assert [] + es == es;
    GetAtEnd(m2, maxBytes, Filling(m, maxBytes), [a] + es, a.key);
    NoKey(moved, e.key);
    LastPut(m2, maxBytes, Filling(m, maxBytes) + [Get(a.key)], e);
    TrimIsLongest(moved + [e], m2, maxBytes, 0);
  }

  lemma LastPut(maxEntries: nat, maxBytes: nat, before: seq<Op>, e: Entry)
    ensures After(maxEntries, maxBytes, before + [Put(e.key, e.value)])
         == PutStep(After(maxEntries, maxBytes, before), maxEntries, maxBytes, e.key, e.value)
  {
    assert (before + [Put(e.key, e.value)])[..|before|] == before;
  }

  /** Where the bounds leave no other way, a run after which a key is a hit of the smaller cache alone. */
  lemma InclusionNeedsRoom(m1: nat, m2: nat, maxBytes: nat)
    requires 2 <= m1 < m2 && maxBytes >= 1
    ensures Find(After(m1, maxBytes, Binding(m1, maxBytes)), KeyAt(m1)).Some?
    ensures Find(After(m2, maxBytes, Binding(m1, maxBytes)), KeyAt(m1)).None?
  {
    BindingSmall(m1, maxBytes);
    BindingLarge(m1, m2, maxBytes);
    var kept := After(m1, maxBytes, Binding(m1, maxBytes));
    RunKeepsValid(m1, maxBytes, Binding(m1, maxBytes));
    assert kept[m1 - 2] == Entry(KeyAt(m1), []);
    FindThe(kept, kept[m1 - 2]);
  }

  /** A cache of one entry holds what a larger one holds, whatever the bytes do. */
  lemma {:induction false} OneEntryIncluded(m2: nat, maxBytes: nat, ops: seq<Op>)
    requires m2 >= 1
    ensures forall e :: e in After(1, maxBytes, ops) ==> e in After(m2, maxBytes, ops)
  {
    if ops != [] {
      var before, op := ops[..|ops| - 1], ops[|ops| - 1];
      OneEntryIncluded(m2, maxBytes, before);
      RunKeepsValid(1, maxBytes, before);
      RunKeepsValid(m2, maxBytes, before);
      RunKeepsValid(1, maxBytes, ops);
      var small, large := After(1, maxBytes, before), After(m2, maxBytes, before);
      forall e | e in After(1, maxBytes, ops) ensures e in After(m2, maxBytes, ops) {
        if op.Put? && |op.value| <= maxBytes {
          PutKeepsLongestSuffix(small, 1, maxBytes, op.key, op.value, 0);
          PutKeepsLongestSuffix(large, m2, maxBytes, op.key, op.value, 0);
          assert After(1, maxBytes, ops) == [Entry(op.key, op.value)];
        } else {
          EntryComesFrom(small, 1, maxBytes, op, e);
          FindThe(large, e);
          WithoutMembers(large, op.key);
        }
      }
    }
  }

  /** With no room for bytes every shard is empty, and bytes never bind. */
  lemma EmptyNeverBinds(m: nat, ops: seq<Op>)
    ensures BytesNeverBind(m, 0, ops)
  {
    forall i | 0 <= i < |ops| && ops[i].Put? ensures PutHasRoom(m, 0, ops[..i], ops[i]) {
      var es := After(m, 0, ops[..i]);
      RunKeepsValid(m, 0, ops[..i]);
      Removed(es, ops[i].key);
      Appended(Without(es, ops[i].key), Entry(ops[i].key, ops[i].value));
    }
  }

  lemma HitsKept(m1: nat, m2: nat, maxBytes: nat, ops: seq<Op>, k: Key)
    requires m1 <= m2 && (m1 <= 1 || m1 == m2 || maxBytes == 0)
    ensures HitKept(After(m1, maxBytes, ops), After(m2, maxBytes, ops), k)
  {
    var small, large := After(m1, maxBytes, ops), After(m2, maxBytes, ops);
    RunKeepsValid(m1, maxBytes, ops);
    RunKeepsValid(m2, maxBytes, ops);
    FindIn(small, k);
    if m1 < m2 && Find(small, k).Some? {
      if maxBytes == 0 {
        EmptyNeverBinds(m2, ops);
        Inclusion(m1, m2, 0, ops);
        IncludedMeansHits(small, large, k);
      } else {
        OneEntryIncluded(m2, maxBytes, ops);
        FindThe(large, Entry(k, Find(small, k).value));
      }
    }
  }

  /** Exactly which bounds make the larger cache hit wherever the smaller does, on every run. */
  lemma InclusionIff(m1: nat, m2: nat, maxBytes: nat)
    requires m1 <= m2
    ensures (forall ops: seq<Op>, k: Key :: HitKept(After(m1, maxBytes, ops), After(m2, maxBytes, ops), k))
       <==> (m1 <= 1 || m1 == m2 || maxBytes == 0)
  {
    if m1 <= 1 || m1 == m2 || maxBytes == 0 {
      forall ops: seq<Op>, k: Key ensures HitKept(After(m1, maxBytes, ops), After(m2, maxBytes, ops), k) {
        HitsKept(m1, m2, maxBytes, ops, k);
      }
    } else {
      InclusionNeedsRoom(m1, m2, maxBytes);
      var ops := Binding(m1, maxBytes);
      assert !HitKept(After(m1, maxBytes, ops), After(m2, maxBytes, ops), KeyAt(m1));
    }
  }
}
