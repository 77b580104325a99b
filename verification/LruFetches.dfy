/** The way `fetch_shard` of src/telepath/node.py uses the shard cache: a hit is a `get`; a miss asks the peer, and
    only an answer that passes the checks is `put`. */
module LruFetches {
  import opened Hashing
  import opened ShardCache
  import opened LruInclusion

  /** One call: its key, and whether the peer's answer passes the checks if it comes to asking. */
  datatype Request = Request(key: Key, answered: bool)

  type Store = Key -> Bytes

  function Fetch(es: seq<Entry>, maxEntries: nat, maxBytes: nat, shard: Store, f: Request): seq<Entry> {
    if Find(es, f.key).Some? then GetStep(es, f.key).0
    else if f.answered then PutStep(es, maxEntries, maxBytes, f.key, shard(f.key))
    else es
  }

  function AfterFetches(maxEntries: nat, maxBytes: nat, shard: Store, fs: seq<Request>): seq<Entry> {
    if fs == [] then []
    else Fetch(AfterFetches(maxEntries, maxBytes, shard, fs[..|fs| - 1]), maxEntries, maxBytes, shard, fs[|fs| - 1])
  }

  ghost predicate Holds(es: seq<Entry>, shard: Store) {
    forall e :: e in es ==> e.value == shard(e.key)
  }

  /** A cache filled by fetches is a slice of the peers' stores, whatever was evicted or failed. */
  lemma {:induction false} FetchesHoldShards(maxEntries: nat, maxBytes: nat, shard: Store, fs: seq<Request>)
    ensures var es := AfterFetches(maxEntries, maxBytes, shard, fs);
            Distinct(es) && Fits(es, maxEntries, maxBytes) && Holds(es, shard)
  {
    if fs != [] {
      FetchesHoldShards(maxEntries, maxBytes, shard, fs[..|fs| - 1]);
      var before, f := AfterFetches(maxEntries, maxBytes, shard, fs[..|fs| - 1]), fs[|fs| - 1];
      StepsKeepValid(before, maxEntries, maxBytes, f.key, shard(f.key));
      FindIn(before, f.key);
      forall e | e in Fetch(before, maxEntries, maxBytes, shard, f)
        ensures e.value == shard(e.key)
      {
        var op := if Find(before, f.key).Some? || !f.answered then Get(f.key) else Put(f.key, shard(f.key));
        EntryComesFrom(before, maxEntries, maxBytes, op, e);
      }
    }
  }

  // ---------------------------------------------------------------- fetches as gets and puts

  function AsOp(shard: Store, f: Request): Op { if f.answered then Put(f.key, shard(f.key)) else Get(f.key) }

  function AsOps(shard: Store, fs: seq<Request>): seq<Op> { seq(|fs|, i requires 0 <= i < |fs| => AsOp(shard, fs[i])) }

  /** To put a shard again that is there is to get it. */
  lemma FetchIsOp(es: seq<Entry>, maxEntries: nat, maxBytes: nat, shard: Store, f: Request)
    requires Distinct(es) && Fits(es, maxEntries, maxBytes) && Holds(es, shard)
    ensures Fetch(es, maxEntries, maxBytes, shard, f) == Apply(es, maxEntries, maxBytes, AsOp(shard, f))
  {
    FindIn(es, f.key);
    if Find(es, f.key).Some? {
      MoveToEnd(es, f.key);
      EntryIsSmall(es, Entry(f.key, shard(f.key)));
    }
  }

  lemma {:induction false} FetchesAreOps(maxEntries: nat, maxBytes: nat, shard: Store, fs: seq<Request>)
    ensures AfterFetches(maxEntries, maxBytes, shard, fs) == After(maxEntries, maxBytes, AsOps(shard, fs))
  {
    if fs != [] {
      var before := fs[..|fs| - 1];
      FetchesAreOps(maxEntries, maxBytes, shard, before);
      FetchesHoldShards(maxEntries, maxBytes, shard, before);
      FetchIsOp(AfterFetches(maxEntries, maxBytes, shard, before), maxEntries, maxBytes, shard, fs[|fs| - 1]);
      assert AsOps(shard, fs)[..|fs| - 1] == AsOps(shard, before);
    }
  }

  // ---------------------------------------------------------------- which bounds keep every hit

  /** Full shards first and last, empty ones between. */
  function Shards(m: nat, maxBytes: nat): Store {
    (k: Key) => if k.index == 0 || k.index == m + 1 then Zeros(maxBytes) else []
  }

  function FillingFetches(n: nat): seq<Request> {
    if n == 0 then [Request(KeyAt(0), true)] else FillingFetches(n - 1) + [Request(KeyAt(n), true)]
  }

  /** The fetch of the full shard, which only the larger cache still holds, fails in the smaller one. */
  function BindingFetches(m: nat): seq<Request> {
    FillingFetches(m) + [Request(KeyAt(0), false)] + [Request(KeyAt(m + 1), true)]
  }

  lemma {:induction false} FillingIsFetched(m: nat, maxBytes: nat, n: nat)
    requires n <= m
    ensures AsOps(Shards(m, maxBytes), FillingFetches(n)) == Filling(n, maxBytes)
  {
    if n > 0 {
      FillingIsFetched(m, maxBytes, n - 1);
      AsOpsSnoc(Shards(m, maxBytes), FillingFetches(n - 1), Request(KeyAt(n), true));
    }
  }

  lemma AsOpsSnoc(shard: Store, fs: seq<Request>, f: Request)
    ensures AsOps(shard, fs + [f]) == AsOps(shard, fs) + [AsOp(shard, f)]
  {
  }

  lemma BindingIsFetched(m: nat, maxBytes: nat)
    ensures AsOps(Shards(m, maxBytes), BindingFetches(m)) == Binding(m, maxBytes)
  {
    FillingIsFetched(m, maxBytes, m);
    AsOpsSnoc(Shards(m, maxBytes), FillingFetches(m), Request(KeyAt(0), false));
    AsOpsSnoc(Shards(m, maxBytes), FillingFetches(m) + [Request(KeyAt(0), false)], Request(KeyAt(m + 1), true));
  }

  ghost predicate FetchHitKept(m1: nat, m2: nat, maxBytes: nat, shard: Store, fs: seq<Request>, k: Key) {
    HitKept(AfterFetches(m1, maxBytes, shard, fs), AfterFetches(m2, maxBytes, shard, fs), k)
  }

  /** A run of fetches, one of them failing, after which a shard is a hit of the smaller cache alone. */
  lemma FailedFetchLosesHit(m1: nat, m2: nat, maxBytes: nat)
    requires 2 <= m1 < m2 && maxBytes >= 1
    ensures !FetchHitKept(m1, m2, maxBytes, Shards(m1, maxBytes), BindingFetches(m1), KeyAt(m1))
  {
    FetchesAreOps(m1, maxBytes, Shards(m1, maxBytes), BindingFetches(m1));
    FetchesAreOps(m2, maxBytes, Shards(m1, maxBytes), BindingFetches(m1));
    BindingIsFetched(m1, maxBytes);
    InclusionNeedsRoom(m1, m2, maxBytes);
  }

  /** Exactly which bounds make the larger cache hit wherever the smaller does, for every store and every run of
      fetches, failed ones included: the same as for gets and puts in any order. */
  lemma FetchHitsKeptIff(m1: nat, m2: nat, maxBytes: nat)
    requires m1 <= m2
    ensures (forall shard: Store, fs, k :: FetchHitKept(m1, m2, maxBytes, shard, fs, k))
       <==> (m1 <= 1 || m1 == m2 || maxBytes == 0)
  {
    if m1 <= 1 || m1 == m2 || maxBytes == 0 {
      forall shard: Store, fs, k ensures FetchHitKept(m1, m2, maxBytes, shard, fs, k) {
        FetchesAreOps(m1, maxBytes, shard, fs);
        FetchesAreOps(m2, maxBytes, shard, fs);
        HitsKept(m1, m2, maxBytes, AsOps(shard, fs), k);
      }
    } else {
      FailedFetchLosesHit(m1, m2, maxBytes);
    }
  }

  // ---------------------------------------------------------------- which runs keep the suffix

  lemma SuffixTrim(small: seq<Entry>, large: seq<Entry>, m1: nat, m2: nat, maxBytes: nat)
    requires m1 <= m2 && Suffix(small, large)
    ensures Suffix(Trim(small, m1, maxBytes), Trim(large, m2, maxBytes))
  {
    TrimIsLongest(small, m1, maxBytes, 0);
    var t := Trim(small, m1, maxBytes);
    var n := |large| - |t|;
    assert t == small[|small| - |t|..] == large[n..];
    TrimIsLongest(large, m2, maxBytes, n);
  }

  lemma Associates(a: seq<Entry>, b: seq<Entry>, c: seq<Entry>)
    ensures a + (b + c) == (a + b) + c
  {
  }

  lemma {:induction false} WithoutAppend(a: seq<Entry>, b: seq<Entry>, k: Key)
    ensures Without(a + b, k) == Without(a, k) + Without(b, k)
  {
    if a == [] {
      assert a + b == b;
    } else {
      WithoutAppend(a[1..], b, k);
      var head, rest := a[0], a[1..] + b;
      assert a + b == [head] + rest;
      Cons(head, rest, k);
      Cons(head, a[1..], k);
      assert a == [head] + a[1..];
      Associates(if head.key == k then [] else [head], Without(a[1..], k), Without(b, k));
    }
  }

  /** The larger cache answers from its own, the smaller asks in vain. */
  predicate OnlySmallFails(small: seq<Entry>, large: seq<Entry>, f: Request) {
    Find(small, f.key).None? && Find(large, f.key).Some? && !f.answered
  }

  /** The smaller cache is a suffix of the larger one after each of the fetches. */
  ghost predicate SuffixThroughout(m1: nat, m2: nat, maxBytes: nat, shard: Store, fs: seq<Request>) {
    forall n :: 0 <= n <= |fs| ==>
      Suffix(AfterFetches(m1, maxBytes, shard, fs[..n]), AfterFetches(m2, maxBytes, shard, fs[..n]))
  }

  /** No fetch fails that the larger cache need not make, unless the smaller cache is empty then. */
  ghost predicate FailsAlike(m1: nat, m2: nat, maxBytes: nat, shard: Store, fs: seq<Request>) {
    forall n :: 0 <= n < |fs| ==> FailsAlikeAt(m1, m2, maxBytes, shard, fs, n)
  }

  ghost predicate FailsAlikeAt(m1: nat, m2: nat, maxBytes: nat, shard: Store, fs: seq<Request>, n: nat)
    requires n < |fs|
  {
    var small, large := AfterFetches(m1, maxBytes, shard, fs[..n]), AfterFetches(m2, maxBytes, shard, fs[..n]);
    OnlySmallFails(small, large, fs[n]) ==> small == []
  }

  /** For every run of fetches: the smaller cache stays a suffix of the larger one, even when bytes bind, if and only if
      no fetch fails that the larger cache answers by itself. */
  lemma SuffixIff(m1: nat, m2: nat, maxBytes: nat, shard: Store, fs: seq<Request>)
    requires m1 <= m2
    ensures SuffixThroughout(m1, m2, maxBytes, shard, fs) <==> FailsAlike(m1, m2, maxBytes, shard, fs)
  {
    if FailsAlike(m1, m2, maxBytes, shard, fs) {
      forall n | 0 <= n <= |fs|
        ensures Suffix(AfterFetches(m1, maxBytes, shard, fs[..n]), AfterFetches(m2, maxBytes, shard, fs[..n]))
      {
        SuffixKept(m1, m2, maxBytes, shard, fs, n);
      }
    }
    if SuffixThroughout(m1, m2, maxBytes, shard, fs) {
      forall n | 0 <= n < |fs| ensures FailsAlikeAt(m1, m2, maxBytes, shard, fs, n) {
        FailureBreaksSuffix(m1, m2, maxBytes, shard, fs, n);
      }
    }
  }

  lemma {:induction false} SuffixKept(m1: nat, m2: nat, maxBytes: nat, shard: Store, fs: seq<Request>, n: nat)
    requires m1 <= m2 && n <= |fs| && FailsAlike(m1, m2, maxBytes, shard, fs)
    ensures Suffix(AfterFetches(m1, maxBytes, shard, fs[..n]), AfterFetches(m2, maxBytes, shard, fs[..n]))
  {
    if n > 0 {
      var before := fs[..n - 1];
      SuffixKept(m1, m2, maxBytes, shard, fs, n - 1);
      assert FailsAlikeAt(m1, m2, maxBytes, shard, fs, n - 1);
      assert fs[..n][..n - 1] == before;
      FetchesHoldShards(m1, maxBytes, shard, before);
      FetchesHoldShards(m2, maxBytes, shard, before);
      FetchKeepsSuffix(AfterFetches(m1, maxBytes, shard, before), AfterFetches(m2, maxBytes, shard, before),
                       m1, m2, maxBytes, shard, fs[n - 1]);
    }
  }

  lemma NewEndIsNoSuffix(small: seq<Entry>, older: seq<Entry>, k: Key, v: Bytes)
    requires small != [] && Find(small, k).None?
    ensures !Suffix(small, older + [Entry(k, v)])
  {
    FindIn(small, k);
    assert small[|small| - 1] in small;
    assert (older + [Entry(k, v)])[|older|].key == k;
  }

  /** After such a failure the last entries differ: the larger cache has moved a key there that the smaller one has
      not. */
  lemma FailureBreaksSuffix(m1: nat, m2: nat, maxBytes: nat, shard: Store, fs: seq<Request>, n: nat)
    requires n < |fs| && SuffixThroughout(m1, m2, maxBytes, shard, fs)
    ensures FailsAlikeAt(m1, m2, maxBytes, shard, fs, n)
  {
    var small, large := AfterFetches(m1, maxBytes, shard, fs[..n]), AfterFetches(m2, maxBytes, shard, fs[..n]);
    assert fs[..n + 1][..n] == fs[..n] && fs[..n + 1][n] == fs[n];
    if OnlySmallFails(small, large, fs[n]) && small != [] {
      assert Suffix(AfterFetches(m1, maxBytes, shard, fs[..n + 1]), AfterFetches(m2, maxBytes, shard, fs[..n + 1]));
      NewEndIsNoSuffix(small, Without(large, fs[n].key), fs[n].key, Find(large, fs[n].key).value);
    }
  }

  lemma FetchKeepsSuffix(small: seq<Entry>, large: seq<Entry>, m1: nat, m2: nat, maxBytes: nat,
                         shard: Store, f: Request)
    requires m1 <= m2 && Suffix(small, large) && Distinct(large) && Distinct(small)
    requires Fits(large, m2, maxBytes) && Holds(large, shard) && Holds(small, shard)
    requires OnlySmallFails(small, large, f) ==> small == []
    ensures Suffix(Fetch(small, m1, maxBytes, shard, f), Fetch(large, m2, maxBytes, shard, f))
  {
    var k, e := f.key, Entry(f.key, shard(f.key));
    FindIn(small, k);
    FindIn(large, k);
    if Find(large, k).Some? {
      EntryIsSmall(large, e);
      MovedSuffix(small, large, e);
      if Find(small, k).None? && f.answered {
        TrimIsLongest(Without(small, k) + [e], m1, maxBytes, 0);
        SuffixOfSuffix(Trim(Without(small, k) + [e], m1, maxBytes), Without(small, k) + [e], Without(large, k) + [e]);
      }
    } else {
      if Find(small, k).Some? { FoundInSuffix(small, large, k); }
      if f.answered && |e.value| <= maxBytes {
        MovedSuffix(small, large, e);
        SuffixTrim(Without(small, k) + [e], Without(large, k) + [e], m1, m2, maxBytes);
      }
    }
  }

  lemma FoundInSuffix(small: seq<Entry>, large: seq<Entry>, k: Key)
    requires Suffix(small, large) && Find(small, k).Some?
    ensures Find(large, k).Some?
  {
    FindIn(small, k);
    FindIn(large, k);
  }

  lemma MovedSuffix(small: seq<Entry>, large: seq<Entry>, e: Entry)
    requires Suffix(small, large)
    ensures Suffix(Without(small, e.key) + [e], Without(large, e.key) + [e])
  {
    var older := large[..|large| - |small|];
    assert large == older + small;
    WithoutAppend(older, small, e.key);
  }

  lemma SuffixOfSuffix(a: seq<Entry>, b: seq<Entry>, c: seq<Entry>)
    requires Suffix(a, b) && Suffix(b, c)
    ensures Suffix(a, c)
  {
  }

  lemma {:induction false} EntryIsSmall(es: seq<Entry>, e: Entry)
    requires e in es
    ensures |e.value| <= Size(es)
  {
    if es[0] != e { EntryIsSmall(es[1..], e); }
  }
}
