/** The plaintext shard cache of src/telepath/cache.py: an LRU map with a bound on entries and a
    bound on bytes. The ordered dictionary is a sequence of entries, least recent first. */
module ShardCache {
  import opened Hashing
  import opened Outcomes
  import opened Protocol

  /** The tuple under which `fetch_shard` caches a shard. */
  datatype Key = Key(peer: PubKey, model: ModelId, index: int)
  datatype Entry = Entry(key: Key, value: Bytes)

  ghost predicate Distinct(es: seq<Entry>) {
    forall i, j :: 0 <= i < j < |es| ==> es[i].key != es[j].key
  }

  function Size(es: seq<Entry>): nat {
    if es == [] then 0 else |es[0].value| + Size(es[1..])
  }

  function Find(es: seq<Entry>, k: Key): Option<Bytes> {
    if es == [] then None else if es[0].key == k then Some(es[0].value) else Find(es[1..], k)
  }

  function Without(es: seq<Entry>, k: Key): (r: seq<Entry>)
    ensures |r| <= |es|
  {
    if es == [] then []
    else if es[0].key == k then Without(es[1..], k)
    else [es[0]] + Without(es[1..], k)
  }

  predicate Fits(es: seq<Entry>, maxEntries: nat, maxBytes: nat) {
    |es| <= maxEntries && Size(es) <= maxBytes
  }

  /** What the eviction loop leaves. */
  function Trim(es: seq<Entry>, maxEntries: nat, maxBytes: nat): seq<Entry> {
    if es == [] || Fits(es, maxEntries, maxBytes) then es else Trim(es[1..], maxEntries, maxBytes)
  }

  function GetStep(es: seq<Entry>, k: Key): (seq<Entry>, Option<Bytes>) {
    match Find(es, k)
    case None => (es, None)
    case Some(v) => (Without(es, k) + [Entry(k, v)], Some(v))
  }

  function PutStep(es: seq<Entry>, maxEntries: nat, maxBytes: nat, k: Key, v: Bytes): seq<Entry> {
    if |v| > maxBytes then es else Trim(Without(es, k) + [Entry(k, v)], maxEntries, maxBytes)
  }

  class ShardCache {
    const maxEntries: nat
    const maxBytes: nat
    var entries: seq<Entry>
    var bytesUsed: int
    var hits: nat
    var misses: nat
    var evictions: nat

    ghost predicate Valid() reads this {
      Distinct(entries) && bytesUsed == Size(entries) && Fits(entries, maxEntries, maxBytes)
    }

    constructor (maxEntries: nat, maxBytes: nat)
      ensures Valid() && entries == [] && this.maxEntries == maxEntries && this.maxBytes == maxBytes
      ensures hits == misses == evictions == 0
    {
      this.maxEntries := maxEntries;
      this.maxBytes := maxBytes;
      entries := [];
      bytesUsed, hits, misses, evictions := 0, 0, 0, 0;
    }

    method Get(k: Key) returns (r: Option<Bytes>)
      requires Valid()
      modifies this`entries, this`hits, this`misses
      ensures Valid() && (entries, r) == GetStep(old(entries), k)
      ensures r.Some? ==> hits == old(hits) + 1 && misses == old(misses)
      ensures r.None? ==> misses == old(misses) + 1 && hits == old(hits)
    {
      r := Find(entries, k);
      if r.None? {
        misses := misses + 1;
      } else {
        MoveToEnd(entries, k);
        entries := Without(entries, k) + [Entry(k, r.value)];
        hits := hits + 1;
      }
    }

    method Put(k: Key, v: Bytes)
      requires Valid()
      modifies this`entries, this`bytesUsed, this`evictions
      ensures Valid() && entries == PutStep(old(entries), maxEntries, maxBytes, k, v)
      ensures |v| <= maxBytes ==>
        evictions - old(evictions) == |Without(old(entries), k)| + 1 - |entries|
      ensures |v| > maxBytes ==> evictions == old(evictions)
    {
      if |v| > maxBytes { return; }
      Removed(entries, k);
      WithoutMembers(entries, k);
      var previous := Find(entries, k);
      if previous.Some? {
        entries := Without(entries, k);
        bytesUsed := bytesUsed - |previous.value|;
      } else {
        assert Without(entries, k) == entries;
      }
      Appended(entries, Entry(k, v));
      entries := entries + [Entry(k, v)];
      bytesUsed := bytesUsed + |v|;
      ghost var start := entries;
      while |entries| > maxEntries || bytesUsed > maxBytes
        invariant Distinct(entries) && bytesUsed == Size(entries)
        invariant Trim(entries, maxEntries, maxBytes) == Trim(start, maxEntries, maxBytes)
        invariant evictions - old(evictions) == |start| - |entries|
        decreases |entries|
      {
        bytesUsed := bytesUsed - |entries[0].value|;
        entries := entries[1..];
        evictions := evictions + 1;
      }
    }
  }

  // ---------------------------------------------------------------- entries as a list

  lemma {:induction false} FindIn(es: seq<Entry>, k: Key)
    ensures Find(es, k).Some? ==> Entry(k, Find(es, k).value) in es
    ensures Find(es, k).None? ==> forall e :: e in es ==> e.key != k
  {
    if es != [] {
      FindIn(es[1..], k);
      assert forall e :: e in es <==> e == es[0] || e in es[1..];
    }
  }

  lemma {:induction false} FindThe(es: seq<Entry>, e: Entry)
    requires Distinct(es) && e in es
    ensures Find(es, e.key) == Some(e.value)
  {
    if es[0] != e {
      var i :| 0 <= i < |es| && es[i] == e;
      assert es[0].key != es[i].key;
      FindThe(es[1..], e);
    }
  }

  lemma {:induction false} WithoutMembers(es: seq<Entry>, k: Key)
    ensures forall e :: e in Without(es, k) <==> e in es && e.key != k
  {
    if es != [] {
      WithoutMembers(es[1..], k);
      assert forall e :: e in es <==> e == es[0] || e in es[1..];
    }
  }

  /** Removing a key keeps the order of the rest, and gives back exactly its bytes. */
  lemma {:induction false} Removed(es: seq<Entry>, k: Key)
    requires Distinct(es)
    ensures Distinct(Without(es, k))
    ensures Find(es, k).None? ==> Without(es, k) == es
    ensures Find(es, k).Some? ==>
      |Without(es, k)| == |es| - 1 && Size(Without(es, k)) == Size(es) - |Find(es, k).value|
  {
    if es != [] {
      Removed(es[1..], k);
      WithoutMembers(es[1..], k);
      if es[0].key == k {
        if Find(es[1..], k).Some? {
          FindIn(es[1..], k);
          assert false;
        }
      } else {
        var rest := Without(es[1..], k);
        forall i, j | 0 <= i < j < |[es[0]] + rest|
          ensures ([es[0]] + rest)[i].key != ([es[0]] + rest)[j].key
        {
          assert rest[j - 1] in es[1..];
        }
      }
    }
  }

  lemma {:induction false} Appended(es: seq<Entry>, e: Entry)
    ensures Size(es + [e]) == Size(es) + |e.value|
    ensures Distinct(es) && (forall x :: x in es ==> x.key != e.key) ==> Distinct(es + [e])
  {
    if es != [] {
      Appended(es[1..], e);
      assert (es + [e])[1..] == es[1..] + [e];
    } else {
      assert [e] == es + [e];
    }
  }

  lemma MoveToEnd(es: seq<Entry>, k: Key)
    requires Distinct(es) && Find(es, k).Some?
    ensures var moved := Without(es, k) + [Entry(k, Find(es, k).value)];
            Distinct(moved) && Size(moved) == Size(es) && |moved| == |es|
  {
    Removed(es, k);
    WithoutMembers(es, k);
    Appended(Without(es, k), Entry(k, Find(es, k).value));
  }

  // ---------------------------------------------------------------- eviction keeps the longest fit

  lemma {:induction false} SizeOfSuffix(es: seq<Entry>, n: nat)
    requires n <= |es|
    ensures Size(es[n..]) <= Size(es)
  {
    if n > 0 {
      SizeOfSuffix(es[1..], n - 1);
      assert es[1..][n - 1..] == es[n..];
    }
  }

  ghost predicate Suffix(s: seq<Entry>, l: seq<Entry>) {
    |s| <= |l| && s == l[|l| - |s|..]
  }

  /** `Trim` gives the longest suffix within both bounds: it fits, and every suffix that fits is
      a suffix of it. */
  lemma {:induction false} TrimIsLongest(es: seq<Entry>, maxEntries: nat, maxBytes: nat, n: nat)
    requires n <= |es|
    ensures Suffix(Trim(es, maxEntries, maxBytes), es)
    ensures Fits(Trim(es, maxEntries, maxBytes), maxEntries, maxBytes)
    ensures Fits(es[n..], maxEntries, maxBytes) ==> Suffix(es[n..], Trim(es, maxEntries, maxBytes))
  {
    if es != [] && !Fits(es, maxEntries, maxBytes) {
      if n == 0 {
        assert es[0..] == es;
        TrimIsLongest(es[1..], maxEntries, maxBytes, 0);
      } else {
        TrimIsLongest(es[1..], maxEntries, maxBytes, n - 1);
        assert es[1..][n - 1..] == es[n..];
      }
    }
  }

  /** After an accepted `put` the entries are the longest suffix of "old order without the key,
      then the new entry" that meets both bounds, and the new entry is always among them. */
  lemma PutKeepsLongestSuffix(es: seq<Entry>, maxEntries: nat, maxBytes: nat, k: Key, v: Bytes, n: nat)
    requires maxEntries >= 1 && |v| <= maxBytes
    requires n <= |Without(es, k)|
    ensures var wanted := Without(es, k) + [Entry(k, v)];
            var kept := PutStep(es, maxEntries, maxBytes, k, v);
            && Suffix(kept, wanted) && Fits(kept, maxEntries, maxBytes)
            && (Fits(wanted[n..], maxEntries, maxBytes) ==> Suffix(wanted[n..], kept))
            && Entry(k, v) in kept
  {
    var wanted := Without(es, k) + [Entry(k, v)];
    TrimIsLongest(wanted, maxEntries, maxBytes, n);
    TrimIsLongest(wanted, maxEntries, maxBytes, |wanted| - 1);
    assert wanted[|wanted| - 1..] == [Entry(k, v)];
    assert Size([Entry(k, v)]) == |v|;
  }

  lemma StepsKeepValid(es: seq<Entry>, maxEntries: nat, maxBytes: nat, k: Key, v: Bytes)
    requires Distinct(es) && Fits(es, maxEntries, maxBytes)
    ensures var got := GetStep(es, k).0; Distinct(got) && Fits(got, maxEntries, maxBytes)
    ensures var put := PutStep(es, maxEntries, maxBytes, k, v);
            Distinct(put) && Fits(put, maxEntries, maxBytes)
  {
    if Find(es, k).Some? { MoveToEnd(es, k); }
    if |v| <= maxBytes {
      Removed(es, k);
      WithoutMembers(es, k);
      Appended(Without(es, k), Entry(k, v));
      TrimIsLongest(Without(es, k) + [Entry(k, v)], maxEntries, maxBytes, 0);
    }
  }

  // ---------------------------------------------------------------- whole runs

  datatype Op = Get(key: Key) | Put(key: Key, value: Bytes)

  function Apply(es: seq<Entry>, maxEntries: nat, maxBytes: nat, op: Op): seq<Entry> {
    match op
    case Get(k) => GetStep(es, k).0
    case Put(k, v) => PutStep(es, maxEntries, maxBytes, k, v)
  }

  /** The entries after a run that starts from an empty cache. */
  function After(maxEntries: nat, maxBytes: nat, ops: seq<Op>): seq<Entry> {
    if ops == [] then []
    else Apply(After(maxEntries, maxBytes, ops[..|ops| - 1]), maxEntries, maxBytes, ops[|ops| - 1])
  }

  /** The value of the last `put` of a key that was small enough to be accepted. */
  function LastAccepted(maxBytes: nat, ops: seq<Op>, k: Key): Option<Bytes> {
    if ops == [] then None
    else
      var last := ops[|ops| - 1];
      if last.Put? && last.key == k && |last.value| <= maxBytes then Some(last.value)
      else LastAccepted(maxBytes, ops[..|ops| - 1], k)
  }

  lemma {:induction false} RunKeepsValid(maxEntries: nat, maxBytes: nat, ops: seq<Op>)
    ensures Distinct(After(maxEntries, maxBytes, ops)) && Fits(After(maxEntries, maxBytes, ops), maxEntries, maxBytes)
  {
    if ops != [] {
      RunKeepsValid(maxEntries, maxBytes, ops[..|ops| - 1]);
      var last := ops[|ops| - 1];
      StepsKeepValid(After(maxEntries, maxBytes, ops[..|ops| - 1]), maxEntries, maxBytes, last.key,
                     if last.Put? then last.value else []);
    }
  }

  /** In every run `get` returns the last accepted `put` of its key, or nothing. */
  lemma {:induction false} GetReturnsLastAccepted(maxEntries: nat, maxBytes: nat, ops: seq<Op>, k: Key)
    ensures var r := GetStep(After(maxEntries, maxBytes, ops), k).1;
            r == None || r == LastAccepted(maxBytes, ops, k)
  {
    if ops != [] {
      var before, last := ops[..|ops| - 1], ops[|ops| - 1];
      var es, es' := After(maxEntries, maxBytes, before), After(maxEntries, maxBytes, ops);
      GetReturnsLastAccepted(maxEntries, maxBytes, before, k);
      RunKeepsValid(maxEntries, maxBytes, before);
      RunKeepsValid(maxEntries, maxBytes, ops);
      FindIn(es', k);
      if Find(es', k).Some? {
        var e := Entry(k, Find(es', k).value);
        EntryComesFrom(es, maxEntries, maxBytes, last, e);
        if e in es { FindThe(es, e); }
      }
    }
  }

  /** An entry after one operation was there before, or is the one just put. */
  lemma EntryComesFrom(es: seq<Entry>, maxEntries: nat, maxBytes: nat, op: Op, e: Entry)
    requires Distinct(es) && e in Apply(es, maxEntries, maxBytes, op)
    ensures if op.Put? && op.key == e.key && |op.value| <= maxBytes then e.value == op.value else e in es
  {
    FindIn(es, op.key);
    WithoutMembers(es, op.key);
    if op.Put? && |op.value| <= maxBytes {
      var wanted := Without(es, op.key) + [Entry(op.key, op.value)];
      TrimIsLongest(wanted, maxEntries, maxBytes, 0);
      assert e in wanted;
    }
  }

  /** Conservation: insertions of absent keys are the entries still here plus the evictions. */
  datatype Tally = Tally(inserted: int, evicted: int)

  function Count(maxEntries: nat, maxBytes: nat, ops: seq<Op>): Tally {
    if ops == [] then Tally(0, 0)
    else
      var before, last := ops[..|ops| - 1], ops[|ops| - 1];
      var t, es := Count(maxEntries, maxBytes, before), After(maxEntries, maxBytes, before);
      if last.Get? || |last.value| > maxBytes then t
      else Tally(t.inserted + (if Find(es, last.key).None? then 1 else 0),
                 t.evicted + |Without(es, last.key)| + 1 - |After(maxEntries, maxBytes, ops)|)
  }

  lemma {:induction false} Conservation(maxEntries: nat, maxBytes: nat, ops: seq<Op>)
    ensures var t := Count(maxEntries, maxBytes, ops);
            t.inserted == |After(maxEntries, maxBytes, ops)| + t.evicted
  {
    if ops != [] {
      var before := ops[..|ops| - 1];
      Conservation(maxEntries, maxBytes, before);
      RunKeepsValid(maxEntries, maxBytes, before);
      var es, k := After(maxEntries, maxBytes, before), ops[|ops| - 1].key;
      Removed(es, k);
      if Find(es, k).Some? { MoveToEnd(es, k); }
    }
  }

  /** The same run on a cache object: its counters are those of the run. */
  method Perform(cache: ShardCache, ops: seq<Op>)
    requires cache.Valid() && cache.entries == [] && cache.evictions == 0
    modifies cache
    ensures cache.Valid() && cache.entries == After(cache.maxEntries, cache.maxBytes, ops)
    ensures cache.evictions == Count(cache.maxEntries, cache.maxBytes, ops).evicted
    ensures Count(cache.maxEntries, cache.maxBytes, ops).inserted == |cache.entries| + cache.evictions
  {
    for i := 0 to |ops|
      invariant cache.Valid() && cache.entries == After(cache.maxEntries, cache.maxBytes, ops[..i])
      invariant cache.evictions == Count(cache.maxEntries, cache.maxBytes, ops[..i]).evicted
    {
      assert ops[..i + 1][..i] == ops[..i] && ops[..i + 1][i] == ops[i];
      match ops[i] {
        case Get(k) => var _ := cache.Get(k);
        case Put(k, v) => cache.Put(k, v);
      }
    }
    assert ops[..|ops|] == ops;
    Conservation(cache.maxEntries, cache.maxBytes, ops);
  }
}
