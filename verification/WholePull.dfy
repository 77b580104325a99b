/** A whole `pull_model` over a run of the node that serves it: when it ends with the file. */
module WholePull {
  import opened Hashing
  import opened Outcomes
  import opened Protocol
  import opened Sessions
  import opened TelepathServer
  import opened TelepathRuns
  import opened PullService
  import opened TelepathClient
  import opened TelepathNodes
  import ShardCache
  import EndToEnd

  /** A run `es` of a new node, in which event `first` opened `session`, for a model of `shards`, and event `at(i)` is
      the request for shard i, if there is one. */
  datatype Serving = Serving(start: Server, cfg: Config, es: seq<Event>, first: nat, session: View,
                             shards: seq<Bytes>, at: nat -> nat)

  function Before(v: Serving, k: nat): Server
    requires k <= |v.es|
  {
    After(v.start, v.cfg, v.es[..k])
  }

  ghost predicate Serves(v: Serving) {
    && v.start.registry == [] && v.start.seen == map[] && 0 <= v.cfg.limits.maxEntries
    && v.first < |v.es| && NothingReplaced(v.start, v.cfg, v.es)
    && TelepathRuns.Opened(Before(v, v.first), v.cfg, v.es[v.first]) == Some(v.session)
    && ShardsOf(Before(v, v.first).vault, v.session.model) == Some(v.shards)
  }

  /** What the node sends, if anything, is what comes back, signed and in time. */
  predicate Carries(cfg: Config, r: Received, sent: Option<Message>) {
    match sent
    case None => r.Nothing?
    case Some(m) => r.Received? && r.message == m && r.signed && !OutOfWindow(r.now, m.ts, cfg.limits.skew)
  }

  /** Exchange `e` is a request for shard i, in time, with a new nonce, whose answer is carried. */
  ghost predicate RequestFor(v: Serving, i: nat, e: Exchange) {
    var k := v.at(i);
    && v.first < k < |v.es| && InTime(v.start, v.cfg, v.es[..k], v.first, v.es[k], v.session)
    && var m, x := v.es[k].message, v.es[k].x;
    && m.payload.index == i && m.nonce == e.nonce && x.disk == Intact && |x.replyNonce| >= MIN_NONCE_LENGTH
    && Verify(m, v.es[k].signed, x.checkedAt, v.cfg.limits.skew).None?
    && !NonceSent(v.es[..k], NonceKey(v.es[k]))
    && Carries(v.cfg, e.received, Step(Before(v, k), v.cfg, v.es[k]).1)
  }

  /** The replay table has room for that request, and its reply fits into a frame. */
  ghost predicate HasRoom(v: Serving, i: nat) {
    var k := v.at(i);
    && i < |v.shards| && k < |v.es| && v.es[k].Arrive?
    && Recent(v.start, v.cfg, v.es[..k], v.es[k].x.acceptedAt) < v.cfg.limits.maxEntries
    && var p := ShardData(v.session.model, i, v.cfg.hash(v.shards[i]), v.shards[i]);
       Sendable(v.cfg, Reply(Before(v, k), v.es[k].message, p, v.es[k].x))
  }

  lemma {:induction false} PubStays(s: Server, cfg: Config, es: seq<Event>)
    ensures After(s, cfg, es).pub == s.pub
  {
    if es != [] {
      PubStays(s, cfg, es[..|es| - 1]);
      OnePub(After(s, cfg, es[..|es| - 1]), cfg, es[|es| - 1]);
    }
  }

  lemma OnePub(s: Server, cfg: Config, e: Event)
    ensures Step(s, cfg, e).0.pub == s.pub
  {
  }

  lemma PrefixKeeps(s: Server, cfg: Config, es: seq<Event>, k: nat)
    requires k <= |es| && NothingReplaced(s, cfg, es)
    ensures NothingReplaced(s, cfg, es[..k])
  {
    assert forall i :: 0 <= i < k ==> es[..k][..i] == es[..i] && es[..k][i] == es[i];
  }

  /** One request: its shard is received if and only if there is room. */
  lemma ReceivedIff(v: Serving, i: nat, e: Exchange)
    requires Serves(v) && i < |v.shards| && RequestFor(v, i, e)
    ensures var r := ReceiveShard(v.cfg.hash, e.received, v.start.pub, e.nonce, v.cfg.limits.skew);
      (r.Ok? <==> HasRoom(v, i)) && (r.Ok? ==> r.value == v.shards[i])
  {
    hide HandleConnection, InTime, Recent, Sendable, NothingReplaced, NonceSent, TelepathRuns.Opened;
    var k := v.at(i);
    assert v.es[..k][..v.first] == v.es[..v.first] && v.es[..k][v.first] == v.es[v.first];
    PrefixKeeps(v.start, v.cfg, v.es, k);
    PubStays(v.start, v.cfg, v.es[..k]);
    AskingInTime(v.start, v.cfg, v.es[..k], v.first, v.es[k], v.session);
    RequestServedIff(v.start, v.cfg, v.es[..k], v.first, v.es[k], v.session, v.shards);
  }

  lemma AskingInTime(s: Server, cfg: Config, es: seq<Event>, j: nat, e: Event, u: View)
    requires j < |es| && InTime(s, cfg, es, j, e, u)
    ensures Asking(e, u)
  {
  }

  // ---------------------------------------------------------------- all shards

  /** A client with its cache, about to pull. */
  datatype Client = Client(cache: seq<ShardCache.Entry>, maxEntries: nat, maxBytes: nat, attempt: Attempt)

  /** The first `n` shards of the pull. */
  function Upto(v: Serving, c: Client, n: nat): (seq<ShardCache.Entry>, Result<seq<Bytes>, Failure>) {
    FetchAll(c.cache, c.maxEntries, c.maxBytes, v.cfg, v.start.pub, v.session.model, 0, n, c.attempt.script)
  }

  function KeyOf(v: Serving, i: nat): ShardCache.Key { ShardCache.Key(v.start.pub, v.session.model, i) }

  /** The pull comes to shard i and does not find it in the cache. */
  predicate AsksFor(v: Serving, c: Client, i: nat) {
    Upto(v, c, i).1.Ok? && ShardCache.Find(Upto(v, c, i).0, KeyOf(v, i)).None?
  }

  /** What the pull asks for it asks for in time; the cache is truthful and the disk takes every chunk. */
  ghost predicate PullsInTime(v: Serving, c: Client) {
    && Serves(v) && EndToEnd.CacheTells(c.cache, v.start.pub, v.session.model, v.shards)
    && forall i :: 0 <= i < |v.shards| ==> ShardInTime(v, c, i)
  }

  ghost predicate ShardInTime(v: Serving, c: Client, i: nat) {
    At(c.attempt.script, i).written && (AsksFor(v, c, i) ==> RequestFor(v, i, At(c.attempt.script, i)))
  }

  ghost predicate AllHaveRoom(v: Serving, c: Client, n: nat) {
    forall i :: 0 <= i < n ==> RoomIfAsked(v, c, i)
  }

  ghost predicate RoomIfAsked(v: Serving, c: Client, i: nat) { AsksFor(v, c, i) ==> HasRoom(v, i) }

  lemma {:induction false} FetchOneMore(es: seq<ShardCache.Entry>, maxEntries: nat, maxBytes: nat, cfg: Config,
                                        peer: PubKey, model: ModelId, index: nat, count: nat, script: seq<Exchange>)
    requires index <= count
    ensures var (es1, r) := FetchAll(es, maxEntries, maxBytes, cfg, peer, model, index, count, script);
      FetchAll(es, maxEntries, maxBytes, cfg, peer, model, index, count + 1, script) ==
        if r.Err? then (es1, r)
        else
          var key, e := ShardCache.Key(peer, model, count), At(script, count);
          var (es2, got) := Fetch(es1, maxEntries, maxBytes, cfg, key, e);
          if got.Err? then (es2, Err(got.error))
          else if !e.written then (es2, Err(DiskError))
          else (es2, Ok(r.value + [got.value]))
    decreases count - index
  {
    hide Fetch;
    var (es1, got) := Fetch(es, maxEntries, maxBytes, cfg, ShardCache.Key(peer, model, index), At(script, index));
    if index == count {
      assert got.Ok? ==> [got.value] + [] == [] + [got.value];
    } else if got.Ok? && At(script, index).written {
      FetchOneMore(es1, maxEntries, maxBytes, cfg, peer, model, index + 1, count, script);
      var (es2, rest) := FetchAll(es1, maxEntries, maxBytes, cfg, peer, model, index + 1, count, script);
      var last := Fetch(es2, maxEntries, maxBytes, cfg, ShardCache.Key(peer, model, count), At(script, count)).1;
      if rest.Ok? && last.Ok? {
        assert [got.value] + (rest.value + [last.value]) == ([got.value] + rest.value) + [last.value];
      }
    }
  }

  /** Shard i fails with `f`, after all before it came: in the request, or when its chunk is written. */
  predicate FailsAt(es: seq<ShardCache.Entry>, maxEntries: nat, maxBytes: nat, cfg: Config, peer: PubKey,
                    model: ModelId, i: nat, script: seq<Exchange>, f: Failure) {
    var (es1, r) := FetchAll(es, maxEntries, maxBytes, cfg, peer, model, 0, i, script);
    var got := Fetch(es1, maxEntries, maxBytes, cfg, ShardCache.Key(peer, model, i), At(script, i)).1;
    r.Ok? && (got == Err(f) || (got.Ok? && !At(script, i).written && f == DiskError))
  }

  /** What stops the loop is the failure of one shard. */
  lemma {:induction false} FirstFailure(es: seq<ShardCache.Entry>, maxEntries: nat, maxBytes: nat, cfg: Config,
                                        peer: PubKey, model: ModelId, count: nat, script: seq<Exchange>, f: Failure)
    requires FetchAll(es, maxEntries, maxBytes, cfg, peer, model, 0, count, script).1 == Err(f)
    ensures exists i :: 0 <= i < count && FailsAt(es, maxEntries, maxBytes, cfg, peer, model, i, script, f)
  {
    hide Fetch;
    if count > 0 {
      FetchOneMore(es, maxEntries, maxBytes, cfg, peer, model, 0, count - 1, script);
      if FetchAll(es, maxEntries, maxBytes, cfg, peer, model, 0, count - 1, script).1.Err? {
        FirstFailure(es, maxEntries, maxBytes, cfg, peer, model, count - 1, script, f);
      } else {
        assert FailsAt(es, maxEntries, maxBytes, cfg, peer, model, count - 1, script, f);
      }
    }
  }

  /** One shard more, from the cache or from the node. */
  lemma FetchedIff(v: Serving, c: Client, es: seq<ShardCache.Entry>, i: nat, e: Exchange)
    requires Serves(v) && i < |v.shards| && EndToEnd.CacheTells(es, v.start.pub, v.session.model, v.shards)
    requires ShardCache.Find(es, KeyOf(v, i)).None? ==> RequestFor(v, i, e)
    ensures var (es1, r) := Fetch(es, c.maxEntries, c.maxBytes, v.cfg, KeyOf(v, i), e);
      && EndToEnd.CacheTells(es1, v.start.pub, v.session.model, v.shards) && (r.Ok? ==> r.value == v.shards[i])
      && (r.Ok? <==> (ShardCache.Find(es, KeyOf(v, i)).None? ==> HasRoom(v, i)))
  {
    hide ReceiveShard, RequestFor, HasRoom, Serves, ShardCache.PutStep, ShardCache.Find, EndToEnd.CacheTells;
    var miss := ShardCache.Find(es, KeyOf(v, i)).None?;
    if miss { ReceivedIff(v, i, e); }
    EndToEnd.GetFinds(es, KeyOf(v, i));
    EndToEnd.GetAndPutTell(es, c.maxEntries, c.maxBytes, KeyOf(v, i), v.shards[i], v.shards);
  }

  /** The first `n` shards are all there if and only if there was room for every one that was asked for. */
  lemma {:induction false} FetchesEndIff(v: Serving, c: Client, n: nat)
    requires PullsInTime(v, c) && n <= |v.shards|
    ensures EndToEnd.CacheTells(Upto(v, c, n).0, v.start.pub, v.session.model, v.shards)
    ensures Upto(v, c, n).1.Ok? <==> AllHaveRoom(v, c, n)
    ensures Upto(v, c, n).1.Ok? ==> Upto(v, c, n).1.value == v.shards[..n]
  {
    hide EndToEnd.CacheTells, Fetch, HasRoom, RequestFor, Serves;
    if n > 0 {
      FetchesEndIff(v, c, n - 1);
      var (es, r) := Upto(v, c, n - 1);
      assert ShardInTime(v, c, n - 1);
      FetchOneMore(c.cache, c.maxEntries, c.maxBytes, v.cfg, v.start.pub, v.session.model, 0, n - 1, c.attempt.script);
      assert AllHaveRoom(v, c, n) <==> AllHaveRoom(v, c, n - 1) && RoomIfAsked(v, c, n - 1);
      if r.Ok? {
        FetchedIff(v, c, es, n - 1, At(c.attempt.script, n - 1));
        assert v.shards[..n] == v.shards[..n - 1] + [v.shards[n - 1]];
        var got := Fetch(es, c.maxEntries, c.maxBytes, v.cfg, KeyOf(v, n - 1), At(c.attempt.script, n - 1)).1;
        assert got.Ok? <==> RoomIfAsked(v, c, n - 1);
      }
    }
  }

  // ---------------------------------------------------------------- the whole pull

  /** The pull opens the session: its request is event `first`, the node's answer is carried, and the node's manifest
      has the digest of its file. */
  ghost predicate OpensInTime(v: Serving, c: Client) {
    && Serves(v) && c.attempt.peer == v.start.pub && c.attempt.model == v.session.model
    && v.es[v.first].Arrive? && v.es[v.first].message.nonce == c.attempt.opening.nonce
    && |v.es[v.first].x.replyNonce| >= MIN_NONCE_LENGTH
    && Carries(v.cfg, c.attempt.opening.received, Step(Before(v, v.first), v.cfg, v.es[v.first]).1)
    && Before(v, v.first).vault.value[v.session.model].fileSha in {[], v.cfg.hash(Concat(v.shards))}
  }

  /** The node's SESSION_ACCEPT fits into a frame. */
  predicate AcceptFits(v: Serving)
    requires v.first < |v.es|
  {
    Step(Before(v, v.first), v.cfg, v.es[v.first]).1.Some?
  }

  lemma AcceptReceived(v: Serving, c: Client)
    requires OpensInTime(v, c)
    ensures TelepathNodes.Opened(v.cfg, c.attempt).Ok? <==> AcceptFits(v)
    ensures AcceptFits(v) ==>
      var p := TelepathNodes.Opened(v.cfg, c.attempt).value;
      p.SessionAccept? && p.nShards == |v.shards| && !Mismatched(v.cfg.hash, p.fileSha, Concat(v.shards))
  {
    hide HandleConnection, TelepathRuns.Opened, NothingReplaced;
    AcceptMeansOpened(Before(v, v.first), v.cfg, v.es[v.first]);
    PubStays(v.start, v.cfg, v.es[..v.first]);
  }

  /** A pull whose requests are all in time ends with the node's file in its target if and only if the accept and every
      reply it needs fit into a frame and the replay table has room for every request; the shards that come from the
      cache need neither. */
  lemma PullEndsIff(v: Serving, c: Client, es1: seq<ShardCache.Entry>, before: map<FilePath, Bytes>,
                    after: map<FilePath, Bytes>, r: Result<Report, Failure>)
    requires PullsInTime(v, c) && OpensInTime(v, c) && c.attempt.noted
    requires Pulled(v.cfg, c.maxEntries, c.maxBytes, c.attempt, c.cache, es1, before, after, r)
    ensures r.Ok? <==> AcceptFits(v) && AllHaveRoom(v, c, |v.shards|)
    ensures r.Ok? ==> var target := TargetFile(c.attempt.destination, c.attempt.model);
      target in after && after[target] == Concat(v.shards)
  {
    hide Serves, PullsInTime, OpensInTime, AllHaveRoom, AcceptFits, FetchAll, MakeReport, Mismatched,
         TelepathNodes.Opened, EndToEnd.CacheTells;
    PullOf(v, c);
    AcceptReceived(v, c);
    FetchesEndIff(v, c, |v.shards|);
    assert v.shards[..|v.shards|] == v.shards;
  }

  /** It is a pull of the session's model from the node of the run. */
  lemma PullOf(v: Serving, c: Client)
    requires OpensInTime(v, c)
    ensures c.attempt.peer == v.start.pub && c.attempt.model == v.session.model && v.first < |v.es|
  {
  }
}
