/** The serving half of src/telepath/node.py as a function of its state: one connection is one
    step. Every value the node draws from outside (clock readings, fresh names, the outcome of a
    disk read) is an input of the step. */
module TelepathServer {
  import opened Hashing
  import opened Outcomes
  import opened Protocol
  import opened ReplayCache
  import opened Sessions
  import opened AccessList
  import Base64
  import Framing

  /** What the vault says of a model it has published. */
  datatype Published = Published(shards: seq<Bytes>, sizeBytes: nat, merkleRoot: Bytes, fileSha: Bytes)
  type Vault = map<ModelId, Published>

  function ShardsOf(vault: Option<Vault>, model: ModelId): Option<seq<Bytes>> {
    if vault.Some? && model in vault.value then Some(vault.value[model].shards) else None
  }

  /** `envelope` is the length of a message's JSON form apart from its braces and its base64 text. */
  datatype Config = Config(limits: Limits, maxSessions: nat, hash: Hash, envelope: Message -> nat)

  datatype Server = Server(pub: PubKey, seen: Table, registry: seq<View>, vault: Option<Vault>,
                           acl: Option<Rules>)

  /** How a shard's files look when they are read. `Undecryptable` is a key or tag that AES-GCM
      rejects, which no handler catches: the connection closes without a reply. */
  datatype Disk = Intact | Unreadable | Undecryptable

  datatype Inputs = Inputs(checkedAt: real, acceptedAt: real, gcAt: real, useAt: real, sentAt: real,
                           sid: SessionId, replyNonce: string, disk: Disk)

  datatype Read = Plain(data: Bytes) | Unavailable | Crash

  /** `read_shard_plaintext` on a published model. */
  function ReadShard(vault: Option<Vault>, model: ModelId, index: int, disk: Disk): Read {
    if vault.None? || model !in vault.value then Crash
    else if !(0 <= index < |vault.value[model].shards|) then Unavailable
    else match disk
         case Intact => Plain(vault.value[model].shards[index])
         case Unreadable => Unavailable
         case Undecryptable => Crash
  }

  /** The length of the body that `send_frame` is given for a message: the braces, the envelope, which does not
      depend on the bytes of a shard, and the shard in base64. */
  function BodySize(cfg: Config, m: Message): nat {
    if m.payload.ShardData? then
      2 + cfg.envelope(m.(payload := m.payload.(data := []))) + |Base64.Encode(m.payload.data)|
    else 2 + cfg.envelope(m)
  }

  predicate Sendable(cfg: Config, m: Message) { BodySize(cfg, m) <= Framing.MAX_FRAME }

  /** A reply that `send_frame` refuses closes the connection unanswered. */
  function Sent(cfg: Config, m: Message): Option<Message> { if Sendable(cfg, m) then Some(m) else None }

  /** The session a SESSION_OPEN asks for; a missing budget or lifetime has a default. */
  function Made(vault: Vault, sender: PubKey, p: Payload, x: Inputs): View
    requires p.SessionOpen? && p.model in vault
  {
    View(x.sid, sender, p.model, p.purpose,
         if p.budget.Some? then p.budget.value else |vault[p.model].shards|, 0, x.useAt,
         if p.ttl.Some? then p.ttl.value else 600.0)
  }

  function OpenSession(s: Server, cfg: Config, sender: PubKey, p: Payload, x: Inputs): (Server, Payload)
    requires p.SessionOpen?
  {
    if s.vault.None? then (s, SessionDeny(p.model, NoVault))
    else if p.model !in s.vault.value then (s, SessionDeny(p.model, NotFound))
    else if s.acl.Some? && !IsAllowed(s.acl.value, p.model, sender) then (s, SessionDeny(p.model, AclDenied))
    else
      var published := s.vault.value[p.model];
      var (registry, r) := OpenStep(s.registry, cfg.maxSessions, Made(s.vault.value, sender, p, x), x.gcAt);
      match r
      case Err(e) => (s.(registry := registry), SessionDeny(p.model, e))
      case Ok(v) =>
        (s.(registry := registry),
         SessionAccept(v.id, p.model, |published.shards|, published.sizeBytes, published.merkleRoot,
                       published.fileSha, map[]))
  }

  function ServeShard(s: Server, cfg: Config, sender: PubKey, p: Payload, x: Inputs): (Server, Option<Payload>)
    requires p.RequestShard?
  {
    var (registry, r) := UseStep(s.registry, p.sid, sender, x.gcAt, x.useAt);
    var s' := s.(registry := registry);
    match r
    case None => (s', Some(ShardDeny(p.index, InvalidSession)))
    case Some(v) =>
      match ReadShard(s.vault, v.model, p.index, x.disk)
      case Plain(data) => (s', Some(ShardData(v.model, p.index, cfg.hash(data), data)))
      case Unavailable => (s', Some(ShardDeny(p.index, ShardUnavailable)))
      case Crash => (s', None)
  }

  function Dispatch(s: Server, cfg: Config, m: Message, x: Inputs): (Server, Option<Payload>) {
    match m.payload
    case Hello => (s, Some(Hello))
    case SessionOpen(_, _, _, _) =>
      var (s', p) := OpenSession(s, cfg, m.sender, m.payload, x);
      (s', Some(p))
    case RequestShard(_, _) => ServeShard(s, cfg, m.sender, m.payload, x)
    case RamBroadcast(key, _) => (s, Some(Ack(key)))
    case _ => (s, Some(Error(Unsupported)))
  }

  /** One connection: check, remember the nonce, dispatch, and bind the reply to the request. */
  function HandleConnection(s: Server, cfg: Config, m: Message, signed: bool, x: Inputs): (Server, Option<Message>) {
    match Verify(m, signed, x.checkedAt, cfg.limits.skew)
    case Some(reason) => (s, Sent(cfg, Reply(s, m, Error(reason), x)))
    case None =>
      var (seen, fresh_) := AcceptStep(s.seen, cfg.limits.ttl, cfg.limits.maxEntries, (m.sender, m.nonce),
                                       x.acceptedAt);
      if !fresh_ then (s.(seen := seen), Sent(cfg, Reply(s, m, Error(Replayed), x)))
      else
        var (s', p) := Dispatch(s.(seen := seen), cfg, m, x);
        (s', if p.Some? then Sent(cfg, Reply(s, m, p.value, x)) else None)
  }

  function Reply(s: Server, m: Message, p: Payload, x: Inputs): Message {
    Message(s.pub, x.replyNonce, Time(x.sentAt), p, Some(m.nonce))
  }

  // ---------------------------------------------------------------- runs

  /** A connection, a change of the allowlist, or a manifest written to the vault, which replaces one that was
      there. */
  datatype Event =
    | Arrive(message: Message, signed: bool, x: Inputs)
    | SetRules(rules: Rules)
    | Publish(model: ModelId, published: Published)

  function Step(s: Server, cfg: Config, e: Event): (Server, Option<Message>) {
    match e
    case Arrive(m, signed, x) => HandleConnection(s, cfg, m, signed, x)
    case SetRules(rules) => (if s.acl.Some? then s.(acl := Some(rules)) else s, None)
    case Publish(model, published) =>
      (if s.vault.Some? then s.(vault := Some(s.vault.value[model := published])) else s, None)
  }

  function After(s: Server, cfg: Config, es: seq<Event>): Server {
    if es == [] then s else Step(After(s, cfg, es[..|es| - 1]), cfg, es[|es| - 1]).0
  }

  /** The reply to the i-th event of a run. */
  function ReplyAt(s: Server, cfg: Config, es: seq<Event>, i: nat): Option<Message>
    requires i < |es|
  {
    Step(After(s, cfg, es[..i]), cfg, es[i]).1
  }

  // ---------------------------------------------------------------- which replies can be sent

  /** The frame of a body of that length is legal exactly for a sendable message, and is read back whole. */
  lemma SendableIsLegal(cfg: Config, m: Message, body: Bytes)
    requires |body| == BodySize(cfg, m)
    ensures Framing.Legal(body) <==> Sendable(cfg, m)
    ensures Sendable(cfg, m) ==> Framing.Take(Framing.Frame(body)) == Framing.Got(body, [])
  {
    if Sendable(cfg, m) {
      Framing.TakesFrame(body, []);
      assert Framing.Frame(body) + [] == Framing.Frame(body);
    }
  }

  /** Exactly which shards a node can send: with `room` symbols left in the frame, those of at most three
      bytes for every four symbols. */
  lemma ShardSendableIff(cfg: Config, m: Message)
    requires m.payload.ShardData?
    requires 2 + cfg.envelope(m.(payload := m.payload.(data := []))) <= Framing.MAX_FRAME
    ensures var room := Framing.MAX_FRAME - 2 - cfg.envelope(m.(payload := m.payload.(data := [])));
      Sendable(cfg, m) <==> |m.payload.data| <= room / 4 * 3
  {
    hide Base64.Encode;
    Base64.EncodedLength(m.payload.data);
    FitsIff(|m.payload.data|, Framing.MAX_FRAME - 2 - cfg.envelope(m.(payload := m.payload.(data := []))));
  }

  lemma FitsIff(n: nat, room: nat)
    ensures 4 * ((n + 2) / 3) <= room <==> n <= room / 4 * 3
  {
  }

  /** Every shard of the default size can be sent in an envelope of up to 2,796,200 bytes, braces included. */
  lemma DefaultShardSendable(cfg: Config, m: Message)
    requires m.payload.ShardData? && |m.payload.data| <= Base64.SHARD_SIZE
    requires 2 + cfg.envelope(m.(payload := m.payload.(data := []))) <= 2_796_200
    ensures Sendable(cfg, m)
  {
    Base64.ShardTextLength(m.payload.data);
  }
}
