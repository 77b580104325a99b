/** Telepath messages and their freshness check, src/telepath/protocol.py. */
module Protocol {
  import opened Hashing
  import opened Outcomes

  type PubKey = string
  type ModelId = string
  type SessionId = string

  const MAX_SKEW: real := 300.0
  const MIN_NONCE_LENGTH: nat := 16

  datatype Reason = BadWindow | BadNonce | BadSignature | Replayed | Unsupported
                  | NoVault | NotFound | AclDenied | OutOfBounds
                  | InvalidSession | ShardUnavailable

  /** A value in a JSON object: as far as a pull's report shows them. */
  datatype Value = Text(text: string) | Number(number: int) | Digest(bytes: Bytes) | FilePath(path: seq<string>)
                 | Null | Nested(json: string)

  /** One constructor per message kind that the node reads or writes. A SESSION_ACCEPT keeps the keys that the
      node does not write itself in `extras`: what else the object holds is up to its sender. */
  datatype Payload =
    | Hello
    | SessionOpen(model: ModelId, purpose: string, budget: Option<int>, ttl: Option<real>)
    | SessionAccept(sid: SessionId, model: ModelId, nShards: nat, sizeBytes: nat, merkleRoot: Bytes,
                    fileSha: Bytes, extras: map<string, Value>)
    | SessionDeny(model: ModelId, reason: Reason)
    | RequestShard(sid: SessionId, index: int)
    | ShardData(model: ModelId, index: int, plaintextHash: Bytes, data: Bytes)
    | ShardDeny(index: int, reason: Reason)
    | RamBroadcast(key: string, size: int)
    | Ack(key: string)
    | Error(reason: Reason)
    | Other(kind: string)

  /** A JSON number as Python reads it into a float. */
  datatype Stamp = Time(at: real) | Infinite | NotANumber

  /** What a signature covers. `requestNonce` is the echo that a reply carries. */
  datatype Message = Message(sender: PubKey, nonce: string, ts: Stamp, payload: Payload,
                             requestNonce: Option<string>)

  function Abs(x: real): real { if x < 0.0 then -x else x }

  /** `abs(now - ts) > skew`: no comparison holds of NaN. */
  predicate OutOfWindow(now: real, ts: Stamp, skew: real) {
    match ts
    case Time(at) => Abs(now - at) > skew
    case Infinite => true
    case NotANumber => false
  }

  /** The checks of `verify` in their order; `signed` is what the Ed25519 check says of `m`. */
  function Verify(m: Message, signed: bool, now: real, skew: real): Option<Reason> {
    if OutOfWindow(now, m.ts, skew) then Some(BadWindow)
    else if |m.nonce| < MIN_NONCE_LENGTH then Some(BadNonce)
    else if !signed then Some(BadSignature)
    else None
  }
}
