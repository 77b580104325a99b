/** The requesting half of src/telepath/node.py: which replies are accepted, and what a pull makes
    of them. */
module TelepathClient {
  import opened Hashing
  import opened Outcomes
  import opened Protocol

  datatype Failure = Lost | BadReply(reason: Reason) | UnexpectedSender | NotForThisRequest
                   | Denied | HashMismatch | WrongFile | DiskError | ReceiptFailed

  /** What came back on a connection: nothing, or a message, what its signature check says, and
      the clock when it is checked. */
  datatype Received = Nothing | Received(message: Message, signed: bool, now: real)

  /** The checks of `_request`. */
  function CheckReply(r: Received, expected: PubKey, nonce: string, skew: real): Result<Payload, Failure> {
    if r.Nothing? then Err(Lost)
    else match Verify(r.message, r.signed, r.now, skew)
         case Some(reason) => Err(BadReply(reason))
         case None =>
           if r.message.sender != expected then Err(UnexpectedSender)
           else if r.message.requestNonce != Some(nonce) then Err(NotForThisRequest)
           else Ok(r.message.payload)
  }

  /** The checks of `fetch_shard` on an accepted reply. The index in the reply is not compared. */
  function ShardBytes(hash: Hash, p: Payload): Result<Bytes, Failure> {
    if !p.ShardData? then Err(Denied)
    else if hash(p.data) != p.plaintextHash then Err(HashMismatch)
    else Ok(p.data)
  }

  function ReceiveShard(hash: Hash, r: Received, expected: PubKey, nonce: string, skew: real): Result<Bytes, Failure> {
    match CheckReply(r, expected, nonce, skew)
    case Err(f) => Err(f)
    case Ok(p) => ShardBytes(hash, p)
  }

  /** What `fetch_shard` takes in: the bytes of a timely, signed SHARD_DATA of the peer that carries the nonce of the
      request, and only with the digest that it states for them. */
  lemma ReceivedIff(hash: Hash, r: Received, expected: PubKey, nonce: string, skew: real, data: Bytes)
    ensures ReceiveShard(hash, r, expected, nonce, skew) == Ok(data) <==>
      && r.Received? && !OutOfWindow(r.now, r.message.ts, skew) && |r.message.nonce| >= 16 && r.signed
      && r.message.sender == expected && r.message.requestNonce == Some(nonce)
      && r.message.payload.ShardData? && r.message.payload.data == data && r.message.payload.plaintextHash == hash(data)
  {
  }

  /** Otherwise the first check that fails is what is wrong. */
  lemma NotReceived(hash: Hash, r: Received, expected: PubKey, nonce: string, skew: real)
    ensures var f := ReceiveShard(hash, r, expected, nonce, skew);
      && (r.Nothing? ==> f == Err(Lost))
      && (r.Received? ==>
            var m, late := r.message, OutOfWindow(r.now, r.message.ts, skew);
            && (late ==> f == Err(BadReply(BadWindow)))
            && (!late && |m.nonce| < 16 ==> f == Err(BadReply(BadNonce)))
            && (!late && |m.nonce| >= 16 && !r.signed ==> f == Err(BadReply(BadSignature)))
            && (!late && |m.nonce| >= 16 && r.signed ==>
                  var ours, p := m.requestNonce == Some(nonce), m.payload;
                  && (m.sender != expected ==> f == Err(UnexpectedSender))
                  && (m.sender == expected && !ours ==> f == Err(NotForThisRequest))
                  && (m.sender == expected && ours && !p.ShardData? ==> f == Err(Denied))
                  && (m.sender == expected && ours && p.ShardData? && p.plaintextHash != hash(p.data) ==>
                        f == Err(HashMismatch))))
  {
  }

  /** `if expected and digest != expected`: an announced digest that the file does not have. */
  predicate Mismatched(hash: Hash, fileSha: Bytes, data: Bytes) {
    fileSha != [] && hash(data) != fileSha
  }
}
