/** Length-prefixed frames of src/telepath/transport.py. */
module Framing {
  import opened Hashing

  const MAX_FRAME: nat := 4 * 1024 * 1024
  const HEADER: nat := 4

  /** `struct.pack(">I", n)` */
  function Pack(n: nat): (h: Bytes)
    requires n < 0x1_0000_0000
    ensures |h| == HEADER
  {
    [n / 0x100_0000, n / 0x1_0000 % 0x100, n / 0x100 % 0x100, n % 0x100]
  }

  function Unpack(h: Bytes): nat
    requires |h| == HEADER
  {
    (h[0] as int) * 0x100_0000 + (h[1] as int) * 0x1_0000 + (h[2] as int) * 0x100 + h[3]
  }

  predicate Legal(body: Bytes) { 0 < |body| <= MAX_FRAME }

  function Frame(body: Bytes): Bytes
    requires Legal(body)
  {
    Pack(|body|) + body
  }

  function Frames(bodies: seq<Bytes>): Bytes
    requires forall i :: 0 <= i < |bodies| ==> Legal(bodies[i])
  {
    if bodies == [] then [] else Frame(bodies[0]) + Frames(bodies[1..])
  }

  /** What `recv_frame` makes of the bytes that have arrived so far. */
  datatype Taken = Waiting | Refused(size: nat) | Got(body: Bytes, rest: Bytes)

  function Take(stream: Bytes): Taken {
    if |stream| < HEADER then Waiting
    else
      var size := Unpack(stream[..HEADER]);
      if size <= 0 || size > MAX_FRAME then Refused(size)
      else if |stream| < HEADER + size then Waiting
      else Got(stream[HEADER..HEADER + size], stream[HEADER + size..])
  }

  /** Every frame that can be read, and what is then left. */
  function TakeAll(stream: Bytes): (seq<Bytes>, Bytes)
    decreases |stream|
  {
    match Take(stream)
    case Got(body, rest) =>
      var (bodies, left) := TakeAll(rest);
      ([body] + bodies, left)
    case _ => ([], stream)
  }

  class Connection {
    /** Bytes written by one end and not yet read by the other. */
    var stream: Bytes

    constructor ()
      ensures stream == []
    {
      stream := [];
    }

    /** `send_frame`: false where it raises ValueError. */
    method Send(body: Bytes) returns (ok: bool)
      modifies this
      ensures ok <==> Legal(body)
      ensures stream == old(stream) + (if Legal(body) then Frame(body) else [])
    {
      if body == [] || |body| > MAX_FRAME { return false; }
      stream := stream + (Pack(|body|) + body);
      return true;
    }

    /** `recv_frame`: a complete frame is consumed, a refused one costs its header. */
    method Receive() returns (r: Taken)
      modifies this
      ensures r == Take(old(stream))
      ensures stream == match r
                        case Waiting => old(stream)
                        case Refused(_) => old(stream)[HEADER..]
                        case Got(_, rest) => rest
    {
      if |stream| < HEADER { return Waiting; }
      var size := Unpack(stream[..HEADER]);
      if size <= 0 || size > MAX_FRAME {
        stream := stream[HEADER..];
        return Refused(size);
      }
      if |stream| < HEADER + size { return Waiting; }
      r := Got(stream[HEADER..HEADER + size], stream[HEADER + size..]);
      stream := r.rest;
    }
  }

  lemma PackUnpacks(n: nat)
    requires n < 0x1_0000_0000
    ensures Unpack(Pack(n)) == n
  {
  }

  lemma UnpackPacks(h: Bytes)
    requires |h| == HEADER
    ensures Unpack(h) < 0x1_0000_0000 && Pack(Unpack(h)) == h
  {
    var n := Unpack(h);
    assert n / 0x100 == (h[0] as int) * 0x1_0000 + (h[1] as int) * 0x100 + h[2];
    assert n / 0x1_0000 == (h[0] as int) * 0x100 + h[1];
    assert n / 0x100_0000 == h[0];
  }

  /** A frame is read back exactly, whatever follows it. */
  lemma TakesFrame(body: Bytes, more: Bytes)
    requires Legal(body)
    ensures Take(Frame(body) + more) == Got(body, more)
  {
    PackUnpacks(|body|);
    var s := Frame(body) + more;
    assert s[..HEADER] == Pack(|body|);
    assert s[HEADER..HEADER + |body|] == body && s[HEADER + |body|..] == more;
  }

  /** No proper prefix of a frame decodes, and none is refused. */
  lemma PrefixWaits(body: Bytes, k: nat)
    requires Legal(body) && k < |Frame(body)|
    ensures Take(Frame(body)[..k]) == Waiting
  {
    PackUnpacks(|body|);
    if k >= HEADER { assert Frame(body)[..k][..HEADER] == Pack(|body|); }
  }

  /** Any list of legal bodies comes back, in order and complete, from the concatenation of their
      frames, also when the start of one more frame has already arrived. */
  lemma {:induction false} FramesRoundTrip(bodies: seq<Bytes>, next: Bytes, k: nat)
    requires forall i :: 0 <= i < |bodies| ==> Legal(bodies[i])
    requires Legal(next) && k < |Frame(next)|
    ensures TakeAll(Frames(bodies) + Frame(next)[..k]) == (bodies, Frame(next)[..k])
  {
    var tail := Frame(next)[..k];
    if bodies == [] {
      assert Frames(bodies) + tail == tail;
      PrefixWaits(next, k);
    } else {
      var rest := Frames(bodies[1..]) + tail;
      assert Frames(bodies) + tail == Frame(bodies[0]) + rest;
      TakesFrame(bodies[0], rest);
      FramesRoundTrip(bodies[1..], next, k);
      assert [bodies[0]] + bodies[1..] == bodies;
    }
  }

  /** What is read is what was framed: only the frame of `body` decodes to `body`. */
  lemma OnlyFramesDecode(stream: Bytes)
    ensures match Take(stream)
            case Got(body, rest) => Legal(body) && stream == Frame(body) + rest
            case _ => true
  {
    if Take(stream).Got? {
      var body := Take(stream).body;
      UnpackPacks(stream[..HEADER]);
      assert stream == stream[..HEADER] + body + Take(stream).rest;
    }
  }

  /** How the bytes were cut into segments makes no difference: an answer stands when more arrive. */
  lemma SegmentsDoNotMatter(stream: Bytes, more: Bytes)
    ensures match Take(stream)
            case Waiting => true
            case Refused(size) => Take(stream + more) == Refused(size)
            case Got(body, rest) => Take(stream + more) == Got(body, rest + more)
  {
    if |stream| >= HEADER { assert (stream + more)[..HEADER] == stream[..HEADER]; }
    if Take(stream).Got? {
      OnlyFramesDecode(stream);
      TakesFrame(Take(stream).body, Take(stream).rest + more);
      assert stream + more == Frame(Take(stream).body) + (Take(stream).rest + more);
    }
  }

  /** The receiver refuses a header exactly when the sender refuses a body of that length. */
  lemma SameLengthsRefused(body: Bytes)
    requires |body| < 0x1_0000_0000
    ensures Take(Pack(|body|) + body) == Refused(|body|) <==> !Legal(body)
  {
    PackUnpacks(|body|);
    assert (Pack(|body|) + body)[..HEADER] == Pack(|body|);
  }
}
