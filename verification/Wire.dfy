/**
 * The incremental WebSocket reader and the frame writer (e2e/harness/websocket-wire.ts), as functions on byte strings.
 * Inflating, UTF-8 plus JSON parsing, and reading the extension header are parameters.
 */
module Wire {
  import opened Wrappers
  import opened Bytes
  import Json

  /** The library calls: inflate a message, parse its bytes, read the extension out of the response head. */
  datatype Codec = Codec(
    inflate: seq<byte> -> Option<seq<byte>>,
    parse: seq<byte> -> Option<Json.Json>,
    extensionOf: seq<byte> -> string)

  datatype WireFrame = WireFrame(value: Json.Json, compressed: bool, wireBytes: nat, decodedBytes: nat)

  /** The message being put together, and the messages reported so far. */
  datatype Assembly = Assembly(fragments: seq<seq<byte>>, compressed: bool, wireBytes: nat, frames: seq<WireFrame>)

  datatype Wire = Wire(buffer: seq<byte>, upgraded: bool, extension: string, assembly: Assembly)

  const START := Wire([], false, "", Assembly([], false, 0, []))

  datatype Problem = UpgradeRefused | FrameTooLarge | BadMessage

  /** The state a handler leaves, and the error it throws if it throws. */
  datatype Outcome = Outcome(wire: Wire, problem: Option<Problem>)

  const MAX_FRAME: nat := 16 * 1024 * 1024
  /**
   * The four bytes the permessage-deflate sender left off, to be put back before inflating (RFC 7692 section 7.2.2).
   */
  const DEFLATE_TAIL: seq<byte> := [0, 0, 255, 255]
  const HEAD_END: seq<byte> := [13, 10, 13, 10]
  /** `HTTP/1.1 101` */
  const SWITCHING: seq<byte> := [72, 84, 84, 80, 47, 49, 46, 49, 32, 49, 48, 49]

  // ---------------------------------------------------------------- one frame

  datatype Decoded = Starved | TooLarge | One(first: byte, payload: seq<byte>, size: nat)

  /** The first frame in the buffer, in any of the three length forms (RFC 6455 section 5.2). */
  function Decode(b: seq<byte>): (d: Decoded)
    ensures d.One? ==> 2 <= d.size <= |b|
  {
    if |b| < 2 then Starved
    else
      var short := b[1] % 128;
      if short == 126 then (if |b| < 4 then Starved else DecodeBody(b, BigEndian(b[2..4]), 4))
      else if short == 127 then (if |b| < 10 then Starved else DecodeBody(b, BigEndian(b[2..10]), 10))
      else DecodeBody(b, short, 2)
  }

  function DecodeBody(b: seq<byte>, size: nat, offset: nat): (d: Decoded)
    requires 2 <= offset <= |b|
    ensures d.One? ==> 2 <= d.size <= |b|
  {
    if size > MAX_FRAME then TooLarge
    else if |b| < offset + size then Starved
    else One(b[0], b[offset..offset + size], offset + size)
  }

  /** A message put together, or the error decoding it throws. */
  datatype Accepted = Accepted(assembly: Assembly, problem: Option<Problem>)

  /** Decode a message whose last fragment has arrived. */
  function Finish(codec: Codec, a: Assembly): Accepted {
    var encoded := Concat(a.fragments);
    var decoded := if a.compressed then codec.inflate(encoded + DEFLATE_TAIL) else Some(encoded);
    if decoded.None? then Accepted(a, Some(BadMessage))
    else
      var value := codec.parse(decoded.value);
      if value.None? then Accepted(a, Some(BadMessage))
      else Accepted(a.(frames := a.frames + [WireFrame(value.value, a.compressed, a.wireBytes, |decoded.value|)]), None)
  }

  /** Take in one frame: control and binary frames are skipped, text fragments are collected. */
  function Accept(codec: Codec, a: Assembly, first: byte, payload: seq<byte>, size: nat): Accepted {
    var opcode := first % 16;
    if opcode != 0 && opcode != 1 then Accepted(a, None)
    else
      var begun := if opcode == 1 then Assembly([], (first / 64) % 2 == 1, 0, a.frames) else a;
      var taken := begun.(fragments := begun.fragments + [payload], wireBytes := begun.wireBytes + size);
      if first < 128 then Accepted(taken, None) else Finish(codec, taken)
  }

  // ---------------------------------------------------------------- the reader

  /** Take in every whole frame of the buffer. */
  function Drain(codec: Codec, w: Wire): Outcome
    decreases |w.buffer|
  {
    match Decode(w.buffer)
    case Starved => Outcome(w, None)
    case TooLarge => Outcome(w, Some(FrameTooLarge))
    case One(first, payload, size) =>
      var r := Accept(codec, w.assembly, first, payload, size);
      var next := w.(buffer := w.buffer[size..], assembly := r.assembly);
      if r.problem.Some? then Outcome(next, r.problem) else Drain(codec, next)
  }

  /** The response head, if it has all arrived, and what follows it. */
  datatype Hello = Waiting | Unexpected | Switching(head: seq<byte>, rest: seq<byte>)

  function Handshake(b: seq<byte>): Hello {
    var end := IndexOf(b, HEAD_END, 0);
    if end.None? then Waiting
    else if !(SWITCHING <= b[..end.value]) then Unexpected
    else Switching(b[..end.value], b[end.value + 4..])
  }

  /** One chunk off the socket: the handshake first, then frames. */
  function Receive(codec: Codec, w: Wire, chunk: seq<byte>): Outcome {
    var fed := w.(buffer := w.buffer + chunk);
    if fed.upgraded then Drain(codec, fed)
    else match Handshake(fed.buffer)
      case Waiting => Outcome(fed, None)
      case Unexpected => Outcome(fed, Some(UpgradeRefused))
      case Switching(head, rest) =>
        Drain(codec, fed.(extension := codec.extensionOf(head), buffer := rest, upgraded := true))
  }

  /** Chunks one after the other, up to the first error. */
  function Deliver(codec: Codec, w: Wire, chunks: seq<seq<byte>>): Outcome {
    if chunks == [] then Outcome(w, None)
    else
      var r := Deliver(codec, w, chunks[..|chunks| - 1]);
      if r.problem.Some? then r else Receive(codec, r.wire, chunks[|chunks| - 1])
  }

  // ---------------------------------------------------------------- where chunks are cut does not matter

  function Feed(w: Wire, more: seq<byte>): Wire { w.(buffer := w.buffer + more) }

  lemma DecodeMore(b: seq<byte>, more: seq<byte>)
    requires !Decode(b).Starved?
    ensures Decode(b + more) == Decode(b)
  {
    var all := b + more;
    if b[1] % 128 == 126 {
      assert all[2..4] == b[2..4];
      BodyMore(b, more, BigEndian(b[2..4]), 4);
    } else if b[1] % 128 == 127 {
      assert all[2..10] == b[2..10];
      BodyMore(b, more, BigEndian(b[2..10]), 10);
    } else {
      BodyMore(b, more, b[1] % 128, 2);
    }
  }

  lemma BodyMore(b: seq<byte>, more: seq<byte>, size: nat, offset: nat)
    requires 2 <= offset <= |b| && !DecodeBody(b, size, offset).Starved?
    ensures DecodeBody(b + more, size, offset) == DecodeBody(b, size, offset)
  {
    if size <= MAX_FRAME {
      assert (b + more)[offset..offset + size] == b[offset..offset + size];
    }
  }

  /**
   * Draining, then more bytes, then draining again is draining it all at once; an error leaves the bytes that follow
   * it.
   */
  lemma {:induction false} DrainMore(codec: Codec, w: Wire, more: seq<byte>)
    ensures var r := Drain(codec, w);
      Drain(codec, Feed(w, more)) ==
      if r.problem.None? then Drain(codec, Feed(r.wire, more)) else Outcome(Feed(r.wire, more), r.problem)
    decreases |w.buffer|
  {
    var d := Decode(w.buffer);
    if !d.Starved? {
      DecodeMore(w.buffer, more);
      if d.One? {
        assert (w.buffer + more)[d.size..] == w.buffer[d.size..] + more;
        var r := Accept(codec, w.assembly, d.first, d.payload, d.size);
        if r.problem.None? {
          DrainMore(codec, w.(buffer := w.buffer[d.size..], assembly := r.assembly), more);
        }
      }
    }
  }

  /**
   * Chunk invariance, on every byte string and from every state: receiving `a` then `b` is receiving `a + b`, wherever
   * the cut falls. When `a` alone throws, so does `a + b`, with the same error and the same state but for the bytes of
   * `b` left in the buffer.
   */
  lemma ChunkInvariance(codec: Codec, w: Wire, a: seq<byte>, b: seq<byte>)
    ensures var r := Receive(codec, w, a);
      Receive(codec, w, a + b) ==
      if r.problem.None? then Receive(codec, r.wire, b) else Outcome(Feed(r.wire, b), r.problem)
  {
    var fed := Feed(w, a);
    assert w.buffer + (a + b) == fed.buffer + b;
    assert Feed(w, a + b) == Feed(fed, b);
    if w.upgraded {
      DrainMore(codec, fed, b);
      DrainUpgraded(codec, fed);
    } else {
      var hello := Handshake(fed.buffer);
      HandshakeMore(fed.buffer, b);
      if hello.Switching? {
        var up := fed.(extension := codec.extensionOf(hello.head), buffer := hello.rest, upgraded := true);
        DrainMore(codec, up, b);
        DrainUpgraded(codec, up);
      }
    }
  }

  lemma HandshakeMore(b: seq<byte>, more: seq<byte>)
    ensures match Handshake(b)
            case Waiting => true
            case Unexpected => Handshake(b + more) == Unexpected
            case Switching(head, rest) => Handshake(b + more) == Switching(head, rest + more)
  {
    var end := IndexOf(b, HEAD_END, 0);
    if end.Some? {
      IndexOfPrefix(b, more, HEAD_END, 0);
      assert (b + more)[..end.value] == b[..end.value];
      assert (b + more)[end.value + 4..] == b[end.value + 4..] + more;
    }
  }

  lemma {:induction false} DrainUpgraded(codec: Codec, w: Wire)
    ensures Drain(codec, w).wire.upgraded == w.upgraded
    ensures w.assembly.frames <= Drain(codec, w).wire.assembly.frames
    decreases |w.buffer|
  {
    var d := Decode(w.buffer);
    if d.One? {
      var r := Accept(codec, w.assembly, d.first, d.payload, d.size);
      if r.problem.None? {
        DrainUpgraded(codec, w.(buffer := w.buffer[d.size..], assembly := r.assembly));
      }
    }
  }

  /** However a byte string is cut into chunks, the reader ends in the same state, with the same error if any. */
  lemma {:induction false} AnyChunking(codec: Codec, w: Wire, chunks: seq<seq<byte>>)
    requires chunks != []
    ensures var r, whole := Deliver(codec, w, chunks), Receive(codec, w, Concat(chunks));
      && r.problem == whole.problem
      && r.wire.(buffer := []) == whole.wire.(buffer := [])
      && (whole.problem.None? ==> r.wire == whole.wire)
  {
    var init, last := chunks[..|chunks| - 1], chunks[|chunks| - 1];
    if init == [] {
      assert Concat(chunks) == last;
    } else {
      AnyChunking(codec, w, init);
      ChunkInvariance(codec, w, Concat(init), last);
    }
  }

  /** Receiving only ever appends messages. */
  lemma ReceiveAppends(codec: Codec, w: Wire, chunk: seq<byte>)
    ensures w.assembly.frames <= Receive(codec, w, chunk).wire.assembly.frames
  {
    var fed := Feed(w, chunk);
    DrainUpgraded(codec, fed);
    var hello := Handshake(fed.buffer);
    if hello.Switching? {
      DrainUpgraded(codec, fed.(extension := codec.extensionOf(hello.head), buffer := hello.rest, upgraded := true));
    }
  }
}
