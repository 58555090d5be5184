/**
 * The reader and writer in their own form (e2e/harness/websocket-wire.ts): a buffer that `receive` appends to and eats
 * from in a loop, and a payload that `send` masks in place.
 */
module WebSocketWire {
  import opened Wrappers
  import opened Bytes
  import opened W = Wire
  import F = ClientFrame

  class WebSocketWire {
    const codec: Codec
    var frames: seq<WireFrame>
    var extension: string
    var error: Option<Problem>
    var buffer: seq<byte>
    var upgraded: bool
    var fragments: seq<seq<byte>>
    var compressed: bool
    var wireBytes: nat

    ghost function State(): W.Wire
      reads this
    {
      W.Wire(buffer, upgraded, extension, Assembly(fragments, compressed, wireBytes, frames))
    }

    constructor (codec: Codec)
      ensures State() == START && error.None? && this.codec == codec
    {
      this.codec := codec;
      frames, extension, error, buffer, upgraded := [], "", None, [], false;
      fragments, compressed, wireBytes := [], false, 0;
    }

    /** The socket's data handler: an error thrown by `Receive` is kept. */
    method OnData(chunk: seq<byte>)
      modifies this
      ensures var r := W.Receive(codec, old(State()), chunk);
        State() == r.wire && error == if r.problem.Some? then r.problem else old(error)
    {
      var problem := Receive(chunk);
      if problem.Some? {
        error := problem;
      }
    }

    /** Take in one chunk; the result is the error it throws, if any. */
    method Receive(chunk: seq<byte>) returns (problem: Option<Problem>)
      modifies this
      ensures Outcome(State(), problem) == W.Receive(codec, old(State()), chunk)
      ensures error == old(error)
    {
      buffer := buffer + chunk;
      if !upgraded {
        var end := IndexOf(buffer, HEAD_END, 0);
        if end.None? {
          return None;
        }
        var head := buffer[..end.value];
        if !(SWITCHING <= head) {
          return Some(UpgradeRefused);
        }
        extension := codec.extensionOf(head);
        buffer := buffer[end.value + 4..];
        upgraded := true;
      }
      problem := DrainBuffer();
    }

    /** The first frame of the buffer, if all of it has arrived. */
    method NextFrame() returns (d: Decoded)
      ensures d == Decode(buffer)
    {
      if |buffer| < 2 { return Starved; }
      var size, offset := buffer[1] % 128, 2;
      if size == 126 {
        if |buffer| < 4 { return Starved; }
        size, offset := BigEndian(buffer[2..4]), 4;
      } else if size == 127 {
        if |buffer| < 10 { return Starved; }
        size, offset := BigEndian(buffer[2..10]), 10;
      }
      if size > MAX_FRAME { return TooLarge; }
      if |buffer| < offset + size { return Starved; }
      d := One(buffer[0], buffer[offset..offset + size], offset + size);
    }

    /** Take in every whole frame of the buffer. */
    method DrainBuffer() returns (problem: Option<Problem>)
      modifies this
      ensures Outcome(State(), problem) == Drain(codec, old(State()))
      ensures error == old(error)
    {
      while |buffer| >= 2
        invariant Drain(codec, State()) == Drain(codec, old(State()))
        invariant error == old(error)
        decreases |buffer|
      {
        var d := NextFrame();
        match d {
          case Starved => return None;
          case TooLarge => return Some(FrameTooLarge);
          case One(first, payload, size) =>
            buffer := buffer[size..];
            problem := TakeFrame(first, payload, size);
            if problem.Some? { return; }
        }
      }
      problem := None;
    }

    method TakeFrame(first: byte, payload: seq<byte>, size: nat) returns (problem: Option<Problem>)
      modifies this`fragments, this`compressed, this`wireBytes, this`frames
      ensures Accepted(State().assembly, problem) == Accept(codec, old(State().assembly), first, payload, size)
    {
      var opcode := first % 16;
      if opcode != 0 && opcode != 1 {
        return None;
      }
      if opcode == 1 {
        compressed, fragments, wireBytes := (first / 64) % 2 == 1, [], 0;
      }
      fragments := fragments + [payload];
      wireBytes := wireBytes + size;
      if first < 128 {
        return None;
      }
      var encoded := Concat(fragments);
      var decoded := if compressed then codec.inflate(encoded + DEFLATE_TAIL) else Some(encoded);
      if decoded.None? {
        return Some(BadMessage);
      }
      var value := codec.parse(decoded.value);
      if value.None? {
        return Some(BadMessage);
      }
      frames := frames + [WireFrame(value.value, compressed, wireBytes, |decoded.value|)];
      problem := None;
    }
  }

  /**
   * `send`: mask the payload in place and put the header before it. A payload of 65536 bytes or more does not fit the
   * two length bytes written, so writing them throws, before anything is masked or sent.
   */
  method Send(payload: array<byte>, mask: seq<byte>) returns (written: Result<seq<byte>, string>)
    requires |mask| == 4
    modifies payload
    ensures written.Ok? <==> payload.Length < 65536
    ensures written.Ok? ==>
      written.value == F.ClientFrame(old(payload[..]), mask) && payload[..] == F.Masked(old(payload[..]), mask)
    ensures written.Refused? ==> payload[..] == old(payload[..])
  {
    var size := payload.Length;
    if size >= 65536 {
      return Refused("the payload length is out of range");
    }
    var head: seq<byte> := if size < 126 then [129, 128 + size] else [129, 254] + ToBigEndian(size, 2);
    var i := 0;
    while i < size
      invariant 0 <= i <= size == payload.Length
      invariant forall k :: 0 <= k < i ==> payload[k] == Xor(old(payload[k]), mask[k % 4])
      invariant forall k :: i <= k < size ==> payload[k] == old(payload[k])
    {
      payload[i] := Xor(payload[i], mask[i % 4]);
      i := i + 1;
    }
    assert payload[..] == F.Masked(old(payload[..]), mask);
    written := Ok(head + mask + payload[..]);
  }
}

/** A client's frame, and how a server reads it (RFC 6455 sections 5.2 and 5.3). */
module ClientFrame {
  import opened Wrappers
  import opened Bytes

  function Masked(payload: seq<byte>, mask: seq<byte>): (masked: seq<byte>)
    requires |mask| == 4
    ensures |masked| == |payload|
    ensures forall i :: 0 <= i < |payload| ==> masked[i] == Xor(payload[i], mask[i % 4])
  {
    seq(|payload|, i requires 0 <= i < |payload| => Xor(payload[i], mask[i % 4]))
  }

  /** One final, masked text frame. */
  function ClientFrame(payload: seq<byte>, mask: seq<byte>): seq<byte>
    requires |mask| == 4 && |payload| < 65536
  {
    (if |payload| < 126 then [129, 128 + |payload|] else [129, 254] + ToBigEndian(|payload|, 2))
    + mask + Masked(payload, mask)
  }

  datatype ServerSide = ServerSide(
    fin: bool,
    reserved: byte,
    opcode: byte,
    payload: seq<byte>,
    minimal: bool,
    rest: seq<byte>)

  /** RFC 6455 section 5.3, bit by bit: the byte whose bits are those in which a masked byte and a key byte differ. */
  function UnmaskByte(masked: byte, key: byte): byte {
    FromBitsFits(Differ(masked, key), 8);
    assert Pow2(8) == 256;
    FromBits(Differ(masked, key), 8)
  }

  function Unmask(masked: seq<byte>, key: seq<byte>): (payload: seq<byte>)
    requires |key| == 4
    ensures |payload| == |masked|
    ensures forall i :: 0 <= i < |masked| ==> payload[i] == UnmaskByte(masked[i], key[i % 4])
  {
    seq(|masked|, i requires 0 <= i < |masked| => UnmaskByte(masked[i], key[i % 4]))
  }

  /**
   * What a server makes of the bytes: it must see the mask bit, and unmasks with the four key bytes that follow the
   * length.
   */
  function ServerReads(b: seq<byte>): Option<ServerSide> {
    if |b| < 2 || b[1] < 128 then None
    else
      var short := b[1] - 128;
      if short == 126 && |b| < 4 then None
      else if short == 127 && |b| < 10 then None
      else
        var (size, at) := if short == 126 then (BigEndian(b[2..4]), 4)
                          else if short == 127 then (BigEndian(b[2..10]), 10)
                          else (short, 2);
        if |b| < at + 4 + size then None
        else
          var minimal := if size < 126 then at == 2 else if size < 65536 then at == 4 else at == 10;
          Some(ServerSide(b[0] >= 128, (b[0] / 16) % 8, b[0] % 16, Unmask(b[at + 4..at + 4 + size], b[at..at + 4]),
                          minimal, b[at + 4 + size..]))
  }

  lemma MaskedTwice(payload: seq<byte>, mask: seq<byte>)
    requires |mask| == 4
    ensures Masked(Masked(payload, mask), mask) == payload
  {
    forall i | 0 <= i < |payload|
      ensures Masked(Masked(payload, mask), mask)[i] == payload[i]
    {
      XorTwice(payload[i], mask[i % 4]);
    }
  }

  /** Bit by bit, a masked byte is the payload's with the bits flipped that are set in the key. */
  lemma MaskedBits(payload: seq<byte>, mask: seq<byte>, i: nat, bit: nat)
    requires |mask| == 4 && i < |payload| && bit < 8
    ensures Bit(Masked(payload, mask)[i], bit) == if Bit(payload[i], bit) != Bit(mask[i % 4], bit) then 1 else 0
  {
    XorBit(payload[i], mask[i % 4], 8, bit);
  }

  /** What a client masks a server unmasks. */
  lemma Unmasked(payload: seq<byte>, mask: seq<byte>)
    requires |mask| == 4
    ensures Unmask(Masked(payload, mask), mask) == payload
  {
    forall i | 0 <= i < |payload|
      ensures Unmask(Masked(payload, mask), mask)[i] == payload[i]
    {
      XorDiffers(Xor(payload[i], mask[i % 4]), mask[i % 4], 8);
      XorTwice(payload[i], mask[i % 4]);
    }
  }

  /**
   * A server reads back exactly the payload sent: one final text frame, no reserved bit, the shortest length form, and
   * nothing beyond it, whatever the mask and whatever follows.
   */
  lemma ServerReadsClientFrame(payload: seq<byte>, mask: seq<byte>, rest: seq<byte>)
    requires |mask| == 4 && |payload| < 65536
    ensures ServerReads(ClientFrame(payload, mask) + rest) == Some(ServerSide(true, 0, 1, payload, true, rest))
  {
    var b, size := ClientFrame(payload, mask) + rest, |payload|;
    var at := if size < 126 then 2 else 4;
    Unmasked(payload, mask);
    if size >= 126 {
      assert Power256(2) == 65536;
      BigEndianRoundTrip(size, 2);
      assert b[2..4] == ToBigEndian(size, 2);
    }
    assert b[at..at + 4] == mask;
    assert b[at + 4..at + 4 + size] == Masked(payload, mask);
    assert b[at + 4 + size..] == rest;
  }
}
