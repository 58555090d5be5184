/**
 * What a server may put on the wire (RFC 6455 sections 5.2 and 5.4), and that the reader of module Wire gives back
 * exactly the messages, whatever the fragments, the length forms, the control frames in between and the cuts between
 * chunks.
 */
module WireRoundTrip {
  import opened Wrappers
  import opened Bytes
  import opened Wire

  // ---------------------------------------------------------------- frames on the wire

  datatype Form = Short | Medium | Long

  /** An unmasked frame: its first byte, its payload, and the length form it is written in. */
  datatype Frame = Frame(first: byte, payload: seq<byte>, form: Form)

  predicate Fits(f: Frame) {
    |f.payload| <= 16_777_216 &&
    match f.form
    case Short => |f.payload| < 126
    case Medium => |f.payload| < 65536
    case Long => true
  }

  /** The bytes a frame takes, header included. */
  function SizeOf(f: Frame): nat {
    |f.payload| + match f.form case Short => 2 case Medium => 4 case Long => 10
  }

  function Encode(f: Frame): (b: seq<byte>)
    requires Fits(f)
    ensures |b| == SizeOf(f)
  {
    var size := |f.payload|;
    match f.form
    case Short => [f.first, size] + f.payload
    case Medium => [f.first, 126] + ToBigEndian(size, 2) + f.payload
    case Long => [f.first, 127] + ToBigEndian(size, 8) + f.payload
  }

  lemma DecodeShort(f: Frame, rest: seq<byte>)
    requires Fits(f) && f.form.Short?
    ensures Decode(Encode(f) + rest) == One(f.first, f.payload, SizeOf(f))
  {
    assert (Encode(f) + rest)[2..2 + |f.payload|] == f.payload;
  }

  lemma DecodeMedium(f: Frame, rest: seq<byte>)
    requires Fits(f) && f.form.Medium?
    ensures Decode(Encode(f) + rest) == One(f.first, f.payload, SizeOf(f))
  {
    var b, size := Encode(f) + rest, |f.payload|;
    assert Power256(2) == 65536;
    BigEndianRoundTrip(size, 2);
    assert b[2..4] == ToBigEndian(size, 2);
    assert b[4..4 + size] == f.payload;
  }

  lemma DecodeLong(f: Frame, rest: seq<byte>)
    requires Fits(f) && f.form.Long?
    ensures Decode(Encode(f) + rest) == One(f.first, f.payload, SizeOf(f))
  {
    var b, size := Encode(f) + rest, |f.payload|;
    assert Power256(8) > MAX_FRAME;
    BigEndianRoundTrip(size, 8);
    assert b[2..10] == ToBigEndian(size, 8);
    assert b[10..10 + size] == f.payload;
  }

  /** Every frame within the size limit is read back, whichever length form it is written in. */
  lemma DecodeEncode(f: Frame, rest: seq<byte>)
    requires Fits(f)
    ensures Decode(Encode(f) + rest) == One(f.first, f.payload, SizeOf(f))
  {
    match f.form
    case Short => DecodeShort(f, rest);
    case Medium => DecodeMedium(f, rest);
    case Long => DecodeLong(f, rest);
  }

  /** Any beginning of a frame short of all of it is waited for. */
  lemma DecodeWaits(f: Frame, n: nat)
    requires Fits(f) && n < SizeOf(f)
    ensures Decode(Encode(f)[..n]).Starved?
  {
    DecodeEncode(f, []);
    assert Encode(f) + [] == Encode(f);
    var b := Encode(f)[..n];
    assert b + Encode(f)[n..] == Encode(f);
    if !Decode(b).Starved? {
      DecodeMore(b, Encode(f)[n..]);
    }
  }

  /** So is a header whose length bytes have not all arrived. */
  lemma HeaderWaits(b: seq<byte>)
    requires |b| < 2 || (b[1] % 128 == 126 && |b| < 4) || (b[1] % 128 == 127 && |b| < 10)
    ensures Decode(b).Starved?
  {
  }

  /** A frame said to be longer than 16 MiB is refused as soon as its length is there. */
  lemma DecodeRefuses(first: byte, size: nat, rest: seq<byte>)
    requires 16_777_216 < size < Power256(8)
    ensures Decode([first, 127] + ToBigEndian(size, 8) + rest) == TooLarge
  {
    var b := [first, 127] + ToBigEndian(size, 8) + rest;
    BigEndianRoundTrip(size, 8);
    assert b[2..10] == ToBigEndian(size, 8);
  }

  /** The mask bit is not looked at. */
  lemma MaskIgnored(b: seq<byte>)
    requires |b| >= 2 && b[1] < 128
    ensures Decode(b[1 := b[1] + 128]) == Decode(b)
  {
    var masked := b[1 := b[1] + 128];
    assert |b| >= 4 ==> masked[2..4] == b[2..4];
    assert |b| >= 10 ==> masked[2..10] == b[2..10];
    var short := b[1] % 128;
    var offset := if short == 126 then 4 else if short == 127 then 10 else 2;
    assert forall n :: offset <= n <= |b| ==> masked[offset..n] == b[offset..n];
  }

  predicate AllFit(frames: seq<Frame>) {
    forall i :: 0 <= i < |frames| ==> Fits(frames[i])
  }

  function EncodeAll(frames: seq<Frame>): seq<byte>
    requires AllFit(frames)
  {
    if frames == [] then [] else Encode(frames[0]) + EncodeAll(frames[1..])
  }

  /** Take in frames one after the other, up to the first error. */
  function AcceptAll(codec: Codec, a: Assembly, frames: seq<Frame>): Accepted
    requires AllFit(frames)
    decreases |frames|
  {
    if frames == [] then Accepted(a, None)
    else
      var r := Accept(codec, a, frames[0].first, frames[0].payload, SizeOf(frames[0]));
      if r.problem.Some? then r else AcceptAll(codec, r.assembly, frames[1..])
  }

  lemma {:induction false} AcceptAllAppend(codec: Codec, a: Assembly, x: seq<Frame>, y: seq<Frame>)
    requires AllFit(x) && AllFit(y)
    ensures var r := AcceptAll(codec, a, x);
      AcceptAll(codec, a, x + y) == if r.problem.Some? then r else AcceptAll(codec, r.assembly, y)
    decreases |x|
  {
    if x == [] {
      assert x + y == y;
    } else {
      assert (x + y)[0] == x[0] && (x + y)[1..] == x[1..] + y;
      var r := Accept(codec, a, x[0].first, x[0].payload, SizeOf(x[0]));
      if r.problem.None? {
        AcceptAllAppend(codec, r.assembly, x[1..], y);
      }
    }
  }

  lemma DrainOne(codec: Codec, w: Wire, f: Frame, tail: seq<byte>)
    requires Fits(f) && w.buffer == Encode(f) + tail
    ensures var r := Accept(codec, w.assembly, f.first, f.payload, SizeOf(f));
      r.problem.None? ==> Drain(codec, w) == Drain(codec, w.(buffer := tail, assembly := r.assembly))
  {
    DecodeEncode(f, tail);
    assert w.buffer[SizeOf(f)..] == tail;
  }

  /** Encoded frames in the buffer are taken in one by one. */
  lemma {:induction false} DrainEncoded(codec: Codec, w: Wire, frames: seq<Frame>, rest: seq<byte>)
    requires AllFit(frames) && AcceptAll(codec, w.assembly, frames).problem.None?
    requires w.buffer == EncodeAll(frames) + rest
    ensures Drain(codec, w) ==
            Drain(codec, w.(buffer := rest, assembly := AcceptAll(codec, w.assembly, frames).assembly))
    decreases |frames|
  {
    if frames == [] {
      assert EncodeAll(frames) + rest == rest;
    } else {
      var f, tail := frames[0], EncodeAll(frames[1..]) + rest;
      assert w.buffer == Encode(f) + tail;
      DrainOne(codec, w, f, tail);
      var r := Accept(codec, w.assembly, f.first, f.payload, SizeOf(f));
      DrainEncoded(codec, w.(buffer := tail, assembly := r.assembly), frames[1..], rest);
    }
  }

  // ---------------------------------------------------------------- messages on the wire

  /** One fragment of a text message, and the control or binary frames sent before it. */
  datatype Piece = Piece(before: seq<Frame>, spare: nat, payload: seq<byte>, form: Form)

  datatype TextMessage = TextMessage(compressed: bool, pieces: seq<Piece>)

  /** A frame the reader skips: any opcode but continuation and text. */
  predicate Skipped(f: Frame) {
    Fits(f) && f.first % 16 != 0 && f.first % 16 != 1
  }

  predicate AllSkipped(frames: seq<Frame>) {
    forall i :: 0 <= i < |frames| ==> Skipped(frames[i])
  }

  /**
   * The first byte of a fragment: FIN on the last one, opcode text and the compression bit on the first one, opcode
   * continuation on the others. `spare` fills the reserved bits the reader does not look at.
   */
  function FirstByte(m: TextMessage, i: nat): byte
    requires i < |m.pieces|
  {
    var fin := if i == |m.pieces| - 1 then 128 else 0;
    if i == 0 then fin + (if m.compressed then 64 else 0) + (m.pieces[i].spare % 4) * 16 + 1
    else fin + (m.pieces[i].spare % 8) * 16
  }

  function PieceFrame(m: TextMessage, i: nat): Frame
    requires i < |m.pieces|
  {
    Frame(FirstByte(m, i), m.pieces[i].payload, m.pieces[i].form)
  }

  /** A message a server may send: at least one fragment, every frame within the size limit. */
  predicate Sound(m: TextMessage) {
    && m.pieces != []
    && forall i :: 0 <= i < |m.pieces| ==>
         Fits(PieceFrame(m, i)) && AllSkipped(m.pieces[i].before)
  }

  /** The frames of the first `n` fragments. */
  function MessageFrames(m: TextMessage, n: nat): (frames: seq<Frame>)
    requires Sound(m) && n <= |m.pieces|
    ensures AllFit(frames)
  {
    if n == 0 then [] else MessageFrames(m, n - 1) + m.pieces[n - 1].before + [PieceFrame(m, n - 1)]
  }

  function Payloads(m: TextMessage, n: nat): seq<seq<byte>>
    requires n <= |m.pieces|
  {
    if n == 0 then [] else Payloads(m, n - 1) + [m.pieces[n - 1].payload]
  }

  /** The bytes the data frames of the first `n` fragments take, headers included. */
  function DataBytes(m: TextMessage, n: nat): nat
    requires Sound(m) && n <= |m.pieces|
  {
    if n == 0 then 0 else DataBytes(m, n - 1) + SizeOf(PieceFrame(m, n - 1))
  }

  /** What a message means: its payloads joined, inflated if compressed, and parsed. */
  function Meaning(codec: Codec, m: TextMessage): Option<WireFrame>
    requires Sound(m)
  {
    var encoded := Concat(Payloads(m, |m.pieces|));
    var decoded := if m.compressed then codec.inflate(encoded + [0, 0, 255, 255]) else Some(encoded);
    if decoded.None? || codec.parse(decoded.value).None? then None
    else Some(WireFrame(codec.parse(decoded.value).value, m.compressed, DataBytes(m, |m.pieces|), |decoded.value|))
  }

  predicate AllReadable(codec: Codec, ms: seq<TextMessage>) {
    forall i :: 0 <= i < |ms| ==> Sound(ms[i]) && Meaning(codec, ms[i]).Some?
  }

  function SessionFrames(codec: Codec, ms: seq<TextMessage>): (frames: seq<Frame>)
    requires AllReadable(codec, ms)
    ensures AllFit(frames)
  {
    if ms == [] then []
    else SessionFrames(codec, ms[..|ms| - 1]) + MessageFrames(ms[|ms| - 1], |ms[|ms| - 1].pieces|)
  }

  /** The messages of a session, as the reader should report them. */
  function Meanings(codec: Codec, ms: seq<TextMessage>): (meanings: seq<WireFrame>)
    requires AllReadable(codec, ms)
    ensures |meanings| == |ms|
    ensures forall i :: 0 <= i < |ms| ==> Some(meanings[i]) == Meaning(codec, ms[i])
  {
    seq(|ms|, i requires 0 <= i < |ms| => Meaning(codec, ms[i]).value)
  }

  // ---------------------------------------------------------------- the reader gives the messages back

  lemma {:induction false} AcceptSkipped(codec: Codec, a: Assembly, frames: seq<Frame>)
    requires AllSkipped(frames)
    ensures AcceptAll(codec, a, frames) == Accepted(a, None)
    decreases |frames|
  {
    if frames != [] {
      AcceptSkipped(codec, a, frames[1..]);
    }
  }

  /** Fragments of a message collected so far. */
  function Collected(a: Assembly, m: TextMessage, n: nat): Assembly
    requires Sound(m) && n <= |m.pieces|
  {
    if n == 0 then a else Assembly(Payloads(m, n), m.compressed, DataBytes(m, n), a.frames)
  }

  lemma FirstByteBits(m: TextMessage, i: nat)
    requires i < |m.pieces|
    ensures var first := FirstByte(m, i);
      && first % 16 == (if i == 0 then 1 else 0)
      && (first >= 128 <==> i == |m.pieces| - 1)
      && (i == 0 ==> ((first / 64) % 2 == 1 <==> m.compressed))
  {
  }

  /** The data frame of a fragment adds its payload, and finishes the message if it is the last one. */
  lemma AcceptData(codec: Codec, a: Assembly, m: TextMessage, i: nat)
    requires Sound(m) && i < |m.pieces|
    ensures var f, next := PieceFrame(m, i), Collected(a, m, i + 1);
      Accept(codec, Collected(a, m, i), f.first, f.payload, SizeOf(f))
        == if i == |m.pieces| - 1 then Finish(codec, next) else Accepted(next, None)
  {
    FirstByteBits(m, i);
  }

  /** The frames of the first fragments collect those fragments; with the last one the message is finished. */
  lemma {:induction false} AcceptPieces(codec: Codec, a: Assembly, m: TextMessage, n: nat)
    requires Sound(m) && n <= |m.pieces|
    ensures AcceptAll(codec, a, MessageFrames(m, n))
      == if n == |m.pieces| then Finish(codec, Collected(a, m, n)) else Accepted(Collected(a, m, n), None)
  {
    if n != 0 {
      var i := n - 1;
      var f, before, c := PieceFrame(m, i), m.pieces[i].before, Collected(a, m, i);
      AcceptPieces(codec, a, m, i);
      AcceptAllAppend(codec, a, MessageFrames(m, i), before);
      AcceptSkipped(codec, c, before);
      AcceptAllAppend(codec, a, MessageFrames(m, i) + before, [f]);
      assert [f][1..] == [];
      AcceptData(codec, a, m, i);
    }
  }

  /** A whole message appends its meaning to the frames reported. */
  lemma AcceptMessage(codec: Codec, a: Assembly, m: TextMessage)
    requires Sound(m) && Meaning(codec, m).Some?
    ensures var r := AcceptAll(codec, a, MessageFrames(m, |m.pieces|));
      r.problem.None? && r.assembly.frames == a.frames + [Meaning(codec, m).value]
  {
    AcceptPieces(codec, a, m, |m.pieces|);
  }

  lemma {:induction false} AcceptSession(codec: Codec, a: Assembly, ms: seq<TextMessage>)
    requires AllReadable(codec, ms)
    ensures var r := AcceptAll(codec, a, SessionFrames(codec, ms));
      r.problem.None? && r.assembly.frames == a.frames + Meanings(codec, ms)
  {
    if ms != [] {
      var init, m := ms[..|ms| - 1], ms[|ms| - 1];
      AcceptSession(codec, a, init);
      AcceptAllAppend(codec, a, SessionFrames(codec, init), MessageFrames(m, |m.pieces|));
      AcceptMessage(codec, AcceptAll(codec, a, SessionFrames(codec, init)).assembly, m);
      assert Meanings(codec, ms) == Meanings(codec, init) + [Meaning(codec, m).value];
    }
  }

  /** Put after a head, the line occurs nowhere before it. */
  predicate NotBefore(head: seq<byte>, line: seq<byte>) {
    forall at: nat :: at < |head| ==> !OccursAt(head + line, line, at)
  }

  lemma LineFound(head: seq<byte>, line: seq<byte>)
    requires NotBefore(head, line)
    ensures IndexOf(head + line, line, 0) == Some(|head|)
  {
    FirstFound(head + line, line, |head|);
  }

  /** A response head: it says 101, and the first empty line after its lines is where it ends. */
  predicate GoodHead(head: seq<byte>) {
    Ascii("HTTP/1.1 101") <= head && NotBefore(head, [13, 10, 13, 10])
  }

  lemma SwitchingText()
    ensures Ascii("HTTP/1.1 101") == SWITCHING
  {
  }

  lemma HeadFound(head: seq<byte>)
    requires GoodHead(head)
    ensures SWITCHING <= head && IndexOf(head + HEAD_END, HEAD_END, 0) == Some(|head|)
  {
    SwitchingText();
    LineFound(head, HEAD_END);
  }

  /** Everything a server sends: the response head, the frames of the messages, and frames the reader skips. */
  function Stream(codec: Codec, head: seq<byte>, ms: seq<TextMessage>, trailing: seq<Frame>): seq<byte>
    requires AllReadable(codec, ms)
    requires AllSkipped(trailing)
  {
    head + [13, 10, 13, 10] + EncodeAll(SessionFrames(codec, ms) + trailing)
  }

  /** The response head is cut off where it ends. */
  lemma HeadRead(head: seq<byte>, body: seq<byte>)
    requires GoodHead(head)
    ensures Handshake(head + [13, 10, 13, 10] + body) == Switching(head, body)
  {
    HeadFound(head);
    var bytes := head + HEAD_END + body;
    IndexOfPrefix(head + HEAD_END, body, HEAD_END, 0);
    assert bytes[..|head|] == head && bytes[|head| + 4..] == body;
  }

  lemma AcceptAllSession(codec: Codec, a: Assembly, ms: seq<TextMessage>, trailing: seq<Frame>)
    requires AllReadable(codec, ms) && AllSkipped(trailing)
    ensures var r := AcceptAll(codec, a, SessionFrames(codec, ms) + trailing);
      r.problem.None? && r.assembly.frames == a.frames + Meanings(codec, ms)
  {
    AcceptSession(codec, a, ms);
    AcceptSkipped(codec, AcceptAll(codec, a, SessionFrames(codec, ms)).assembly, trailing);
    AcceptAllAppend(codec, a, SessionFrames(codec, ms), trailing);
  }

  /** An upgraded reader given all the frames at once. */
  lemma DrainSession(codec: Codec, up: Wire, ms: seq<TextMessage>, trailing: seq<Frame>)
    requires AllReadable(codec, ms) && AllSkipped(trailing)
    requires up.upgraded && up.buffer == EncodeAll(SessionFrames(codec, ms) + trailing) && up.assembly == START.assembly
    ensures var r := Drain(codec, up);
      && r.problem.None? && r.wire.buffer == [] && r.wire.upgraded && r.wire.extension == up.extension
      && r.wire.assembly.frames == Meanings(codec, ms)
  {
    var frames := SessionFrames(codec, ms) + trailing;
    AcceptAllSession(codec, up.assembly, ms, trailing);
    assert up.buffer == EncodeAll(frames) + [];
    DrainEncoded(codec, up, frames, []);
    assert Decode([]).Starved?;
    assert [] + Meanings(codec, ms) == Meanings(codec, ms);
  }

  lemma ReceiveStream(codec: Codec, head: seq<byte>, ms: seq<TextMessage>, trailing: seq<Frame>)
    requires GoodHead(head)
    requires AllReadable(codec, ms)
    requires AllSkipped(trailing)
    ensures var r := Receive(codec, START, Stream(codec, head, ms, trailing));
      && r.problem.None? && r.wire.buffer == [] && r.wire.upgraded
      && r.wire.extension == codec.extensionOf(head)
      && r.wire.assembly.frames == Meanings(codec, ms)
  {
    var bytes, body := Stream(codec, head, ms, trailing), EncodeAll(SessionFrames(codec, ms) + trailing);
    HeadRead(head, body);
    assert START.buffer + bytes == bytes;
    DrainSession(codec, Wire(body, true, codec.extensionOf(head), START.assembly), ms, trailing);
  }

  /**
   * The wire round trip: take any list of messages, each split into any fragments in any length form, any frames the
   * reader skips in between and at the end, any response head, and any cut of the bytes into chunks. The reader reports
   * exactly those messages, in order, with their compression flag, their data-frame bytes and their decoded length; it
   * throws nothing and keeps no byte back.
   */
  lemma RoundTrip(codec: Codec, head: seq<byte>, ms: seq<TextMessage>, trailing: seq<Frame>, chunks: seq<seq<byte>>)
    requires GoodHead(head)
    requires AllReadable(codec, ms)
    requires AllSkipped(trailing)
    requires Concat(chunks) == Stream(codec, head, ms, trailing)
    ensures var r := Deliver(codec, START, chunks);
      && r.problem.None? && r.wire.buffer == []
      && r.wire.extension == codec.extensionOf(head)
      && r.wire.assembly.frames == Meanings(codec, ms)
  {
    assert |Concat(chunks)| >= 4;
    ReceiveStream(codec, head, ms, trailing);
    AnyChunking(codec, START, chunks);
  }

  /**
   * No message is reported early, late or out of order: when only part of the stream has arrived, the messages reported
   * are a prefix of all of them, and they include every message whose last byte has arrived.
   */
  lemma PartialStream(codec: Codec, head: seq<byte>, ms: seq<TextMessage>, k: nat, arrived: seq<byte>)
    requires GoodHead(head) && k <= |ms|
    requires AllReadable(codec, ms)
    requires arrived <= Stream(codec, head, ms, [])
    requires Stream(codec, head, ms[..k], []) <= arrived
    ensures var r := Receive(codec, START, arrived);
      r.problem.None? && Meanings(codec, ms)[..k] <= r.wire.assembly.frames <= Meanings(codec, ms)
  {
    var done, all := Stream(codec, head, ms[..k], []), Stream(codec, head, ms, []);
    ReceiveStream(codec, head, ms, []);
    ReceiveStream(codec, head, ms[..k], []);
    MeaningsPrefix(codec, ms, k);
    ReceiveBetween(codec, done, arrived, all);
  }

  lemma MeaningsPrefix(codec: Codec, ms: seq<TextMessage>, k: nat)
    requires k <= |ms| && AllReadable(codec, ms)
    ensures Meanings(codec, ms)[..k] == Meanings(codec, ms[..k])
  {
    var all, few := Meanings(codec, ms), Meanings(codec, ms[..k]);
    forall i | 0 <= i < k
      ensures all[i] == few[i]
    {
      assert Some(all[i]) == Meaning(codec, ms[i]) == Some(few[i]);
    }
  }

  lemma ReceiveBetween(codec: Codec, done: seq<byte>, arrived: seq<byte>, all: seq<byte>)
    requires done <= arrived <= all
    requires Receive(codec, START, done).problem.None? && Receive(codec, START, all).problem.None?
    ensures var r := Receive(codec, START, arrived);
      && r.problem.None?
      && Receive(codec, START, done).wire.assembly.frames <= r.wire.assembly.frames
      && r.wire.assembly.frames <= Receive(codec, START, all).wire.assembly.frames
  {
    assert all == arrived + all[|arrived|..];
    assert arrived == done + arrived[|done|..];
    ChunkInvariance(codec, START, arrived, all[|arrived|..]);
    ChunkInvariance(codec, START, done, arrived[|done|..]);
    ReceiveAppends(codec, Receive(codec, START, arrived).wire, all[|arrived|..]);
    ReceiveAppends(codec, Receive(codec, START, done).wire, arrived[|done|..]);
  }
}
