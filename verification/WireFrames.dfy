/**
 * What the reader reports for any frames a server may send, in order or out of it: each final data frame reports the
 * data frames since the last one that started a message (e2e/harness/websocket-wire.ts).
 */
module WireFrames {
  import opened Wrappers
  import opened Sequences
  import opened Bytes
  import opened Wire
  import opened WireRoundTrip

  /** A frame of a message: opcode continuation or text. */
  predicate IsData(f: Frame) { f.first % 16 == 0 || f.first % 16 == 1 }

  predicate Begins(f: Frame) { f.first % 16 == 1 }

  /** The FIN bit, and the one that says the message is compressed. */
  predicate IsFinal(f: Frame) { f.first >= 128 }

  predicate Marked(f: Frame) { f.first / 64 % 2 == 1 }

  /** Where the last message began; at the beginning if none did. */
  function LastBegun(fs: seq<Frame>): (at: nat)
    ensures at <= |fs|
  {
    if fs == [] then 0
    else if Begins(fs[|fs| - 1]) then |fs| - 1
    else LastBegun(fs[..|fs| - 1])
  }

  lemma {:induction false} LastBegunIs(fs: seq<Frame>)
    ensures var at := LastBegun(fs);
      && (forall i :: at < i < |fs| ==> !Begins(fs[i]))
      && (at > 0 ==> at < |fs| && Begins(fs[at]))
  {
    if fs != [] && !Begins(fs[|fs| - 1]) {
      LastBegunIs(fs[..|fs| - 1]);
    }
  }

  /** The data frames since then. */
  function Open(fs: seq<Frame>): seq<Frame> { Filter(IsData, fs[LastBegun(fs)..]) }

  function PayloadOf(f: Frame): seq<byte> { f.payload }

  function OpenPayloads(fs: seq<Frame>): seq<seq<byte>> { Map(PayloadOf, Open(fs)) }

  function OpenBytes(fs: seq<Frame>): nat { Total(SizeOf, Open(fs)) }

  /** Whether the message begun last is marked as compressed. */
  predicate OpenMarked(fs: seq<Frame>) {
    LastBegun(fs) < |fs| && Begins(fs[LastBegun(fs)]) && Marked(fs[LastBegun(fs)])
  }

  /** What the open data frames mean: joined, inflated if marked, and parsed. */
  function Reading(codec: Codec, fs: seq<Frame>): Option<WireFrame> {
    var encoded := Concat(OpenPayloads(fs));
    var decoded := if OpenMarked(fs) then codec.inflate(encoded + [0, 0, 255, 255]) else Some(encoded);
    if decoded.None? || codec.parse(decoded.value).None? then None
    else Some(WireFrame(codec.parse(decoded.value).value, OpenMarked(fs), OpenBytes(fs), |decoded.value|))
  }

  /** The frame at this place makes the reader report. */
  predicate Reports(fs: seq<Frame>, i: nat)
    requires i < |fs|
  {
    IsData(fs[i]) && IsFinal(fs[i])
  }

  /** Every report is of something that can be decoded and parsed. */
  ghost predicate Readable(codec: Codec, fs: seq<Frame>) {
    forall i: nat :: i < |fs| && Reports(fs, i) ==> Reading(codec, fs[..i + 1]).Some?
  }

  /** What is reported, frame by frame. */
  function Reported(codec: Codec, fs: seq<Frame>): seq<WireFrame> {
    if fs == [] then []
    else
      Reported(codec, fs[..|fs| - 1])
      + if Reports(fs, |fs| - 1) && Reading(codec, fs).Some? then [Reading(codec, fs).value] else []
  }

  // ---------------------------------------------------------------- one more frame

  lemma OpenMore(fs: seq<Frame>, f: Frame)
    ensures Open(fs + [f]) == if Begins(f) then [f] else if IsData(f) then Open(fs) + [f] else Open(fs)
  {
    var more, at := fs + [f], LastBegun(fs);
    assert more[..|fs|] == fs;
    if Begins(f) {
      assert more[|fs|..] == [f];
      FilterLast(IsData, [], f);
      assert [] + [f] == [f];
    } else {
      assert more[at..] == fs[at..] + [f];
      FilterLast(IsData, fs[at..], f);
    }
  }

  lemma MarkedMore(fs: seq<Frame>, f: Frame)
    ensures OpenMarked(fs + [f]) == if Begins(f) then Marked(f) else OpenMarked(fs)
  {
    var more := fs + [f];
    assert more[..|fs|] == fs;
    LastBegunIs(fs);
    if !Begins(f) && LastBegun(fs) == |fs| {
      assert fs == [];
    }
  }

  lemma OneGrows(open: seq<Frame>, f: Frame)
    ensures Map(PayloadOf, open + [f]) == Map(PayloadOf, open) + [f.payload]
    ensures Total(SizeOf, open + [f]) == Total(SizeOf, open) + SizeOf(f)
  {
    TotalLast(SizeOf, open, f);
    MapAppends(PayloadOf, open, [f]);
  }

  lemma OneAlone(f: Frame)
    ensures Map(PayloadOf, [f]) == [f.payload] && Total(SizeOf, [f]) == SizeOf(f)
  {
    TotalLast(SizeOf, [], f);
    assert [] + [f] == [f];
  }

  lemma OpenGrows(fs: seq<Frame>, f: Frame)
    ensures OpenPayloads(fs + [f]) ==
      if Begins(f) then [f.payload] else if IsData(f) then OpenPayloads(fs) + [f.payload] else OpenPayloads(fs)
    ensures OpenBytes(fs + [f]) ==
      if Begins(f) then SizeOf(f) else if IsData(f) then OpenBytes(fs) + SizeOf(f) else OpenBytes(fs)
  {
    OpenMore(fs, f);
    if Begins(f) {
      OneAlone(f);
    } else if IsData(f) {
      OneGrows(Open(fs), f);
    }
  }

  lemma ReportedMore(codec: Codec, fs: seq<Frame>, f: Frame)
    ensures var more := fs + [f];
      Reported(codec, more) == Reported(codec, fs)
        + if IsData(f) && IsFinal(f) && Reading(codec, more).Some? then [Reading(codec, more).value] else []
  {
    assert (fs + [f])[..|fs|] == fs;
  }

  /** The reader's state after these frames, reports left aside. */
  function StateAfter(codec: Codec, fs: seq<Frame>): Assembly {
    Assembly(OpenPayloads(fs), OpenMarked(fs), OpenBytes(fs), Reported(codec, fs))
  }

  /** The message begun or gone on with by a data frame, before it is finished if it is. */
  function Taken(a: Assembly, f: Frame): Assembly {
    if Begins(f) then Assembly([f.payload], Marked(f), SizeOf(f), a.frames)
    else a.(fragments := a.fragments + [f.payload], wireBytes := a.wireBytes + SizeOf(f))
  }

  lemma AcceptBegun(codec: Codec, a: Assembly, f: Frame)
    requires Begins(f)
    ensures Accept(codec, a, f.first, f.payload, SizeOf(f)) ==
      if IsFinal(f) then Finish(codec, Taken(a, f)) else Accepted(Taken(a, f), None)
  {
    var begun := Assembly([], Marked(f), 0, a.frames);
    var grown := begun.(fragments := begun.fragments + [f.payload], wireBytes := begun.wireBytes + SizeOf(f));
    assert grown == Taken(a, f) by {
      assert [] + [f.payload] == [f.payload];
    }
  }

  lemma AcceptContinued(codec: Codec, a: Assembly, f: Frame)
    requires IsData(f) && !Begins(f)
    ensures Accept(codec, a, f.first, f.payload, SizeOf(f)) ==
      if IsFinal(f) then Finish(codec, Taken(a, f)) else Accepted(Taken(a, f), None)
  {
  }

  lemma AcceptIs(codec: Codec, a: Assembly, f: Frame)
    ensures Accept(codec, a, f.first, f.payload, SizeOf(f)) ==
      if !IsData(f) then Accepted(a, None)
      else if IsFinal(f) then Finish(codec, Taken(a, f)) else Accepted(Taken(a, f), None)
  {
    if IsData(f) {
      if Begins(f) { AcceptBegun(codec, a, f); } else { AcceptContinued(codec, a, f); }
    }
  }

  lemma TakenIs(codec: Codec, fs: seq<Frame>, f: Frame)
    requires IsData(f)
    ensures Taken(StateAfter(codec, fs), f) == StateAfter(codec, fs + [f]).(frames := Reported(codec, fs))
  {
    OpenGrows(fs, f);
    MarkedMore(fs, f);
  }

  lemma FinishIs(codec: Codec, fs: seq<Frame>, frames: seq<WireFrame>)
    ensures var a := Assembly(OpenPayloads(fs), OpenMarked(fs), OpenBytes(fs), frames);
      Finish(codec, a) ==
      match Reading(codec, fs)
      case None => Accepted(a, Some(BadMessage))
      case Some(read) => Accepted(a.(frames := frames + [read]), None)
  {
  }

  /** One frame taken in by the reader, from the state the frames before it leave. */
  lemma AcceptMore(codec: Codec, fs: seq<Frame>, f: Frame)
    requires Fits(f)
    ensures var more := fs + [f];
      var r := Accept(codec, StateAfter(codec, fs), f.first, f.payload, SizeOf(f));
      if IsData(f) && IsFinal(f) && Reading(codec, more).None? then
        r.problem == Some(BadMessage) && r.assembly.frames == Reported(codec, fs)
      else r == Accepted(StateAfter(codec, more), None)
  {
    var more := fs + [f];
    AcceptIs(codec, StateAfter(codec, fs), f);
    ReportedMore(codec, fs, f);
    if IsData(f) {
      TakenIs(codec, fs, f);
      FinishIs(codec, more, Reported(codec, fs));
    } else {
      OpenGrows(fs, f);
      MarkedMore(fs, f);
    }
  }

  lemma ReportsMore(fs: seq<Frame>, f: Frame)
    ensures forall i: nat :: i < |fs| ==>
              (Reports(fs + [f], i) <==> Reports(fs, i)) && (fs + [f])[..i + 1] == fs[..i + 1]
    ensures Reports(fs + [f], |fs|) <==> IsData(f) && IsFinal(f)
  {
    forall i: nat | i < |fs|
      ensures Reports(fs + [f], i) <==> Reports(fs, i)
    {
      assert (fs + [f])[i] == fs[i];
    }
  }

  lemma ReadableMore(codec: Codec, fs: seq<Frame>, f: Frame)
    ensures Readable(codec, fs + [f]) <==>
      Readable(codec, fs) && (IsData(f) && IsFinal(f) ==> Reading(codec, fs + [f]).Some?)
  {
    ReportsMore(fs, f);
    assert (fs + [f])[..|fs| + 1] == fs + [f];
  }

  /** The reader goes on without error exactly as long as everything it reports can be read, and reports just that. */
  lemma {:induction false} AcceptTells(codec: Codec, fs: seq<Frame>)
    requires AllFit(fs)
    ensures AcceptAll(codec, START.assembly, fs).problem.None? <==> Readable(codec, fs)
    ensures Readable(codec, fs) ==> AcceptAll(codec, START.assembly, fs) == Accepted(StateAfter(codec, fs), None)
  {
    if fs == [] {
      assert OpenPayloads([]) == [];
    } else {
      var init, f := fs[..|fs| - 1], fs[|fs| - 1];
      assert fs == init + [f];
      AcceptTells(codec, init);
      AcceptAllAppend(codec, START.assembly, init, [f]);
      ReadableMore(codec, init, f);
      AcceptMore(codec, init, f);
      assert [f][1..] == [];
    }
  }

  // ---------------------------------------------------------------- any frames, in any chunks

  /** An upgraded reader given readable frames at once. */
  lemma DrainTells(codec: Codec, up: Wire, fs: seq<Frame>)
    requires AllFit(fs) && Readable(codec, fs)
    requires up.upgraded && up.buffer == EncodeAll(fs) && up.assembly == START.assembly
    ensures var r := Drain(codec, up);
      r.problem.None? && r.wire.buffer == [] && r.wire.assembly.frames == Reported(codec, fs)
  {
    AcceptTells(codec, fs);
    assert up.buffer == EncodeAll(fs) + [];
    DrainEncoded(codec, up, fs, []);
    assert Decode([]).Starved?;
  }

  /**
   * Whatever frames a server sends after its head, and however the bytes are cut, the reader reports exactly what each
   * final data frame makes of the data frames since the last one that began a message.
   */
  lemma AnyFrames(codec: Codec, head: seq<byte>, fs: seq<Frame>, chunks: seq<seq<byte>>)
    requires GoodHead(head) && AllFit(fs) && Readable(codec, fs)
    requires Concat(chunks) == head + [13, 10, 13, 10] + EncodeAll(fs)
    ensures var r := Deliver(codec, START, chunks);
      && r.problem.None? && r.wire.buffer == [] && r.wire.extension == codec.extensionOf(head)
      && r.wire.assembly.frames == Reported(codec, fs)
  {
    var bytes, body := Concat(chunks), EncodeAll(fs);
    assert |bytes| >= 4;
    HeadRead(head, body);
    assert START.buffer + bytes == bytes;
    var up := Wire(body, true, codec.extensionOf(head), START.assembly);
    DrainTells(codec, up, fs);
    DrainKeeps(codec, up);
    AnyChunking(codec, START, chunks);
  }

  lemma {:induction false} DrainKeeps(codec: Codec, w: Wire)
    ensures Drain(codec, w).wire.extension == w.extension
    decreases |w.buffer|
  {
    var d := Decode(w.buffer);
    if d.One? {
      var r := Accept(codec, w.assembly, d.first, d.payload, d.size);
      if r.problem.None? {
        DrainKeeps(codec, w.(buffer := w.buffer[d.size..], assembly := r.assembly));
      }
    }
  }

  // ---------------------------------------------------------------- where the reader stops

  /** Readable frames, and then bytes at which the reader goes on from the state those frames leave. */
  lemma DrainUpTo(codec: Codec, up: Wire, fs: seq<Frame>, rest: seq<byte>)
    requires AllFit(fs) && Readable(codec, fs) && up.buffer == EncodeAll(fs) + rest && up.assembly == START.assembly
    ensures Drain(codec, up) == Drain(codec, up.(buffer := rest, assembly := StateAfter(codec, fs)))
  {
    AcceptTells(codec, fs);
    DrainEncoded(codec, up, fs, rest);
  }

  /** The reader as a good head and readable frames leave it, with these bytes still to take in. */
  function ReaderAfter(codec: Codec, head: seq<byte>, fs: seq<Frame>, rest: seq<byte>): Wire {
    Wire(rest, true, codec.extensionOf(head), StateAfter(codec, fs))
  }

  lemma ReceiveUpTo(codec: Codec, head: seq<byte>, fs: seq<Frame>, rest: seq<byte>)
    requires GoodHead(head) && AllFit(fs) && Readable(codec, fs)
    ensures Receive(codec, START, head + [13, 10, 13, 10] + (EncodeAll(fs) + rest)) ==
      Drain(codec, ReaderAfter(codec, head, fs, rest))
  {
    var body := EncodeAll(fs) + rest;
    HeadRead(head, body);
    assert START.buffer + (head + [13, 10, 13, 10] + body) == head + [13, 10, 13, 10] + body;
    DrainUpTo(codec, Wire(body, true, codec.extensionOf(head), START.assembly), fs, rest);
  }

  /** A message that cannot be decoded or parsed is the end: what was reported stays, what follows is not read. */
  lemma StopsAtUnreadable(codec: Codec, head: seq<byte>, fs: seq<Frame>, f: Frame, rest: seq<byte>)
    requires GoodHead(head) && AllFit(fs) && Readable(codec, fs) && Fits(f)
    requires IsData(f) && IsFinal(f) && Reading(codec, fs + [f]).None?
    ensures var r := Receive(codec, START, head + [13, 10, 13, 10] + (EncodeAll(fs) + (Encode(f) + rest)));
      r.problem == Some(BadMessage) && r.wire.buffer == rest && r.wire.assembly.frames == Reported(codec, fs)
  {
    ReceiveUpTo(codec, head, fs, Encode(f) + rest);
    DecodeEncode(f, rest);
    AcceptMore(codec, fs, f);
    assert (Encode(f) + rest)[SizeOf(f)..] == rest;
  }

  /** So is a frame said to be longer than 16 MiB, of which nothing is taken off the buffer. */
  lemma StopsAtHuge(codec: Codec, head: seq<byte>, fs: seq<Frame>, first: byte, size: nat, rest: seq<byte>)
    requires GoodHead(head) && AllFit(fs) && Readable(codec, fs) && 16_777_216 < size < Power256(8)
    ensures var huge := [first, 127] + ToBigEndian(size, 8) + rest;
      var r := Receive(codec, START, head + [13, 10, 13, 10] + (EncodeAll(fs) + huge));
      r.problem == Some(FrameTooLarge) && r.wire.buffer == huge && r.wire.assembly.frames == Reported(codec, fs)
  {
    ReceiveUpTo(codec, head, fs, [first, 127] + ToBigEndian(size, 8) + rest);
    DecodeRefuses(first, size, rest);
  }

  /** A response whose first lines do not begin with `HTTP/1.1 101` is refused once its head is there. */
  lemma HeadRefused(codec: Codec, head: seq<byte>, rest: seq<byte>)
    requires NotBefore(head, [13, 10, 13, 10]) && !(Ascii("HTTP/1.1 101") <= head)
    ensures var bytes := head + [13, 10, 13, 10] + rest;
      Receive(codec, START, bytes) == Outcome(START.(buffer := bytes), Some(UpgradeRefused))
  {
    var bytes := head + [13, 10, 13, 10] + rest;
    SwitchingText();
    LineFound(head, [13, 10, 13, 10]);
    IndexOfPrefix(head + [13, 10, 13, 10], rest, [13, 10, 13, 10], 0);
    assert START.buffer + bytes == bytes && bytes[..|head|] == head;
  }

  /** Until an empty line has come nothing is read. */
  lemma HeadAwaited(codec: Codec, bytes: seq<byte>)
    requires forall at: nat :: !OccursAt(bytes, [13, 10, 13, 10], at)
    ensures Receive(codec, START, bytes) == Outcome(START.(buffer := bytes), None)
  {
    assert START.buffer + bytes == bytes;
  }
}
