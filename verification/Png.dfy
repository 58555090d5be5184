/**
 * The golden-image policy's PNG walker (`parse_png` in scripts/ci/check-flutter-goldens.rb) over the chunk layout of
 * the W3C PNG specification, sections 5.2 and 5.3. The walker does not check a chunk's CRC; its bytes are carried
 * through.
 */
module Png {
  import opened Wrappers
  import opened Sequences
  import opened Bytes

  const MAX_FILE_BYTES := 4 * 1024 * 1024
  const MAX_WIDTH := 4096
  const MAX_HEIGHT := 4096
  const MAX_PIXELS := 8 * 1024 * 1024
  const FRAMING_BYTES := 12

  function Signature(): (bytes: seq<byte>)
    ensures |bytes| == 8
  {
    [0x89, 0x50, 0x4e, 0x47, 0x0d, 0x0a, 0x1a, 0x0a]
  }

  /** The chunk types the policy names, and any other. */
  datatype Kind = IHDR | SBIT | SRGB | IDAT | IEND | Other(name: seq<byte>)

  function KindOf(name: seq<byte>): Kind {
    if name == [0x49, 0x48, 0x44, 0x52] then IHDR
    else if name == [0x73, 0x42, 0x49, 0x54] then SBIT
    else if name == [0x73, 0x52, 0x47, 0x42] then SRGB
    else if name == [0x49, 0x44, 0x41, 0x54] then IDAT
    else if name == [0x49, 0x45, 0x4e, 0x44] then IEND
    else Other(name)
  }

  /** A chunk, with its type's four bytes and what they name. */
  datatype Chunk = Chunk(kind: Kind, name: seq<byte>, data: seq<byte>, crc: seq<byte>)

  predicate Letter(b: byte) { 0x41 <= b <= 0x5a || 0x61 <= b <= 0x7a }

  predicate TypeName(name: seq<byte>) {
    |name| == 4 && forall i :: 0 <= i < 4 ==> Letter(name[i])
  }

  datatype Failure =
    | OversizedFile | BadSignature | TruncatedFraming | InvalidFraming | IendNotEmpty | TrailingBytes | MissingIend
    | Disallowed(kind: Kind) | BadSequence
    | BadIhdr | BadDimensions | TooWide | TooHigh | TooManyPixels | BadPixelFormat
    | BadSbit | BadSrgb | BadIdat

  // ---------------------------------------------------------------- framing

  /** What the walk from a cursor to the end of the bytes finds. */
  datatype Scan = Scan(chunks: seq<Chunk>, failures: seq<Failure>, sawIend: bool)

  function ChunkAt(bytes: seq<byte>, cursor: nat): Option<Chunk>
    requires cursor + FRAMING_BYTES <= |bytes|
  {
    var length, name := BigEndian(bytes[cursor..cursor + 4]), bytes[cursor + 4..cursor + 8];
    var end := cursor + FRAMING_BYTES + length;
    if TypeName(name) && end <= |bytes|
    then Some(Chunk(KindOf(name), name, bytes[cursor + 8..cursor + 8 + length], bytes[cursor + 8 + length..end]))
    else None
  }

  function Size(chunk: Chunk): nat { FRAMING_BYTES + |chunk.data| }

  function AtEnd(chunk: Chunk, ended: bool): seq<Failure> {
    (if chunk.data == [] then [] else [IendNotEmpty]) + (if ended then [] else [TrailingBytes])
  }

  /** How the chunk at a place is read: none where its framing is not in order. */
  type Reading = nat -> Option<Chunk>

  function Reader(bytes: seq<byte>): Reading {
    (cursor: nat) => if cursor + FRAMING_BYTES <= |bytes| then ChunkAt(bytes, cursor) else None
  }

  ghost predicate Fits(read: Reading, size: nat) {
    forall cursor: nat :: read(cursor).Some? ==> cursor + Size(read(cursor).value) <= size
  }

  lemma ReaderFits(bytes: seq<byte>)
    ensures Fits(Reader(bytes), |bytes|)
  {
  }

  /** Walk on from a cursor, with these chunks read before it. */
  function Walk(read: Reading, size: nat, cursor: nat, chunks: seq<Chunk>): Scan
    requires cursor <= size && Fits(read, size)
    decreases size - cursor
  {
    if cursor == size then Scan(chunks, [], false)
    else if size - cursor < FRAMING_BYTES then Scan(chunks, [TruncatedFraming], false)
    else
      match read(cursor)
      case None => Scan(chunks, [InvalidFraming], false)
      case Some(chunk) =>
        if chunk.kind == IEND then Scan(chunks + [chunk], AtEnd(chunk, cursor + Size(chunk) == size), true)
        else Walk(read, size, cursor + Size(chunk), chunks + [chunk])
  }

  function WalkFile(bytes: seq<byte>): Scan
    requires |bytes| >= 8
  {
    ReaderFits(bytes);
    Walk(Reader(bytes), |bytes|, 8, [])
  }

  // ---------------------------------------------------------------- the verdict

  function DataOf(chunks: seq<Chunk>, kind: Kind): seq<seq<byte>> {
    Map((chunk: Chunk) => chunk.data, Filter((chunk: Chunk) => chunk.kind == kind, chunks))
  }

  function Kinds(chunks: seq<Chunk>): seq<Kind> {
    Map((chunk: Chunk) => chunk.kind, chunks)
  }

  function Unique(kinds: seq<Kind>): seq<Kind> {
    if kinds == [] then []
    else
      var before := Unique(kinds[..|kinds| - 1]);
      if kinds[|kinds| - 1] in before then before else before + [kinds[|kinds| - 1]]
  }

  function DisallowedKinds(chunks: seq<Chunk>): seq<Failure> {
    Map((kind: Kind) => Disallowed(kind), Filter((kind: Kind) => kind.Other?, Unique(Kinds(chunks))))
  }

  /** IHDR, sBIT, sRGB, one or more IDAT, IEND. */
  predicate InSequence(chunks: seq<Chunk>) {
    var n := |chunks|;
    && n >= 5 && chunks[0].kind == IHDR && chunks[1].kind == SBIT && chunks[2].kind == SRGB
    && (forall i :: 3 <= i < n - 1 ==> chunks[i].kind == IDAT) && chunks[n - 1].kind == IEND
  }

  function When(bad: bool, failure: Failure): seq<Failure> { if bad then [failure] else [] }

  function HeaderFailures(header: seq<byte>): seq<Failure>
    requires |header| == 13
  {
    var width, height := BigEndian(header[..4]), BigEndian(header[4..8]);
    When(width == 0 || height == 0, BadDimensions)
    + When(width > MAX_WIDTH, TooWide) + When(height > MAX_HEIGHT, TooHigh)
    + When(width * height > MAX_PIXELS, TooManyPixels) + When(header[8..] != [8, 6, 0, 0, 0], BadPixelFormat)
  }

  function IhdrFailures(headers: seq<seq<byte>>): seq<Failure> {
    if |headers| != 1 || |headers[0]| != 13 then [BadIhdr] else HeaderFailures(headers[0])
  }

  predicate AnyEmpty(data: seq<seq<byte>>) { exists i :: 0 <= i < |data| && data[i] == [] }

  function ContentFailures(chunks: seq<Chunk>): seq<Failure> {
    DisallowedKinds(chunks) + When(!InSequence(chunks), BadSequence) + IhdrFailures(DataOf(chunks, IHDR))
    + When(DataOf(chunks, SBIT) != [[8, 8, 8, 8]], BadSbit) + When(DataOf(chunks, SRGB) != [[0]], BadSrgb)
    + When(DataOf(chunks, IDAT) == [] || AnyEmpty(DataOf(chunks, IDAT)), BadIdat)
  }

  function Judge(scan: Scan): seq<Failure> {
    scan.failures + When(!scan.sawIend, MissingIend) + ContentFailures(scan.chunks)
  }

  function Failures(bytes: seq<byte>): seq<Failure> {
    if |bytes| > MAX_FILE_BYTES then [OversizedFile]
    else if |bytes| < 8 || bytes[..8] != Signature() then [BadSignature]
    else Judge(WalkFile(bytes))
  }

  // ---------------------------------------------------------------- the loop

  /** The cursor loop. */
  method WalkChunks(bytes: seq<byte>) returns (scan: Scan)
    requires |bytes| >= 8
    ensures scan == WalkFile(bytes)
  {
    ghost var read := Reader(bytes);
    ReaderFits(bytes);
    var cursor: nat := 8;
    var chunks: seq<Chunk> := [];
    while cursor < |bytes|
      invariant 8 <= cursor <= |bytes| && Walk(read, |bytes|, 8, []) == Walk(read, |bytes|, cursor, chunks)
      decreases |bytes| - cursor
    {
      if |bytes| - cursor < FRAMING_BYTES { return Scan(chunks, [TruncatedFraming], false); }
      var found := ChunkAt(bytes, cursor);
      if found.None? { return Scan(chunks, [InvalidFraming], false); }
      var chunk := found.value;
      cursor := cursor + Size(chunk);
      chunks := chunks + [chunk];
      if chunk.kind == IEND { return Scan(chunks, AtEnd(chunk, cursor == |bytes|), true); }
    }
    return Scan(chunks, [], false);
  }

  /** `parse_png`: every reason for which a golden image is refused. */
  method ParsePng(bytes: seq<byte>) returns (failures: seq<Failure>)
    ensures failures == Failures(bytes)
  {
    if |bytes| > MAX_FILE_BYTES { return [OversizedFile]; }
    if |bytes| < 8 || bytes[..8] != Signature() { return [BadSignature]; }
    var scan := WalkChunks(bytes);
    return Judge(scan);
  }

  // ---------------------------------------------------------------- files written from chunks

  predicate Framed(chunk: Chunk) {
    TypeName(chunk.name) && chunk.kind == KindOf(chunk.name) && |chunk.crc| == 4 && |chunk.data| < Power256(4)
  }

  function Serialise(chunk: Chunk): seq<byte> {
    ToBigEndian(|chunk.data|, 4) + chunk.name + chunk.data + chunk.crc
  }

  function SerialiseAll(chunks: seq<Chunk>): seq<byte> {
    if chunks == [] then [] else Serialise(chunks[0]) + SerialiseAll(chunks[1..])
  }

  /** What the policy asks of the chunks' contents. */
  predicate GoodHeader(header: seq<byte>) {
    && |header| == 13
    && var width, height := BigEndian(header[..4]), BigEndian(header[4..8]);
       && 0 < width <= MAX_WIDTH && 0 < height <= MAX_HEIGHT && width * height <= MAX_PIXELS
       && header[8..] == [8, 6, 0, 0, 0]
  }

  predicate GoodContents(chunks: seq<Chunk>) {
    && InSequence(chunks)
    && GoodHeader(chunks[0].data) && chunks[1].data == [8, 8, 8, 8] && chunks[2].data == [0]
    && (forall i :: 3 <= i < |chunks| - 1 ==> chunks[i].data != [])
    && chunks[|chunks| - 1].data == []
  }

  predicate AllFramed(chunks: seq<Chunk>) { forall i :: 0 <= i < |chunks| ==> Framed(chunks[i]) }

  /** The file is the signature and these chunks and nothing else. */
  predicate IsFileOf(bytes: seq<byte>, chunks: seq<Chunk>) {
    AllFramed(chunks) && bytes == Signature() + SerialiseAll(chunks)
  }

  lemma LengthFits(b: seq<byte>)
    requires |b| == 4
    ensures BigEndian(b) < Power256(4) && ToBigEndian(BigEndian(b), 4) == b
  {
    BigEndianInverse(b);
  }

  /** The chunk is well framed, and writing it gives the bytes there. */
  predicate StandsAt(bytes: seq<byte>, cursor: nat, chunk: Chunk) {
    Framed(chunk) && cursor + Size(chunk) <= |bytes| && Serialise(chunk) == bytes[cursor..cursor + Size(chunk)]
  }

  lemma ChunkReadBack(bytes: seq<byte>, cursor: nat)
    requires cursor + FRAMING_BYTES <= |bytes| && ChunkAt(bytes, cursor).Some?
    ensures StandsAt(bytes, cursor, ChunkAt(bytes, cursor).value)
  {
    LengthFits(bytes[cursor..cursor + 4]);
  }

  ghost predicate ReadsBack(bytes: seq<byte>, read: Reading) {
    forall cursor: nat {:trigger StandsAt(bytes, cursor, read(cursor).value)} ::
      read(cursor).Some? ==> StandsAt(bytes, cursor, read(cursor).value)
  }

  lemma ReaderReadsBack(bytes: seq<byte>)
    ensures ReadsBack(bytes, Reader(bytes))
  {
    forall cursor: nat | Reader(bytes)(cursor).Some?
      ensures StandsAt(bytes, cursor, Reader(bytes)(cursor).value)
    {
      ChunkReadBack(bytes, cursor);
    }
  }

  lemma ReadMore(bytes: seq<byte>, cursor: nat, chunk: Chunk, rest: seq<Chunk>)
    requires StandsAt(bytes, cursor, chunk) && bytes[cursor + Size(chunk)..] == SerialiseAll(rest) && AllFramed(rest)
    ensures AllFramed([chunk] + rest) && bytes[cursor..] == SerialiseAll([chunk] + rest)
  {
    var next := cursor + Size(chunk);
    assert ([chunk] + rest)[1..] == rest && bytes[cursor..] == bytes[cursor..next] + bytes[next..];
  }

  /** Whatever chunks the bytes from `next` on are, those from `cursor` on are this chunk and then they. */
  ghost predicate Continues(bytes: seq<byte>, cursor: nat, next: nat, chunk: Chunk)
    requires cursor <= |bytes| && next <= |bytes|
  {
    forall rest: seq<Chunk> {:trigger [chunk] + rest} ::
      AllFramed(rest) && bytes[next..] == SerialiseAll(rest) ==>
        AllFramed([chunk] + rest) && bytes[cursor..] == SerialiseAll([chunk] + rest)
  }

  /** A walk without failures reads a chunk, and stops if it is IEND or goes on behind it. */
  lemma WalkReads(bytes: seq<byte>, read: Reading, cursor: nat, chunks: seq<Chunk>) returns (chunk: Chunk, next: nat)
    requires cursor <= |bytes| && Fits(read, |bytes|) && ReadsBack(bytes, read)
    requires Walk(read, |bytes|, cursor, chunks).failures == [] && Walk(read, |bytes|, cursor, chunks).sawIend
    ensures cursor < next <= |bytes| && Continues(bytes, cursor, next, chunk)
    ensures chunk.kind == IEND ==>
      Walk(read, |bytes|, cursor, chunks).chunks == chunks + [chunk] && chunk.data == [] && next == |bytes|
    ensures chunk.kind != IEND ==> Walk(read, |bytes|, cursor, chunks) == Walk(read, |bytes|, next, chunks + [chunk])
  {
    chunk := read(cursor).value;
    next := cursor + Size(chunk);
    assert StandsAt(bytes, cursor, chunk);
    forall rest: seq<Chunk> | AllFramed(rest) && bytes[next..] == SerialiseAll(rest)
      ensures AllFramed([chunk] + rest) && bytes[cursor..] == SerialiseAll([chunk] + rest)
    {
      ReadMore(bytes, cursor, chunk, rest);
    }
  }

  /** A walk without failures has read all the bytes, and they are its chunks written again. */
  lemma {:induction false} WalkReadsBack(bytes: seq<byte>, read: Reading, cursor: nat, chunks: seq<Chunk>)
    returns (more: seq<Chunk>)
    requires cursor <= |bytes| && Fits(read, |bytes|) && ReadsBack(bytes, read)
    requires Walk(read, |bytes|, cursor, chunks).failures == [] && Walk(read, |bytes|, cursor, chunks).sawIend
    ensures Walk(read, |bytes|, cursor, chunks).chunks == chunks + more
    ensures AllFramed(more) && bytes[cursor..] == SerialiseAll(more)
    ensures more != [] && more[|more| - 1].data == []
    decreases |bytes| - cursor
  {
    var chunk, next := WalkReads(bytes, read, cursor, chunks);
    var rest: seq<Chunk> := [];
    if chunk.kind == IEND {
      assert bytes[next..] == [];
    } else {
      rest := WalkReadsBack(bytes, read, next, chunks + [chunk]);
    }
    more := [chunk] + rest;
    assert chunks + more == (chunks + [chunk]) + rest;
  }

  /** A written chunk is read as it was, wherever it stands. */
  lemma ChunkWritten(before: seq<byte>, chunk: Chunk, after: seq<byte>)
    requires Framed(chunk)
    ensures |before| + Size(chunk) <= |before + Serialise(chunk) + after|
    ensures ChunkAt(before + Serialise(chunk) + after, |before|) == Some(chunk)
  {
    var bytes, at := before + Serialise(chunk) + after, |before|;
    var length := ToBigEndian(|chunk.data|, 4);
    BigEndianRoundTrip(|chunk.data|, 4);
    assert bytes[at..at + 4] == length;
    assert bytes[at + 4..at + 8] == chunk.name;
    assert bytes[at + 8..at + 8 + |chunk.data|] == chunk.data;
    assert bytes[at + 8 + |chunk.data|..at + 12 + |chunk.data|] == chunk.crc;
  }

  /** From this place on, these chunks are read one after the other. */
  ghost predicate ReadsFrom(read: Reading, at: nat, chunks: seq<Chunk>)
    decreases |chunks|
  {
    chunks == [] || (read(at) == Some(chunks[0]) && ReadsFrom(read, at + Size(chunks[0]), chunks[1..]))
  }

  lemma SerialisedSize(chunk: Chunk)
    requires Framed(chunk)
    ensures |Serialise(chunk)| == Size(chunk)
  {
  }

  lemma Associates(a: seq<byte>, b: seq<byte>, c: seq<byte>)
    ensures a + (b + c) == a + b + c
  {
  }

  lemma WrittenSplits(before: seq<byte>, chunks: seq<Chunk>, bytes: seq<byte>)
    requires AllFramed(chunks) && chunks != [] && bytes == before + SerialiseAll(chunks)
    ensures bytes == before + Serialise(chunks[0]) + SerialiseAll(chunks[1..])
    ensures |before + Serialise(chunks[0])| == |before| + Size(chunks[0])
  {
    SerialisedSize(chunks[0]);
    Associates(before, Serialise(chunks[0]), SerialiseAll(chunks[1..]));
  }

  lemma ReadAt(bytes: seq<byte>, before: seq<byte>, chunk: Chunk, after: seq<byte>)
    requires Framed(chunk) && bytes == before + Serialise(chunk) + after
    ensures Reader(bytes)(|before|) == Some(chunk)
  {
    ChunkWritten(before, chunk, after);
  }

  ghost predicate ReadsWritten(bytes: seq<byte>, read: Reading) {
    forall before, chunk, after :: Framed(chunk) && bytes == before + Serialise(chunk) + after ==>
      read(|before|) == Some(chunk)
  }

  lemma ReaderReadsWritten(bytes: seq<byte>)
    ensures ReadsWritten(bytes, Reader(bytes))
  {
    forall before, chunk, after | Framed(chunk) && bytes == before + Serialise(chunk) + after
      ensures Reader(bytes)(|before|) == Some(chunk)
    {
      ReadAt(bytes, before, chunk, after);
    }
  }

  lemma {:induction false} WrittenReads(bytes: seq<byte>, read: Reading, before: seq<byte>, chunks: seq<Chunk>)
    requires AllFramed(chunks) && bytes == before + SerialiseAll(chunks) && ReadsWritten(bytes, read)
    ensures ReadsFrom(read, |before|, chunks) && |bytes| == |before| + TotalSize(chunks)
    decreases |chunks|
  {
    if chunks != [] {
      WrittenSplits(before, chunks, bytes);
      WrittenReads(bytes, read, before + Serialise(chunks[0]), chunks[1..]);
    }
  }

  function TotalSize(chunks: seq<Chunk>): nat {
    if chunks == [] then 0 else Size(chunks[0]) + TotalSize(chunks[1..])
  }

  /** Chunks up to an empty IEND, and nothing after it, are walked to just these chunks. */
  lemma {:induction false} WrittenWalks(read: Reading, size: nat, at: nat, before: seq<Chunk>, chunks: seq<Chunk>)
    requires Fits(read, size) && ReadsFrom(read, at, chunks) && at + TotalSize(chunks) == size && chunks != []
    requires forall i :: 0 <= i < |chunks| - 1 ==> chunks[i].kind != IEND
    requires chunks[|chunks| - 1].kind == IEND && chunks[|chunks| - 1].data == []
    ensures Walk(read, size, at, before) == Scan(before + chunks, [], true)
    decreases |chunks|
  {
    var first, rest := chunks[0], chunks[1..];
    if rest != [] {
      WrittenWalks(read, size, at + Size(first), before + [first], rest);
      assert (before + [first]) + rest == before + chunks;
    } else {
      assert chunks == [first] && TotalSize(rest) == 0;
    }
  }

  // ---------------------------------------------------------------- contents

  lemma DataAppend(a: seq<Chunk>, b: seq<Chunk>, kind: Kind)
    ensures DataOf(a + b, kind) == DataOf(a, kind) + DataOf(b, kind)
  {
    FilterAppend((chunk: Chunk) => chunk.kind == kind, a, b);
  }

  lemma DataOne(chunk: Chunk, kind: Kind)
    ensures DataOf([chunk], kind) == if chunk.kind == kind then [chunk.data] else []
  {
    FilterLast((c: Chunk) => c.kind == kind, [], chunk);
    assert [] + [chunk] == [chunk];
  }

  lemma DataSame(chunks: seq<Chunk>, kind: Kind, all: Kind)
    requires forall i :: 0 <= i < |chunks| ==> chunks[i].kind == all
    ensures DataOf(chunks, kind) == if kind == all then Map((chunk: Chunk) => chunk.data, chunks) else []
  {
    var keep := (chunk: Chunk) => chunk.kind == kind;
    if kind == all { FilterAll(keep, chunks); } else { FilterNone(keep, chunks); }
  }

  function DataIf(chunk: Chunk, kind: Kind): seq<seq<byte>> { if chunk.kind == kind then [chunk.data] else [] }

  lemma FiveParts(a: Chunk, b: Chunk, c: Chunk, middle: seq<Chunk>, e: Chunk, kind: Kind)
    ensures DataOf([a] + [b] + [c] + middle + [e], kind) ==
            DataIf(a, kind) + DataIf(b, kind) + DataIf(c, kind) + DataOf(middle, kind) + DataIf(e, kind)
  {
    DataAppend([a] + [b] + [c] + middle, [e], kind);
    DataAppend([a] + [b] + [c], middle, kind);
    DataAppend([a] + [b], [c], kind);
    DataAppend([a], [b], kind);
    DataOne(a, kind);
    DataOne(b, kind);
    DataOne(c, kind);
    DataOne(e, kind);
  }

  lemma InFive(chunks: seq<Chunk>) returns (middle: seq<Chunk>)
    requires |chunks| >= 5
    ensures middle == chunks[3..|chunks| - 1]
    ensures chunks == [chunks[0]] + [chunks[1]] + [chunks[2]] + middle + [chunks[|chunks| - 1]]
  {
    middle := chunks[3..|chunks| - 1];
  }

  lemma SequenceParts(chunks: seq<Chunk>, kind: Kind)
    requires InSequence(chunks)
    ensures DataOf(chunks, kind) ==
            DataIf(chunks[0], kind) + DataIf(chunks[1], kind) + DataIf(chunks[2], kind)
            + DataOf(chunks[3..|chunks| - 1], kind) + DataIf(chunks[|chunks| - 1], kind)
  {
    var middle := InFive(chunks);
    FiveParts(chunks[0], chunks[1], chunks[2], middle, chunks[|chunks| - 1], kind);
  }

  /** In sequence, the data of each kind is where the sequence puts it. */
  lemma SequenceData(chunks: seq<Chunk>, kind: Kind)
    requires InSequence(chunks) && (kind == IHDR || kind == SBIT || kind == SRGB)
    ensures DataOf(chunks, kind) ==
            [if kind == IHDR then chunks[0].data else if kind == SBIT then chunks[1].data else chunks[2].data]
  {
    SequenceParts(chunks, kind);
    DataSame(chunks[3..|chunks| - 1], kind, IDAT);
  }

  lemma SequenceImage(chunks: seq<Chunk>)
    requires InSequence(chunks)
    ensures DataOf(chunks, IDAT) == Map((chunk: Chunk) => chunk.data, chunks[3..|chunks| - 1])
  {
    SequenceParts(chunks, IDAT);
    DataSame(chunks[3..|chunks| - 1], IDAT, IDAT);
  }

  lemma HeaderFails(header: seq<byte>)
    ensures IhdrFailures([header]) == [] <==> GoodHeader(header)
  {
  }

  lemma {:induction false} UniqueWithin(kinds: seq<Kind>, i: nat)
    requires i < |Unique(kinds)|
    ensures Unique(kinds)[i] in kinds
  {
    var init := kinds[..|kinds| - 1];
    if i < |Unique(init)| {
      UniqueWithin(init, i);
    }
  }

  lemma NoneDisallowed(chunks: seq<Chunk>)
    requires InSequence(chunks)
    ensures DisallowedKinds(chunks) == []
  {
    var kinds := Unique(Kinds(chunks));
    forall i | 0 <= i < |kinds|
      ensures !kinds[i].Other?
    {
      UniqueWithin(Kinds(chunks), i);
      var j :| 0 <= j < |chunks| && chunks[j].kind == kinds[i];
      assert 3 <= j < |chunks| - 1 ==> chunks[j].kind == IDAT;
    }
    FilterNone((kind: Kind) => kind.Other?, kinds);
  }

  lemma NoneEmpty(chunks: seq<Chunk>)
    requires InSequence(chunks)
    ensures var data := Map((chunk: Chunk) => chunk.data, chunks[3..|chunks| - 1]);
      data != [] && (AnyEmpty(data) <==> exists i :: 3 <= i < |chunks| - 1 && chunks[i].data == [])
  {
    var middle := chunks[3..|chunks| - 1];
    var data := Map((chunk: Chunk) => chunk.data, middle);
    if i :| 3 <= i < |chunks| - 1 && chunks[i].data == [] {
      assert data[i - 3] == [];
    }
    if j :| 0 <= j < |data| && data[j] == [] {
      assert chunks[j + 3].data == [];
    }
  }

  lemma ConcatEmpty<T>(a: seq<T>, b: seq<T>)
    ensures a + b == [] <==> a == [] && b == []
  {
    assert |a + b| == |a| + |b|;
  }

  /** The contents are not objected to exactly when they are in sequence and each part is as the policy has it. */
  lemma ContentsJudged(chunks: seq<Chunk>)
    ensures ContentFailures(chunks) == [] <==>
            && InSequence(chunks)
            && GoodHeader(chunks[0].data) && chunks[1].data == [8, 8, 8, 8] && chunks[2].data == [0]
            && forall i :: 3 <= i < |chunks| - 1 ==> chunks[i].data != []
  {
    if InSequence(chunks) {
      SequenceData(chunks, IHDR);
      SequenceData(chunks, SBIT);
      SequenceData(chunks, SRGB);
      SequenceImage(chunks);
      NoneDisallowed(chunks);
      NoneEmpty(chunks);
      HeaderFails(chunks[0].data);
    }
  }

  // ---------------------------------------------------------------- soundness and completeness

  lemma JudgedClean(scan: Scan)
    ensures Judge(scan) == [] <==> scan.failures == [] && scan.sawIend && ContentFailures(scan.chunks) == []
  {
    ConcatEmpty(scan.failures + When(!scan.sawIend, MissingIend), ContentFailures(scan.chunks));
    ConcatEmpty(scan.failures, When(!scan.sawIend, MissingIend));
  }

  lemma FileReadsBack(bytes: seq<byte>) returns (chunks: seq<Chunk>)
    requires |bytes| >= 8 && bytes[..8] == Signature() && WalkFile(bytes).failures == [] && WalkFile(bytes).sawIend
    ensures chunks == WalkFile(bytes).chunks && IsFileOf(bytes, chunks)
    ensures chunks != [] && chunks[|chunks| - 1].data == []
  {
    ReaderFits(bytes);
    ReaderReadsBack(bytes);
    chunks := WalkReadsBack(bytes, Reader(bytes), 8, []);
    assert [] + chunks == chunks;
    assert bytes == bytes[..8] + bytes[8..];
  }

  /** An accepted file is the signature and its chunks and nothing more, and writing them again gives the same bytes. */
  lemma AcceptedIsFile(bytes: seq<byte>) returns (chunks: seq<Chunk>)
    requires Failures(bytes) == []
    ensures IsFileOf(bytes, chunks) && GoodContents(chunks) && |bytes| <= MAX_FILE_BYTES
  {
    var scan := WalkFile(bytes);
    JudgedClean(scan);
    chunks := FileReadsBack(bytes);
    ContentsJudged(chunks);
  }

  lemma SequenceEnds(chunks: seq<Chunk>)
    requires InSequence(chunks)
    ensures chunks[|chunks| - 1].kind == IEND && forall i :: 0 <= i < |chunks| - 1 ==> chunks[i].kind != IEND
  {
    forall i | 0 <= i < |chunks| - 1
      ensures chunks[i].kind != IEND
    {
      assert i >= 3 ==> chunks[i].kind == IDAT;
    }
  }

  lemma FileWalks(bytes: seq<byte>, chunks: seq<Chunk>)
    requires IsFileOf(bytes, chunks) && InSequence(chunks) && chunks[|chunks| - 1].data == []
    ensures |bytes| >= 8 && WalkFile(bytes) == Scan(chunks, [], true)
  {
    ReaderFits(bytes);
    ReaderReadsWritten(bytes);
    WrittenReads(bytes, Reader(bytes), Signature(), chunks);
    SequenceEnds(chunks);
    WrittenWalks(Reader(bytes), |bytes|, 8, [], chunks);
    assert [] + chunks == chunks;
  }

  lemma StartsSigned(bytes: seq<byte>, chunks: seq<Chunk>)
    requires IsFileOf(bytes, chunks)
    ensures |bytes| >= 8 && bytes[..8] == Signature()
  {
  }

  /** Every file written from chunks that meet the policy is accepted. */
  lemma FileIsAccepted(bytes: seq<byte>, chunks: seq<Chunk>)
    requires IsFileOf(bytes, chunks) && GoodContents(chunks) && |bytes| <= MAX_FILE_BYTES
    ensures Failures(bytes) == []
  {
    StartsSigned(bytes, chunks);
    FileWalks(bytes, chunks);
    ContentsJudged(chunks);
    JudgedClean(Scan(chunks, [], true));
  }

  /** The walker accepts exactly the files of at most 4 MiB written from chunks that meet the policy. */
  lemma AcceptsExactly(bytes: seq<byte>)
    ensures Failures(bytes) == [] <==>
            |bytes| <= MAX_FILE_BYTES && exists chunks :: IsFileOf(bytes, chunks) && GoodContents(chunks)
  {
    if Failures(bytes) == [] {
      var chunks := AcceptedIsFile(bytes);
    }
    if |bytes| <= MAX_FILE_BYTES {
      if chunks :| IsFileOf(bytes, chunks) && GoodContents(chunks) {
        FileIsAccepted(bytes, chunks);
      }
    }
  }
}
