/**
 * What the golden-image walker (`parse_png` in scripts/ci/check-flutter-goldens.rb) reports of any bytes, well formed
 * or not: how far it reads, and each failure by the condition under which it is reported.
 */
module PngVerdict {
  import opened Wrappers
  import opened Sequences
  import opened Bytes
  import opened Png

  // ---------------------------------------------------------------- names and numbers

  /** The chunk types by their four letters. */
  predicate Names(kind: Kind, name: seq<byte>) {
    match kind
    case IHDR => name == Ascii("IHDR")
    case SBIT => name == Ascii("sBIT")
    case SRGB => name == Ascii("sRGB")
    case IDAT => name == Ascii("IDAT")
    case IEND => name == Ascii("IEND")
    case Other(same) =>
      name == same && name !in [Ascii("IHDR"), Ascii("sBIT"), Ascii("sRGB"), Ascii("IDAT"), Ascii("IEND")]
  }

  lemma AsciiNames()
    ensures Ascii("IHDR") == [0x49, 0x48, 0x44, 0x52] && Ascii("sBIT") == [0x73, 0x42, 0x49, 0x54]
    ensures Ascii("sRGB") == [0x73, 0x52, 0x47, 0x42] && Ascii("IDAT") == [0x49, 0x44, 0x41, 0x54]
    ensures Ascii("IEND") == [0x49, 0x45, 0x4e, 0x44]
  {
  }

  lemma KindExactly(name: seq<byte>, kind: Kind)
    ensures KindOf(name) == kind <==> Names(kind, name)
  {
    AsciiNames();
  }

  /** A chunk as the specification frames it: four letters for a name, a length that fits four bytes, a CRC of four. */
  predicate WellFramed(chunk: Chunk) {
    && |chunk.name| == 4 && Names(chunk.kind, chunk.name)
    && (forall i :: 0 <= i < 4 ==>
          'A' <= chunk.name[i] as char <= 'Z' || 'a' <= chunk.name[i] as char <= 'z')
    && |chunk.crc| == 4 && |chunk.data| < 4294967296
  }

  lemma FramedExactly(chunk: Chunk)
    ensures Framed(chunk) <==> WellFramed(chunk)
  {
    KindExactly(chunk.name, chunk.kind);
    assert Power256(1) == 256 && Power256(2) == 65536 && Power256(3) == 16777216 && Power256(4) == 4294967296;
  }

  /** The number in four bytes of a header. */
  function NumberAt(header: seq<byte>, at: nat): nat
    requires at + 4 <= |header|
  {
    header[at] as int * 16777216 + header[at + 1] as int * 65536 + header[at + 2] as int * 256 + header[at + 3]
  }

  lemma NumberRead(header: seq<byte>)
    requires |header| == 13
    ensures BigEndian(header[..4]) == NumberAt(header, 0) && BigEndian(header[4..8]) == NumberAt(header, 4)
  {
    FourBytes(header[..4]);
    FourBytes(header[4..8]);
  }

  // ---------------------------------------------------------------- how far the walk reads

  /** A chunk that stands somewhere is the one read there. */
  lemma StandingRead(bytes: seq<byte>, cursor: nat, chunk: Chunk)
    requires StandsAt(bytes, cursor, chunk)
    ensures Reader(bytes)(cursor) == Some(chunk)
  {
    SerialisedSize(chunk);
    var next := cursor + Size(chunk);
    assert bytes == bytes[..cursor] + Serialise(chunk) + bytes[next..];
    ReadAt(bytes, bytes[..cursor], chunk, bytes[next..]);
  }

  /** What is read at each place, exactly. */
  ghost predicate ReadsExactly(bytes: seq<byte>, read: Reading) {
    forall cursor: nat, chunk: Chunk {:trigger StandsAt(bytes, cursor, chunk)} ::
      read(cursor) == Some(chunk) <==> StandsAt(bytes, cursor, chunk)
  }

  lemma ReaderExact(bytes: seq<byte>)
    ensures ReadsExactly(bytes, Reader(bytes))
  {
    forall cursor: nat, chunk: Chunk
      ensures Reader(bytes)(cursor) == Some(chunk) <==> StandsAt(bytes, cursor, chunk)
    {
      if StandsAt(bytes, cursor, chunk) { StandingRead(bytes, cursor, chunk); }
      if Reader(bytes)(cursor) == Some(chunk) { ChunkReadBack(bytes, cursor); }
    }
  }

  /** From `from` to `to` the bytes are these chunks, one after the other. */
  ghost predicate Stretch(bytes: seq<byte>, from: nat, to: nat, chunks: seq<Chunk>)
    decreases |chunks|
  {
    if chunks == [] then from == to
    else StandsAt(bytes, from, chunks[0]) && Stretch(bytes, from + Size(chunks[0]), to, chunks[1..])
  }

  predicate Ends(chunks: seq<Chunk>) {
    chunks != [] && chunks[|chunks| - 1].kind == IEND
  }

  /** Why the walk stopped at a place: at IEND, at the end of the bytes, or because no chunk stands there. */
  ghost predicate StopsAt(bytes: seq<byte>, at: nat, more: seq<Chunk>, scan: Scan)
    requires at <= |bytes|
  {
    && (scan.sawIend <==> Ends(more))
    && (forall i :: 0 <= i < |more| - 1 ==> more[i].kind != IEND)
    && (if scan.sawIend then scan.failures == (if more[|more| - 1].data == [] then [] else [IendNotEmpty])
                                              + (if at == |bytes| then [] else [TrailingBytes])
        else if at == |bytes| then scan.failures == []
        else
          && (forall chunk :: !StandsAt(bytes, at, chunk))
          && scan.failures == [if |bytes| - at < 12 then TruncatedFraming else InvalidFraming])
  }

  /** A chunk read before the walk went on. */
  lemma StopsLater(bytes: seq<byte>, at: nat, chunk: Chunk, rest: seq<Chunk>, scan: Scan)
    requires at <= |bytes| && StopsAt(bytes, at, rest, scan) && chunk.kind != IEND
    ensures StopsAt(bytes, at, [chunk] + rest, scan)
  {
  }

  lemma StopsHere(bytes: seq<byte>, read: Reading, cursor: nat, chunks: seq<Chunk>)
    requires cursor <= |bytes| && Fits(read, |bytes|) && ReadsExactly(bytes, read)
    requires |bytes| - cursor < 12 || read(cursor).None?
    ensures Walk(read, |bytes|, cursor, chunks).chunks == chunks
    ensures StopsAt(bytes, cursor, [], Walk(read, |bytes|, cursor, chunks))
  {
  }

  lemma StopsBehind(bytes: seq<byte>, read: Reading, cursor: nat, chunks: seq<Chunk>, chunk: Chunk)
    requires cursor <= |bytes| - 12 && Fits(read, |bytes|) && read(cursor) == Some(chunk) && chunk.kind == IEND
    ensures cursor + Size(chunk) <= |bytes|
    ensures Walk(read, |bytes|, cursor, chunks).chunks == chunks + [chunk]
    ensures StopsAt(bytes, cursor + Size(chunk), [chunk], Walk(read, |bytes|, cursor, chunks))
  {
  }

  lemma {:induction false} WalkTells(bytes: seq<byte>, read: Reading, cursor: nat, chunks: seq<Chunk>)
    returns (more: seq<Chunk>, at: nat)
    requires cursor <= |bytes| && Fits(read, |bytes|) && ReadsExactly(bytes, read)
    ensures cursor <= at <= |bytes| && Stretch(bytes, cursor, at, more)
    ensures Walk(read, |bytes|, cursor, chunks).chunks == chunks + more
    ensures StopsAt(bytes, at, more, Walk(read, |bytes|, cursor, chunks))
    decreases |bytes| - cursor
  {
    more, at := [], cursor;
    if |bytes| - cursor < 12 || read(cursor).None? {
      StopsHere(bytes, read, cursor, chunks);
      assert chunks + [] == chunks;
    } else {
      var chunk := read(cursor).value;
      assert StandsAt(bytes, cursor, chunk);
      if chunk.kind == IEND {
        StopsBehind(bytes, read, cursor, chunks, chunk);
        more, at := [chunk], cursor + Size(chunk);
      } else {
        var rest;
        rest, at := WalkTells(bytes, read, cursor + Size(chunk), chunks + [chunk]);
        more := [chunk] + rest;
        StopsLater(bytes, at, chunk, rest, Walk(read, |bytes|, cursor, chunks));
        assert more[1..] == rest && chunks + more == chunks + [chunk] + rest;
      }
    }
  }

  // ---------------------------------------------------------------- what is objected to

  /** Just one chunk is of this kind, and this is its data. */
  ghost predicate Sole(chunks: seq<Chunk>, kind: Kind, data: seq<byte>) {
    exists i :: 0 <= i < |chunks| && chunks[i].kind == kind && chunks[i].data == data
                && forall j :: 0 <= j < |chunks| && chunks[j].kind == kind ==> j == i
  }

  lemma {:induction false} DataNone(chunks: seq<Chunk>, kind: Kind)
    ensures DataOf(chunks, kind) == [] <==> forall i :: 0 <= i < |chunks| ==> chunks[i].kind != kind
  {
    if chunks != [] {
      var init, last := chunks[..|chunks| - 1], chunks[|chunks| - 1];
      DataNone(init, kind);
      DataSnoc(init, last, kind);
      assert chunks == init + [last];
    }
  }

  lemma DataSnoc(init: seq<Chunk>, last: Chunk, kind: Kind)
    ensures DataOf(init + [last], kind) == DataOf(init, kind) + DataIf(last, kind)
  {
    DataAppend(init, [last], kind);
    DataOne(last, kind);
  }

  lemma {:induction false} DataSole(chunks: seq<Chunk>, kind: Kind, data: seq<byte>)
    ensures DataOf(chunks, kind) == [data] <==> Sole(chunks, kind, data)
  {
    if chunks != [] {
      var init, last := chunks[..|chunks| - 1], chunks[|chunks| - 1];
      DataSole(init, kind, data);
      DataSnoc(init, last, kind);
      DataNone(init, kind);
      assert chunks == init + [last];
      if last.kind != kind {
        assert DataOf(chunks, kind) == DataOf(init, kind);
      } else {
        SoleLast(init, last, kind, data);
        OneMore(DataOf(init, kind), last.data, data);
      }
    }
  }

  lemma OneMore<T>(s: seq<T>, x: T, y: T)
    ensures s + [x] == [y] <==> s == [] && x == y
  {
    assert |s + [x]| == |s| + 1 && (s + [x])[|s|] == x;
  }

  lemma SoleLast(init: seq<Chunk>, last: Chunk, kind: Kind, data: seq<byte>)
    requires last.kind == kind
    ensures Sole(init + [last], kind, data)
      <==> last.data == data && forall i :: 0 <= i < |init| ==> init[i].kind != kind
  {
    var chunks := init + [last];
    assert chunks[|init|] == last;
    assert forall i :: 0 <= i < |init| ==> chunks[i] == init[i];
  }

  predicate SomeEmpty(chunks: seq<Chunk>, kind: Kind) {
    exists i :: 0 <= i < |chunks| && chunks[i].kind == kind && chunks[i].data == []
  }

  lemma {:induction false} DataEmpty(chunks: seq<Chunk>, kind: Kind)
    ensures AnyEmpty(DataOf(chunks, kind)) <==> SomeEmpty(chunks, kind)
  {
    if chunks != [] {
      var init, last := chunks[..|chunks| - 1], chunks[|chunks| - 1];
      DataEmpty(init, kind);
      DataSnoc(init, last, kind);
      assert chunks == init + [last];
      EmptySnoc(DataOf(init, kind), last.data);
      assert chunks[|init|] == last && forall i :: 0 <= i < |init| ==> chunks[i] == init[i];
      if last.kind != kind {
        assert DataOf(chunks, kind) == DataOf(init, kind);
      }
    }
  }

  lemma EmptySnoc(data: seq<seq<byte>>, last: seq<byte>)
    ensures AnyEmpty(data + [last]) <==> AnyEmpty(data) || last == []
  {
    var more := data + [last];
    assert more[|data|] == last;
    assert forall i :: 0 <= i < |data| ==> more[i] == data[i];
  }

  /** The kinds the policy asks for, and no others, in its order. */
  predicate InOrder(chunks: seq<Chunk>) {
    var kinds := Kinds(chunks);
    |kinds| >= 5 && kinds == [IHDR, SBIT, SRGB] + seq(|kinds| - 4, _ => IDAT) + [IEND]
  }

  lemma SequenceExactly(chunks: seq<Chunk>)
    ensures InSequence(chunks) <==> InOrder(chunks)
  {
    var kinds, n := Kinds(chunks), |chunks|;
    if n >= 5 {
      var asked := [IHDR, SBIT, SRGB] + seq(n - 4, _ => IDAT) + [IEND];
      assert |asked| == n && forall i :: 3 <= i < n - 1 ==> asked[i] == IDAT;
      assert asked[0] == IHDR && asked[1] == SBIT && asked[2] == SRGB && asked[n - 1] == IEND;
    }
  }

  /** The one header of thirteen bytes, if there is one. */
  ghost predicate HeaderIs(chunks: seq<Chunk>, header: seq<byte>) {
    Sole(chunks, IHDR, header) && |header| == 13
  }

  /** Each objection to what was read, by the condition under which it is made. */
  ghost predicate ObjectsTo(chunks: seq<Chunk>, failure: Failure) {
    match failure
    case Disallowed(kind) => kind.Other? && exists i :: 0 <= i < |chunks| && chunks[i].kind == kind
    case BadSequence => !InOrder(chunks)
    case BadIhdr => forall header :: !HeaderIs(chunks, header)
    case BadDimensions => exists h :: HeaderIs(chunks, h) && (NumberAt(h, 0) == 0 || NumberAt(h, 4) == 0)
    case TooWide => exists h :: HeaderIs(chunks, h) && NumberAt(h, 0) > 4096
    case TooHigh => exists h :: HeaderIs(chunks, h) && NumberAt(h, 4) > 4096
    case TooManyPixels => exists h :: HeaderIs(chunks, h) && NumberAt(h, 0) * NumberAt(h, 4) > 8388608
    case BadPixelFormat => exists h :: HeaderIs(chunks, h) && h[8..] != [8, 6, 0, 0, 0]
    case BadSbit => !Sole(chunks, SBIT, [8, 8, 8, 8])
    case BadSrgb => !Sole(chunks, SRGB, [0])
    case BadIdat =>
      (forall i :: 0 <= i < |chunks| ==> chunks[i].kind != IDAT) || SomeEmpty(chunks, IDAT)
    case _ => false
  }

  lemma {:induction false} UniqueMembers(kinds: seq<Kind>, kind: Kind)
    ensures kind in Unique(kinds) <==> kind in kinds
  {
    if kinds != [] {
      UniqueMembers(kinds[..|kinds| - 1], kind);
      assert kinds == kinds[..|kinds| - 1] + [kinds[|kinds| - 1]];
    }
  }

  lemma DisallowedExactly(chunks: seq<Chunk>, failure: Failure)
    ensures failure in DisallowedKinds(chunks) <==> failure.Disallowed? && ObjectsTo(chunks, failure)
  {
    var kinds := Filter((kind: Kind) => kind.Other?, Unique(Kinds(chunks)));
    if failure.Disallowed? {
      FilterMember((kind: Kind) => kind.Other?, Unique(Kinds(chunks)), failure.kind);
      UniqueMembers(Kinds(chunks), failure.kind);
      if failure.kind in kinds {
        var i :| 0 <= i < |kinds| && kinds[i] == failure.kind;
        assert DisallowedKinds(chunks)[i] == failure;
      }
    }
  }

  lemma HeaderExactly(header: seq<byte>, failure: Failure)
    requires |header| == 13
    ensures failure in HeaderFailures(header) <==>
      match failure
      case BadDimensions => NumberAt(header, 0) == 0 || NumberAt(header, 4) == 0
      case TooWide => NumberAt(header, 0) > 4096
      case TooHigh => NumberAt(header, 4) > 4096
      case TooManyPixels => NumberAt(header, 0) * NumberAt(header, 4) > 8388608
      case BadPixelFormat => header[8..] != [8, 6, 0, 0, 0]
      case _ => false
  {
    NumberRead(header);
  }

  /** The failures that are about the header. */
  predicate OfHeader(failure: Failure) {
    failure in {BadIhdr, BadDimensions, TooWide, TooHigh, TooManyPixels, BadPixelFormat}
  }

  lemma IhdrExactly(chunks: seq<Chunk>, failure: Failure)
    ensures failure in IhdrFailures(DataOf(chunks, IHDR)) <==> OfHeader(failure) && ObjectsTo(chunks, failure)
  {
    var headers := DataOf(chunks, IHDR);
    forall header { DataSole(chunks, IHDR, header); }
    if |headers| == 1 && |headers[0]| == 13 {
      assert headers == [headers[0]];
      HeaderExactly(headers[0], failure);
      assert HeaderIs(chunks, headers[0]);
      assert forall header :: HeaderIs(chunks, header) ==> [header] == headers;
    } else {
      assert forall header :: !HeaderIs(chunks, header);
    }
  }

  lemma SixMembers(kinds: seq<Failure>, a: bool, header: seq<Failure>, b: bool, c: bool, d: bool, failure: Failure)
    ensures failure in kinds + When(a, BadSequence) + header + When(b, BadSbit) + When(c, BadSrgb) + When(d, BadIdat)
      <==> || failure in kinds || failure in header
           || (a && failure == BadSequence) || (b && failure == BadSbit) || (c && failure == BadSrgb)
           || (d && failure == BadIdat)
  {
  }

  lemma PlainExactly(chunks: seq<Chunk>, failure: Failure)
    ensures !failure.Disallowed? && !OfHeader(failure) && ObjectsTo(chunks, failure)
      <==> || (!InSequence(chunks) && failure == BadSequence)
           || (DataOf(chunks, SBIT) != [[8, 8, 8, 8]] && failure == BadSbit)
           || (DataOf(chunks, SRGB) != [[0]] && failure == BadSrgb)
           || ((DataOf(chunks, IDAT) == [] || AnyEmpty(DataOf(chunks, IDAT))) && failure == BadIdat)
  {
    match failure
    case BadSequence => SequenceExactly(chunks);
    case BadSbit => DataSole(chunks, SBIT, [8, 8, 8, 8]);
    case BadSrgb => DataSole(chunks, SRGB, [0]);
    case BadIdat =>
      DataNone(chunks, IDAT);
      DataEmpty(chunks, IDAT);
    case _ =>
  }

  /** The contents are objected to in just these ways. */
  lemma ContentsExactly(chunks: seq<Chunk>, failure: Failure)
    ensures failure in ContentFailures(chunks) <==> ObjectsTo(chunks, failure)
  {
    DisallowedExactly(chunks, failure);
    IhdrExactly(chunks, failure);
    PlainExactly(chunks, failure);
    SixMembers(DisallowedKinds(chunks), !InSequence(chunks), IhdrFailures(DataOf(chunks, IHDR)),
               DataOf(chunks, SBIT) != [[8, 8, 8, 8]], DataOf(chunks, SRGB) != [[0]],
               DataOf(chunks, IDAT) == [] || AnyEmpty(DataOf(chunks, IDAT)), failure);
  }

  // ---------------------------------------------------------------- the order of the report

  /** The place of a failure in a report. */
  function Rank(failure: Failure): nat {
    match failure
    case OversizedFile => 0
    case BadSignature => 1
    case TruncatedFraming => 2
    case InvalidFraming => 3
    case IendNotEmpty => 4
    case TrailingBytes => 5
    case MissingIend => 6
    case Disallowed(_) => 7
    case BadSequence => 8
    case BadIhdr => 9
    case BadDimensions => 10
    case TooWide => 11
    case TooHigh => 12
    case TooManyPixels => 13
    case BadPixelFormat => 14
    case BadSbit => 15
    case BadSrgb => 16
    case BadIdat => 17
  }

  /** In the order of their places, and each once: only of the disallowed kinds can there be several. */
  predicate Ranked(failures: seq<Failure>, lo: nat, hi: nat) {
    && (forall i :: 0 <= i < |failures| ==> lo <= Rank(failures[i]) < hi)
    && (forall i, j :: 0 <= i < j < |failures| ==>
          Rank(failures[i]) < Rank(failures[j]) || (failures[i].Disallowed? && failures[j].Disallowed?))
    && NoRepeat(failures)
  }

  lemma RankedConcat(a: seq<Failure>, b: seq<Failure>, lo: nat, mid: nat, hi: nat)
    requires Ranked(a, lo, mid) && Ranked(b, mid, hi) && lo <= mid <= hi
    ensures Ranked(a + b, lo, hi)
  {
    forall i, j | 0 <= i < j < |a + b|
      ensures (a + b)[i] != (a + b)[j]
      ensures Rank((a + b)[i]) < Rank((a + b)[j]) || ((a + b)[i].Disallowed? && (a + b)[j].Disallowed?)
    {
      if i < |a| <= j { assert Rank((a + b)[i]) < mid <= Rank((a + b)[j]); }
    }
  }

  lemma {:induction false} UniqueDistinct(kinds: seq<Kind>)
    ensures NoRepeat(Unique(kinds))
  {
    if kinds != [] {
      UniqueDistinct(kinds[..|kinds| - 1]);
    }
  }

  lemma DisallowedRanked(chunks: seq<Chunk>)
    ensures Ranked(DisallowedKinds(chunks), 7, 8)
  {
    UniqueDistinct(Kinds(chunks));
    FilterDistinct((kind: Kind) => kind.Other?, (kind: Kind) => kind, Unique(Kinds(chunks)));
  }

  /** The first of these kinds is met before the second is. */
  ghost predicate MetBefore(chunks: seq<Chunk>, first: Kind, second: Kind) {
    exists p :: 0 <= p < |chunks| && chunks[p].kind == first && forall q :: 0 <= q <= p ==> chunks[q].kind != second
  }

  lemma {:induction false} UniqueOrder(chunks: seq<Chunk>, i: nat, j: nat)
    requires i < j < |Unique(Kinds(chunks))|
    ensures MetBefore(chunks, Unique(Kinds(chunks))[i], Unique(Kinds(chunks))[j])
    decreases |chunks|
  {
    var init := chunks[..|chunks| - 1];
    assert Kinds(chunks)[..|chunks| - 1] == Kinds(init);
    var before := Unique(Kinds(init));
    if j < |before| {
      UniqueOrder(init, i, j);
      var p :| 0 <= p < |init| && init[p].kind == before[i] && forall q :: 0 <= q <= p ==> init[q].kind != before[j];
      assert chunks[p] == init[p] && forall q :: 0 <= q <= p ==> chunks[q] == init[q];
    } else {
      UniqueMembers(Kinds(init), before[i]);
      UniqueMembers(Kinds(init), chunks[|init|].kind);
      var p :| 0 <= p < |init| && Kinds(init)[p] == before[i];
      assert chunks[p].kind == before[i];
      assert forall q :: 0 <= q <= p ==> chunks[q].kind == Kinds(init)[q];
    }
  }

  /** Disallowed kinds are reported in the order in which they are first met. */
  lemma DisallowedOrder(chunks: seq<Chunk>, i: nat, j: nat)
    requires i < j < |DisallowedKinds(chunks)|
    ensures MetBefore(chunks, DisallowedKinds(chunks)[i].kind, DisallowedKinds(chunks)[j].kind)
  {
    var p, q := FilterOrder((kind: Kind) => kind.Other?, Unique(Kinds(chunks)), i, j);
    UniqueOrder(chunks, p, q);
  }

  /** One more check behind the others. */
  lemma RankedWhen(before: seq<Failure>, lo: nat, bad: bool, failure: Failure)
    requires Ranked(before, lo, Rank(failure)) && lo <= Rank(failure)
    ensures Ranked(before + When(bad, failure), lo, Rank(failure) + 1)
  {
    RankedConcat(before, When(bad, failure), lo, Rank(failure), Rank(failure) + 1);
  }

  lemma FiveRanked(a: bool, b: bool, c: bool, d: bool, e: bool)
    ensures Ranked(When(a, BadDimensions) + When(b, TooWide) + When(c, TooHigh) + When(d, TooManyPixels)
                   + When(e, BadPixelFormat), 10, 15)
  {
    var one := When(a, BadDimensions);
    var two := one + When(b, TooWide);
    var three := two + When(c, TooHigh);
    RankedWhen(one, 10, b, TooWide);
    RankedWhen(two, 10, c, TooHigh);
    RankedWhen(three, 10, d, TooManyPixels);
    RankedWhen(three + When(d, TooManyPixels), 10, e, BadPixelFormat);
  }

  lemma HeaderRanked(header: seq<byte>)
    requires |header| == 13
    ensures Ranked(HeaderFailures(header), 10, 15)
  {
    var width, height := BigEndian(header[..4]), BigEndian(header[4..8]);
    FiveRanked(width == 0 || height == 0, width > MAX_WIDTH, height > MAX_HEIGHT, width * height > MAX_PIXELS,
               header[8..] != [8, 6, 0, 0, 0]);
  }

  lemma IhdrRanked(headers: seq<seq<byte>>)
    ensures Ranked(IhdrFailures(headers), 9, 15)
  {
    if |headers| == 1 && |headers[0]| == 13 { HeaderRanked(headers[0]); }
  }

  lemma SixRanked(kinds: seq<Failure>, a: bool, header: seq<Failure>, b: bool, c: bool, d: bool)
    requires Ranked(kinds, 7, 8) && Ranked(header, 9, 15)
    ensures Ranked(kinds + When(a, BadSequence) + header + When(b, BadSbit) + When(c, BadSrgb) + When(d, BadIdat),
                   7, 18)
  {
    var two := kinds + When(a, BadSequence);
    var three := two + header;
    var four := three + When(b, BadSbit);
    RankedWhen(kinds, 7, a, BadSequence);
    RankedConcat(two, header, 7, 9, 15);
    RankedWhen(three, 7, b, BadSbit);
    RankedWhen(four, 7, c, BadSrgb);
    RankedWhen(four + When(c, BadSrgb), 7, d, BadIdat);
  }

  lemma ContentsRanked(chunks: seq<Chunk>)
    ensures Ranked(ContentFailures(chunks), 7, 18)
  {
    DisallowedRanked(chunks);
    IhdrRanked(DataOf(chunks, IHDR));
    SixRanked(DisallowedKinds(chunks), !InSequence(chunks), IhdrFailures(DataOf(chunks, IHDR)),
              DataOf(chunks, SBIT) != [[8, 8, 8, 8]], DataOf(chunks, SRGB) != [[0]],
              DataOf(chunks, IDAT) == [] || AnyEmpty(DataOf(chunks, IDAT)));
  }

  lemma StopRanked(bytes: seq<byte>, at: nat, more: seq<Chunk>, scan: Scan)
    requires at <= |bytes| && StopsAt(bytes, at, more, scan)
    ensures Ranked(scan.failures, 2, 6)
  {
  }

  lemma JudgeRanked(bytes: seq<byte>, at: nat, more: seq<Chunk>, scan: Scan)
    requires at <= |bytes| && StopsAt(bytes, at, more, scan)
    ensures Ranked(Judge(scan), 2, 18)
  {
    StopRanked(bytes, at, more, scan);
    ContentsRanked(scan.chunks);
    RankedWhen(scan.failures, 2, !scan.sawIend, MissingIend);
    RankedConcat(scan.failures + When(!scan.sawIend, MissingIend), ContentFailures(scan.chunks), 2, 7, 18);
  }

  // ---------------------------------------------------------------- the whole report

  predicate Signed(bytes: seq<byte>) {
    |bytes| >= 8 && bytes[..8] == [137, 80, 78, 71, 13, 10, 26, 10]
  }

  /**
   * The objections to a signed file of admissible size: to its framing where the reading stopped, and to its chunks.
   */
  ghost predicate Reported(bytes: seq<byte>, at: nat, chunks: seq<Chunk>, failures: seq<Failure>) {
    && 8 <= at <= |bytes| && Stretch(bytes, 8, at, chunks)
    && (forall i :: 0 <= i < |chunks| - 1 ==> chunks[i].kind != IEND)
    && (forall failure :: failure in failures <==>
          match failure
          case IendNotEmpty => Ends(chunks) && chunks[|chunks| - 1].data != []
          case TrailingBytes => Ends(chunks) && at < |bytes|
          case MissingIend => !Ends(chunks)
          case TruncatedFraming => !Ends(chunks) && 0 < |bytes| - at < 12
          case InvalidFraming => !Ends(chunks) && |bytes| - at >= 12
          case _ => ObjectsTo(chunks, failure))
    && (!Ends(chunks) ==> forall chunk :: !StandsAt(bytes, at, chunk))
  }

  lemma JudgeMember(bytes: seq<byte>, at: nat, scan: Scan, failure: Failure)
    requires at <= |bytes| && StopsAt(bytes, at, scan.chunks, scan)
    ensures failure in Judge(scan)
      <==> failure in scan.failures || (!Ends(scan.chunks) && failure == MissingIend) || ObjectsTo(scan.chunks, failure)
  {
    ContentsExactly(scan.chunks, failure);
  }

  lemma JudgeTells(bytes: seq<byte>, at: nat, scan: Scan)
    requires 8 <= at <= |bytes| && Stretch(bytes, 8, at, scan.chunks) && StopsAt(bytes, at, scan.chunks, scan)
    ensures Reported(bytes, at, scan.chunks, Judge(scan))
  {
    forall failure
      ensures failure in Judge(scan) <==>
        match failure
        case IendNotEmpty => Ends(scan.chunks) && scan.chunks[|scan.chunks| - 1].data != []
        case TrailingBytes => Ends(scan.chunks) && at < |bytes|
        case MissingIend => !Ends(scan.chunks)
        case TruncatedFraming => !Ends(scan.chunks) && 0 < |bytes| - at < 12
        case InvalidFraming => !Ends(scan.chunks) && |bytes| - at >= 12
        case _ => ObjectsTo(scan.chunks, failure)
    {
      JudgeMember(bytes, at, scan, failure);
    }
  }

  /**
   * The whole report of any bytes. A file too large or without the signature is refused for that alone. Of any other
   * the chunks that stand there one after the other are read, up to IEND or to where no chunk stands, and every failure
   * is reported just under its condition, once, in the order of the checks.
   */
  lemma ReportedExactly(bytes: seq<byte>) returns (chunks: seq<Chunk>, at: nat)
    ensures |bytes| > 4194304 ==> Failures(bytes) == [OversizedFile]
    ensures |bytes| <= 4194304 && !Signed(bytes) ==> Failures(bytes) == [BadSignature]
    ensures |bytes| <= 4194304 && Signed(bytes) ==>
      Reported(bytes, at, chunks, Failures(bytes)) && Ranked(Failures(bytes), 2, 18)
  {
    chunks, at := [], 0;
    if |bytes| <= 4194304 && Signed(bytes) {
      ReaderFits(bytes);
      ReaderExact(bytes);
      chunks, at := WalkTells(bytes, Reader(bytes), 8, []);
      assert [] + chunks == chunks;
      JudgeTells(bytes, at, WalkFile(bytes));
      JudgeRanked(bytes, at, chunks, WalkFile(bytes));
    }
  }
}
