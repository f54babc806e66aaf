/**
 The IEEE-float WAVE decoder: a walk over RIFF chunks in any order, each padded to an even size,
 and the checks of the one format and the one data chunk.
 */
module RiffWave {
  import opened ByteStrings
  import opened Wrappers

  datatype Format = Format(tag: nat, channels: nat, rate: nat, byteRate: nat, align: nat, bits: nat)

  datatype Wave = Wave(rate: nat, channels: nat, bits: nat, payload: Bytes)

  datatype Refusal =
    | NotRiff | SizeExceeds | ChunkExceeds | DuplicateFormat | ShortFormat | DuplicateData | MissingChunk
    | NotFloat | BadChannels | Inconsistent | NotAligned

  /** What the walk has found so far. */
  datatype Found = Found(fmt: Option<Format>, payload: Option<Bytes>)

  const RIFF: Bytes := [82, 73, 70, 70]
  const WAVE: Bytes := [87, 65, 86, 69]
  const FMT: Bytes := [102, 109, 116, 32]
  const DATA: Bytes := [100, 97, 116, 97]

  // ----- The specification

  function FormatOf(body: Bytes): Format
    requires |body| >= 16
  {
    Format(U16(body, 0), U16(body, 2), U32(body, 4), U32(body, 8), U16(body, 12), U16(body, 14))
  }

  /** One chunk seen. */
  function Next(found: Found, id: Bytes, body: Bytes): Result<Found, Refusal> {
    if id == FMT then
      if found.fmt.Some? then Failure(DuplicateFormat)
      else if |body| < 16 then Failure(ShortFormat)
      else Success(found.(fmt := Some(FormatOf(body))))
    else if id == DATA then
      if found.payload.Some? then Failure(DuplicateData) else Success(found.(payload := Some(body)))
    else Success(found)
  }

  function Finish(found: Found): Result<Wave, Refusal> {
    if found.fmt.None? || found.payload.None? then Failure(MissingChunk)
    else
      var (f, payload) := (found.fmt.value, found.payload.value);
      if f.tag != 3 || (f.bits != 32 && f.bits != 64) then Failure(NotFloat)
      else if !(1 <= f.channels <= 32) || f.rate <= 0 then Failure(BadChannels)
      else
        var align := f.channels * (f.bits / 8);
        if f.align != align || f.byteRate != f.rate * align then Failure(Inconsistent)
        else if |payload| % f.align != 0 then Failure(NotAligned)
        else Success(Wave(f.rate, f.channels, f.bits, payload))
  }

  /** Bytes of a chunk in the file: header, body, and a padding byte after an odd body. */
  function Span(size: nat): (n: nat)
    ensures n >= 8
  {
    8 + size + size % 2
  }

  function Walk(data: Bytes, declared: nat, offset: nat, found: Found): Result<Found, Refusal>
    requires declared <= |data|
    decreases if offset < declared then declared - offset else 0
  {
    if offset + 8 > declared then Success(found)
    else
      var size := U32(data, offset + 4);
      var (start, end) := (offset + 8, offset + 8 + size);
      if end > declared then Failure(ChunkExceeds)
      else
        var next :- Next(found, data[offset..offset + 4], data[start..end]);
        Walk(data, declared, offset + Span(size), next)
  }

  function Decode(data: Bytes): Result<Wave, Refusal> {
    if |data| < 12 || data[..4] != RIFF || data[8..12] != WAVE then Failure(NotRiff)
    else
      var declared := U32(data, 4) + 8;
      if declared > |data| then Failure(SizeExceeds)
      else
        var found :- Walk(data, declared, 12, Found(None, None));
        Finish(found)
  }

  // ----- The program

  method DecodeIeeeFloat(data: Bytes) returns (r: Result<Wave, Refusal>)
    ensures r == Decode(data)
  {
    if |data| < 12 || data[..4] != RIFF || data[8..12] != WAVE {
      return Failure(NotRiff);
    }
    var declared := U32(data, 4) + 8;
    if declared > |data| {
      return Failure(SizeExceeds);
    }
    var found :- FindChunks(data, declared);
    return Finish(found);
  }

  /** One chunk, recorded if it is the format or the data. */
  method See(found: Found, id: Bytes, body: Bytes) returns (r: Result<Found, Refusal>)
    ensures r == Next(found, id, body)
  {
    if id == FMT {
      if found.fmt.Some? {
        return Failure(DuplicateFormat);
      }
      if |body| < 16 {
        return Failure(ShortFormat);
      }
      return Success(found.(fmt := Some(FormatOf(body))));
    }
    if id == DATA {
      if found.payload.Some? {
        return Failure(DuplicateData);
      }
      return Success(found.(payload := Some(body)));
    }
    return Success(found);
  }

  /** The loop over the chunks. */
  method FindChunks(data: Bytes, declared: nat) returns (r: Result<Found, Refusal>)
    requires declared <= |data|
    ensures r == Walk(data, declared, 12, Found(None, None))
  {
    var found, offset := Found(None, None), 12;
    while offset + 8 <= declared
      invariant Walk(data, declared, 12, Found(None, None)) == Walk(data, declared, offset, found)
      decreases declared - offset
    {
      var size := U32(data, offset + 4);
      var end := offset + 8 + size;
      if end > declared {
        return Failure(ChunkExceeds);
      }
      WalkNext(data, declared, offset, found);
      var next := See(found, data[offset..offset + 4], data[offset + 8..end]);
      if next.Failure? {
        return next;
      }
      found, offset := next.value, offset + Span(size);
    }
    return Success(found);
  }

  lemma {:induction false} WalkNext(data: Bytes, declared: nat, offset: nat, found: Found)
    requires declared <= |data| && offset + 8 <= declared && offset + 8 + U32(data, offset + 4) <= declared
    ensures var size := U32(data, offset + 4);
            Walk(data, declared, offset, found) ==
            WalkOn(data, declared, offset + Span(size), Next(found, data[offset..offset + 4], data[offset + 8..offset + 8 + size]))
  {
  }

  // ----- Serialised files

  datatype Chunk = Chunk(id: Bytes, body: Bytes)

  predicate Writable(chunks: seq<Chunk>) {
    forall i :: 0 <= i < |chunks| ==> |chunks[i].id| == 4 && |chunks[i].body| < 4294967296
  }

  function Padding(body: Bytes): Bytes {
    if |body| % 2 == 1 then [0] else []
  }

  function Encoded(c: Chunk): (r: Bytes)
    requires |c.id| == 4 && |c.body| < 4294967296
    ensures |r| == Span(|c.body|)
  {
    c.id + Le32(|c.body|) + c.body + Padding(c.body)
  }

  function Table(chunks: seq<Chunk>): Bytes
    requires Writable(chunks)
  {
    if chunks == [] then [] else Encoded(chunks[0]) + Table(chunks[1..])
  }

  ghost function File(chunks: seq<Chunk>, trailing: Bytes): Bytes
    requires Writable(chunks) && 4 + |Table(chunks)| < 4294967296
  {
    RIFF + Le32(4 + |Table(chunks)|) + WAVE + Table(chunks) + trailing
  }

  /** The chunks one after the other, without their bytes. */
  function Scan(chunks: seq<Chunk>, found: Found): Result<Found, Refusal> {
    if chunks == [] then Success(found)
    else
      var next :- Next(found, chunks[0].id, chunks[0].body);
      Scan(chunks[1..], next)
  }

  lemma {:induction false} ChunkRead(data: Bytes, offset: nat, c: Chunk)
    requires |c.id| == 4 && |c.body| < 4294967296 && offset + |Encoded(c)| <= |data|
    requires data[offset..offset + |Encoded(c)|] == Encoded(c)
    ensures data[offset..offset + 4] == c.id && U32(data, offset + 4) == |c.body|
    ensures data[offset + 8..offset + 8 + |c.body|] == c.body
  {
    SplitPart(data, offset, c.id + Le32(|c.body|) + c.body, Padding(c.body));
    SplitPart(data, offset, c.id + Le32(|c.body|), c.body);
    SplitPart(data, offset, c.id, Le32(|c.body|));
    Held32(data, offset + 4, |c.body|);
  }

  lemma SuffixParts(data: Bytes, at: nat, declared: nat, first: Bytes, rest: Bytes)
    requires at <= declared <= |data| && data[at..declared] == first + rest
    ensures at + |first| <= declared && data[at..at + |first|] == first && data[at + |first|..declared] == rest
  {
    assert data[at..declared][..|first|] == first && data[at..declared][|first|..] == rest;
  }

  lemma {:induction false} ChunkWalks(data: Bytes, declared: nat, offset: nat, c: Chunk, found: Found)
    requires |c.id| == 4 && |c.body| < 4294967296 && offset + Span(|c.body|) <= declared <= |data|
    requires data[offset..offset + Span(|c.body|)] == Encoded(c)
    ensures Walk(data, declared, offset, found) == WalkOn(data, declared, offset + Span(|c.body|), Next(found, c.id, c.body))
  {
    ChunkRead(data, offset, c);
  }

  /** The walk after one chunk. */
  function WalkOn(data: Bytes, declared: nat, offset: nat, next: Result<Found, Refusal>): Result<Found, Refusal>
    requires declared <= |data|
  {
    if next.Success? then Walk(data, declared, offset, next.value) else Failure(next.error)
  }

  /** The chunks stand in the data between two offsets. */
  ghost predicate Serialised(data: Bytes, offset: nat, declared: nat, chunks: seq<Chunk>) {
    Writable(chunks) && offset <= declared <= |data| && data[offset..declared] == Table(chunks)
  }

  lemma {:induction false} FirstChunk(data: Bytes, declared: nat, offset: nat, chunks: seq<Chunk>, found: Found, after: nat,
                                      next: Result<Found, Refusal>)
    requires chunks != [] && Serialised(data, offset, declared, chunks)
    requires after == offset + Span(|chunks[0].body|) && next == Next(found, chunks[0].id, chunks[0].body)
    ensures Serialised(data, after, declared, chunks[1..])
    ensures Walk(data, declared, offset, found) == WalkOn(data, declared, after, next)
  {
    SuffixParts(data, offset, declared, Encoded(chunks[0]), Table(chunks[1..]));
    ChunkWalks(data, declared, offset, chunks[0], found);
  }

  lemma {:induction false} NoChunk(data: Bytes, declared: nat, offset: nat, found: Found)
    requires Serialised(data, offset, declared, [])
    ensures Walk(data, declared, offset, found) == Success(found)
  {
    assert |data[offset..declared]| == declared - offset;
  }

  /** The walk over serialised chunks sees exactly them. */
  lemma {:induction false} WalkScans(data: Bytes, declared: nat, offset: nat, chunks: seq<Chunk>, found: Found)
    requires Serialised(data, offset, declared, chunks)
    ensures Walk(data, declared, offset, found) == Scan(chunks, found)
    decreases |chunks|, 1
  {
    if chunks == [] {
      NoChunk(data, declared, offset, found);
    } else {
      MoreScans(data, declared, offset, chunks, found);
    }
  }

  lemma {:induction false} MoreScans(data: Bytes, declared: nat, offset: nat, chunks: seq<Chunk>, found: Found)
    requires chunks != [] && Serialised(data, offset, declared, chunks)
    ensures Walk(data, declared, offset, found) == Scan(chunks, found)
    decreases |chunks|, 0
  {
    var next := Next(found, chunks[0].id, chunks[0].body);
    var after := offset + Span(|chunks[0].body|);
    FirstChunk(data, declared, offset, chunks, found, after, next);
    ScanNext(data, declared, after, chunks[1..], next);
    ScanFirst(chunks, found, next);
  }

  lemma {:induction false} ScanFirst(chunks: seq<Chunk>, found: Found, next: Result<Found, Refusal>)
    requires chunks != [] && next == Next(found, chunks[0].id, chunks[0].body)
    ensures Scan(chunks, found) == ScanOn(chunks[1..], next)
  {
  }

  /** The scan after one chunk. */
  function ScanOn(chunks: seq<Chunk>, next: Result<Found, Refusal>): Result<Found, Refusal> {
    if next.Success? then Scan(chunks, next.value) else Failure(next.error)
  }

  lemma {:induction false} ScanNext(data: Bytes, declared: nat, offset: nat, chunks: seq<Chunk>, next: Result<Found, Refusal>)
    requires Serialised(data, offset, declared, chunks)
    ensures WalkOn(data, declared, offset, next) == ScanOn(chunks, next)
    decreases |chunks|, 2
  {
    if next.Success? {
      WalkScans(data, declared, offset, chunks, next.value);
    }
  }

  lemma {:induction false} FileParts(chunks: seq<Chunk>, trailing: Bytes)
    requires Writable(chunks) && 4 + |Table(chunks)| < 4294967296
    ensures var (table, data) := (Table(chunks), File(chunks, trailing));
            12 + |table| <= |data| && data[..4] == RIFF && data[8..12] == WAVE && data[12..12 + |table|] == table &&
            U32(data, 4) == 4 + |table|
  {
    var table, data := Table(chunks), File(chunks, trailing);
    var size := 4 + |table|;
    assert data[0..0 + |data|] == data;
    SplitPart(data, 0, RIFF + Le32(size) + WAVE + table, trailing);
    SplitPart(data, 0, RIFF + Le32(size) + WAVE, table);
    SplitPart(data, 0, RIFF + Le32(size), WAVE);
    SplitPart(data, 0, RIFF, Le32(size));
    Held32(data, 4, size);
  }

  lemma {:induction false} DecodesParts(data: Bytes, declared: nat)
    requires 12 <= declared <= |data| && data[..4] == RIFF && data[8..12] == WAVE && U32(data, 4) + 8 == declared
    ensures var found := Walk(data, declared, 12, Found(None, None));
            Decode(data) == if found.Success? then Finish(found.value) else Failure(found.error)
  {
  }

  /** Decoding a serialised file is scanning its chunks, whatever follows the declared size. */
  lemma {:induction false} DecodesChunks(chunks: seq<Chunk>, trailing: Bytes)
    requires Writable(chunks) && 4 + |Table(chunks)| < 4294967296
    ensures var scanned := Scan(chunks, Found(None, None));
            Decode(File(chunks, trailing)) == if scanned.Success? then Finish(scanned.value) else Failure(scanned.error)
  {
    FileParts(chunks, trailing);
    var data, declared := File(chunks, trailing), 12 + |Table(chunks)|;
    WalkScans(data, declared, 12, chunks, Found(None, None));
    DecodesParts(data, declared);
  }

  // ----- Order does not matter

  ghost predicate OnlyAt(chunks: seq<Chunk>, id: Bytes, k: nat) {
    k < |chunks| && chunks[k].id == id && forall i :: 0 <= i < |chunks| && chunks[i].id == id ==> i == k
  }

  /** What the walk has found before the k-th chunk. */
  function FoundBefore(chunks: seq<Chunk>, f: nat, d: nat, k: nat): Found
    requires f < |chunks| && d < |chunks| && |chunks[f].body| >= 16
  {
    Found(if f < k then Some(FormatOf(chunks[f].body)) else None, if d < k then Some(chunks[d].body) else None)
  }

  lemma {:induction false} ScanFrom(chunks: seq<Chunk>, f: nat, d: nat, k: nat)
    requires OnlyAt(chunks, FMT, f) && OnlyAt(chunks, DATA, d) && |chunks[f].body| >= 16 && k <= |chunks|
    ensures Scan(chunks[k..], FoundBefore(chunks, f, d, k)) == Success(FoundBefore(chunks, f, d, |chunks|))
    decreases |chunks| - k
  {
    if k < |chunks| {
      assert FMT[0] != DATA[0];
      assert chunks[k..][0] == chunks[k] && chunks[k..][1..] == chunks[k + 1..];
      assert chunks[k].id == FMT <==> k == f;
      assert chunks[k].id == DATA <==> k == d;
      ScanFrom(chunks, f, d, k + 1);
    }
  }

  /** A format of IEEE floats whose rates agree, and a payload of whole frames. */
  predicate Consistent(f: Format, payload: Bytes) {
    && f.tag == 3 && (f.bits == 32 || f.bits == 64) && 1 <= f.channels <= 32 && f.rate > 0
    && f.align == f.channels * (f.bits / 8) && f.byteRate == f.rate * f.align && f.align > 0 && |payload| % f.align == 0
  }

  lemma {:induction false} FinishMeans(f: Format, payload: Bytes)
    ensures Consistent(f, payload) ==>
              Finish(Found(Some(f), Some(payload))) == Success(Wave(f.rate, f.channels, f.bits, payload))
    ensures !Consistent(f, payload) ==> Finish(Found(Some(f), Some(payload))).Failure?
  {
  }

  // ----- The format chunk field by field

  predicate Fields(f: Format) {
    && f.tag < 65536 && f.channels < 65536 && f.rate < 4294967296 && f.byteRate < 4294967296
    && f.align < 65536 && f.bits < 65536
  }

  /** Format tag, channels, samples and bytes per second, block alignment and bits per sample, and any extension. */
  function FormatBody(f: Format, more: Bytes): (r: Bytes)
    requires Fields(f)
    ensures |r| == 16 + |more|
  {
    Le16(f.tag) + Le16(f.channels) + Le32(f.rate) + Le32(f.byteRate) + Le16(f.align) + Le16(f.bits) + more
  }

  lemma {:induction false} FormatRead(f: Format, more: Bytes)
    requires Fields(f)
    ensures FormatOf(FormatBody(f, more)) == f
  {
    var raw := FormatBody(f, more);
    var five := Le16(f.tag) + Le16(f.channels) + Le32(f.rate) + Le32(f.byteRate) + Le16(f.align);
    assert raw[0..0 + |raw|] == raw;
    SplitPart(raw, 0, five + Le16(f.bits), more);
    SplitPart(raw, 0, five, Le16(f.bits));
    Held16(raw, 14, f.bits);
    FormatStart(raw, f);
  }

  lemma {:induction false} FormatStart(raw: Bytes, f: Format)
    requires Fields(f) && PartAt(raw, 0, Le16(f.tag) + Le16(f.channels) + Le32(f.rate) + Le32(f.byteRate) + Le16(f.align))
    ensures U16(raw, 0) == f.tag && U16(raw, 2) == f.channels && U32(raw, 4) == f.rate && U32(raw, 8) == f.byteRate
    ensures U16(raw, 12) == f.align
  {
    var two := Le16(f.tag) + Le16(f.channels);
    SplitPart(raw, 0, two + Le32(f.rate) + Le32(f.byteRate), Le16(f.align));
    SplitPart(raw, 0, two + Le32(f.rate), Le32(f.byteRate));
    SplitPart(raw, 0, two, Le32(f.rate));
    SplitPart(raw, 0, Le16(f.tag), Le16(f.channels));
    Held16(raw, 0, f.tag);
    Held16(raw, 2, f.channels);
    Held32(raw, 4, f.rate);
    Held32(raw, 8, f.byteRate);
    Held16(raw, 12, f.align);
  }

  /** Every format body of sixteen bytes or more is written that way. */
  lemma {:induction false} FormatWritten(body: Bytes) returns (f: Format, more: Bytes)
    requires |body| >= 16
    ensures Fields(f) && body == FormatBody(f, more)
  {
    f, more := FormatOf(body), body[16..];
    Reads16(body, 0);
    Reads16(body, 2);
    Reads32(body, 4);
    Reads32(body, 8);
    Reads16(body, 12);
    Reads16(body, 14);
    assert body == body[0..2] + body[2..4] + body[4..8] + body[8..12] + body[12..14] + body[14..16] + body[16..];
  }

  /** One format chunk and one data chunk anywhere among others: the decoder returns that rate and payload. */
  lemma {:induction false} AnyOrder(chunks: seq<Chunk>, f: nat, d: nat, format: Format, more: Bytes, trailing: Bytes)
    requires Writable(chunks) && 4 + |Table(chunks)| < 4294967296
    requires OnlyAt(chunks, FMT, f) && OnlyAt(chunks, DATA, d)
    requires Fields(format) && chunks[f].body == FormatBody(format, more)
    ensures var payload := chunks[d].body;
            if Consistent(format, payload) then
              Decode(File(chunks, trailing)) == Success(Wave(format.rate, format.channels, format.bits, payload))
            else Decode(File(chunks, trailing)).Failure?
  {
    FormatRead(format, more);
    DecodesChunks(chunks, trailing);
    ScanFrom(chunks, f, d, 0);
    assert chunks[0..] == chunks;
    FinishMeans(FormatOf(chunks[f].body), chunks[d].body);
  }
}
