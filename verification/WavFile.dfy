/** WAV files as chunks: the reader, the streaming writer, and their round trip. */
module WavFile {
  import opened Wrappers
  import opened Arith
  import opened Pcm
  import opened Wav

  // ---------------------------------------------------------------- reading

  /** What the chunks seen so far have given; later ones replace earlier ones. */
  datatype Found = Found(format: Option<Format>, data: Option<seq<Byte>>)

  function Consume(st: Found, id: seq<Byte>, payload: seq<Byte>): Option<Found> {
    if id == FMT then
      if |payload| > MAX_FORMAT || ParseFormat(payload).None? then None else Some(st.(format := ParseFormat(payload)))
    else if id == DATA then
      if |payload| > MAX_DATA then None else Some(st.(data := Some(payload)))
    else Some(st)
  }

  /** Reads chunks until n bytes are used up; avail is what the file really has left. */
  function Scan(avail: seq<Byte>, n: nat, st: Found): Option<Found>
    decreases n
  {
    if n == 0 then Some(st)
    else if n < 8 || |avail| < 8 then None
    else
      var size := Un4(avail[4..8]);
      var padded := size + size % 2;
      if padded > n - 8 || padded > |avail| - 8 then None
      else
        var next := Consume(st, avail[..4], avail[8..8 + size]);
        if next.None? then None else Scan(avail[8 + padded..], n - 8 - padded, next.value)
  }

  function Finish(st: Found): Option<(Format, seq<Sample>)> {
    if st.format.None? || st.data.None? then None
    else if st.format.value.channels <= 0 || |st.data.value| % (st.format.value.channels * 2) != 0 then None
    else Some((st.format.value, Decode(st.data.value)))
  }

  function Parsed(file: seq<Byte>): Option<(Format, seq<Sample>)> {
    if |file| < 12 || file[0..4] != RIFF || file[8..12] != WAVE || Un4(file[4..8]) < 4 then None else
      var st := Scan(file[12..], Un4(file[4..8]) - 4, Found(None, None));
      if st.None? then None else Finish(st.value)
  }

  /** A chunk of the given identifier and size, complete within n bytes, is consumed. */
  lemma ScanStep(avail: seq<Byte>, n: nat, st: Found, size: nat)
    requires n >= 8 && |avail| >= 8 && size == Un4(avail[4..8])
    requires size + size % 2 <= n - 8 && size + size % 2 <= |avail| - 8
    ensures var next := Consume(st, avail[..4], avail[8..8 + size]);
            Scan(avail, n, st) == if next.None? then None
                else Scan(avail[8 + (size + size % 2)..], n - 8 - (size + size % 2), next.value)
  {
  }

  lemma ScanStuck(avail: seq<Byte>, n: nat, st: Found, size: nat)
    requires n > 0 && (n < 8 || |avail| < 8
      || (size == Un4(avail[4..8]) && (size + size % 2 > n - 8 || size + size % 2 > |avail| - 8)))
    ensures Scan(avail, n, st).None?
  {
  }

  method ReadWAV(file: seq<Byte>) returns (r: Option<(Format, seq<Sample>)>)
    ensures r == Parsed(file)
  {
    if |file| < 12 || file[0..4] != RIFF || file[8..12] != WAVE {
      return None;
    }
    var riffSize := Un4(file[4..8]);
    if riffSize < 4 {
      return None;
    }
    var st := ReadChunks(file[12..], riffSize - 4);
    return if st.None? then None else Finish(st.value);
  }

  method ReadChunks(input: seq<Byte>, n: nat) returns (found: Option<Found>)
    ensures found == Scan(input, n, Found(None, None))
  {
    var remaining, avail, st := n, input, Found(None, None);
    ghost var whole := Scan(input, n, st);
    while remaining > 0
      invariant 0 <= remaining && whole == Scan(avail, remaining, st)
      decreases remaining
    {
      var next, used := ReadChunk(avail, remaining, st);
      if next.None? {
        return None;
      }
      st, avail, remaining := next.value, avail[used..], remaining - used;
    }
    return Some(st);
  }

  /** One chunk with its padding; none when it is cut short or its contents are refused. */
  method ReadChunk(avail: seq<Byte>, n: nat, st: Found) returns (next: Option<Found>, used: nat)
    requires n > 0
    ensures next.None? ==> Scan(avail, n, st).None?
    ensures next.Some? ==>
      0 < used <= n && used <= |avail| && Scan(avail, n, st) == Scan(avail[used..], n - used, next.value)
  {
    if n < 8 || |avail| < 8 {
      ScanStuck(avail, n, st, 0);
      return None, 0;
    }
    var size := Un4(avail[4..8]);
    used := 8 + size + size % 2;
    if used > n || used > |avail| {
      ScanStuck(avail, n, st, size);
      return None, 0;
    }
    ScanStep(avail, n, st, size);
    next := Consume(st, avail[..4], avail[8..8 + size]);
  }

  // ---------------------------------------------------------------- chunks

  type Id = s: seq<Byte> | |s| == 4 witness RIFF

  /** A chunk as written; pad is the byte after an odd payload. */
  datatype Chunk = Chunk(id: Id, payload: seq<Byte>, pad: Byte)
  {
    predicate Known() {
      id == FMT || id == DATA
    }
  }

  function Bytes(c: Chunk): (b: seq<Byte>)
    ensures |b| == 8 + |c.payload| + |c.payload| % 2
  {
    c.id + Le4(|c.payload|) + c.payload + (if |c.payload| % 2 == 0 then [] else [c.pad])
  }

  function Body(cs: seq<Chunk>): seq<Byte>
    decreases |cs|
  {
    if cs == [] then [] else Bytes(cs[0]) + Body(cs[1..])
  }

  /** The chunks in a RIFF container, with anything after it. */
  function Container(cs: seq<Chunk>, tail: seq<Byte>): seq<Byte> {
    RIFF + Le4(4 + |Body(cs)|) + WAVE + Body(cs) + tail
  }

  function ConsumeAll(st: Found, cs: seq<Chunk>): Option<Found>
    decreases |cs|
  {
    if cs == [] then Some(st) else
      var next := Consume(st, cs[0].id, cs[0].payload);
      if next.None? then None else ConsumeAll(next.value, cs[1..])
  }

  lemma ScanOne(c: Chunk, rest: seq<Byte>, n: nat, st: Found)
    requires |c.payload| <= MAX_U32 && n >= |Bytes(c)|
    ensures Scan(Bytes(c) + rest, n, st) ==
      var next := Consume(st, c.id, c.payload);
      if next.None? then None else Scan(rest, n - |Bytes(c)|, next.value)
  {
    ChunkSlices(c, rest);
    ChunkSize(c, Bytes(c) + rest);
    ScanStep(Bytes(c) + rest, n, st, |c.payload|);
  }

  lemma ChunkSlices(c: Chunk, rest: seq<Byte>)
    ensures var all := Bytes(c) + rest;
            && all[..4] == c.id && all[4..8] == Le4(|c.payload|)
            && all[8..8 + |c.payload|] == c.payload && all[8 + (|c.payload| + |c.payload| % 2)..] == rest
  {
    ConcatSlices(c.id, Le4(|c.payload|), c.payload, if |c.payload| % 2 == 0 then [] else [c.pad], rest);
  }

  lemma ConcatSlices(a: seq<Byte>, b: seq<Byte>, c: seq<Byte>, d: seq<Byte>, e: seq<Byte>)
    requires |a| == |b| == 4
    ensures var all := a + b + c + d + e;
            && all[..4] == a && all[4..8] == b && all[8..8 + |c|] == c && all[8 + (|c| + |d|)..] == e
  {
  }

  lemma ChunkSize(c: Chunk, all: seq<Byte>)
    requires |c.payload| <= MAX_U32 && |all| >= 8 && all[4..8] == Le4(|c.payload|)
    ensures Un4(all[4..8]) == |c.payload|
  {
    Un4Le4(|c.payload|);
  }

  lemma {:induction false} ScanAll(cs: seq<Chunk>, tail: seq<Byte>, st: Found)
    requires |Body(cs)| <= MAX_U32
    ensures Scan(Body(cs) + tail, |Body(cs)|, st) == ConsumeAll(st, cs)
  {
    if cs != [] {
      var next := Consume(st, cs[0].id, cs[0].payload);
      assert Body(cs) + tail == Bytes(cs[0]) + (Body(cs[1..]) + tail);
      ScanOne(cs[0], Body(cs[1..]) + tail, |Body(cs)|, st);
      if next.Some? {
        ScanAll(cs[1..], tail, next.value);
      }
    }
  }

  /** Reading a container is consuming its chunks; what follows it is ignored. */
  lemma ParsedContainer(cs: seq<Chunk>, tail: seq<Byte>)
    requires 4 + |Body(cs)| <= MAX_U32
    ensures Parsed(Container(cs, tail)) ==
      var st := ConsumeAll(Found(None, None), cs);
      if st.None? then None else Finish(st.value)
  {
    ContainerHeader(cs, tail, 4 + |Body(cs)|);
    ScanAll(cs, tail, Found(None, None));
    ParsedFrom(Container(cs, tail), 4 + |Body(cs)|);
  }

  lemma ContainerHeader(cs: seq<Chunk>, tail: seq<Byte>, size: nat)
    requires size == 4 + |Body(cs)| <= MAX_U32
    ensures var file := Container(cs, tail);
            && |file| >= 12 && file[0..4] == RIFF && Un4(file[4..8]) == size && file[8..12] == WAVE
            && file[12..] == Body(cs) + tail
  {
    Un4Le4(size);
    ContainerSlices(Le4(size), Body(cs), tail);
  }

  lemma ContainerSlices(size: seq<Byte>, body: seq<Byte>, tail: seq<Byte>)
    requires |size| == 4
    ensures var file := RIFF + size + WAVE + body + tail;
            file[0..4] == RIFF && file[4..8] == size && file[8..12] == WAVE && file[12..] == body + tail
  {
  }

  lemma ParsedFrom(file: seq<Byte>, size: nat)
    requires |file| >= 12 && file[0..4] == RIFF && file[8..12] == WAVE && size == Un4(file[4..8]) >= 4
    ensures Parsed(file) ==
      var st := Scan(file[12..], size - 4, Found(None, None));
      if st.None? then None else Finish(st.value)
  {
  }

  function KnownOnly(cs: seq<Chunk>): seq<Chunk> {
    if cs == [] then [] else (if cs[0].Known() then [cs[0]] else []) + KnownOnly(cs[1..])
  }

  lemma {:induction false} UnknownSkipped(cs: seq<Chunk>, st: Found)
    ensures ConsumeAll(st, cs) == ConsumeAll(st, KnownOnly(cs))
  {
    if cs != [] {
      var next := Consume(st, cs[0].id, cs[0].payload);
      if cs[0].Known() {
        assert KnownOnly(cs)[0] == cs[0] && KnownOnly(cs)[1..] == KnownOnly(cs[1..]);
        if next.Some? {
          UnknownSkipped(cs[1..], next.value);
        }
      } else {
        assert KnownOnly(cs) == KnownOnly(cs[1..]);
        UnknownSkipped(cs[1..], st);
      }
    }
  }

  /** Unknown chunks, odd ones padded with any byte, and trailing bytes never change what is read. */
  lemma UnknownChunksDoNotMatter(a: seq<Chunk>, b: seq<Chunk>, tailA: seq<Byte>, tailB: seq<Byte>)
    requires KnownOnly(a) == KnownOnly(b) && 4 + |Body(a)| <= MAX_U32 && 4 + |Body(b)| <= MAX_U32
    ensures Parsed(Container(a, tailA)) == Parsed(Container(b, tailB))
  {
    ParsedContainer(a, tailA);
    ParsedContainer(b, tailB);
    UnknownSkipped(a, Found(None, None));
    UnknownSkipped(b, Found(None, None));
  }

  // ---------------------------------------------------------------- nothing else is read

  /** The chunk that the bytes begin with. */
  function FirstChunk(avail: seq<Byte>, size: nat): Chunk
    requires 8 + size + size % 2 <= |avail|
  {
    Chunk(avail[..4], avail[8..8 + size], if size % 2 == 0 then 0 else avail[8 + size])
  }

  lemma FirstBytes(avail: seq<Byte>, size: nat)
    requires 8 + size + size % 2 <= |avail| && size == Un4(avail[4..8])
    ensures avail[..8 + size + size % 2] == Bytes(FirstChunk(avail, size))
  {
    Le4Un4(avail[4..8]);
    Parts(avail, size);
  }

  lemma Parts(avail: seq<Byte>, size: nat)
    requires 8 + size + size % 2 <= |avail|
    ensures avail[..8 + size + size % 2]
         == avail[..4] + avail[4..8] + avail[8..8 + size] + (if size % 2 == 0 then [] else [avail[8 + size]])
  {
  }

  lemma ScanParts(avail: seq<Byte>, n: nat, st: Found) returns (size: nat, next: Found)
    requires n > 0 && Scan(avail, n, st).Some?
    ensures n >= 8 && |avail| >= 8 && size == Un4(avail[4..8])
    ensures size + size % 2 <= n - 8 && size + size % 2 <= |avail| - 8
    ensures Consume(st, avail[..4], avail[8..8 + size]) == Some(next)
    ensures Scan(avail, n, st) == Scan(avail[8 + (size + size % 2)..], n - 8 - (size + size % 2), next)
  {
    size := Un4(avail[4..8]);
    ScanStep(avail, n, st, size);
    next := Consume(st, avail[..4], avail[8..8 + size]).value;
  }

  /** Bytes that scan are chunks, and are consumed as such. */
  lemma {:induction false} ScanIsBody(avail: seq<Byte>, n: nat, st: Found) returns (cs: seq<Chunk>)
    requires Scan(avail, n, st).Some?
    ensures n <= |avail| && avail[..n] == Body(cs) && Scan(avail, n, st) == ConsumeAll(st, cs)
    decreases n
  {
    if n == 0 {
      cs := [];
    } else {
      var size, next := ScanParts(avail, n, st);
      var rest := ScanIsBody(avail[8 + (size + size % 2)..], n - 8 - (size + size % 2), next);
      FirstBytes(avail, size);
      cs := JoinChunk(avail, n, 8 + size + size % 2, FirstChunk(avail, size), rest, st, next);
    }
  }

  lemma JoinChunk(avail: seq<Byte>, n: nat, used: nat, c: Chunk, rest: seq<Chunk>, st: Found, next: Found)
      returns (cs: seq<Chunk>)
    requires used <= n <= |avail| && avail[..used] == Bytes(c) && avail[used..][..n - used] == Body(rest)
    requires Consume(st, c.id, c.payload) == Some(next)
    ensures avail[..n] == Body(cs) && ConsumeAll(st, cs) == ConsumeAll(next, rest)
  {
    cs := [c] + rest;
    ChunkThenRest(avail, n, used, c, rest);
  }

  lemma ChunkThenRest(avail: seq<Byte>, n: nat, used: nat, c: Chunk, rest: seq<Chunk>)
    requires used <= n <= |avail| && avail[..used] == Bytes(c) && avail[used..][..n - used] == Body(rest)
    ensures avail[..n] == Body([c] + rest) && ([c] + rest)[1..] == rest
  {
    assert ([c] + rest)[1..] == rest;
    assert avail[..n] == avail[..used] + avail[used..][..n - used];
  }

  /** A file that is read is a container of chunks with something after it. */
  lemma ReadIsContainer(file: seq<Byte>) returns (cs: seq<Chunk>, tail: seq<Byte>)
    requires Parsed(file).Some?
    ensures file == Container(cs, tail) && 4 + |Body(cs)| <= MAX_U32
  {
    var n := ParsedParts(file);
    cs := ScanIsBody(file[12..], n, Found(None, None));
    tail := file[12 + n..];
    HeadAndBody(file, n);
  }

  lemma ParsedParts(file: seq<Byte>) returns (n: nat)
    requires Parsed(file).Some?
    ensures |file| >= 12 && file[0..4] == RIFF && file[4..8] == Le4(4 + n) && file[8..12] == WAVE && 4 + n <= MAX_U32
    ensures Scan(file[12..], n, Found(None, None)).Some?
  {
    n := Un4(file[4..8]) - 4;
    Le4Un4(file[4..8]);
  }

  lemma HeadAndBody(file: seq<Byte>, n: nat)
    requires |file| >= 12 + n
    ensures file == file[0..4] + file[4..8] + file[8..12] + file[12..][..n] + file[12 + n..]
  {
  }

  /** Within its limit, and a format chunk that is accepted. */
  predicate Sane(c: Chunk) {
    && (c.id == FMT ==> |c.payload| <= 65_536 && ParseFormat(c.payload).Some?)
    && (c.id == DATA ==> |c.payload| <= 268_435_456)
  }

  /** The payload of the last chunk with an identifier. */
  function LastOf(cs: seq<Chunk>, id: seq<Byte>): Option<seq<Byte>> {
    if cs == [] then None
    else if cs[|cs| - 1].id == id then Some(cs[|cs| - 1].payload)
    else LastOf(cs[..|cs| - 1], id)
  }

  lemma {:induction false} ConsumeLast(st: Found, cs: seq<Chunk>, c: Chunk)
    ensures ConsumeAll(st, cs + [c]) ==
      var before := ConsumeAll(st, cs); if before.None? then None else Consume(before.value, c.id, c.payload)
    decreases |cs|
  {
    var all := cs + [c];
    if cs == [] {
      assert all[1..] == [];
    } else {
      assert all[0] == cs[0] && all[1..] == cs[1..] + [c];
      var next := Consume(st, cs[0].id, cs[0].payload);
      if next.Some? {
        ConsumeLast(next.value, cs[1..], c);
      }
    }
  }

  ghost predicate AllSane(cs: seq<Chunk>) {
    forall i {:trigger cs[i]} :: 0 <= i < |cs| ==> Sane(cs[i])
  }

  lemma SaneLast(cs: seq<Chunk>)
    requires cs != []
    ensures AllSane(cs) <==> AllSane(cs[..|cs| - 1]) && Sane(cs[|cs| - 1])
  {
    forall i | 0 <= i < |cs| - 1 ensures cs[..|cs| - 1][i] == cs[i] {
    }
  }

  /** What was found by a last chunk replaces what was found before it. */
  function ParsedOr(payload: Option<seq<Byte>>): Option<Format> {
    if payload.None? then None else ParseFormat(payload.value)
  }

  /**
   Chunks are consumed exactly when each is within its limit, and what counts are the last format
   and the last data.
   */
  lemma {:induction false} ConsumedIff(cs: seq<Chunk>)
    ensures var st := ConsumeAll(Found(None, None), cs);
            && (st.Some? <==> AllSane(cs))
            && (st.Some? ==> st.value == Found(ParsedOr(LastOf(cs, FMT)), LastOf(cs, DATA)))
  {
    if cs != [] {
      var before, c := cs[..|cs| - 1], cs[|cs| - 1];
      ConsumedIff(before);
      assert cs == before + [c];
      ConsumeLast(Found(None, None), before, c);
      SaneLast(cs);
      assert FMT[0] != DATA[0];
    }
  }

  /**
   Which files are read, and as what: a container whose every chunk is within its limit, with a format and with
   data of whole frames, of which the last ones count. `ReadIsContainer` says that no other file is read.
   */
  lemma ReadIff(cs: seq<Chunk>, tail: seq<Byte>, f: Format, samples: seq<Sample>)
    requires 4 + |Body(cs)| <= MAX_U32
    ensures var format, data := LastOf(cs, FMT), LastOf(cs, DATA);
            Parsed(Container(cs, tail)) == Some((f, samples)) <==>
            && AllSane(cs) && format.Some? && ParseFormat(format.value) == Some(f)
            && data.Some? && |data.value| % (f.channels * 2) == 0 && samples == Decode(data.value)
  {
    ParsedContainer(cs, tail);
    ConsumedIff(cs);
    var format := LastOf(cs, FMT);
    if format.Some? && ParseFormat(format.value).Some? {
      assert ParseFormat(format.value).value.channels > 0;
    }
  }

  // ---------------------------------------------------------------- what the writer produces

  /** The 44 bytes before the samples; dataBytes is patched in on close. */
  function Header(f: Format, dataBytes: nat): (h: seq<Byte>)
    requires f.rate >= 0 && f.channels >= 0
    ensures |h| == 44
  {
    HeaderOf(FormatPayload(f), dataBytes)
  }

  function HeaderOf(payload: seq<Byte>, dataBytes: nat): (h: seq<Byte>)
    ensures |h| == 28 + |payload|
  {
    RIFF + Le4(36 + dataBytes) + WAVE + FMT + Le4(16) + payload + DATA + Le4(dataBytes)
  }

  function Written(f: Format, samples: seq<Sample>): seq<Byte>
    requires f.rate >= 0 && f.channels >= 0
  {
    Header(f, 2 * |samples|) + Encode(samples)
  }

  function WrittenChunks(f: Format, samples: seq<Sample>): seq<Chunk>
    requires f.rate >= 0 && f.channels >= 0
  {
    [Chunk(FMT, FormatPayload(f), 0), Chunk(DATA, Encode(samples), 0)]
  }

  lemma WrittenIsContainer(f: Format, samples: seq<Sample>)
    requires f.rate >= 0 && f.channels >= 0
    ensures |Body(WrittenChunks(f, samples))| == 32 + 2 * |samples|
    ensures Written(f, samples) == Container(WrittenChunks(f, samples), [])
  {
    HeaderIsContainer(FormatPayload(f), Encode(samples));
  }

  lemma HeaderIsContainer(p: seq<Byte>, d: seq<Byte>)
    requires |p| == 16 && |d| % 2 == 0
    ensures var cs := [Chunk(FMT, p, 0), Chunk(DATA, d, 0)];
            |Body(cs)| == 32 + |d| && HeaderOf(p, |d|) + d == Container(cs, [])
  {
    var n := |d|;
    TwoChunks(Chunk(FMT, p, 0), Chunk(DATA, d, 0));
    Regroup(RIFF, Le4(36 + n), WAVE, FMT, Le4(16), p, DATA, Le4(n), d);
  }

  lemma TwoChunks(a: Chunk, b: Chunk)
    requires |a.payload| % 2 == 0 && |b.payload| % 2 == 0
    ensures Body([a, b]) == (a.id + Le4(|a.payload|) + a.payload) + (b.id + Le4(|b.payload|) + b.payload)
  {
    assert [a, b][1..] == [b] && [b][1..] == [];
    assert Body([b]) == Bytes(b) + [];
  }

  lemma Regroup(a: seq<Byte>, b: seq<Byte>, c: seq<Byte>, d: seq<Byte>, e: seq<Byte>, f: seq<Byte>, g: seq<Byte>,
      h: seq<Byte>, i: seq<Byte>)
    ensures a + b + c + d + e + f + g + h + i == a + b + c + ((d + e + f) + (g + h + i)) + []
  {
  }

  /**
   A written file reads back as the same format and samples exactly when the samples are whole
   frames of at most 256 MiB and the byte rate fits its field.
   */
  lemma RoundTrip(f: Format, samples: seq<Sample>, byteRate: nat)
    requires Writable(f) && 2 * |samples| <= MAX_U32 - 36 && byteRate == f.rate * f.channels * 2
    ensures Parsed(Written(f, samples)) == Some((f, samples)) <==>
      |samples| % f.channels == 0 && 2 * |samples| <= MAX_DATA && byteRate <= MAX_U32
  {
    var cs := WrittenChunks(f, samples);
    WrittenIsContainer(f, samples);
    ParsedContainer(cs, []);
    FormatRoundTrip(f, byteRate);
    DecodeEncode(samples);
    WholeFrames(|samples|, f.channels);
    ConsumeTwo(cs[0], cs[1]);
  }

  /** A byte rate that wraps to a small one passes the writer's check, and the file does not read back. */
  lemma WrappedByteRate()
    ensures var f := Format(0x2_0000_0000_0001, 0x4000, S16LE);
            Writable(f) && Parsed(Written(f, [])) != Some((f, []))
  {
    var f := Format(0x2_0000_0000_0001, 0x4000, S16LE);
    var byteRate := 0x1_0000_0000_0000_8000;
    assert f.rate * f.channels * 2 == byteRate;
    assert byteRate % 0x1_0000_0000_0000_0000 == 0x8000;
    RoundTrip(f, [], byteRate);
  }

  lemma ConsumeTwo(a: Chunk, b: Chunk)
    requires a.id == FMT && b.id == DATA && |a.payload| <= MAX_FORMAT
    ensures ConsumeAll(Found(None, None), [a, b]) ==
      if ParseFormat(a.payload).None? || |b.payload| > MAX_DATA then None
      else Some(Found(ParseFormat(a.payload), Some(b.payload)))
  {
    assert [a, b][1..] == [b] && [b][1..] == [];
    assert FMT[0] != DATA[0];
    var none := Found(None, None);
    if |a.payload| <= MAX_FORMAT && ParseFormat(a.payload).Some? {
      var st := Found(ParseFormat(a.payload), None);
      assert Consume(none, a.id, a.payload) == Some(st);
      assert ConsumeAll(none, [a, b]) == ConsumeAll(st, [b]);
      ConsumeData(st, b);
    }
  }

  lemma ConsumeData(st: Found, b: Chunk)
    requires b.id == DATA
    ensures ConsumeAll(st, [b]) == if |b.payload| > MAX_DATA then None else Some(Found(st.format, Some(b.payload)))
  {
    assert FMT[0] != DATA[0];
    assert [b][1..] == [];
    var next := Consume(st, b.id, b.payload);
    assert next == if |b.payload| > MAX_DATA then None else Some(Found(st.format, Some(b.payload)));
    if next.Some? {
      assert ConsumeAll(next.value, []) == next;
    }
  }

  lemma WholeFrames(n: nat, channels: nat)
    requires channels > 0
    ensures 2 * n % (channels * 2) == 0 <==> n % channels == 0
  {
    var q, r := n / channels, n % channels;
    assert n == channels * q + r;
    assert 2 * n == q * (channels * 2) + 2 * r;
    DivUnique(2 * n, channels * 2, q, 2 * r);
  }
}
