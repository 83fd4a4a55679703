/** Writing WAVE files, and what the parser makes of what is written: the
    last chunk of each kind wins, the RIFF length field plays no part, a
    trailing chunk of another kind is rejected, and a canonical 44-byte
    header file parses to its format and samples. */
module WavEncoding {
  import opened Optional
  import opened WavTypes
  import opened NextDirective
  import opened WavParser

  /** The sixteen bytes of the format fields. */
  function FieldBytes(f: RiffFmt): (r: seq<Byte>)
    requires f.Valid()
    ensures |r| == 16
  {
    EncodeWord(f.compression) + EncodeWord(f.channels)
    + EncodeDword(f.samplerate) + EncodeDword(f.bytesPerSecond)
    + EncodeWord(f.blockAlign) + EncodeWord(f.bitsPerSample)
  }

  lemma FieldBytesRoundTrip(f: RiffFmt)
    requires f.Valid()
    ensures FieldsAt(FieldBytes(f), 0) == f
  {
    var a, b := EncodeWord(f.compression), EncodeWord(f.channels);
    var c, d := EncodeDword(f.samplerate), EncodeDword(f.bytesPerSecond);
    var e, g := EncodeWord(f.blockAlign), EncodeWord(f.bitsPerSample);
    var r := FieldBytes(f);
    assert r == a + b + c + d + e + g;
    WordRoundTrip(f.compression);
    WordRoundTrip(f.channels);
    DwordRoundTrip(f.samplerate);
    DwordRoundTrip(f.bytesPerSecond);
    WordRoundTrip(f.blockAlign);
    WordRoundTrip(f.bitsPerSample);
    assert WordAt(r, 0) == WordAt(a, 0) by { assert r[0] == a[0] && r[1] == a[1]; }
    assert WordAt(r, 2) == WordAt(b, 0) by { assert r[2] == b[0] && r[3] == b[1]; }
    assert DwordAt(r, 4) == DwordAt(c, 0) by { assert r[4..8] == c; }
    assert DwordAt(r, 8) == DwordAt(d, 0) by { assert r[8..12] == d; }
    assert WordAt(r, 12) == WordAt(e, 0) by { assert r[12] == e[0] && r[13] == e[1]; }
    assert WordAt(r, 14) == WordAt(g, 0) by { assert r[14] == g[0] && r[15] == g[1]; }
  }

  /** The padding byte after a body of odd length. */
  function PadBytes(n: nat): (r: seq<Byte>)
    ensures n + |r| == Pad(n)
  {
    if n % 2 == 1 then [0] else []
  }

  /** A chunk to write: a format chunk with `extra` bytes after the sixteen
      field bytes, or a data chunk holding `samples`. */
  datatype ChunkSpec = FmtSpec(fmt: RiffFmt, extra: seq<Byte>) | DataSpec(samples: seq<Byte>)
  {
    predicate Valid() {
      match this
      case FmtSpec(f, e) => f.Valid() && 16 + |e| < TwoTo32
      case DataSpec(d) => |d| < TwoTo32
    }

    /** The chunk's declared size. */
    function Size(): nat {
      match this
      case FmtSpec(_, e) => 16 + |e|
      case DataSpec(d) => |d|
    }

    function Tag(): seq<Byte> {
      if FmtSpec? then FmtTag else DataTag
    }

    function Payload(): (r: seq<Byte>)
      requires Valid()
      ensures |r| == Size()
    {
      match this
      case FmtSpec(f, e) => FieldBytes(f) + e
      case DataSpec(d) => d
    }
  }

  predicate AllValid(cs: seq<ChunkSpec>) {
    forall i :: 0 <= i < |cs| ==> cs[i].Valid()
  }

  /** Tag, little-endian size, payload, padding. */
  function EncodeChunk(c: ChunkSpec): (r: seq<Byte>)
    requires c.Valid()
    ensures |r| == 8 + Pad(c.Size())
  {
    c.Tag() + EncodeDword(c.Size()) + (c.Payload() + PadBytes(c.Size()))
  }

  function EncodeChunks(cs: seq<ChunkSpec>): seq<Byte>
    requires AllValid(cs)
  {
    if |cs| == 0 then [] else EncodeChunk(cs[0]) + EncodeChunks(cs[1..])
  }

  /** A whole file: header with the given length field, then the chunks. */
  function EncodeWav(length: nat, cs: seq<ChunkSpec>): (r: seq<Byte>)
    requires length < TwoTo32 && AllValid(cs)
  {
    RiffTag + EncodeDword(length) + WaveTag + EncodeChunks(cs)
  }

  /** The bytes a chunk occupies: tag, size, padded body. */
  function Span(c: ChunkSpec): nat {
    8 + Pad(c.Size())
  }

  /** The bytes all of `cs` occupy, one after another. */
  function Spans(cs: seq<ChunkSpec>): nat {
    if |cs| == 0 then 0 else Span(cs[0]) + Spans(cs[1..])
  }

  /** What the grammar reads back from a written chunk at offset `base`. */
  function Decoded(c: ChunkSpec, base: nat, v: Variant): Chunk {
    match c
    case FmtSpec(f, _) => FmtChunk(f)
    case DataSpec(d) => DataChunk(RiffData(if v == Corrected then base + 8 else 0, |d|))
  }

  /** The record after storing each written chunk in turn. */
  function Apply(w: WavFile, cs: seq<ChunkSpec>, base: nat, v: Variant): WavFile
    decreases |cs|
  {
    if |cs| == 0 then w
    else Apply(Store(w, Decoded(cs[0], base, v)), cs[1..], base + Span(cs[0]), v)
  }

  // ---------------------------------------------------------------------
  // Layout: what the parser needs to see of a chunk, stated without the
  // encoder, so that reading and writing can be reasoned about apart.

  /** `s` begins with chunk `c` as the grammar sees it: its tag, its size
      field, room for its padded body and, for a format chunk, its fields.
      The samples of a data chunk play no part in parsing. */
  predicate ChunkLaid(s: seq<Byte>, c: ChunkSpec) {
    && c.Valid()
    && StartsWith(s, c.Tag())
    && Span(c) <= |s|
    && DwordAt(s, 4) == c.Size()
    && (c.FmtSpec? ==> FieldsAt(s, 8) == c.fmt)
  }

  /** `s` is the chunks `cs`, one after another, followed by `t`. */
  predicate Laid(s: seq<Byte>, cs: seq<ChunkSpec>, t: seq<Byte>)
    decreases |cs|
  {
    if |cs| == 0 then s == t
    else ChunkLaid(s, cs[0]) && Laid(s[Span(cs[0])..], cs[1..], t)
  }

  /** `s` is a RIFF/WAVE header, the non-empty chunks `cs`, then `t`. */
  predicate FileLaid(s: seq<Byte>, cs: seq<ChunkSpec>, t: seq<Byte>) {
    && StartsWith(s, RiffTag) && 12 <= |s| && s[8..12] == WaveTag
    && 0 < |cs| && Laid(s[12..], cs, t)
  }

  // ---------------------------------------------------------------------
  // Reading a layout

  lemma ChunkOfLayout(s: seq<Byte>, c: ChunkSpec, base: nat, v: Variant)
    requires ChunkLaid(s, c)
    ensures ChunkAt(s, base, v) == Match(Decoded(c, base, v), Span(c))
  {
    if c.DataSpec? {
      assert !StartsWith(s, FmtTag) by { assert s[0] == DataTag[0] != FmtTag[0]; }
    }
  }

  lemma ChunksStop(s: seq<Byte>, base: nat, v: Variant, w: WavFile)
    requires !StartsWith(s, FmtTag) && !StartsWith(s, DataTag)
    ensures Chunks(s, base, v, w) == Match(w, 0)
  {
  }

  /** One round of the repetition over a chunk laid out at the front. */
  lemma ChunksStep(s: seq<Byte>, c: ChunkSpec, base: nat, v: Variant, w: WavFile)
    requires ChunkLaid(s, c)
    ensures Chunks(s, base, v, w)
         == (var r := Chunks(s[Span(c)..], base + Span(c), v, Store(w, Decoded(c, base, v)));
             if r.Match? then Match(r.value, Span(c) + r.consumed) else Abort)
  {
    ChunkOfLayout(s, c, base, v);
  }

  /** A laid-out chunk, then whatever the rest of the repetition reads. */
  lemma ChunksCons(s: seq<Byte>, c: ChunkSpec, base: nat, v: Variant, w: WavFile, a: WavFile, m: nat)
    requires ChunkLaid(s, c)
    requires Chunks(s[Span(c)..], base + Span(c), v, Store(w, Decoded(c, base, v))) == Match(a, m)
    ensures Chunks(s, base, v, w) == Match(a, Span(c) + m)
  {
    ChunksStep(s, c, base, v, w);
  }

  lemma ApplyCons(w: WavFile, cs: seq<ChunkSpec>, base: nat, v: Variant)
    requires 0 < |cs|
    ensures Apply(w, cs, base, v) == Apply(Store(w, Decoded(cs[0], base, v)), cs[1..], base + Span(cs[0]), v)
  {
  }

  lemma {:induction false} LaidLength(s: seq<Byte>, cs: seq<ChunkSpec>, t: seq<Byte>)
    requires Laid(s, cs, t)
    ensures |s| == Spans(cs) + |t|
    decreases |cs|
  {
    if 0 < |cs| {
      LaidLength(s[Span(cs[0])..], cs[1..], t);
    }
  }

  predicate ReadsLayout(s: seq<Byte>, cs: seq<ChunkSpec>, t: seq<Byte>, base: nat, v: Variant, w: WavFile) {
    |t| <= |s| && Chunks(s, base, v, w) == Match(Apply(w, cs, base, v), |s| - |t|)
  }

  lemma ReadsCons(s: seq<Byte>, cs: seq<ChunkSpec>, t: seq<Byte>, base: nat, v: Variant, w: WavFile)
    requires 0 < |cs| && ChunkLaid(s, cs[0])
    requires ReadsLayout(s[Span(cs[0])..], cs[1..], t, base + Span(cs[0]), v, Store(w, Decoded(cs[0], base, v)))
    ensures ReadsLayout(s, cs, t, base, v, w)
  {
    var k := Span(cs[0]);
    var w' := Store(w, Decoded(cs[0], base, v));
    ChunksCons(s, cs[0], base, v, w, Apply(w', cs[1..], base + k, v), |s[k..]| - |t|);
    ApplyCons(w, cs, base, v);
  }

  /** Chunks laid out one after another, followed by bytes that start
      neither chunk kind, are read as exactly those chunks. */
  lemma {:induction false} ChunksOfLayout(s: seq<Byte>, cs: seq<ChunkSpec>, t: seq<Byte>, base: nat, v: Variant, w: WavFile)
    requires Laid(s, cs, t)
    requires !StartsWith(t, FmtTag) && !StartsWith(t, DataTag)
    ensures ReadsLayout(s, cs, t, base, v, w)
    decreases |cs|
  {
    if |cs| == 0 {
      ChunksStop(t, base, v, w);
    } else {
      var k := Span(cs[0]);
      var w' := Store(w, Decoded(cs[0], base, v));
      ChunksOfLayout(s[k..], cs[1..], t, base + k, v, w');
      ReadsCons(s, cs, t, base, v, w);
    }
  }

  /** A header and chunks followed by bytes that start neither chunk kind:
      the riff rule reads exactly the chunks. */
  lemma RiffOfLayout(s: seq<Byte>, cs: seq<ChunkSpec>, t: seq<Byte>, v: Variant)
    requires FileLaid(s, cs, t)
    requires !StartsWith(t, FmtTag) && !StartsWith(t, DataTag)
    ensures |t| <= |s|
    ensures Riff(s, v) == Match(Apply(Unwritten, cs, 12, v), |s| - |t|)
  {
    var u := s[12..];
    assert Laid(u, cs, t);
    ChunksOfLayout(u, cs, t, 12, v, Unwritten);
    ChunkOfLayout(u, cs[0], 12, v);
    AfterHeaderIsChunks(u, v);
    assert Header(s) == Match(DwordAt(s, 4), 12);
  }

  /** Once a first chunk is there, the one-or-more repetition after the
      header reads what the zero-or-more repetition reads. */
  lemma AfterHeaderIsChunks(u: seq<Byte>, v: Variant)
    requires ChunkAt(u, 12, v).Match?
    ensures ChunksAfterHeader(u, v) == Chunks(u, 12, v, Unwritten)
  {
  }

  /** A whole file laid out: both parsers accept it; the corrected one
      also records where the samples are. */
  lemma ParseOfLayout(s: seq<Byte>, cs: seq<ChunkSpec>)
    requires FileLaid(s, cs, [])
    ensures ParseWavFile(s) == Some(Apply(Unwritten, cs, 12, AsWritten))
    ensures ParseWavFileFixed(s) == Some(Apply(Unwritten, cs, 12, Corrected))
  {
    RiffOfLayout(s, cs, [], AsWritten);
    RiffOfLayout(s, cs, [], Corrected);
  }

  /** Trailing bytes that start neither chunk kind: the repetition stops
      before them, short of the end, and both parsers reject the input. */
  lemma TrailingOfLayout(s: seq<Byte>, cs: seq<ChunkSpec>, t: seq<Byte>)
    requires FileLaid(s, cs, t) && 0 < |t|
    requires !StartsWith(t, FmtTag) && !StartsWith(t, DataTag)
    ensures ParseWavFile(s) == None && ParseWavFileFixed(s) == None
  {
    RiffOfLayout(s, cs, t, AsWritten);
    RiffOfLayout(s, cs, t, Corrected);
  }

  // ---------------------------------------------------------------------
  // Writing produces the layout

  /** Reading a chunk laid out as tag, size bytes, body. */
  lemma ChunkParts(s: seq<Byte>, tag: seq<Byte>, size: seq<Byte>, body: seq<Byte>, t: seq<Byte>)
    requires |tag| == 4 && |size| == 4 && s == tag + size + body + t
    ensures StartsWith(s, tag) && |s| == 8 + |body| + |t|
    ensures DwordAt(s, 4) == DwordAt(size, 0)
    ensures 16 <= |body| ==> FieldsAt(s, 8) == FieldsAt(body, 0)
    ensures s[8 + |body|..] == t
  {
    assert s[..4] == tag;
    assert s[4..8] == size;
    if 16 <= |body| {
      assert forall j :: 0 <= j < 16 ==> s[8 + j] == body[j];
    }
  }

  lemma FieldsOfPrefix(a: seq<Byte>, r: seq<Byte>)
    requires 16 <= |a|
    ensures FieldsAt(a + r, 0) == FieldsAt(a, 0)
  {
    assert forall j :: 0 <= j < 16 ==> (a + r)[j] == a[j];
  }

  lemma EncodedChunkLaid(c: ChunkSpec, t: seq<Byte>)
    requires c.Valid()
    ensures ChunkLaid(EncodeChunk(c) + t, c)
    ensures (EncodeChunk(c) + t)[Span(c)..] == t
  {
    var s := EncodeChunk(c) + t;
    var n := c.Size();
    var size := EncodeDword(n);
    var body := c.Payload() + PadBytes(n);
    assert s == c.Tag() + size + body + t;
    ChunkParts(s, c.Tag(), size, body, t);
    DwordRoundTrip(n);
    if c.FmtSpec? {
      FieldBytesRoundTrip(c.fmt);
      assert body == FieldBytes(c.fmt) + (c.extra + PadBytes(n));
      FieldsOfPrefix(FieldBytes(c.fmt), c.extra + PadBytes(n));
    }
  }

  lemma AppendAssoc(a: seq<Byte>, b: seq<Byte>, c: seq<Byte>)
    ensures (a + b) + c == a + (b + c)
  {
  }

  lemma {:induction false} EncodedLaid(cs: seq<ChunkSpec>, t: seq<Byte>)
    requires AllValid(cs)
    ensures Laid(EncodeChunks(cs) + t, cs, t)
    decreases |cs|
  {
    if 0 < |cs| {
      assert AllValid(cs[1..]);
      var e := EncodeChunk(cs[0]);
      var rest := EncodeChunks(cs[1..]) + t;
      AppendAssoc(e, EncodeChunks(cs[1..]), t);
      EncodedChunkLaid(cs[0], EncodeChunks(cs[1..]) + t);
      EncodedLaid(cs[1..], t);
      assert (e + rest)[Span(cs[0])..] == rest;
    }
  }

  /** Reading the 12-byte header of a file laid out as tag, length, "WAVE". */
  lemma HeaderParts(s: seq<Byte>, length: seq<Byte>, chunks: seq<Byte>, t: seq<Byte>)
    requires |length| == 4 && s == RiffTag + length + WaveTag + chunks + t
    ensures StartsWith(s, RiffTag) && 12 <= |s| && s[8..12] == WaveTag && s[12..] == chunks + t
  {
    assert s[..4] == RiffTag;
    assert s[8..12] == WaveTag;
    assert s[12..] == chunks + t;
  }

  lemma EncodedFileLaid(length: nat, cs: seq<ChunkSpec>, t: seq<Byte>)
    requires length < TwoTo32 && AllValid(cs) && 0 < |cs|
    ensures FileLaid(EncodeWav(length, cs) + t, cs, t)
  {
    var s := EncodeWav(length, cs) + t;
    HeaderParts(s, EncodeDword(length), EncodeChunks(cs), t);
    EncodedLaid(cs, t);
  }

  /** The length of what is written is the sum of the chunks' spans. */
  lemma {:induction false} EncodeChunksLength(cs: seq<ChunkSpec>)
    requires AllValid(cs)
    ensures |EncodeChunks(cs)| == Spans(cs)
    decreases |cs|
  {
    if 0 < |cs| {
      assert AllValid(cs[1..]);
      EncodeChunksLength(cs[1..]);
    }
  }

  // ---------------------------------------------------------------------
  // Whole files

  /** Every written file is accepted, by the parser as written and by the
      corrected one, whatever its length field says. */
  lemma ParseOfEncoding(length: nat, cs: seq<ChunkSpec>)
    requires length < TwoTo32 && AllValid(cs) && 0 < |cs|
    ensures ParseWavFile(EncodeWav(length, cs)) == Some(Apply(Unwritten, cs, 12, AsWritten))
    ensures ParseWavFileFixed(EncodeWav(length, cs)) == Some(Apply(Unwritten, cs, 12, Corrected))
  {
    var s := EncodeWav(length, cs);
    EncodedFileLaid(length, cs, []);
    assert s + [] == s;
    ParseOfLayout(s, cs);
  }

  /** A written file followed by anything that is not a chunk is
      rejected: the repetition stops before it, short of the end. */
  lemma TrailingBytesRejected(length: nat, cs: seq<ChunkSpec>, t: seq<Byte>)
    requires length < TwoTo32 && AllValid(cs) && 0 < |cs|
    requires 0 < |t| && !StartsWith(t, FmtTag) && !StartsWith(t, DataTag)
    ensures ParseWavFile(EncodeWav(length, cs) + t) == None
    ensures ParseWavFileFixed(EncodeWav(length, cs) + t) == None
  {
    EncodedFileLaid(length, cs, t);
    TrailingOfLayout(EncodeWav(length, cs) + t, cs, t);
  }

  lemma RiffAfterHeader(s: seq<Byte>, v: Variant)
    requires Header(s).Match?
    ensures Riff(s, v)
         == (var r := ChunksAfterHeader(s[12..], v); if r.Match? then Match(r.value, 12 + r.consumed) else r)
  {
  }

  lemma RiffIgnoresLength(s: seq<Byte>, s': seq<Byte>, v: Variant)
    requires |s| == |s'| && 8 <= |s| && s[..4] == s'[..4] && s[8..] == s'[8..]
    ensures Riff(s, v) == Riff(s', v)
  {
    assert StartsWith(s, RiffTag) <==> StartsWith(s', RiffTag);
    if 12 <= |s| {
      assert s[8..12] == s[8..][..4] == s'[8..][..4] == s'[8..12];
      assert s[12..] == s[8..][4..] == s'[8..][4..] == s'[12..];
    }
    assert Header(s).NoMatch? == Header(s').NoMatch?;
    assert Header(s).Abort? == Header(s').Abort?;
    if Header(s).Match? {
      RiffAfterHeader(s, v);
      RiffAfterHeader(s', v);
    }
  }

  /** The length field is never consulted: overwriting it changes nothing. */
  lemma LengthFieldIgnored(s: seq<Byte>, length: nat)
    requires 8 <= |s| && length < TwoTo32
    ensures ParseWavFile(s[..4] + EncodeDword(length) + s[8..]) == ParseWavFile(s)
    ensures ParseWavFileFixed(s[..4] + EncodeDword(length) + s[8..]) == ParseWavFileFixed(s)
  {
    var s' := s[..4] + EncodeDword(length) + s[8..];
    assert s'[..4] == s[..4];
    assert s'[8..] == s[8..];
    RiffIgnoresLength(s, s', AsWritten);
    RiffIgnoresLength(s, s', Corrected);
  }

  // ---------------------------------------------------------------------
  // The last chunk of each kind wins

  lemma {:induction false} NoFmtKeepsFmt(w: WavFile, cs: seq<ChunkSpec>, base: nat, v: Variant)
    requires forall j :: 0 <= j < |cs| ==> cs[j].DataSpec?
    ensures Apply(w, cs, base, v).fmt == w.fmt
    decreases |cs|
  {
    if 0 < |cs| {
      NoFmtKeepsFmt(Store(w, Decoded(cs[0], base, v)), cs[1..], base + Span(cs[0]), v);
    }
  }

  lemma {:induction false} LastFmtWins(w: WavFile, cs: seq<ChunkSpec>, i: nat, base: nat, v: Variant)
    requires i < |cs| && cs[i].FmtSpec?
    requires forall j :: i < j < |cs| ==> cs[j].DataSpec?
    ensures Apply(w, cs, base, v).fmt == Some(cs[i].fmt)
    decreases i
  {
    var w' := Store(w, Decoded(cs[0], base, v));
    var base' := base + Span(cs[0]);
    if i == 0 {
      NoFmtKeepsFmt(w', cs[1..], base', v);
    } else {
      LastFmtWins(w', cs[1..], i - 1, base', v);
    }
  }

  lemma {:induction false} NoDataKeepsData(w: WavFile, cs: seq<ChunkSpec>, base: nat, v: Variant)
    requires forall j :: 0 <= j < |cs| ==> cs[j].FmtSpec?
    ensures Apply(w, cs, base, v).data == w.data
    decreases |cs|
  {
    if 0 < |cs| {
      NoDataKeepsData(Store(w, Decoded(cs[0], base, v)), cs[1..], base + Span(cs[0]), v);
    }
  }

  /** The data chunk at index `i`, followed only by format chunks, is the
      one recorded; the corrected rule records the offset of its samples. */
  lemma {:induction false} LastDataWins(w: WavFile, cs: seq<ChunkSpec>, i: nat, base: nat, v: Variant)
    requires i < |cs| && cs[i].DataSpec?
    requires forall j :: i < j < |cs| ==> cs[j].FmtSpec?
    ensures Apply(w, cs, base, v).data
         == Some(RiffData(if v == Corrected then base + Spans(cs[..i]) + 8 else 0, |cs[i].samples|))
    decreases i
  {
    var w' := Store(w, Decoded(cs[0], base, v));
    var base' := base + Span(cs[0]);
    if i == 0 {
      NoDataKeepsData(w', cs[1..], base', v);
    } else {
      LastDataWins(w', cs[1..], i - 1, base', v);
      assert cs[..i] == [cs[0]] + cs[1..][..i - 1];
      assert cs[..i][1..] == cs[1..][..i - 1];
    }
  }

  // ---------------------------------------------------------------------
  // The canonical file: a 16-byte format chunk, then the samples

  function Canonical(f: RiffFmt, samples: seq<Byte>): (r: seq<Byte>)
    requires f.Valid() && |samples| < TwoTo32 - 64
  {
    EncodeWav(36 + Pad(|samples|), [FmtSpec(f, []), DataSpec(samples)])
  }

  /** Offsets in a file laid out as header, 24-byte format chunk, data
      chunk header, samples, padding. */
  lemma CanonicalParts(s: seq<Byte>, head: seq<Byte>, fc: seq<Byte>, dh: seq<Byte>, samples: seq<Byte>, pad: seq<Byte>)
    requires |head| == 12 && |fc| == 24 && |dh| == 8
    requires s == head + (fc + (dh + (samples + pad)))
    ensures |s| == 44 + |samples| + |pad|
    ensures s[..4] == head[..4]
    ensures s[44..44 + |samples|] == samples
  {
    assert s[..4] == head[..4];
    assert forall j :: 0 <= j < |samples| ==> s[44 + j] == samples[j];
  }

  lemma CanonicalLayout(f: RiffFmt, samples: seq<Byte>)
    requires f.Valid() && |samples| < TwoTo32 - 64
    ensures |Canonical(f, samples)| == 44 + Pad(|samples|)
    ensures Canonical(f, samples)[..4] == RiffTag
    ensures Canonical(f, samples)[44..44 + |samples|] == samples
    ensures |EncodeChunk(FmtSpec(f, []))| == 24
  {
    var fmt, data := FmtSpec(f, []), DataSpec(samples);
    var cs := [fmt, data];
    var fc := EncodeChunk(fmt);
    var dh := DataTag + EncodeDword(|samples|);
    var head := RiffTag + EncodeDword(36 + Pad(|samples|)) + WaveTag;
    assert EncodeChunk(data) == dh + (samples + PadBytes(|samples|));
    assert EncodeChunks([data]) == EncodeChunk(data) by {
      assert [data][1..] == [];
    }
    assert cs[1..] == [data];
    assert EncodeChunks(cs) == fc + EncodeChunk(data);
    assert head[..4] == RiffTag;
    CanonicalParts(Canonical(f, samples), head, fc, dh, samples, PadBytes(|samples|));
  }

  /** What both rules record for the two chunks of a canonical file. */
  lemma CanonicalRecord(f: RiffFmt, samples: seq<Byte>, v: Variant)
    ensures Apply(Unwritten, [FmtSpec(f, []), DataSpec(samples)], 12, v)
         == WavFile(Some(f), Some(RiffData(if v == Corrected then 44 else 0, |samples|)))
  {
    var cs := [FmtSpec(f, []), DataSpec(samples)];
    LastFmtWins(Unwritten, cs, 0, 12, v);
    LastDataWins(Unwritten, cs, 1, 12, v);
    assert cs[..1] == [cs[0]] && [cs[0]][1..] == [];
  }

  /** The corrected parser reads a canonical file as its format and the
      position and size of its samples, which lie right after the 44-byte
      header. */
  lemma CanonicalFixed(f: RiffFmt, samples: seq<Byte>)
    requires f.Valid() && |samples| < TwoTo32 - 64
    ensures ParseWavFileFixed(Canonical(f, samples)) == Some(WavFile(Some(f), Some(RiffData(44, |samples|))))
    ensures Canonical(f, samples)[44..44 + |samples|] == samples
  {
    ParseOfEncoding(36 + Pad(|samples|), [FmtSpec(f, []), DataSpec(samples)]);
    CanonicalRecord(f, samples, Corrected);
    CanonicalLayout(f, samples);
  }

  /** The parser as written reads the same file with sample position 0:
      play_wav then plays from the start of the file, header included. */
  lemma CanonicalAsWritten(f: RiffFmt, samples: seq<Byte>)
    requires f.Valid() && |samples| < TwoTo32 - 64
    ensures ParseWavFile(Canonical(f, samples)) == Some(WavFile(Some(f), Some(RiffData(0, |samples|))))
    ensures Canonical(f, samples)[..4] == RiffTag
  {
    ParseOfEncoding(36 + Pad(|samples|), [FmtSpec(f, []), DataSpec(samples)]);
    CanonicalRecord(f, samples, AsWritten);
    CanonicalLayout(f, samples);
  }

  /** The parser as written accepts an empty stream, with nothing written
      to the record, although it is no RIFF/WAVE file; the corrected one
      rejects it. */
  lemma EmptyStreamAccepted()
    ensures ParseWavFile([]) == Some(Unwritten)
    ensures ParseWavFileFixed([]) == None
  {
  }
}
