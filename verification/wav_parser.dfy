/** The RIFF/WAVE grammar: a "RIFF" header followed by one or more "fmt "
    and "data" chunks, in any order, of which the last of each kind is
    kept. */
module WavParser {
  import opened Optional
  import opened WavTypes
  import opened NextDirective

  const RiffTag: seq<Byte> := [0x52, 0x49, 0x46, 0x46]
  const WaveTag: seq<Byte> := [0x57, 0x41, 0x56, 0x45]
  const FmtTag: seq<Byte> := [0x66, 0x6d, 0x74, 0x20]
  const DataTag: seq<Byte> := [0x64, 0x61, 0x74, 0x61]

  /** The data rule as the grammar has it, which never writes the sample
      position, or corrected to record it. */
  datatype Variant = AsWritten | Corrected

  predicate StartsWith(s: seq<Byte>, tag: seq<Byte>) {
    |tag| <= |s| && s[..|tag|] == tag
  }

  /** Chunk bodies are padded to an even number of bytes. */
  function Pad(n: nat): (r: nat)
    ensures r % 2 == 0 && n <= r <= n + 1
  {
    n + n % 2
  }

  /** The expectation operator `a > b`: once `a` has matched, `b` failing
      to match is an expectation failure. */
  function Expect<A>(r: Res<A>): (e: Res<A>)
    ensures e != NoMatch
    ensures e.Match? <==> r.Match?
    ensures r.Match? ==> e == r
  {
    if r.NoMatch? then Abort else r
  }

  /** riff_header: "RIFF" > little_dword > "WAVE". The length field is
      read and then ignored by the riff rule. */
  function Header(s: seq<Byte>): (r: Res<nat>)
    ensures r == NoMatch <==> !StartsWith(s, RiffTag)
    ensures r.Match? <==> StartsWith(s, RiffTag) && 12 <= |s| && s[8..12] == WaveTag
    ensures r.Match? ==> r.consumed == 12 && r.value == DwordAt(s, 4)
  {
    if !StartsWith(s, RiffTag) then NoMatch
    else if |s| < 8 then Abort
    else if |s| < 12 || s[8..12] != WaveTag then Abort
    else Match(DwordAt(s, 4), 12)
  }

  /** The six format fields starting at offset `i`: word, word, dword,
      dword, word, word. */
  function FieldsAt(s: seq<Byte>, i: nat): (f: RiffFmt)
    requires i + 16 <= |s|
    ensures f.Valid()
  {
    RiffFmt(WordAt(s, i), WordAt(s, i + 2), DwordAt(s, i + 4), DwordAt(s, i + 8),
            WordAt(s, i + 12), WordAt(s, i + 14))
  }

  /** The sequence inside next(..)[..] of the fmt rule, run on the chunk
      body: a missing first word is an ordinary failure, any later field
      missing an expectation failure, and the bytes after the sixteenth
      are skipped. */
  function FmtBody(w: seq<Byte>): (r: Res<RiffFmt>)
    ensures r == NoMatch <==> |w| < 2
    ensures r.Match? <==> 16 <= |w|
    ensures r.Match? ==> r.consumed == |w| && r.value == FieldsAt(w, 0)
  {
    if |w| < 2 then NoMatch
    else if |w| < 16 then Abort
    else Match(FieldsAt(w, 0), |w|)
  }

  /** fmt: "fmt " > dword > next(size + size % 2)[body]. */
  function Fmt(s: seq<Byte>): (r: Res<RiffFmt>)
    ensures r == NoMatch <==> !StartsWith(s, FmtTag)
    ensures r.Match? <==>
      StartsWith(s, FmtTag) && 8 <= |s| && 16 <= Pad(DwordAt(s, 4)) && 8 + Pad(DwordAt(s, 4)) <= |s|
    ensures r.Match? ==> r.consumed == 8 + Pad(DwordAt(s, 4)) && r.value == FieldsAt(s, 8)
  {
    if !StartsWith(s, FmtTag) then NoMatch
    else if |s| < 8 then Abort
    else
      var n := Pad(DwordAt(s, 4));
      var body := Expect(Next(n, FmtBody, s[8..]));
      if body.Match? then
        assert n <= |s[8..]| && FieldsAt(s[8..][..n], 0) == FieldsAt(s, 8);
        Match(body.value, 8 + body.consumed)
      else Abort
  }

  /** data: "data" > dword > size + size % 2 bytes. The chunk size is
      recorded; the position of the samples, `base + 8` for a chunk at
      offset `base`, is recorded only by the corrected rule. */
  function Data(s: seq<Byte>, base: nat, v: Variant): (r: Res<RiffData>)
    ensures r == NoMatch <==> !StartsWith(s, DataTag)
    ensures r.Match? <==> StartsWith(s, DataTag) && 8 <= |s| && 8 + Pad(DwordAt(s, 4)) <= |s|
    ensures r.Match? ==> r.consumed == 8 + Pad(DwordAt(s, 4)) && r.value.size == DwordAt(s, 4)
    ensures r.Match? ==> r.value.pos == if v == Corrected then base + 8 else 0
  {
    if !StartsWith(s, DataTag) then NoMatch
    else if |s| < 8 then Abort
    else
      var n := DwordAt(s, 4);
      if |s| - 8 < Pad(n) then Abort
      else Match(RiffData(if v == Corrected then base + 8 else 0, n), 8 + Pad(n))
  }

  datatype Chunk = FmtChunk(fmt: RiffFmt) | DataChunk(data: RiffData)

  /** fmt | data. */
  function ChunkAt(s: seq<Byte>, base: nat, v: Variant): (r: Res<Chunk>)
    ensures r == NoMatch <==> !StartsWith(s, FmtTag) && !StartsWith(s, DataTag)
    ensures r.Match? ==> 8 <= r.consumed <= |s|
    ensures v == AsWritten && r.Match? && r.value.DataChunk? ==> r.value.data.pos == 0
  {
    match Fmt(s)
    case Match(f, k) => Match(FmtChunk(f), k)
    case Abort => Abort
    case NoMatch =>
      match Data(s, base, v)
      case Match(d, k) => Match(DataChunk(d), k)
      case Abort => Abort
      case NoMatch => NoMatch
  }

  /** The semantic actions: a fmt chunk replaces the format, a data chunk
      the data. */
  function Store(w: WavFile, c: Chunk): (r: WavFile)
    ensures c.FmtChunk? ==> r.fmt == Some(c.fmt) && r.data == w.data
    ensures c.DataChunk? ==> r.data == Some(c.data) && r.fmt == w.fmt
  {
    match c
    case FmtChunk(f) => w.(fmt := Some(f))
    case DataChunk(d) => w.(data := Some(d))
  }

  /** A data chunk, if recorded, lies before `limit`. */
  predicate DataInside(w: WavFile, limit: nat) {
    w.data.Some? ==> w.data.value.pos + w.data.value.size <= limit
  }

  /** No data chunk recorded in `w` carries a sample position: the
      as-written data rule never stores one. */
  predicate PosUnrecorded(w: WavFile) {
    w.data.Some? ==> w.data.value.pos == 0
  }

  /** The repetition of chunks: it stops, successfully, at the first
      position where neither chunk kind starts; an expectation failure
      in any chunk unwinds it. `base` is the offset of `s` in the file. */
  function Chunks(s: seq<Byte>, base: nat, v: Variant, w: WavFile): (r: Res<WavFile>)
    ensures r != NoMatch && Within(r, s)
    ensures v == Corrected && DataInside(w, base + |s|) && r.Match? ==> DataInside(r.value, base + |s|)
    ensures v == AsWritten && PosUnrecorded(w) && r.Match? ==> PosUnrecorded(r.value)
    decreases |s|
  {
    match ChunkAt(s, base, v)
    case NoMatch => Match(w, 0)
    case Abort => Abort
    case Match(c, k) =>
      var rest := Chunks(s[k..], base + k, v, Store(w, c));
      if rest.Match? then Match(rest.value, k + rest.consumed) else Abort
  }

  /** riff: header >> +(fmt | data), writing into a record nothing has
      been written to yet. */
  function Riff(s: seq<Byte>, v: Variant): (r: Res<WavFile>)
    ensures Within(r, s)
    ensures r == NoMatch <==>
      !StartsWith(s, RiffTag) || (Header(s).Match? && ChunkAt(s[12..], 12, v) == NoMatch)
    ensures r.Match? ==> Header(s).Match? && 20 <= r.consumed
    ensures v == Corrected && r.Match? ==> DataInside(r.value, |s|)
    ensures v == AsWritten && r.Match? ==> PosUnrecorded(r.value)
  {
    match Header(s)
    case NoMatch => NoMatch
    case Abort => Abort
    case Match(_, h) =>
      var r := ChunksAfterHeader(s[h..], v);
      if r.Match? then Match(r.value, h + r.consumed) else r
  }

  /** The +(fmt | data) part of the riff rule, on the input after the
      12-byte header: at least one chunk. */
  function ChunksAfterHeader(s: seq<Byte>, v: Variant): (r: Res<WavFile>)
    ensures Within(r, s)
    ensures r == NoMatch <==> ChunkAt(s, 12, v) == NoMatch
    ensures r.Match? ==> 8 <= r.consumed
    ensures v == Corrected && r.Match? ==> DataInside(r.value, 12 + |s|)
    ensures v == AsWritten && r.Match? ==> PosUnrecorded(r.value)
  {
    match ChunkAt(s, 12, v)
    case NoMatch => NoMatch
    case Abort => Abort
    case Match(c, k) =>
      var rest := Chunks(s[k..], 12 + k, v, Store(Unwritten, c));
      if rest.Match? then Match(rest.value, k + rest.consumed) else Abort
  }

  /** parse_wavfile as written: whatever the grammar returned, the answer
      is whether the input position reached the end of the stream. A
      failed parse leaves the position at the start, so an empty stream
      is accepted, with nothing written to the record. */
  function ParseWavFile(s: seq<Byte>): (r: Option<WavFile>)
    ensures r.Some? <==> |s| == 0 || (Riff(s, AsWritten).Match? && Riff(s, AsWritten).consumed == |s|)
    ensures |s| == 0 ==> r == Some(Unwritten)
    ensures r.Some? ==> PosUnrecorded(r.value)
  {
    var p := Riff(s, AsWritten);
    var end := if p.Match? then p.consumed else 0;
    if end == |s| then Some(if p.Match? then p.value else Unwritten) else None
  }

  /** parse_wavfile as its documentation describes it: true exactly when
      the whole input is a RIFF/WAVE file, and with the sample position
      recorded. */
  function ParseWavFileFixed(s: seq<Byte>): (r: Option<WavFile>)
    ensures r.Some? ==> StartsWith(s, RiffTag) && 20 <= |s| && s[8..12] == WaveTag
    ensures r.Some? ==> DataInside(r.value, |s|)
  {
    var p := Riff(s, Corrected);
    if p.Match? && p.consumed == |s| then Some(p.value) else None
  }
}
