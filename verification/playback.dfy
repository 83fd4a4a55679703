/** play_wav: parse the file, choose the sample format from the bit size,
    and write the samples to the device in chunks of at most one period. */
module Playback {
  import opened Optional
  import opened WavTypes
  import opened WavParser
  import opened WavEncoding

  /** The ALSA sample formats play_wav can choose. */
  datatype PcmFormat = U8 | S16Le | S24Le | S32Le

  /** The sample width, in bits, of each format. */
  function Width(f: PcmFormat): nat {
    match f
    case U8 => 8
    case S16Le => 16
    case S24Le => 24
    case S32Le => 32
  }

  /** bitsize_to_pcm_format: the narrowest format whose samples hold
      `bits` bits; `None` where the source throws. */
  function BitsizeToPcmFormat(bits: nat): (r: Option<PcmFormat>)
    ensures r.Some? <==> bits <= 32
    ensures r.Some? ==> bits <= Width(r.value)
    ensures r.Some? ==> forall f: PcmFormat :: bits <= Width(f) ==> Width(r.value) <= Width(f)
  {
    if bits <= 8 then Some(U8)
    else if bits <= 16 then Some(S16Le)
    else if bits <= 24 then Some(S24Le)
    else if bits <= 32 then Some(S32Le)
    else None
  }

  /** Every format is chosen for its own width, so the choice is onto. */
  lemma EveryFormatChosen(f: PcmFormat)
    ensures BitsizeToPcmFormat(Width(f)) == Some(f)
  {
  }

  // ---------------------------------------------------------------------
  // The write loop

  function Sum(ws: seq<nat>): nat {
    if |ws| == 0 then 0 else ws[0] + Sum(ws[1..])
  }

  /** What a write sequence for `frames` frames in periods of `period`
      must look like: it writes every frame, no write is empty or longer
      than a period, and only the last write may be short. */
  predicate Chunked(ws: seq<nat>, frames: nat, period: nat) {
    && Sum(ws) == frames
    && (forall i :: 0 <= i < |ws| ==> 0 < ws[i] <= period)
    && (forall i :: 0 <= i < |ws| - 1 ==> ws[i] == period)
  }

  /** The frame counts of the successive writes: each takes
      min(period, frames still to go). */
  function Chunking(frames: nat, period: nat): (ws: seq<nat>)
    requires 0 < period
    ensures Chunked(ws, frames, period)
    decreases frames
  {
    if frames == 0 then []
    else
      var c := if period < frames then period else frames;
      [c] + Chunking(frames - c, period)
  }

  /** The first write of a valid write sequence is min(period, frames),
      and the rest is a valid write sequence for what remains. */
  lemma ChunkedHead(ws: seq<nat>, frames: nat, period: nat)
    requires Chunked(ws, frames, period) && 0 < |ws|
    ensures ws[0] == (if period < frames then period else frames)
    ensures Chunked(ws[1..], frames - ws[0], period)
  {
    var rest := ws[1..];
    assert Sum(ws) == ws[0] + Sum(rest);
    if 1 < |ws| {
      assert Sum(rest) == rest[0] + Sum(rest[1..]);
    }
    assert forall i :: 0 <= i < |rest| ==> rest[i] == ws[i + 1];
  }

  /** A write sequence is determined by the frame count and the period:
      Chunked has exactly one solution. */
  lemma {:induction false} ChunkedUnique(ws: seq<nat>, vs: seq<nat>, frames: nat, period: nat)
    requires Chunked(ws, frames, period) && Chunked(vs, frames, period)
    ensures ws == vs
    decreases |ws|
  {
    if 0 < |ws| && 0 < |vs| {
      ChunkedHead(ws, frames, period);
      ChunkedHead(vs, frames, period);
      ChunkedUnique(ws[1..], vs[1..], frames - ws[0], period);
      assert ws == [ws[0]] + ws[1..] && vs == [vs[0]] + vs[1..];
    }
  }

  /** One round of the loop: writing min(period, togo) frames keeps the
      writes so far plus what remains equal to the whole schedule. */
  lemma ChunkingStep(writes: seq<nat>, togo: nat, frames: nat, period: nat)
    requires 0 < period && 0 < togo
    requires writes + Chunking(togo, period) == Chunking(frames, period)
    ensures var count := if period < togo then period else togo;
      (writes + [count]) + Chunking(togo - count, period) == Chunking(frames, period)
  {
    var count := if period < togo then period else togo;
    var rest := Chunking(togo - count, period);
    assert Chunking(togo, period) == [count] + rest;
    assert (writes + [count]) + rest == writes + ([count] + rest);
  }

  /** The loop of play_wav, lines 97-106: while frames remain, write
      min(period, remaining) of them. */
  method ChunkLoop(frames: nat, period: nat) returns (writes: seq<nat>)
    requires 0 < period
    ensures Chunked(writes, frames, period)
    ensures writes == Chunking(frames, period)
  {
    writes := [];
    var togo: nat := frames;
    while togo != 0
      invariant writes + Chunking(togo, period) == Chunking(frames, period)
      decreases togo
    {
      var count := if period < togo then period else togo;
      ChunkingStep(writes, togo, frames, period);
      writes := writes + [count];
      togo := togo - count;
    }
    assert writes + [] == writes;
  }

  // ---------------------------------------------------------------------
  // play_wav

  /** The period size play_wav asks for; the device may grant another. */
  const RequestedPeriod: nat := 128

  /** How a call of play_wav ends.
      `ParseFailed` and `BadBitsize` are the runtime errors it throws;
      `Indeterminate` is reading a record field the parser never wrote;
      `Undefined` is the signed overflow or division by zero in the frame
      arithmetic; `NeverEnds` is the write loop with a zero period.
      `Played` lists the frame counts written, from sample offset `start`
      in the file, `frameSize` bytes to a frame. */
  datatype Outcome =
    | ParseFailed
    | Indeterminate
    | BadBitsize(bits: nat)
    | Undefined
    | NeverEnds
    | Played(format: PcmFormat, rate: nat, channels: nat, start: nat, frameSize: nat, writes: seq<nat>)

  /** A played outcome wrote all the whole frames of `size` bytes, in
      chunks of at most one period. */
  predicate WritesAll(r: Outcome, size: nat, period: nat) {
    r.Played? && 0 < r.frameSize && Chunked(r.writes, size / r.frameSize, period)
  }

  /** The write loop of play_wav for the data chunk `d`, once the format
      and frame size are known. */
  function PlayFrames(format: PcmFormat, f: RiffFmt, d: RiffData, frameSize: nat, period: nat): (r: Outcome)
    requires 0 < frameSize
    ensures r.Played? || r == NeverEnds
    ensures r.Played? ==>
      && r.format == format && r.rate == f.samplerate && r.channels == f.channels
      && r.start == d.pos && r.frameSize == frameSize
      && WritesAll(r, d.size, period)
    ensures r == NeverEnds ==> period == 0
  {
    var frames := d.size / frameSize;
    if frames == 0 then Played(format, f.samplerate, f.channels, d.pos, frameSize, [])
    else if period == 0 then NeverEnds
    else Played(format, f.samplerate, f.channels, d.pos, frameSize, Chunking(frames, period))
  }

  /** play_wav after a successful parse of record `w`, with a device
      that grants `period` frames per period. */
  function PlayParsed(w: WavFile, period: nat): (r: Outcome)
    ensures r != ParseFailed
    ensures r.Played? ==>
      && w.fmt.Some? && w.data.Some?
      && BitsizeToPcmFormat(w.fmt.value.bitsPerSample) == Some(r.format)
      && r.rate == w.fmt.value.samplerate && r.channels == w.fmt.value.channels
      && r.frameSize == w.fmt.value.channels * w.fmt.value.bitsPerSample / 8 && 0 < r.frameSize
      && r.start == w.data.value.pos
      && WritesAll(r, w.data.value.size, period)
    ensures w.fmt.Some? && w.fmt.value.bitsPerSample > 32 ==> r == BadBitsize(w.fmt.value.bitsPerSample)
    ensures r == NeverEnds ==> period == 0
  {
    if w.fmt.None? then Indeterminate
    else
      var f := w.fmt.value;
      match BitsizeToPcmFormat(f.bitsPerSample)
      case None => BadBitsize(f.bitsPerSample)
      case Some(format) =>
        var bits := f.channels * f.bitsPerSample;
        if bits > 0x7FFF_FFFF then Undefined
        else if bits / 8 == 0 then Undefined
        else if w.data.None? then Indeterminate
        else PlayFrames(format, f, w.data.value, bits / 8, period)
  }

  /** play_wav on the bytes of a file, with parse_wavfile as written. A
      missing file opens as an empty stream, which that parser accepts
      without writing the record, so play_wav goes on to read a format it
      never set. When samples are played they are taken from offset 0,
      the start of the RIFF header, since the parser records no sample
      position. */
  function PlayWav(file: seq<Byte>, period: nat): (r: Outcome)
    ensures r == ParseFailed <==> ParseWavFile(file).None?
    ensures |file| == 0 ==> r == Indeterminate
    ensures r.Played? ==> r.start == 0
    ensures r.Played? ==>
      var w := ParseWavFile(file).value;
      && w.fmt.Some? && w.data.Some?
      && BitsizeToPcmFormat(w.fmt.value.bitsPerSample) == Some(r.format)
      && r.rate == w.fmt.value.samplerate && r.channels == w.fmt.value.channels
      && WritesAll(r, w.data.value.size, period)
  {
    match ParseWavFile(file)
    case None => ParseFailed
    case Some(w) => PlayParsed(w, period)
  }

  /** play_wav with the corrected parser: an empty stream is a parse
      failure, and samples are played from the recorded start of the data
      chunk's body. */
  function PlayWavFixed(file: seq<Byte>, period: nat): (r: Outcome)
    ensures r == ParseFailed <==> ParseWavFileFixed(file).None?
    ensures |file| == 0 ==> r == ParseFailed
    ensures r.Played? ==>
      var w := ParseWavFileFixed(file).value;
      && w.fmt.Some? && w.data.Some?
      && BitsizeToPcmFormat(w.fmt.value.bitsPerSample) == Some(r.format)
      && r.rate == w.fmt.value.samplerate && r.channels == w.fmt.value.channels
      && r.start == w.data.value.pos
      && WritesAll(r, w.data.value.size, period)
  {
    match ParseWavFileFixed(file)
    case None => ParseFailed
    case Some(w) => PlayParsed(w, period)
  }

  /** play_wav reads whole frames, never more than the data chunk holds. */
  lemma PlayedReadsInsideData(w: WavFile, period: nat)
    requires PlayParsed(w, period).Played?
    ensures var r := PlayParsed(w, period);
      r.start + r.frameSize * Sum(r.writes) <= w.data.value.pos + w.data.value.size
  {
    var r := PlayParsed(w, period);
    var size := w.data.value.size;
    var fs := r.frameSize;
    assert Sum(r.writes) == size / fs;
    assert fs * (size / fs) <= size by {
      assert size == fs * (size / fs) + size % fs;
    }
  }

  /** With the corrected parser the bytes played all lie inside the file. */
  lemma PlayedReadsInsideFile(file: seq<Byte>, period: nat)
    requires PlayWavFixed(file, period).Played?
    ensures var r := PlayWavFixed(file, period); r.start + r.frameSize * Sum(r.writes) <= |file|
  {
    PlayedReadsInsideData(ParseWavFileFixed(file).value, period);
  }

  /** A canonical 44-byte-header file: as written, play_wav plays the
      record whose samples start at offset 0, so the header itself is
      sent to the device as sound; corrected, the samples start at 44. */
  lemma CanonicalPlayback(f: RiffFmt, samples: seq<Byte>, period: nat)
    requires f.Valid() && |samples| < TwoTo32 - 64
    ensures PlayWav(Canonical(f, samples), period) == PlayParsed(WavFile(Some(f), Some(RiffData(0, |samples|))), period)
    ensures PlayWavFixed(Canonical(f, samples), period) == PlayParsed(WavFile(Some(f), Some(RiffData(44, |samples|))), period)
  {
    CanonicalAsWritten(f, samples);
    CanonicalFixed(f, samples);
  }
}
