/** The records a WAVE file is parsed into, and the little-endian integer
    encoding the file format uses. */
module WavTypes {
  import opened Optional

  /** One byte of the input file. */
  type Byte = b: int | 0 <= b < 256

  const TwoTo16: nat := 0x1_0000
  const TwoTo32: nat := 0x1_0000_0000

  /** The value of two bytes read as a little-endian unsigned word. */
  function Le16(b0: Byte, b1: Byte): (n: nat)
    ensures n < TwoTo16
  {
    b0 + 256 * b1
  }

  /** The value of four bytes read as a little-endian unsigned double word. */
  function Le32(b0: Byte, b1: Byte, b2: Byte, b3: Byte): (n: nat)
    ensures n < TwoTo32
  {
    Le16(b0, b1) + 0x1_0000 * Le16(b2, b3)
  }

  /** The little-endian word at offset `i` of `s`. */
  function WordAt(s: seq<Byte>, i: nat): (n: nat)
    requires i + 2 <= |s|
    ensures n < TwoTo16
  {
    Le16(s[i], s[i + 1])
  }

  /** The little-endian double word at offset `i` of `s`. */
  function DwordAt(s: seq<Byte>, i: nat): (n: nat)
    requires i + 4 <= |s|
    ensures n < TwoTo32
  {
    Le32(s[i], s[i + 1], s[i + 2], s[i + 3])
  }

  /** The two bytes of a 16-bit value, low byte first. */
  function EncodeWord(n: nat): (r: seq<Byte>)
    requires n < TwoTo16
    ensures |r| == 2
  {
    [n % 256, n / 256]
  }

  /** The four bytes of a 32-bit value, low byte first. */
  function EncodeDword(n: nat): (r: seq<Byte>)
    requires n < TwoTo32
    ensures |r| == 4
  {
    EncodeWord(n % 0x1_0000) + EncodeWord(n / 0x1_0000)
  }

  /** Reading back a written word gives its value. */
  lemma WordRoundTrip(n: nat)
    requires n < TwoTo16
    ensures WordAt(EncodeWord(n), 0) == n
  {
  }

  lemma DwordRoundTrip(n: nat)
    requires n < TwoTo32
    ensures DwordAt(EncodeDword(n), 0) == n
  {
    var r := EncodeDword(n);
    WordRoundTrip(n % 0x1_0000);
    WordRoundTrip(n / 0x1_0000);
    assert r[..2] == EncodeWord(n % 0x1_0000) && r[2..] == EncodeWord(n / 0x1_0000);
    assert Le16(r[0], r[1]) == n % 0x1_0000 && Le16(r[2], r[3]) == n / 0x1_0000;
  }

  /** Decoding is injective: a word is determined by its value. */
  lemma WordEncodesBack(s: seq<Byte>, i: nat)
    requires i + 2 <= |s|
    ensures EncodeWord(WordAt(s, i)) == s[i..i + 2]
  {
  }

  lemma DwordEncodesBack(s: seq<Byte>, i: nat)
    requires i + 4 <= |s|
    ensures EncodeDword(DwordAt(s, i)) == s[i..i + 4]
  {
    var lo, hi := WordAt(s, i), WordAt(s, i + 2);
    var n := DwordAt(s, i);
    assert n == lo + 0x1_0000 * hi;
    SplitDword(lo, hi);
    assert EncodeDword(n) == EncodeWord(lo) + EncodeWord(hi);
    WordEncodesBack(s, i);
    WordEncodesBack(s, i + 2);
    assert s[i..i + 4] == s[i..i + 2] + s[i + 2..i + 4];
  }

  lemma SplitDword(lo: nat, hi: nat)
    requires lo < TwoTo16
    ensures (lo + 0x1_0000 * hi) % 0x1_0000 == lo && (lo + 0x1_0000 * hi) / 0x1_0000 == hi
  {
  }

  /** The format chunk's fields, in file order. Each is a 16-bit or 32-bit
      unsigned value. */
  datatype RiffFmt = RiffFmt(
    compression: nat,
    channels: nat,
    samplerate: nat,
    bytesPerSecond: nat,
    blockAlign: nat,
    bitsPerSample: nat)
  {
    predicate Valid() {
      && compression < TwoTo16 && channels < TwoTo16
      && samplerate < TwoTo32 && bytesPerSecond < TwoTo32
      && blockAlign < TwoTo16 && bitsPerSample < TwoTo16
    }
  }

  /** Where the samples are: their offset in the file and their size in
      bytes. */
  datatype RiffData = RiffData(pos: nat, size: nat)

  /** The parse result. A field the parser never writes keeps the value it
      had before; the caller in play_wav leaves the record uninitialised,
      so such a field is indeterminate: `None`. */
  datatype WavFile = WavFile(fmt: Option<RiffFmt>, data: Option<RiffData>)

  const Unwritten := WavFile(None, None)
}
