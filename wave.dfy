/**
 * Sound loading of Audio/AudioSource.cs: the WAVE header parser `LoadWave`,
 * the OpenAL format choice `SoundData.GetALFormat` and the extension
 * dispatch of `LoadData`.
 *
 * The parser reads the canonical 44-byte PCM header of a RIFF WAVE file
 * (Microsoft/IBM Multimedia Programming Interface and Data Specifications
 * 1.0, "WAVE form"): a "RIFF" chunk descriptor, a "fmt " subchunk and a
 * "data" subchunk, every number little-endian.  The source reads it with a
 * BinaryReader whose cursor advances field by field; here each read takes
 * the offset and returns the next one.
 */
module Wave {
  import opened Wrappers

  /** An unsigned 8-bit value, System.Byte. */
  newtype byte = b: int | 0 <= b < 0x100

  /** SoundData (AudioSource.cs:6-19). */
  datatype SoundData = SoundData(channelCount: int, bitDepth: int, sampleRate: int, samples: seq<byte>)

  /** The exceptions LoadWave can raise. */
  datatype WaveError =
    | NotRiff            // InvalidDataException, AudioSource.cs:44
    | NotWave            // InvalidDataException, AudioSource.cs:50
    | UnsupportedFormat  // InvalidDataException, AudioSource.cs:54
    | Corrupted          // InvalidDataException, AudioSource.cs:66
    | EndOfStream        // EndOfStreamException from a ReadInt16/ReadInt32 past the end

  /** A number read from the stream and the offset just after it. */
  datatype Field = Field(value: int, next: nat)

  const HeaderSize: nat := 44

  /**
   * `new string(reader.ReadChars(4)) == sig` for an ASCII signature: the four
   * bytes at `pos` spell it.  When fewer than four bytes remain, ReadChars
   * returns fewer characters and the comparison fails.
   */
  predicate SignatureAt(data: seq<byte>, pos: nat, sig: string)
    requires |sig| == 4
  {
    pos + 4 <= |data| && forall k :: 0 <= k < 4 ==> data[pos + k] as int == sig[k] as int
  }

  /** The unsigned little-endian 16-bit number at `pos`. */
  function U16(data: seq<byte>, pos: nat): nat
    requires pos + 2 <= |data|
  {
    data[pos] as nat + 0x100 * data[pos + 1] as nat
  }

  /** The unsigned little-endian 32-bit number at `pos`. */
  function U32(data: seq<byte>, pos: nat): nat
    requires pos + 4 <= |data|
  {
    U16(data, pos) + 0x1_0000 * U16(data, pos + 2)
  }

  /** BinaryReader.ReadInt16 at `pos`: two's complement, None where the stream ends first. */
  function ReadInt16(data: seq<byte>, pos: nat): (r: Option<Field>)
    ensures r.Some? <==> pos + 2 <= |data|
    ensures r.Some? ==> r.value.next == pos + 2 && -0x8000 <= r.value.value < 0x8000
  {
    if pos + 2 <= |data| then
      var u := U16(data, pos);
      Some(Field(if u >= 0x8000 then u - 0x1_0000 else u, pos + 2))
    else None
  }

  /** BinaryReader.ReadInt32 at `pos`: two's complement, None where the stream ends first. */
  function ReadInt32(data: seq<byte>, pos: nat): (r: Option<Field>)
    ensures r.Some? <==> pos + 4 <= |data|
    ensures r.Some? ==> r.value.next == pos + 4 && -0x8000_0000 <= r.value.value < 0x8000_0000
  {
    if pos + 4 <= |data| then
      var u := U32(data, pos);
      Some(Field(if u >= 0x8000_0000 then u - 0x1_0000_0000 else u, pos + 4))
    else None
  }

  /** The field values LoadWave reads and throws away. */
  datatype Ignored = Ignored(fileSize: int, formatChunkSize: int, audioFormat: int,
                             byteRate: int, blockAlign: int, dataChunkSize: int)

  /** LoadWave, AudioSource.cs:38-74: read the header field by field, failing at the first bad field. */
  function LoadWave(data: seq<byte>): (r: Result<SoundData, WaveError>)
    ensures r.Success? ==> WellFormed(data) && r.value.samples == data[HeaderSize..]
  {
    if !SignatureAt(data, 0, "RIFF") then Failure(NotRiff) else
    var fileSize := ReadInt32(data, 4);
    if fileSize.None? then Failure(EndOfStream) else
    var p := fileSize.value.next;
    if !SignatureAt(data, p, "WAVE") then Failure(NotWave) else
    var p := p + 4;
    if !SignatureAt(data, p, "fmt ") then Failure(UnsupportedFormat) else
    var formatChunkSize := ReadInt32(data, p + 4);
    if formatChunkSize.None? then Failure(EndOfStream) else
    var audioFormat := ReadInt16(data, formatChunkSize.value.next);
    if audioFormat.None? then Failure(EndOfStream) else
    var channelCount := ReadInt16(data, audioFormat.value.next);
    if channelCount.None? then Failure(EndOfStream) else
    var sampleRate := ReadInt32(data, channelCount.value.next);
    if sampleRate.None? then Failure(EndOfStream) else
    var byteRate := ReadInt32(data, sampleRate.value.next);
    if byteRate.None? then Failure(EndOfStream) else
    var blockAlign := ReadInt16(data, byteRate.value.next);
    if blockAlign.None? then Failure(EndOfStream) else
    var bitDepth := ReadInt16(data, blockAlign.value.next);
    if bitDepth.None? then Failure(EndOfStream) else
    var p := bitDepth.value.next;
    if !SignatureAt(data, p, "data") then Failure(Corrupted) else
    var dataChunkSize := ReadInt32(data, p + 4);
    if dataChunkSize.None? then Failure(EndOfStream) else
    // ReadBytes(stream length) takes whatever is left.
    Success(SoundData(channelCount.value.value, bitDepth.value.value, sampleRate.value.value,
                      data[dataChunkSize.value.next..]))
  }

  /** The four signatures sit at their fixed offsets of the 44-byte header. */
  predicate WellFormed(data: seq<byte>)
  {
    |data| >= HeaderSize &&
    SignatureAt(data, 0, "RIFF") && SignatureAt(data, 8, "WAVE") &&
    SignatureAt(data, 12, "fmt ") && SignatureAt(data, 36, "data")
  }

  /**
   * LoadWave accepts exactly the well-formed headers; it then reports the
   * channel count (int16 at 22), sample rate (int32 at 24), bit depth (int16
   * at 34) and every byte after the header as samples, whatever the declared
   * data size.
   */
  lemma LoadWaveAccepts(data: seq<byte>)
    ensures LoadWave(data).Success? <==> WellFormed(data)
    ensures LoadWave(data).Success? ==> LoadWave(data).value == SoundData(
      ReadInt16(data, 22).value.value, ReadInt16(data, 34).value.value,
      ReadInt32(data, 24).value.value, data[44..])
  {
  }

  /** Input shorter than the header never yields SoundData. */
  lemma ShortInputRejected(data: seq<byte>)
    requires |data| < HeaderSize
    ensures LoadWave(data).Failure?
  {
    LoadWaveAccepts(data);
  }

  /** The checks run in stream order: the first one that fails names the error. */
  lemma LoadWaveFirstError(data: seq<byte>)
    ensures !SignatureAt(data, 0, "RIFF") ==> LoadWave(data) == Failure(NotRiff)
    ensures SignatureAt(data, 0, "RIFF") && |data| < 8 ==> LoadWave(data) == Failure(EndOfStream)
    ensures SignatureAt(data, 0, "RIFF") && |data| >= 8 && !SignatureAt(data, 8, "WAVE") ==>
      LoadWave(data) == Failure(NotWave)
    ensures SignatureAt(data, 0, "RIFF") && SignatureAt(data, 8, "WAVE") && !SignatureAt(data, 12, "fmt ") ==>
      LoadWave(data) == Failure(UnsupportedFormat)
    ensures (SignatureAt(data, 0, "RIFF") && SignatureAt(data, 8, "WAVE") && SignatureAt(data, 12, "fmt ") &&
             |data| >= 36 && !SignatureAt(data, 36, "data")) ==> LoadWave(data) == Failure(Corrupted)
  {
  }

  // ---------------------------------------------------------------------------
  // Writing a header: the inverse of LoadWave
  // ---------------------------------------------------------------------------

  /** Two's complement little-endian bytes of a 16-bit value. */
  function Le16(v: int): (b: seq<byte>)
    requires -0x8000 <= v < 0x8000
    ensures |b| == 2
  {
    var u := if v < 0 then v + 0x1_0000 else v;
    [(u % 0x100) as byte, (u / 0x100) as byte]
  }

  /** Two's complement little-endian bytes of a 32-bit value: low half first. */
  function Le32(v: int): (b: seq<byte>)
    requires -0x8000_0000 <= v < 0x8000_0000
    ensures |b| == 4
  {
    var u := if v < 0 then v + 0x1_0000_0000 else v;
    Le16(Wrap16(u % 0x1_0000)) + Le16(Wrap16(u / 0x1_0000))
  }

  /** The signed 16-bit value with the bits of `u`. */
  function Wrap16(u: int): (v: int)
    requires 0 <= u < 0x1_0000
    ensures -0x8000 <= v < 0x8000
  {
    if u >= 0x8000 then u - 0x1_0000 else u
  }

  function Ascii(sig: string): (b: seq<byte>)
    requires forall k :: 0 <= k < |sig| ==> sig[k] as int < 0x100
    ensures |b| == |sig|
  {
    seq(|sig|, k requires 0 <= k < |sig| => sig[k] as int as byte)
  }

  /** The signed field ranges of the header. */
  predicate Fits16(v: int) { -0x8000 <= v < 0x8000 }
  predicate Fits32(v: int) { -0x8000_0000 <= v < 0x8000_0000 }

  predicate Encodable(sd: SoundData, ig: Ignored)
  {
    Fits16(sd.channelCount) && Fits16(sd.bitDepth) && Fits32(sd.sampleRate) &&
    Fits32(ig.fileSize) && Fits32(ig.formatChunkSize) && Fits16(ig.audioFormat) &&
    Fits32(ig.byteRate) && Fits16(ig.blockAlign) && Fits32(ig.dataChunkSize)
  }

  /** The RIFF chunk descriptor: "RIFF", the file size, "WAVE" (12 bytes). */
  function RiffDescriptor(ig: Ignored): (b: seq<byte>)
    requires Fits32(ig.fileSize)
    ensures |b| == 12
  {
    Ascii("RIFF") + Le32(ig.fileSize) + Ascii("WAVE")
  }

  /** The "fmt " subchunk (24 bytes). */
  function FormatChunk(sd: SoundData, ig: Ignored): (b: seq<byte>)
    requires Encodable(sd, ig)
    ensures |b| == 24
  {
    Ascii("fmt ") + Le32(ig.formatChunkSize) + Le16(ig.audioFormat) + Le16(sd.channelCount) +
    Le32(sd.sampleRate) + Le32(ig.byteRate) + Le16(ig.blockAlign) + Le16(sd.bitDepth)
  }

  /** The "data" subchunk header followed by the samples. */
  function DataChunk(sd: SoundData, ig: Ignored): (b: seq<byte>)
    requires Fits32(ig.dataChunkSize)
    ensures |b| == 8 + |sd.samples|
  {
    Ascii("data") + Le32(ig.dataChunkSize) + sd.samples
  }

  /** A canonical file for `sd`, with arbitrary values in the fields LoadWave ignores. */
  function Encode(sd: SoundData, ig: Ignored): (data: seq<byte>)
    requires Encodable(sd, ig)
    ensures |data| == HeaderSize + |sd.samples|
  {
    RiffDescriptor(ig) + FormatChunk(sd, ig) + DataChunk(sd, ig)
  }

  /** The two bytes of Le16(Wrap16(w)) read back as the unsigned w. */
  lemma U16Reads(data: seq<byte>, pos: nat, w: int)
    requires 0 <= w < 0x1_0000 && pos + 2 <= |data| && data[pos..pos + 2] == Le16(Wrap16(w))
    ensures U16(data, pos) == w
  {
    assert data[pos] == data[pos..pos + 2][0] && data[pos + 1] == data[pos..pos + 2][1];
  }

  /** ReadInt16 inverts Le16. */
  lemma Le16Reads(data: seq<byte>, pos: nat, v: int)
    requires Fits16(v) && pos + 2 <= |data| && data[pos..pos + 2] == Le16(v)
    ensures ReadInt16(data, pos) == Some(Field(v, pos + 2))
  {
    var u := if v < 0 then v + 0x1_0000 else v;
    assert Wrap16(u) == v;
    U16Reads(data, pos, u);
  }

  /** ReadInt32 inverts Le32. */
  lemma Le32Reads(data: seq<byte>, pos: nat, v: int)
    requires Fits32(v) && pos + 4 <= |data| && data[pos..pos + 4] == Le32(v)
    ensures ReadInt32(data, pos) == Some(Field(v, pos + 4))
  {
    var u := if v < 0 then v + 0x1_0000_0000 else v;
    Split(data, pos, Le16(Wrap16(u % 0x1_0000)), Le16(Wrap16(u / 0x1_0000)));
    U16Reads(data, pos, u % 0x1_0000);
    U16Reads(data, pos + 2, u / 0x1_0000);
  }

  /** A stream holding `a + b` at `off` holds `a` at `off` and `b` right after it. */
  lemma Split(data: seq<byte>, off: nat, a: seq<byte>, b: seq<byte>)
    requires off + |a| + |b| <= |data| && data[off..off + |a| + |b|] == a + b
    ensures data[off..off + |a|] == a && data[off + |a|..off + |a| + |b|] == b
  {
    assert data[off..off + |a|] == (a + b)[..|a|];
    assert data[off + |a|..off + |a| + |b|] == (a + b)[|a|..];
  }

  /** A signature written with Ascii reads back as that signature. */
  lemma SignatureFrom(data: seq<byte>, pos: nat, sig: string)
    requires |sig| == 4 && forall k :: 0 <= k < 4 ==> sig[k] as int < 0x100
    requires pos + 4 <= |data| && data[pos..pos + 4] == Ascii(sig)
    ensures SignatureAt(data, pos, sig)
  {
    forall k | 0 <= k < 4 ensures data[pos + k] as int == sig[k] as int {
      assert data[pos + k] == data[pos..pos + 4][k];
    }
  }

  lemma ReadsDescriptor(data: seq<byte>, ig: Ignored)
    requires Fits32(ig.fileSize) && 12 <= |data| && data[..12] == RiffDescriptor(ig)
    ensures SignatureAt(data, 0, "RIFF") && SignatureAt(data, 8, "WAVE")
    ensures ReadInt32(data, 4) == Some(Field(ig.fileSize, 8))
  {
    assert data[0..12] == data[..12];
    Split(data, 0, Ascii("RIFF") + Le32(ig.fileSize), Ascii("WAVE"));
    Split(data, 0, Ascii("RIFF"), Le32(ig.fileSize));
    Le32Reads(data, 4, ig.fileSize);
    SignatureFrom(data, 0, "RIFF");
    SignatureFrom(data, 8, "WAVE");
  }

  lemma ReadsFormat(data: seq<byte>, sd: SoundData, ig: Ignored)
    requires Encodable(sd, ig) && 36 <= |data| && data[12..36] == FormatChunk(sd, ig)
    ensures SignatureAt(data, 12, "fmt ")
    ensures ReadInt32(data, 16) == Some(Field(ig.formatChunkSize, 20))
    ensures ReadInt16(data, 20) == Some(Field(ig.audioFormat, 22))
    ensures ReadInt16(data, 22) == Some(Field(sd.channelCount, 24))
    ensures ReadInt32(data, 24) == Some(Field(sd.sampleRate, 28))
    ensures ReadInt32(data, 28) == Some(Field(ig.byteRate, 32))
    ensures ReadInt16(data, 32) == Some(Field(ig.blockAlign, 34))
    ensures ReadInt16(data, 34) == Some(Field(sd.bitDepth, 36))
  {
    var s1 := Ascii("fmt ");
    var s2 := s1 + Le32(ig.formatChunkSize);
    var s3 := s2 + Le16(ig.audioFormat);
    var s4 := s3 + Le16(sd.channelCount);
    var s5 := s4 + Le32(sd.sampleRate);
    var s6 := s5 + Le32(ig.byteRate);
    var s7 := s6 + Le16(ig.blockAlign);
    Split(data, 12, s7, Le16(sd.bitDepth));
    Split(data, 12, s6, Le16(ig.blockAlign));
    Split(data, 12, s5, Le32(ig.byteRate));
    Split(data, 12, s4, Le32(sd.sampleRate));
    Split(data, 12, s3, Le16(sd.channelCount));
    Split(data, 12, s2, Le16(ig.audioFormat));
    Split(data, 12, s1, Le32(ig.formatChunkSize));
    SignatureFrom(data, 12, "fmt ");
    Le32Reads(data, 16, ig.formatChunkSize);
    Le16Reads(data, 20, ig.audioFormat);
    Le16Reads(data, 22, sd.channelCount);
    Le32Reads(data, 24, sd.sampleRate);
    Le32Reads(data, 28, ig.byteRate);
    Le16Reads(data, 32, ig.blockAlign);
    Le16Reads(data, 34, sd.bitDepth);
  }

  lemma ReadsData(data: seq<byte>, sd: SoundData, ig: Ignored)
    requires Fits32(ig.dataChunkSize) && 36 <= |data| && data[36..] == DataChunk(sd, ig)
    ensures SignatureAt(data, 36, "data")
    ensures ReadInt32(data, 40) == Some(Field(ig.dataChunkSize, 44))
    ensures data[44..] == sd.samples
  {
    assert data[36..|data|] == data[36..];
    Split(data, 36, Ascii("data") + Le32(ig.dataChunkSize), sd.samples);
    Split(data, 36, Ascii("data"), Le32(ig.dataChunkSize));
    SignatureFrom(data, 36, "data");
    Le32Reads(data, 40, ig.dataChunkSize);
    assert data[44..] == data[44..|data|];
  }

  /** Round trip: LoadWave reads back what Encode wrote, whatever the ignored fields hold. */
  lemma LoadEncoded(sd: SoundData, ig: Ignored)
    requires Encodable(sd, ig)
    ensures LoadWave(Encode(sd, ig)) == Success(sd)
  {
    var data := Encode(sd, ig);
    assert data[..12] == RiffDescriptor(ig);
    assert data[12..36] == FormatChunk(sd, ig);
    assert data[36..] == DataChunk(sd, ig);
    ReadsDescriptor(data, ig);
    ReadsFormat(data, sd, ig);
    ReadsData(data, sd, ig);
  }

  // ---------------------------------------------------------------------------
  // OpenAL format (AudioSource.cs:21-33)
  // ---------------------------------------------------------------------------

  datatype ALFormat = Mono8 | Mono16 | Stereo8 | Stereo16

  /** GetALFormat: one of the four PCM formats, or None where the source throws NotImplementedException. */
  function GetALFormat(channelCount: int, bitDepth: int): (r: Option<ALFormat>)
    ensures r.Some? ==> Channels(r.value) == channelCount && Bits(r.value) == bitDepth
    ensures r.None? <==> !(channelCount in {1, 2} && bitDepth in {8, 16})
  {
    if channelCount == 1 && bitDepth == 8 then Some(Mono8)
    else if channelCount == 1 && bitDepth == 16 then Some(Mono16)
    else if channelCount == 2 && bitDepth == 8 then Some(Stereo8)
    else if channelCount == 2 && bitDepth == 16 then Some(Stereo16)
    else None
  }

  function Channels(f: ALFormat): int
  {
    if f == Mono8 || f == Mono16 then 1 else 2
  }

  function Bits(f: ALFormat): int
  {
    if f == Mono8 || f == Stereo8 then 8 else 16
  }

  /**
   * GetALFormat is the inverse of reading a format's channel count and bit
   * depth, and it throws for every other pair.
   */
  lemma GetALFormatInverse(channelCount: int, bitDepth: int, f: ALFormat)
    ensures GetALFormat(Channels(f), Bits(f)) == Some(f)
    ensures GetALFormat(channelCount, bitDepth) == Some(f) <==> channelCount == Channels(f) && bitDepth == Bits(f)
    ensures GetALFormat(channelCount, bitDepth).None? <==>
      !(channelCount in {1, 2} && bitDepth in {8, 16})
  {
  }

  // ---------------------------------------------------------------------------
  // LoadData (AudioSource.cs:100-113)
  // ---------------------------------------------------------------------------

  function IsSeparator(c: char): bool
  {
    c == '/' || c == '\\'
  }

  /** The index of the last '.' or separator in path[..n], if any. */
  function LastMark(path: string, n: nat): (r: Option<nat>)
    requires n <= |path|
    ensures r.Some? ==> r.value < n && (path[r.value] == '.' || IsSeparator(path[r.value]))
    ensures r.Some? ==> forall k :: r.value < k < n ==> path[k] != '.' && !IsSeparator(path[k])
    ensures r.None? ==> forall k :: 0 <= k < n ==> path[k] != '.' && !IsSeparator(path[k])
  {
    if n == 0 then None
    else if path[n - 1] == '.' || IsSeparator(path[n - 1]) then Some(n - 1)
    else LastMark(path, n - 1)
  }

  /**
   * Path.GetExtension: from the last '.' of the file name to the end, or
   * empty when the name has no '.' or ends with one.
   */
  function Extension(path: string): (ext: string)
    ensures ext == [] || (2 <= |ext| <= |path| && ext[0] == '.' && path[|path| - |ext|..] == ext)
    ensures forall k :: 1 <= k < |ext| ==> ext[k] != '.' && !IsSeparator(ext[k])
  {
    match LastMark(path, |path|)
    case Some(i) => if path[i] == '.' && i < |path| - 1 then path[i..] else ""
    case None => ""
  }

  /** A path has a given extension exactly when it ends with it. */
  lemma ExtensionIsSuffix(path: string, ext: string)
    requires |ext| >= 2 && ext[0] == '.'
    requires forall k :: 1 <= k < |ext| ==> ext[k] != '.' && !IsSeparator(ext[k])
    ensures Extension(path) == ext <==> |path| >= |ext| && path[|path| - |ext|..] == ext
  {
    var n := |path|;
    if |path| >= |ext| && path[n - |ext|..] == ext {
      assert forall k :: n - |ext| < k < n ==> path[k] == ext[k - (n - |ext|)];
      var m := LastMark(path, n);
      assert path[n - |ext|] == '.';
      assert m.Some? && m.value == n - |ext|;
    }
  }

  /** The decoder LoadData picks. */
  datatype Decoder = WaveDecoder | OggDecoder | NoDecoder

  function Dispatch(path: string): (d: Decoder)
  {
    if Extension(path) == ".wav" then WaveDecoder
    else if Extension(path) == ".ogg" then OggDecoder
    else NoDecoder
  }

  /** What LoadData returns for an unsupported extension (AudioSource.cs:112). */
  const Silence: SoundData := SoundData(1, 8, 10000, [])

  /**
   * LoadData: `contents` are the file's bytes and `loadOgg` the Vorbis
   * decoder, neither of which this model opens or decodes.
   */
  function LoadData(path: string, contents: seq<byte>, loadOgg: seq<byte> -> SoundData): (r: Result<SoundData, WaveError>)
    ensures Extension(path) == ".wav" ==> r == LoadWave(contents)
    ensures Extension(path) == ".ogg" ==> r == Success(loadOgg(contents))
    ensures Extension(path) !in {".wav", ".ogg"} ==> r == Success(Silence)
  {
    match Dispatch(path)
    case WaveDecoder => LoadWave(contents)
    case OggDecoder => Success(loadOgg(contents))
    case NoDecoder => Success(Silence)
  }

  /**
   * ".wav" files go to LoadWave, ".ogg" files to the Vorbis decoder, and any
   * other path yields one channel, 8 bits, 10000 Hz and no samples, a
   * format GetALFormat accepts.
   */
  lemma LoadDataDispatch(path: string, contents: seq<byte>, loadOgg: seq<byte> -> SoundData)
    ensures |path| >= 4 && path[|path| - 4..] == ".wav" ==> LoadData(path, contents, loadOgg) == LoadWave(contents)
    ensures |path| >= 4 && path[|path| - 4..] == ".ogg" ==> LoadData(path, contents, loadOgg) == Success(loadOgg(contents))
    ensures !(|path| >= 4 && path[|path| - 4..] in {".wav", ".ogg"}) ==> LoadData(path, contents, loadOgg) == Success(Silence)
    ensures GetALFormat(Silence.channelCount, Silence.bitDepth) == Some(Mono8)
  {
    ExtensionIsSuffix(path, ".wav");
    ExtensionIsSuffix(path, ".ogg");
    var wav := |path| >= 4 && path[|path| - 4..] == ".wav";
    var ogg := |path| >= 4 && path[|path| - 4..] == ".ogg";
    assert wav <==> Extension(path) == ".wav";
    assert ogg <==> Extension(path) == ".ogg";
  }
}
