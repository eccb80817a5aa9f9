/**
 * The canonical 44-byte PCM RIFF/WAVE header: decoding it from bytes
 * (`readHeader`), encoding it back, and the chain of checks that accepts or
 * rejects it (`validateHeader`).
 */
module WaveHeader {
  import opened Bytes
  import opened Results

  /** Size in bytes of the header read from the front of the stream. */
  const HeaderSize: nat := 44

  /** The four ASCII tags the header must carry, as raw bytes. */
  const RiffTag: seq<Byte> := [0x52, 0x49, 0x46, 0x46]  // "RIFF"
  const WaveTag: seq<Byte> := [0x57, 0x41, 0x56, 0x45]  // "WAVE"
  const FmtTag: seq<Byte> := [0x66, 0x6d, 0x74, 0x20]   // "fmt "
  const DataTag: seq<Byte> := [0x64, 0x61, 0x74, 0x61]  // "data"

  /** The header record: four tags and nine little-endian unsigned fields. */
  datatype Header = Header(
    chunkId: seq<Byte>,
    chunkSize: nat,
    format: seq<Byte>,
    subchunk1Id: seq<Byte>,
    subchunk1Size: nat,
    audioFormat: nat,
    numChannels: nat,
    sampleRate: nat,
    byteRate: nat,
    blockAlign: nat,
    bitsPerSample: nat,
    subchunk2Id: seq<Byte>,
    subchunk2Size: nat)

  /** Every tag is 4 bytes and every integer fits its 16- or 32-bit slot. */
  predicate WellFormed(h: Header)
  {
    |h.chunkId| == 4 && |h.format| == 4 && |h.subchunk1Id| == 4 && |h.subchunk2Id| == 4 &&
    h.chunkSize < 0x1_0000_0000 && h.subchunk1Size < 0x1_0000_0000 &&
    h.audioFormat < 0x1_0000 && h.numChannels < 0x1_0000 &&
    h.sampleRate < 0x1_0000_0000 && h.byteRate < 0x1_0000_0000 &&
    h.blockAlign < 0x1_0000 && h.bitsPerSample < 0x1_0000 &&
    h.subchunk2Size < 0x1_0000_0000
  }

  /**
   * `readHeader`: decode the header from the bytes returned by `read(44)`.
   * A read that yields fewer than 44 bytes makes the source throw; here it is None.
   */
  function ReadHeader(b: seq<Byte>): (r: Option<Header>)
    ensures r.None? <==> |b| < HeaderSize
    ensures r.Some? ==> WellFormed(r.value)
    ensures r.Some? ==>
      r.value.chunkId == b[0..4] && r.value.format == b[8..12] &&
      r.value.subchunk1Id == b[12..16] && r.value.subchunk2Id == b[36..40]
    ensures r.Some? ==>
      r.value.chunkSize == LittleEndian(b[4..8]) &&
      r.value.subchunk1Size == LittleEndian(b[16..20]) &&
      r.value.audioFormat == LittleEndian(b[20..22]) &&
      r.value.numChannels == LittleEndian(b[22..24]) &&
      r.value.sampleRate == LittleEndian(b[24..28]) &&
      r.value.byteRate == LittleEndian(b[28..32]) &&
      r.value.blockAlign == LittleEndian(b[32..34]) &&
      r.value.bitsPerSample == LittleEndian(b[34..36]) &&
      r.value.subchunk2Size == LittleEndian(b[40..44])
  {
    if |b| < HeaderSize then None
    else
      Some(Header(
        b[0..4],
        ReadUInt32LE(b, 4),
        b[8..12],
        b[12..16],
        ReadUInt32LE(b, 16),
        ReadUInt16LE(b, 20),
        ReadUInt16LE(b, 22),
        ReadUInt32LE(b, 24),
        ReadUInt32LE(b, 28),
        ReadUInt16LE(b, 32),
        ReadUInt16LE(b, 34),
        b[36..40],
        ReadUInt32LE(b, 40)))
  }

  /** The 44 bytes of a header in the layout `ReadHeader` decodes. */
  function Encode(h: Header): (b: seq<Byte>)
    requires WellFormed(h)
    ensures |b| == HeaderSize
  {
    RiffPart(h) + FmtPart(h) + DataPart(h)
  }

  /** Bytes 0..12: the RIFF chunk descriptor (tag, chunk size, format). */
  function RiffPart(h: Header): seq<Byte>
    requires WellFormed(h)
  {
    h.chunkId + ToLittleEndian(h.chunkSize, 4) + h.format
  }

  /** Bytes 12..36: the "fmt " subchunk. */
  function FmtPart(h: Header): seq<Byte>
    requires WellFormed(h)
  {
    h.subchunk1Id + ToLittleEndian(h.subchunk1Size, 4) +
    ToLittleEndian(h.audioFormat, 2) + ToLittleEndian(h.numChannels, 2) +
    ToLittleEndian(h.sampleRate, 4) + ToLittleEndian(h.byteRate, 4) +
    ToLittleEndian(h.blockAlign, 2) + ToLittleEndian(h.bitsPerSample, 2)
  }

  /** Bytes 36..44: the "data" subchunk header. */
  function DataPart(h: Header): seq<Byte>
    requires WellFormed(h)
  {
    h.subchunk2Id + ToLittleEndian(h.subchunk2Size, 4)
  }

  /** Where each field of the RIFF chunk descriptor lies in the encoding. */
  lemma EncodeRiffLayout(h: Header)
    requires WellFormed(h)
    ensures Encode(h)[0..4] == h.chunkId
    ensures Encode(h)[4..8] == ToLittleEndian(h.chunkSize, 4)
    ensures Encode(h)[8..12] == h.format
  {
    var b := Encode(h);
    var r := RiffPart(h);
    assert b[0..12] == r;
    assert b[0..4] == r[0..4];
    assert b[4..8] == r[4..8];
    assert b[8..12] == r[8..12];
  }

  /** Where each field of the "fmt " subchunk lies in the encoding. */
  lemma EncodeFmtLayout(h: Header)
    requires WellFormed(h)
    ensures Encode(h)[12..16] == h.subchunk1Id
    ensures Encode(h)[16..20] == ToLittleEndian(h.subchunk1Size, 4)
    ensures Encode(h)[20..22] == ToLittleEndian(h.audioFormat, 2)
    ensures Encode(h)[22..24] == ToLittleEndian(h.numChannels, 2)
    ensures Encode(h)[24..28] == ToLittleEndian(h.sampleRate, 4)
    ensures Encode(h)[28..32] == ToLittleEndian(h.byteRate, 4)
    ensures Encode(h)[32..34] == ToLittleEndian(h.blockAlign, 2)
    ensures Encode(h)[34..36] == ToLittleEndian(h.bitsPerSample, 2)
  {
    var b := Encode(h);
    var f := FmtPart(h);
    assert b[12..36] == f;
    assert b[12..16] == f[0..4];
    assert b[16..20] == f[4..8];
    assert b[20..22] == f[8..10];
    assert b[22..24] == f[10..12];
    assert b[24..28] == f[12..16];
    assert b[28..32] == f[16..20];
    assert b[32..34] == f[20..22];
    assert b[34..36] == f[22..24];
  }

  /** Where each field of the "data" subchunk header lies in the encoding. */
  lemma EncodeDataLayout(h: Header)
    requires WellFormed(h)
    ensures Encode(h)[36..40] == h.subchunk2Id
    ensures Encode(h)[40..44] == ToLittleEndian(h.subchunk2Size, 4)
  {
    var b := Encode(h);
    var d := DataPart(h);
    assert b[36..44] == d;
    assert b[36..40] == d[0..4];
    assert b[40..44] == d[4..8];
  }

  /** Encoding a header and decoding it again returns the same record. */
  lemma EncodeThenRead(h: Header)
    requires WellFormed(h)
    ensures ReadHeader(Encode(h)) == Some(h)
  {
    EncodeRiffLayout(h);
    EncodeFmtLayout(h);
    EncodeDataLayout(h);
    LittleEndianOfTo(h.chunkSize, 4);
    LittleEndianOfTo(h.subchunk1Size, 4);
    LittleEndianOfTo(h.audioFormat, 2);
    LittleEndianOfTo(h.numChannels, 2);
    LittleEndianOfTo(h.sampleRate, 4);
    LittleEndianOfTo(h.byteRate, 4);
    LittleEndianOfTo(h.blockAlign, 2);
    LittleEndianOfTo(h.bitsPerSample, 2);
    LittleEndianOfTo(h.subchunk2Size, 4);
  }

  /** Decoding 44 bytes and encoding the record again gives the same bytes. */
  lemma ReadThenEncode(b: seq<Byte>)
    requires |b| == HeaderSize
    ensures ReadHeader(b).Some? && Encode(ReadHeader(b).value) == b
  {
    ToOfLittleEndian(b[4..8]);
    ToOfLittleEndian(b[16..20]);
    ToOfLittleEndian(b[20..22]);
    ToOfLittleEndian(b[22..24]);
    ToOfLittleEndian(b[24..28]);
    ToOfLittleEndian(b[28..32]);
    ToOfLittleEndian(b[32..34]);
    ToOfLittleEndian(b[34..36]);
    ToOfLittleEndian(b[40..44]);
    var h := ReadHeader(b).value;
    assert RiffPart(h) == b[0..12] by {
      assert b[0..12] == b[0..4] + b[4..8] + b[8..12];
    }
    assert FmtPart(h) == b[12..36] by {
      assert b[12..36] == b[12..16] + b[16..20] + b[20..22] + b[22..24]
        + b[24..28] + b[28..32] + b[32..34] + b[34..36];
    }
    assert DataPart(h) == b[36..44] by {
      assert b[36..44] == b[36..40] + b[40..44];
    }
    assert b == b[0..12] + b[12..36] + b[36..44];
  }

  /** The errors `validateHeader` throws, one per check. */
  datatype HeaderError =
    | ChunkIdNotRiff
    | FormatNotWave
    | Subchunk1IdNotFmt
    | Subchunk2IdNotData
    | UnsupportedBitDepth

  /** The position of each check in the order `validateHeader` runs them. */
  function Rank(e: HeaderError): nat
  {
    match e
    case ChunkIdNotRiff => 0
    case FormatNotWave => 1
    case Subchunk1IdNotFmt => 2
    case Subchunk2IdNotData => 3
    case UnsupportedBitDepth => 4
  }

  /** Whether `h` violates the check that reports `e`. */
  predicate Violates(h: Header, e: HeaderError)
  {
    match e
    case ChunkIdNotRiff => h.chunkId != RiffTag
    case FormatNotWave => h.format != WaveTag
    case Subchunk1IdNotFmt => h.subchunk1Id != FmtTag
    case Subchunk2IdNotData => h.subchunk2Id != DataTag
    case UnsupportedBitDepth => h.bitsPerSample != 8 && h.bitsPerSample != 16
  }

  /** A header this program accepts: the four tags and a bit depth of 8 or 16. */
  predicate Supported(h: Header)
  {
    h.chunkId == RiffTag && h.format == WaveTag && h.subchunk1Id == FmtTag &&
    h.subchunk2Id == DataTag && (h.bitsPerSample == 8 || h.bitsPerSample == 16)
  }

  /**
   * `validateHeader`: passes exactly on supported headers; otherwise fails
   * with the error of the first check, in source order, that `h` violates.
   */
  function ValidateHeader(h: Header): (r: Outcome<HeaderError>)
    ensures r.Pass? <==> Supported(h)
    ensures r.Fail? ==> Violates(h, r.error)
    ensures r.Fail? ==> forall e :: Rank(e) < Rank(r.error) ==> !Violates(h, e)
  {
    if h.chunkId != RiffTag then Fail(ChunkIdNotRiff)
    else if h.format != WaveTag then Fail(FormatNotWave)
    else if h.subchunk1Id != FmtTag then Fail(Subchunk1IdNotFmt)
    else if h.subchunk2Id != DataTag then Fail(Subchunk2IdNotData)
    else if h.bitsPerSample != 8 && h.bitsPerSample != 16 then Fail(UnsupportedBitDepth)
    else Pass
  }

  /** Why the header step of the `readable` handler stops the program. */
  datatype HeaderFailure = TruncatedHeader | Invalid(error: HeaderError)

  /** The header step of the `readable` handler: decode, then validate. */
  function ParseHeader(b: seq<Byte>): (r: Outcome<HeaderFailure>)
    ensures r.Pass? <==> |b| >= HeaderSize && Supported(ReadHeader(b).value)
  {
    match ReadHeader(b)
    case None => Fail(TruncatedHeader)
    case Some(h) =>
      match ValidateHeader(h)
      case Pass => Pass
      case Fail(e) => Fail(Invalid(e))
  }

  /** An encoded header passes the header step exactly when it is supported. */
  lemma EncodedHeaderAccepted(h: Header)
    requires WellFormed(h)
    ensures ParseHeader(Encode(h)).Pass? <==> Supported(h)
    ensures !Supported(h) ==> ParseHeader(Encode(h)) == Fail(Invalid(ValidateHeader(h).error))
  {
    EncodeThenRead(h);
  }

  /**
   * Replacing one tag of a supported header by any other 4 bytes makes the
   * header step fail with exactly that tag's error.
   */
  lemma {:induction false} WrongTagReported(h: Header, t: seq<Byte>)
    requires WellFormed(h) && Supported(h) && |t| == 4
    ensures t != RiffTag ==> ParseHeader(Encode(h.(chunkId := t))) == Fail(Invalid(ChunkIdNotRiff))
    ensures t != WaveTag ==> ParseHeader(Encode(h.(format := t))) == Fail(Invalid(FormatNotWave))
    ensures t != FmtTag ==> ParseHeader(Encode(h.(subchunk1Id := t))) == Fail(Invalid(Subchunk1IdNotFmt))
    ensures t != DataTag ==> ParseHeader(Encode(h.(subchunk2Id := t))) == Fail(Invalid(Subchunk2IdNotData))
  {
    EncodeThenRead(h.(chunkId := t));
    EncodeThenRead(h.(format := t));
    EncodeThenRead(h.(subchunk1Id := t));
    EncodeThenRead(h.(subchunk2Id := t));
  }
}
