/**
 * Decoding the sample payload: the signed 16-bit little-endian values the
 * sample loop reads, both as the loop is written (a `readInt16LE` at every
 * `bytesPerSample` bytes) and with every sample taken from its own bytes.
 */
module Samples {
  import opened Bytes
  import opened Results

  /** `readInt16LE` of the pair (lo, hi): the two's-complement value of the 16-bit word. */
  function Int16(lo: Byte, hi: Byte): (v: int)
    ensures -0x8000 <= v < 0x8000
    ensures v % 0x1_0000 == LittleEndian([lo, hi])
  {
    var u := lo as int + 0x100 * hi as int;
    if u >= 0x8000 then u - 0x1_0000 else u
  }

  /** `buf.readInt16LE(offset)`; None where Node throws a RangeError (fewer than two bytes left). */
  function ReadInt16LE(buf: seq<Byte>, offset: nat): (r: Option<int>)
    ensures r.Some? <==> offset + 2 <= |buf|
    ensures r.Some? ==> -0x8000 <= r.value < 0x8000
    ensures r.Some? ==> r.value % 0x1_0000 == LittleEndian(buf[offset..offset + 2])
  {
    if offset + 2 <= |buf| then Some(Int16(buf[offset], buf[offset + 1])) else None
  }

  /**
   * How many times `for (sampleIndex = 0; sampleIndex < buffer.length / bytesPerSample; ...)`
   * runs: the bound is a real quotient, so a partial last sample still gets a pass.
   */
  function LoopCount(len: nat, bytesPerSample: nat): (n: nat)
    requires bytesPerSample == 1 || bytesPerSample == 2
    ensures n * bytesPerSample >= len
    ensures n == 0 || (n - 1) * bytesPerSample < len
  {
    (len + bytesPerSample - 1) / bytesPerSample
  }

  /** What the sample loop, as written, reads from one buffer: a 16-bit read at each `sampleIndex * bytesPerSample`. */
  function AsWrittenReads(buf: seq<Byte>, bytesPerSample: nat): (r: seq<Option<int>>)
    requires bytesPerSample == 1 || bytesPerSample == 2
  {
    seq(LoopCount(|buf|, bytesPerSample), k requires 0 <= k => ReadInt16LE(buf, k * bytesPerSample))
  }

  /**
   * With 8-bit audio (`bytesPerSample` 1), which the header check accepts, the
   * loop reads one 16-bit word per byte, and its last read of every non-empty
   * buffer runs past the end, where Node throws.
   */
  lemma EightBitLastReadThrows(buf: seq<Byte>)
    requires |buf| > 0
    ensures |AsWrittenReads(buf, 1)| == |buf|
    ensures AsWrittenReads(buf, 1)[|buf| - 1] == None
    ensures forall k :: 0 <= k < |buf| - 1 ==> AsWrittenReads(buf, 1)[k] == Some(Int16(buf[k], buf[k + 1]))
  {
  }

  /** Two silent 8-bit samples (0x80, 0x80): the first read yields -32640, near full scale, and the second throws. */
  lemma EightBitSilenceExample()
    ensures AsWrittenReads([0x80, 0x80], 1) == [Some(-32640), None]
  {
    assert Int16(0x80, 0x80) == -32640;
  }

  /**
   * One sample from exactly its own bytes: signed 16-bit little-endian for
   * 16-bit audio, unsigned 8-bit re-centred on 128 for 8-bit audio.
   */
  function SampleOf(frame: seq<Byte>): (v: int)
    requires |frame| == 1 || |frame| == 2
    ensures |frame| == 1 ==> -0x80 <= v < 0x80 && v + 0x80 == frame[0]
    ensures |frame| == 2 ==> -0x8000 <= v < 0x8000 && v % 0x1_0000 == LittleEndian(frame)
  {
    if |frame| == 2 then
      assert frame == [frame[0], frame[1]];
      Int16(frame[0], frame[1])
    else
      frame[0] as int - 0x80
  }

  /** The samples of a buffer whose length is a multiple of `bytesPerSample`, each decoded from its own bytes. */
  function DecodeSamples(buf: seq<Byte>, bytesPerSample: nat): (s: seq<int>)
    requires bytesPerSample == 1 || bytesPerSample == 2
    requires |buf| % bytesPerSample == 0
    ensures |s| * bytesPerSample == |buf|
    decreases |buf|
  {
    if |buf| == 0 then []
    else [SampleOf(buf[..bytesPerSample])] + DecodeSamples(buf[bytesPerSample..], bytesPerSample)
  }

  /** Sample k of a buffer is decoded from bytes k * bytesPerSample up to (k + 1) * bytesPerSample, and from nothing else. */
  lemma {:induction false} DecodeSamplesAt(buf: seq<Byte>, bytesPerSample: nat, k: nat)
    requires bytesPerSample == 1 || bytesPerSample == 2
    requires |buf| % bytesPerSample == 0
    requires k < |DecodeSamples(buf, bytesPerSample)|
    ensures k * bytesPerSample + bytesPerSample <= |buf|
    ensures DecodeSamples(buf, bytesPerSample)[k]
         == SampleOf(buf[k * bytesPerSample..k * bytesPerSample + bytesPerSample])
    decreases k
  {
    if k > 0 {
      var rest := buf[bytesPerSample..];
      DecodeSamplesAt(rest, bytesPerSample, k - 1);
      var lo := (k - 1) * bytesPerSample;
      assert lo + bytesPerSample == k * bytesPerSample;
      assert rest[lo..lo + bytesPerSample] == buf[k * bytesPerSample..k * bytesPerSample + bytesPerSample];
    }
  }

  /** For 16-bit audio and an even buffer, the corrected decoder reads exactly what the loop as written reads. */
  lemma SixteenBitAgreesWithAsWritten(buf: seq<Byte>)
    requires |buf| % 2 == 0
    ensures |AsWrittenReads(buf, 2)| == |DecodeSamples(buf, 2)|
    ensures forall k :: 0 <= k < |DecodeSamples(buf, 2)| ==>
      AsWrittenReads(buf, 2)[k] == Some(DecodeSamples(buf, 2)[k])
  {
    var s := DecodeSamples(buf, 2);
    forall k | 0 <= k < |s|
      ensures AsWrittenReads(buf, 2)[k] == Some(s[k])
    {
      DecodeSamplesAt(buf, 2, k);
      var frame := buf[2 * k..2 * k + 2];
      assert frame == [buf[2 * k], buf[2 * k + 1]];
    }
  }

  /** Decoding is independent of where a buffer is cut, as long as the cut falls on a sample boundary. */
  lemma {:induction false} DecodeConcat(a: seq<Byte>, b: seq<Byte>, bytesPerSample: nat)
    requires bytesPerSample == 1 || bytesPerSample == 2
    requires |a| % bytesPerSample == 0 && |b| % bytesPerSample == 0
    ensures |a + b| % bytesPerSample == 0
    ensures DecodeSamples(a + b, bytesPerSample)
         == DecodeSamples(a, bytesPerSample) + DecodeSamples(b, bytesPerSample)
    decreases |a|
  {
    var ab := a + b;
    if |a| > 0 {
      var tail := a[bytesPerSample..];
      assert |tail| % bytesPerSample == 0 && |ab| % bytesPerSample == 0;
      assert ab[..bytesPerSample] == a[..bytesPerSample];
      assert ab[bytesPerSample..] == tail + b;
      DecodeConcat(tail, b, bytesPerSample);
      assert DecodeSamples(ab, bytesPerSample)
          == [SampleOf(a[..bytesPerSample])] + DecodeSamples(tail + b, bytesPerSample);
    } else {
      assert ab == b;
    }
  }

  /** All bytes of a sequence of reads, in order. */
  function Flatten(buffers: seq<seq<Byte>>): seq<Byte>
  {
    if buffers == [] then [] else Flatten(buffers[..|buffers| - 1]) + buffers[|buffers| - 1]
  }

  /** Every read ends on a sample boundary. */
  predicate Aligned(buffers: seq<seq<Byte>>, bytesPerSample: nat)
    requires bytesPerSample == 1 || bytesPerSample == 2
  {
    forall i :: 0 <= i < |buffers| ==> |buffers[i]| % bytesPerSample == 0
  }

  /** Reads that each end on a sample boundary concatenate to bytes that end on one too. */
  lemma {:induction false} FlattenAligned(buffers: seq<seq<Byte>>, bytesPerSample: nat)
    requires bytesPerSample == 1 || bytesPerSample == 2
    requires Aligned(buffers, bytesPerSample)
    ensures |Flatten(buffers)| % bytesPerSample == 0
  {
    if buffers != [] {
      FlattenAligned(buffers[..|buffers| - 1], bytesPerSample);
    }
  }
}
