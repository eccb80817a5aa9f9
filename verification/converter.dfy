/**
 * The converter's shared state and its two stream handlers. The `readable`
 * handler reads and validates the header once, then pushes every decoded
 * sample of every available buffer through the block accumulator; the
 * `end` handler closes the path and appends the mirrored back path.
 *
 * Stream reads are given as parameters: `headerBytes` is what `read(44)`
 * returns on the first event, and `buffers` are the successive non-null
 * results of `read(2048 * blockAlign)` in one event.
 */
module Converter {
  import opened Bytes
  import opened Results
  import opened WaveHeader
  import opened Samples
  import opened Geometry
  import opened Blocks

  /** `bitsPerSample / 8` of a supported header. */
  function BytesPerSample(h: Header): (bps: nat)
    requires Supported(h)
    ensures bps == 1 || bps == 2
    ensures 8 * bps == h.bitsPerSample
  {
    h.bitsPerSample / 8
  }

  /** `samplesPerSvgBlock` of a supported header. */
  function BlockSize(h: Header): nat
    requires Supported(h)
  {
    SamplesPerBlock(h.subchunk2Size, BytesPerSample(h))
  }

  /** The accumulator state after the buffers are pushed one after another, each in one pass of the sample loop. */
  function FeedBuffers(st: Acc, buffers: seq<seq<Byte>>, bytesPerSample: nat, size: nat, level: seq<int> -> int): Acc
    requires bytesPerSample == 1 || bytesPerSample == 2
    requires Aligned(buffers, bytesPerSample)
  {
    if buffers == [] then st
    else
      PushAll(FeedBuffers(st, buffers[..|buffers| - 1], bytesPerSample, size, level),
              DecodeSamples(buffers[|buffers| - 1], bytesPerSample), size, level)
  }

  /**
   * Read boundaries do not matter: feeding the buffers one by one gives the
   * state of feeding all their bytes in a single read.
   */
  lemma {:induction false} FeedBuffersIsOneRead(st: Acc, buffers: seq<seq<Byte>>, bytesPerSample: nat, size: nat,
                                               level: seq<int> -> int)
    requires bytesPerSample == 1 || bytesPerSample == 2
    requires Aligned(buffers, bytesPerSample)
    ensures |Flatten(buffers)| % bytesPerSample == 0
    ensures FeedBuffers(st, buffers, bytesPerSample, size, level)
         == PushAll(st, DecodeSamples(Flatten(buffers), bytesPerSample), size, level)
  {
    FlattenAligned(buffers, bytesPerSample);
    if buffers != [] {
      var init, last := buffers[..|buffers| - 1], buffers[|buffers| - 1];
      FeedBuffersIsOneRead(st, init, bytesPerSample, size, level);
      DecodeConcat(Flatten(init), last, bytesPerSample);
      PushAllConcat(st, DecodeSamples(Flatten(init), bytesPerSample), DecodeSamples(last, bytesPerSample), size, level);
    }
  }

  /** Feeding buffers after the bytes `stream` gives the state of one read of `stream` followed by all their bytes. */
  lemma FeedAfterStream(st: Acc, stream: seq<Byte>, buffers: seq<seq<Byte>>, bytesPerSample: nat, size: nat,
                        level: seq<int> -> int)
    requires bytesPerSample == 1 || bytesPerSample == 2
    requires |stream| % bytesPerSample == 0 && Aligned(buffers, bytesPerSample)
    requires st == PushAll(Initial, DecodeSamples(stream, bytesPerSample), size, level)
    ensures |stream + Flatten(buffers)| % bytesPerSample == 0
    ensures FeedBuffers(st, buffers, bytesPerSample, size, level)
         == PushAll(Initial, DecodeSamples(stream + Flatten(buffers), bytesPerSample), size, level)
  {
    FeedBuffersIsOneRead(st, buffers, bytesPerSample, size, level);
    DecodeConcat(stream, Flatten(buffers), bytesPerSample);
    PushAllConcat(Initial, DecodeSamples(stream, bytesPerSample), DecodeSamples(Flatten(buffers), bytesPerSample),
                  size, level);
  }

  /** Feeding one more buffer is one more pass of the read loop. */
  lemma FeedBuffersStep(st: Acc, buffers: seq<seq<Byte>>, i: nat, bytesPerSample: nat, size: nat,
                        level: seq<int> -> int)
    requires bytesPerSample == 1 || bytesPerSample == 2
    requires i < |buffers| && Aligned(buffers, bytesPerSample)
    ensures Aligned(buffers[..i], bytesPerSample) && Aligned(buffers[..i + 1], bytesPerSample)
    ensures FeedBuffers(st, buffers[..i + 1], bytesPerSample, size, level)
         == PushAll(FeedBuffers(st, buffers[..i], bytesPerSample, size, level),
                    DecodeSamples(buffers[i], bytesPerSample), size, level)
    ensures Flatten(buffers[..i + 1]) == Flatten(buffers[..i]) + buffers[i]
  {
    assert buffers[..i + 1][..i] == buffers[..i];
  }

  class WaveformConverter {
    /** The height of the point a block records, as a function of its samples (floating point in the source). */
    const level: seq<int> -> int
    /** `header`: unset until the first `readable` event. */
    var header: Option<Header>
    /** Set when the process has stopped on a bad header. */
    var exited: bool
    var accumulator: seq<int>
    /** `svgBlockIndex`: the number of closed blocks. */
    var blockIndex: nat
    var bytesReadFromStream: nat
    /** `svgPathPoints`: the recorded forward points. */
    var points: seq<Point>
    /** The vertices written into `svgResult` so far. */
    var path: seq<Point>
    /** Set once the `end` handler has run. */
    var ended: bool
    /** Every sample byte consumed so far, in order. */
    ghost var stream: seq<Byte>

    /** The accumulator fields as one value. */
    function State(): Acc
      reads this
    {
      Acc(accumulator, blockIndex, points)
    }

    /**
     * The state is determined by the bytes consumed, however they were split
     * into reads; the byte count is their number; the path is the start
     * vertex and the points, or the whole outline once the stream has ended.
     */
    ghost predicate Valid()
      reads this
    {
      (if ended then path == Outline(points) else path == [PathStart()] + points) &&
      bytesReadFromStream == |stream| &&
      (header.None? ==> stream == [] && State() == Initial) &&
      (header.Some? && !exited ==>
         Supported(header.value) &&
         |stream| % BytesPerSample(header.value) == 0 &&
         State() == PushAll(Initial, DecodeSamples(stream, BytesPerSample(header.value)),
                            BlockSize(header.value), level))
    }

    /** The module-level initial values; the path starts at `M 0 250`. */
    constructor (level: seq<int> -> int)
      ensures Valid() && this.level == level
      ensures header.None? && !exited && !ended
      ensures State() == Initial && bytesReadFromStream == 0 && path == [PathStart()]
    {
      this.level := level;
      header := None;
      exited := false;
      accumulator := [];
      blockIndex := 0;
      bytesReadFromStream := 0;
      points := [];
      path := [PathStart()];
      ended := false;
      stream := [];
    }

    /** `getSvgPathPoint`: record the point of block `index` and append it to the path. */
    method RecordPoint(index: nat, y: int)
      modifies this`points, this`path
      ensures points == old(points) + [PathPoint(index, y)]
      ensures path == old(path) + [PathPoint(index, y)]
    {
      var p := Point(index * PointsPerSample, y);
      points := points + [p];
      path := path + [p];
    }

    /**
     * The `readable` handler. On the first event the header is decoded and
     * validated; a failure stops the program with that failure. Then every
     * buffer's samples go through the accumulator, and the byte count grows
     * by the buffer lengths.
     */
    method OnReadable(headerBytes: seq<Byte>, buffers: seq<seq<Byte>>) returns (outcome: Outcome<HeaderFailure>)
      requires Valid() && !exited && !ended
      requires header.None? && ParseHeader(headerBytes).Pass? ==>
        Aligned(buffers, BytesPerSample(ReadHeader(headerBytes).value))
      requires header.Some? ==> Aligned(buffers, BytesPerSample(header.value))
      modifies this
      ensures Valid() && !ended
      ensures old(header).None? ==> outcome == ParseHeader(headerBytes)
      ensures old(header).Some? ==> outcome.Pass? && header == old(header)
      ensures outcome.Fail? ==> exited && State() == old(State()) && stream == old(stream)
      ensures outcome.Pass? ==>
        !exited && header.Some? &&
        (old(header).None? ==> header == ReadHeader(headerBytes)) &&
        Supported(header.value) &&
        stream == old(stream) + Flatten(buffers) &&
        State() == FeedBuffers(old(State()), buffers, BytesPerSample(header.value), BlockSize(header.value), level)
    {
      if header.None? {
        outcome := ReceiveHeader(headerBytes);
        if outcome.Fail? {
          return;
        }
      }
      var bps := BytesPerSample(header.value);
      var size := BlockSize(header.value);
      ghost var start, startStream := State(), stream;
      ConsumeBuffers(buffers, bps, size);
      FeedAfterStream(start, startStream, buffers, bps, size, level);
      outcome := Pass;
    }

    /**
     * The `if (!header)` step of the `readable` handler: decode the header,
     * keep it, and stop the program if it fails validation.
     */
    method ReceiveHeader(headerBytes: seq<Byte>) returns (outcome: Outcome<HeaderFailure>)
      requires Valid() && header.None? && !exited && !ended
      modifies this`header, this`exited
      ensures Valid()
      ensures outcome == ParseHeader(headerBytes)
      ensures outcome.Fail? <==> exited
      ensures outcome.Pass? ==> header == ReadHeader(headerBytes)
    {
      var decoded := ReadHeader(headerBytes);
      if decoded.None? {
        exited := true;
        return Fail(TruncatedHeader);
      }
      header := decoded;
      var check := ValidateHeader(decoded.value);
      if check.Fail? {
        exited := true;
        return Fail(Invalid(check.error));
      }
      outcome := Pass;
    }

    /**
     * The `while ((buffer = read(...)) !== null)` loop of the `readable`
     * handler, over the buffers that one event delivers.
     */
    method ConsumeBuffers(buffers: seq<seq<Byte>>, bps: nat, size: nat)
      requires bps == 1 || bps == 2
      requires Aligned(buffers, bps)
      requires path == [PathStart()] + points && bytesReadFromStream == |stream|
      modifies this`accumulator, this`blockIndex, this`points, this`path, this`bytesReadFromStream, this`stream
      ensures path == [PathStart()] + points && bytesReadFromStream == |stream|
      ensures stream == old(stream) + Flatten(buffers)
      ensures State() == FeedBuffers(old(State()), buffers, bps, size, level)
    {
      ghost var start, startStream := State(), stream;
      var i := 0;
      while i < |buffers|
        invariant 0 <= i <= |buffers|
        invariant path == [PathStart()] + points
        invariant bytesReadFromStream == |stream|
        invariant stream == startStream + Flatten(buffers[..i])
        invariant Aligned(buffers[..i], bps)
        invariant State() == FeedBuffers(start, buffers[..i], bps, size, level)
      {
        var buffer := buffers[i];
        FeedBuffersStep(start, buffers, i, bps, size, level);
        ProcessBuffer(buffer, bps, size);
        stream := stream + buffer;
        i := i + 1;
      }
      assert buffers[..i] == buffers;
    }

    /**
     * One pass of the `while` loop of the `readable` handler: count the
     * buffer's bytes, then push each of its samples in order, closing a block
     * (and recording its point, for every block but the first) whenever the
     * accumulator reaches `size` samples.
     */
    method ProcessBuffer(buffer: seq<Byte>, bps: nat, size: nat)
      requires bps == 1 || bps == 2
      requires |buffer| % bps == 0
      requires path == [PathStart()] + points
      modifies this`accumulator, this`blockIndex, this`points, this`path, this`bytesReadFromStream
      ensures path == [PathStart()] + points
      ensures bytesReadFromStream == old(bytesReadFromStream) + |buffer|
      ensures State() == PushAll(old(State()), DecodeSamples(buffer, bps), size, level)
    {
      bytesReadFromStream := bytesReadFromStream + |buffer|;
      ghost var samples := DecodeSamples(buffer, bps);
      var sampleIndex := 0;
      while sampleIndex < |buffer| / bps
        invariant 0 <= sampleIndex <= |buffer| / bps == |samples|
        invariant bytesReadFromStream == old(bytesReadFromStream) + |buffer|
        invariant path == [PathStart()] + points
        invariant State() == PushAll(old(State()), samples[..sampleIndex], size, level)
      {
        var offset := sampleIndex * bps;
        var value := SampleOf(buffer[offset..offset + bps]);
        DecodeSamplesAt(buffer, bps, sampleIndex);
        PushAllSnoc(old(State()), samples[..sampleIndex], value, size, level);
        assert samples[..sampleIndex + 1] == samples[..sampleIndex] + [value];
        PushSample(value, size);
        sampleIndex := sampleIndex + 1;
      }
      assert samples[..sampleIndex] == samples;
    }

    /**
     * The body of the sample loop: push one sample; when the accumulator
     * reaches `size` samples, record a point unless this is block 0, count
     * the block and empty the accumulator.
     */
    method PushSample(value: int, size: nat)
      requires path == [PathStart()] + points
      modifies this`accumulator, this`blockIndex, this`points, this`path
      ensures path == [PathStart()] + points
      ensures State() == Push(old(State()), value, size, level)
    {
      accumulator := accumulator + [value];
      if |accumulator| == size {
        if blockIndex > 0 {
          RecordPoint(blockIndex, level(accumulator));
        }
        blockIndex := blockIndex + 1;
        accumulator := [];
      }
    }

    /** `getSvgBackPath`: walk the recorded points from the last to the first, mirroring each. */
    method GetBackPath() returns (back: seq<Point>)
      ensures back == BackPath(points)
    {
      back := [];
      var i := |points| - 1;
      while i >= 0
        invariant -1 <= i < |points|
        invariant back == BackPath(points[i + 1..])
      {
        assert points[i..][1..] == points[i + 1..];
        back := back + [Point(points[i].x, Middle + (Middle - points[i].y))];
        i := i - 1;
      }
      assert points[0..] == points;
    }

    /** The `end` handler: append the closing vertex and the back path; the path is then the whole outline. */
    method OnEnd() returns (outline: seq<Point>)
      requires Valid() && !exited && !ended
      modifies this`path, this`ended
      ensures Valid() && ended
      ensures outline == path == Outline(points)
    {
      path := path + [PathLastPoint()];
      var back := GetBackPath();
      path := path + back;
      ended := true;
      outline := path;
    }
  }
}
