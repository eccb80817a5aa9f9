/**
 * The block accumulator of the `readable` handler, as values: each decoded
 * sample is pushed onto the accumulator; when the accumulator holds
 * `samplesPerSvgBlock` samples the block closes, every block after the first
 * records one path point, and the accumulator is emptied.
 *
 * Samples are the raw integers; the height of a block's point, which the
 * source computes in floating point from the block's average, is the opaque
 * function `level` of the block's samples.
 */
module Blocks {
  import opened Geometry

  /** The accumulator state: `accumulator`, `svgBlockIndex` and `svgPathPoints`. */
  datatype Acc = Acc(accumulator: seq<int>, blockIndex: nat, points: seq<Point>)

  /** The state before the first sample. */
  const Initial: Acc := Acc([], 0, [])

  /** Blocks across the output: `outputWidth / svgPointsPerSample`. */
  const PointsAcross: nat := 600

  /**
   * `samplesPerSvgBlock = Math.round(samplesTotal / 600)` with
   * `samplesTotal = subchunk2Size / bytesPerSample`: the integer nearest to
   * dataSize / (600 * bytesPerSample), halves rounded up.
   */
  function SamplesPerBlock(dataSize: nat, bytesPerSample: nat): (size: nat)
    requires bytesPerSample == 1 || bytesPerSample == 2
    ensures 2 * PointsAcross * bytesPerSample * size <= 2 * dataSize + PointsAcross * bytesPerSample
    ensures 2 * dataSize + PointsAcross * bytesPerSample < 2 * PointsAcross * bytesPerSample * (size + 1)
  {
    (2 * dataSize + PointsAcross * bytesPerSample) / (2 * PointsAcross * bytesPerSample)
  }

  /** The block size is 0 exactly when the data holds fewer than 300 samples. */
  lemma ZeroBlockSize(dataSize: nat, bytesPerSample: nat)
    requires bytesPerSample == 1 || bytesPerSample == 2
    ensures SamplesPerBlock(dataSize, bytesPerSample) == 0 <==> dataSize < 300 * bytesPerSample
  {
  }

  /** One pass of the sample loop body: push `x`, and close the block when it is full. */
  function Push(st: Acc, x: int, size: nat, level: seq<int> -> int): Acc
  {
    var acc := st.accumulator + [x];
    if |acc| == size then
      Acc([], st.blockIndex + 1,
          if st.blockIndex > 0 then st.points + [PathPoint(st.blockIndex, level(acc))] else st.points)
    else
      Acc(acc, st.blockIndex, st.points)
  }

  /** The state after pushing every sample of `s`, first to last. */
  function PushAll(st: Acc, s: seq<int>, size: nat, level: seq<int> -> int): Acc
    decreases |s|
  {
    if s == [] then st else PushAll(Push(st, s[0], size, level), s[1..], size, level)
  }

  /** Pushing never lets the accumulator reach the block size, and never removes a recorded point. */
  lemma PushKeepsBound(st: Acc, x: int, size: nat, level: seq<int> -> int)
    requires size > 0 && |st.accumulator| < size
    ensures |Push(st, x, size, level).accumulator| < size
    ensures st.points <= Push(st, x, size, level).points
    ensures |Push(st, x, size, level).points| <= |st.points| + 1
  {
  }

  /** Pushing `a + b` is pushing `a`, then `b`: the state carries over between reads. */
  lemma {:induction false} PushAllConcat(st: Acc, a: seq<int>, b: seq<int>, size: nat, level: seq<int> -> int)
    ensures PushAll(st, a + b, size, level) == PushAll(PushAll(st, a, size, level), b, size, level)
    decreases |a|
  {
    if a == [] {
      assert a + b == b;
    } else {
      assert (a + b)[0] == a[0] && (a + b)[1..] == a[1..] + b;
      PushAllConcat(Push(st, a[0], size, level), a[1..], b, size, level);
    }
  }

  /** Pushing `s + [x]` is pushing `s`, then one more pass of the loop body. */
  lemma PushAllSnoc(st: Acc, s: seq<int>, x: int, size: nat, level: seq<int> -> int)
    ensures PushAll(st, s + [x], size, level) == Push(PushAll(st, s, size, level), x, size, level)
  {
    PushAllConcat(st, s, [x], size, level);
  }

  /** The full blocks of `s`, in order. */
  function Chunks(s: seq<int>, size: nat): seq<seq<int>>
    requires size > 0
    decreases |s|
  {
    if |s| < size then [] else [s[..size]] + Chunks(s[size..], size)
  }

  /** What is left of `s` after its full blocks. */
  function Remainder(s: seq<int>, size: nat): seq<int>
    requires size > 0
    decreases |s|
  {
    if |s| < size then s else Remainder(s[size..], size)
  }

  /** `s` splits into |s| div size full blocks followed by its last |s| mod size samples. */
  lemma {:induction false} ChunksCount(s: seq<int>, size: nat)
    requires size > 0
    ensures |Chunks(s, size)| == |s| / size
    ensures Remainder(s, size) == s[|s| - |s| % size..]
    decreases |s|
  {
    if |s| >= size {
      ChunksCount(s[size..], size);
      DivModStep(|s|, size);
    } else {
      DivModUnique(|s|, size, 0, |s|);
    }
  }

  /** Block k of `s` is the samples k * size up to (k + 1) * size. */
  lemma {:induction false} ChunkAt(s: seq<int>, size: nat, k: nat)
    requires size > 0 && k < |Chunks(s, size)|
    ensures (k + 1) * size <= |s|
    ensures Chunks(s, size)[k] == s[k * size..(k + 1) * size]
    decreases k
  {
    if k > 0 {
      ChunkAt(s[size..], size, k - 1);
      MulSucc(k - 1, size);
      MulSucc(k, size);
    }
  }

  /** (k + 1) * size == k * size + size. */
  lemma MulSucc(k: nat, size: nat)
    ensures (k + 1) * size == k * size + size
  {
  }

  /** Removing one block of `size` samples lowers the quotient by one and keeps the remainder. */
  lemma DivModStep(n: nat, size: nat)
    requires 0 < size <= n
    ensures n / size == (n - size) / size + 1
    ensures n % size == (n - size) % size
  {
    var q, r := (n - size) / size, (n - size) % size;
    MulSucc(q, size);
    DivModUnique(n, size, q + 1, r);
  }

  /** Division and remainder are the unique q, r with n = q * size + r and 0 <= r < size. */
  lemma DivModUnique(n: nat, size: nat, q: nat, r: nat)
    requires size > 0 && r < size && n == q * size + r
    ensures n / size == q && n % size == r
  {
    var q' := n / size;
    if q' < q {
      MulMonotone(q' + 1, q, size);
      MulSucc(q', size);
      assert false;
    } else if q' > q {
      MulMonotone(q + 1, q', size);
      MulSucc(q, size);
      assert false;
    }
  }

  /** A quotient is below k when the dividend is below k blocks. */
  lemma DivBelow(n: nat, size: nat, k: nat)
    requires size > 0 && n < k * size
    ensures n / size < k
  {
    if n / size >= k {
      MulMonotone(k, n / size, size);
      assert false;
    }
  }

  /** Multiplying by a natural number keeps the order. */
  lemma MulMonotone(a: nat, b: nat, size: nat)
    requires a <= b
    ensures a * size <= b * size
  {
  }

  /** The points that blocks number k, k + 1, ... record when they close: none for block 0. */
  function NewPoints(k: nat, blocks: seq<seq<int>>, level: seq<int> -> int): seq<Point>
    decreases |blocks|
  {
    if blocks == [] then []
    else (if k > 0 then [PathPoint(k, level(blocks[0]))] else []) + NewPoints(k + 1, blocks[1..], level)
  }

  /** From block k > 0 on, every block records exactly one point, at x = 2 * (its number). */
  lemma {:induction false} NewPointsFrom(k: nat, blocks: seq<seq<int>>, level: seq<int> -> int)
    requires k > 0
    ensures |NewPoints(k, blocks, level)| == |blocks|
    ensures forall j :: 0 <= j < |blocks| ==> NewPoints(k, blocks, level)[j] == PathPoint(k + j, level(blocks[j]))
    decreases |blocks|
  {
    if blocks != [] {
      NewPointsFrom(k + 1, blocks[1..], level);
    }
  }

  /** Starting at block 0, the first block records nothing and block j + 1 records the j-th point. */
  lemma NewPointsFromZero(blocks: seq<seq<int>>, level: seq<int> -> int)
    ensures |NewPoints(0, blocks, level)| == if blocks == [] then 0 else |blocks| - 1
    ensures forall j :: 0 <= j < |NewPoints(0, blocks, level)| ==>
      NewPoints(0, blocks, level)[j] == PathPoint(j + 1, level(blocks[j + 1]))
  {
    if blocks != [] {
      NewPointsFrom(1, blocks[1..], level);
    }
  }

  /**
   * Closed form of the accumulator with a positive block size: from a state
   * whose accumulator is short of a block, pushing `s` closes the full blocks
   * of `accumulator + s`, records their points, and leaves their remainder.
   */
  lemma {:induction false} PushAllClosedForm(st: Acc, s: seq<int>, size: nat, level: seq<int> -> int)
    requires size > 0 && |st.accumulator| < size
    ensures PushAll(st, s, size, level) == Acc(
      Remainder(st.accumulator + s, size),
      st.blockIndex + |Chunks(st.accumulator + s, size)|,
      st.points + NewPoints(st.blockIndex, Chunks(st.accumulator + s, size), level))
    decreases |s|
  {
    var all := st.accumulator + s;
    if s == [] {
      assert all == st.accumulator;
    } else {
      var acc := st.accumulator + [s[0]];
      assert all == acc + s[1..];
      var next := Push(st, s[0], size, level);
      if |acc| == size {
        assert all[..size] == acc && all[size..] == s[1..];
        assert next.accumulator + s[1..] == s[1..];
        PushAllClosedForm(next, s[1..], size, level);
      } else {
        PushAllClosedForm(next, s[1..], size, level);
      }
    }
  }

  /**
   * From the initial state, after the samples `s` with block size B > 0:
   * `svgBlockIndex` is |s| div B, the accumulator holds the last |s| mod B
   * samples (fewer than B), and max(0, |s| div B - 1) points are recorded.
   */
  lemma BlocksAfter(s: seq<int>, size: nat, level: seq<int> -> int)
    requires size > 0
    ensures PushAll(Initial, s, size, level).blockIndex == |s| / size
    ensures PushAll(Initial, s, size, level).accumulator == s[|s| - |s| % size..]
    ensures |PushAll(Initial, s, size, level).accumulator| == |s| % size < size
    ensures |PushAll(Initial, s, size, level).points| == if |s| < size then 0 else |s| / size - 1
  {
    PushAllClosedForm(Initial, s, size, level);
    assert Initial.accumulator + s == s;
    ChunksCount(s, size);
    NewPointsFromZero(Chunks(s, size), level);
    if |s| < size {
      DivModUnique(|s|, size, 0, |s|);
    }
  }

  /** From the initial state the recorded points are those of the full blocks of the samples. */
  lemma PointsOfBlocks(s: seq<int>, size: nat, level: seq<int> -> int)
    requires size > 0
    ensures PushAll(Initial, s, size, level).points == NewPoints(0, Chunks(s, size), level)
  {
    PushAllClosedForm(Initial, s, size, level);
    assert Initial.accumulator + s == s;
  }

  /**
   * From the initial state, point j is recorded by block j + 1 (samples
   * (j + 1) * B up to (j + 2) * B, by `ChunkAt`): it sits at x = 2 * (j + 1)
   * with the level of that block.
   */
  lemma PointsAfter(s: seq<int>, size: nat, level: seq<int> -> int)
    requires size > 0
    ensures |PushAll(Initial, s, size, level).points| == if |s| < size then 0 else |Chunks(s, size)| - 1
    ensures forall j :: 0 <= j < |PushAll(Initial, s, size, level).points| ==>
      PushAll(Initial, s, size, level).points[j] == PathPoint(j + 1, level(Chunks(s, size)[j + 1]))
  {
    PointsOfBlocks(s, size, level);
    NewPointsFromZero(Chunks(s, size), level);
  }

  /** The recorded x values increase strictly, two pixels per block. */
  lemma PointsIncreasing(s: seq<int>, size: nat, level: seq<int> -> int)
    requires size > 0
    ensures forall i, j :: 0 <= i < j < |PushAll(Initial, s, size, level).points| ==>
      PushAll(Initial, s, size, level).points[i].x < PushAll(Initial, s, size, level).points[j].x
  {
    PointsAfter(s, size, level);
    var points := PushAll(Initial, s, size, level).points;
    assert forall j :: 0 <= j < |points| ==> points[j].x == 2 * (j + 1);
  }

  /** With block size 0 no block ever closes: every sample stays in the accumulator and no point is recorded. */
  lemma {:induction false} ZeroSizeNeverCloses(st: Acc, s: seq<int>, level: seq<int> -> int)
    ensures PushAll(st, s, 0, level) == Acc(st.accumulator + s, st.blockIndex, st.points)
    decreases |s|
  {
    if s != [] {
      ZeroSizeNeverCloses(Push(st, s[0], 0, level), s[1..], level);
      assert st.accumulator + [s[0]] + s[1..] == st.accumulator + s;
    }
  }

  /**
   * When the stream holds exactly the declared samples, rounding the block
   * size down leaves fewer than 300 samples over 600 blocks: blocks of at
   * least 300 samples close at most 600 times, and blocks of at least 150
   * samples keep every recorded point within the output width.
   */
  lemma BlocksWithinWidth(s: seq<int>, bytesPerSample: nat, level: seq<int> -> int)
    requires bytesPerSample == 1 || bytesPerSample == 2
    ensures var size := SamplesPerBlock(|s| * bytesPerSample, bytesPerSample);
      size >= 300 ==> PushAll(Initial, s, size, level).blockIndex <= PointsAcross
    ensures var size := SamplesPerBlock(|s| * bytesPerSample, bytesPerSample);
      size >= 150 ==> forall j :: 0 <= j < |PushAll(Initial, s, size, level).points| ==>
        PushAll(Initial, s, size, level).points[j].x <= OutputWidth
  {
    var n, size := |s|, SamplesPerBlock(|s| * bytesPerSample, bytesPerSample);
    if size >= 150 {
      assert n < PointsAcross * size + PointsAcross / 2 by {
        if bytesPerSample == 2 {
          assert 2 * (2 * n + 600) < 2 * (1200 * size + 1200);
        }
      }
      BlocksAfter(s, size, level);
      PointsAfter(s, size, level);
      DivBelow(n, size, 602);
      if size >= 300 {
        DivBelow(n, size, 601);
      }
    }
  }

  /**
   * The block size is rounded, so a data chunk can close more than 600
   * blocks: 840 16-bit samples (1680 bytes) give blocks of one sample, and
   * the last point sits at x = 1678, past the 1200-pixel width.
   */
  lemma RightEdgeOverrun(level: seq<int> -> int)
    ensures SamplesPerBlock(1680, 2) == 1
    ensures |PushAll(Initial, seq(840, _ => 0), 1, level).points| == 839
    ensures PushAll(Initial, seq(840, _ => 0), 1, level).points[838].x == 1678 > OutputWidth
  {
    BlocksAfter(seq(840, _ => 0), 1, level);
    PointsAfter(seq(840, _ => 0), 1, level);
    ChunksCount(seq(840, _ => 0), 1);
  }
}
