# wave-samples-svg in Dafny

A model of `lib/index.js` of wave-samples-svg, which converts a PCM RIFF/WAVE
stream read from standard input into an SVG waveform. The program reads and
validates the 44-byte WAVE header. It then pushes every 16-bit sample through
a block accumulator that averages `samplesPerSvgBlock` samples at a time.
Every closed block but the first records one path point, two pixels to the
right of the previous one. At end of stream the path is closed on the centre
line and the recorded points are replayed in reverse, mirrored about that line.

Modules (all `.dfy` files are verified together):

- `results.dfy` — `Results`: `Option` and `Outcome`.
- `bytes.dfy` — `Bytes`: bytes, a reference little-endian value (`LittleEndian`), its encoder, and `readUInt16LE`/`readUInt32LE`.
- `wave_header.dfy` — `WaveHeader`: `readHeader`, an encoder for the same layout, and `validateHeader`.
- `samples.dfy` — `Samples`: `readInt16LE` and the sample loop's reads as written, plus the corrected per-sample decoder (see Findings).
- `geometry.dfy` — `Geometry`: path vertices, the closing vertex, the mirrored back path, the finished outline.
- `blocks.dfy` — `Blocks`: the accumulator as pure functions (`Push`, `PushAll`) and its closed form.
- `converter.dfy` — `Converter`: the module-level state as a class `WaveformConverter`, with the `readable` and `end` handlers as methods.

What the code does, in the terms of the model:

- The header must carry the tags "RIFF", "WAVE", "fmt " and "data" at their fixed offsets. A second subchunk not tagged `data` is an error; no chunk is skipped.
- Bit depths 8 and 16 pass the header check; every other depth fails it.
- Each block is averaged. The block size is `Math.round` of the declared sample count divided by 600, so it is computed from the data size.
- Interleaved channels form one sample stream.
- Each closed block after the first gives one point at x = 2 × block number.
- The read loop decodes every byte after the header until the stream ends. It never stops at `subchunk2Size`, so a chunk after the data chunk is read as samples.
- Nothing bounds the number of blocks by 600. When the stream ends right after the declared data, with n declared samples and block size B, rounding down leaves n ≤ 600·B + 299, so at most 600 + 299 div B blocks close. More than 600 can close only when B < 300, and a point past the 1200-pixel width needs at least 602 closed blocks, which is possible only when B < 150 (`Blocks.BlocksWithinWidth`). For example, 1680 bytes of 16-bit data give blocks of one sample and a last point at x = 1678 (`Blocks.RightEdgeOverrun`). Trailing chunks after the data add blocks beyond these bounds whatever B is.

## Model

| member | source | states |
|---|---|---|
| `Bytes.LittleEndian` | lib/index.js:76-87 | the little-endian value of n bytes is below 256^n |
| `Bytes.LittleEndianOfTo` | lib/index.js:76-87 | encoding a value in n bytes and reading it back gives the value |
| `Bytes.ToOfLittleEndian` | lib/index.js:76-87 | reading n bytes and encoding the value again gives the same bytes |
| `Bytes.ReadUInt16LE` | lib/index.js:80-85 | `readUInt16LE(offset)` is the little-endian value of bytes offset..offset+2, below 2^16 |
| `Bytes.ReadUInt32LE` | lib/index.js:76-87 | `readUInt32LE(offset)` is the little-endian value of bytes offset..offset+4, below 2^32 |
| `WaveHeader.ReadHeader` | lib/index.js:72-104 | fewer than 44 bytes give no header; otherwise each tag is the 4 raw bytes at 0, 8, 12, 36 and each integer the little-endian value of its range (4..8, 16..20, 20..22, 22..24, 24..28, 28..32, 32..34, 34..36, 40..44) |
| `WaveHeader.Encode` | lib/index.js:72-104 | a header record encodes to exactly 44 bytes |
| `WaveHeader.EncodeThenRead` | lib/index.js:72-104 | decoding an encoded header record returns the same record |
| `WaveHeader.ReadThenEncode` | lib/index.js:72-104 | encoding the decoded record of 44 bytes returns the same bytes |
| `WaveHeader.ValidateHeader` | lib/index.js:106-123 | passes iff the tags are "RIFF", "WAVE", "fmt ", "data" and bits per sample is 8 or 16; otherwise fails with a violated check such that no earlier check (in the order RIFF, WAVE, fmt, data, bit depth) is violated |
| `WaveHeader.ParseHeader` | lib/index.js:133-141 | the header step passes iff at least 44 bytes were read and the decoded header is supported |
| `WaveHeader.EncodedHeaderAccepted` | lib/index.js:133-141 | an encoded header passes the header step iff it is supported, and otherwise fails with the error `validateHeader` reports |
| `WaveHeader.WrongTagReported` | lib/index.js:106-118 | replacing any one tag of a supported header by other bytes fails with exactly that tag's error |
| `Samples.Int16` | lib/index.js:152 | `readInt16LE` gives a value in -32768..32767 congruent to the unsigned little-endian word modulo 2^16 |
| `Samples.ReadInt16LE` | lib/index.js:150-152 | a 16-bit read succeeds exactly when two bytes remain at the offset, and then gives the one value in -32768..32767 congruent modulo 2^16 to the unsigned little-endian word of those two bytes |
| `Samples.LoopCount` | lib/index.js:150 | the sample loop runs the least number of passes whose offsets cover the buffer (a partial last sample still gets a pass) |
| `Samples.EightBitLastReadThrows` | lib/index.js:145-152 | with 8-bit audio the loop reads one overlapping 16-bit word per byte, and its last read of any non-empty buffer runs past the end |
| `Samples.EightBitSilenceExample` | lib/index.js:145-152 | two silent 8-bit samples read as -32640 and then an out-of-range read |
| `Samples.SampleOf` | lib/index.js:152 | a 2-byte sample is the signed 16-bit little-endian value; a 1-byte sample is the unsigned byte re-centred on 128 |
| `Samples.DecodeSamples` | lib/index.js:150-153 | a buffer of whole samples yields exactly its length / bytesPerSample samples |
| `Samples.DecodeSamplesAt` | lib/index.js:150-153 | sample k is decoded from bytes k·bytesPerSample up to (k+1)·bytesPerSample and from nothing else |
| `Samples.SixteenBitAgreesWithAsWritten` | lib/index.js:150-152 | for 16-bit audio and even buffers the corrected decoder reads exactly the values the loop as written reads |
| `Samples.DecodeConcat` | lib/index.js:148-153 | decoding two aligned pieces separately equals decoding their concatenation |
| `Samples.FlattenAligned` | lib/index.js:148-149 | reads that each end on a sample boundary concatenate to bytes ending on one |
| `Geometry.Mirror` | lib/index.js:51-53 | a mirrored vertex keeps x, and its y and the original y sum to 500 |
| `Geometry.BackPath` | lib/index.js:48-57 | the back path has one vertex per recorded point, vertex j being point n-1-j mirrored; empty for no points |
| `Geometry.BackPathInvolution` | lib/index.js:48-57 | taking the back path twice restores the points |
| `Geometry.OutlineSymmetric` | lib/index.js:27-170 | the finished path has 2n + 2 vertices; it starts at (0, 250), the back path is always preceded by the closing vertex (1200, 250), and the k-th vertex from the end mirrors the k-th forward point |
| `Geometry.EmptyOutline` | lib/index.js:167-170 | with no points the path is (0, 250), (1200, 250) |
| `Blocks.SamplesPerBlock` | lib/index.js:145-147 | the block size is the integer nearest to dataSize / (600 · bytesPerSample), halves rounded up |
| `Blocks.ZeroBlockSize` | lib/index.js:145-147 | the block size is 0 exactly when the data holds fewer than 300 samples |
| `Blocks.PushKeepsBound` | lib/index.js:153-162 | with block size B > 0 a push keeps the accumulator shorter than B and only ever appends at most one point |
| `Blocks.PushAllConcat` | lib/index.js:128-164 | pushing a + b equals pushing a then b: state carries over between reads |
| `Blocks.PushAllSnoc` | lib/index.js:150-163 | pushing s + [x] equals pushing s and then one more loop pass |
| `Blocks.ChunksCount` | lib/index.js:150-162 | a sample sequence splits into |s| div B full blocks and its last |s| mod B samples |
| `Blocks.ChunkAt` | lib/index.js:153-161 | block k is samples k·B up to (k+1)·B |
| `Blocks.NewPointsFrom` | lib/index.js:157-160 | every block numbered k > 0 records exactly one point, at x = 2k, with its level |
| `Blocks.NewPointsFromZero` | lib/index.js:157-160 | block 0 records nothing; point j comes from block j + 1 |
| `Blocks.PushAllClosedForm` | lib/index.js:150-162 | pushing samples closes the full blocks of accumulator + samples, records their points and keeps their remainder |
| `Blocks.BlocksAfter` | lib/index.js:150-162 | after n samples with B > 0: `svgBlockIndex` = n div B, the accumulator is the last n mod B samples (< B), and max(0, n div B − 1) points are recorded |
| `Blocks.PointsOfBlocks` | lib/index.js:150-162 | from the initial state the recorded points are those the full blocks of the samples record |
| `Blocks.PointsAfter` | lib/index.js:155-160 | point j has x = 2(j + 1) and the level of block j + 1, that is, of samples (j+1)·B up to (j+2)·B |
| `Blocks.PointsIncreasing` | lib/index.js:35-39 | the recorded x values increase strictly |
| `Blocks.ZeroSizeNeverCloses` | lib/index.js:147-155 | with block size 0 no block closes: every sample stays in the accumulator and no point is recorded |
| `Blocks.BlocksWithinWidth` | lib/index.js:145-160 | when the stream holds exactly the declared samples, blocks of at least 300 samples close at most 600 times, and blocks of at least 150 samples keep every recorded point at x ≤ 1200 |
| `Blocks.RightEdgeOverrun` | lib/index.js:145-160 | 1680 bytes of 16-bit data give blocks of 1 sample and a last point at x = 1678, beyond the 1200-pixel width |
| `Converter.BytesPerSample` | lib/index.js:145 | a supported header has 1 or 2 bytes per sample, bitsPerSample / 8 |
| `Converter.FeedBuffersIsOneRead` | lib/index.js:128-164 | feeding buffers one at a time gives the state of one read of all their bytes |
| `Converter.WaveformConverter.constructor` | lib/index.js:125-130 | no header, empty accumulator, block index 0, no bytes read, no points, path at its start vertex |
| `Converter.WaveformConverter.RecordPoint` | lib/index.js:35-41 | `getSvgPathPoint` appends the point (2 · index, y) to `svgPathPoints` and to the path |
| `Converter.WaveformConverter.OnReadable` | lib/index.js:132-165 | on the first event the outcome is the header step's; after it, the state is the buffers fed through the accumulator, the consumed bytes grow by the buffers' bytes, and the state stays a function of all bytes consumed |
| `Converter.WaveformConverter.ReceiveHeader` | lib/index.js:133-142 | decodes and keeps the header; a short read or a failed check stops the program with that failure |
| `Converter.WaveformConverter.ConsumeBuffers` | lib/index.js:148-164 | the read loop: the stream grows by the buffers' concatenation and the state is the buffers fed in order |
| `Converter.FeedAfterStream` | lib/index.js:128-164 | feeding buffers after the bytes already consumed gives the state of one read of all the bytes so far |
| `Converter.WaveformConverter.PushSample` | lib/index.js:153-162 | one pass of the sample loop body is one `Push`: append the sample, and on a full block record its point (except for block 0), count it and empty the accumulator |
| `Converter.WaveformConverter.ProcessBuffer` | lib/index.js:149-163 | one buffer: `bytesReadFromStream` grows by its length and its decoded samples are pushed in order |
| `Converter.WaveformConverter.GetBackPath` | lib/index.js:48-57 | the loop from the last point to the first returns the back path of the recorded points |
| `Converter.WaveformConverter.OnEnd` | lib/index.js:167-174 | the path becomes start, points, closing vertex, back path: the full outline |

`WaveformConverter.Valid()` holds between events. It says three things.
The accumulator state equals `PushAll(Initial, DecodeSamples(stream))`, where `stream` is every sample byte consumed so far. So read boundaries have no effect on blocks or points.
`bytesReadFromStream` equals `|stream|`, the total length of the buffers read.
The path is the start vertex followed by the points, or the whole outline once the stream has ended.

## Findings

| source | as written | input that shows it | evidently intended | confidence | as-written member | corrected member |
|---|---|---|---|---|---|---|
| lib/index.js:120-152 | `validateHeader` accepts 8 bits per sample, but the sample loop reads a 16-bit word (`readInt16LE`) at every `bytesPerSample` = 1 byte: consecutive reads overlap and the last read of every non-empty buffer runs past its end, where Node throws a RangeError | 8-bit audio whose first data buffer is [0x80, 0x80] (two silent samples): the first read gives -32640, the second throws | each sample decoded from its own `bytesPerSample` bytes; 8-bit PCM is unsigned and centred on 128 | medium; not executed | `Samples.EightBitLastReadThrows` | `Samples.DecodeSamples` |

The class uses the corrected decoder. For 16-bit audio it reads exactly what the code as written reads (`Samples.SixteenBitAgreesWithAsWritten`).

## Left out

- Stream and process plumbing: `process.stdin.read`, the `'readable'`/`'end'` listeners, `console.log`/`console.error` and `fs.writeFileSync`. The bytes each read returns are method parameters. `process.exit(1)` and the uncaught throw on a short header read are the `exited` flag; no event is handled after it.
- The read size `2048 * blockAlign`: buffers are taken as given, so `blockAlign` plays no part. In particular a header with `blockAlign` 0 makes every `read(0)` return null in Node, so the program consumes no sample and never reaches `end`; the model does not capture this stall.
- Buffers that end mid-sample: `OnReadable` requires every buffer to hold whole samples, instead of modelling Node's RangeError for a 16-bit read at the last odd byte.
- Floating point: `normalize16bitSample` (division by 32760), the block average, and the y computation with `toFixed(0)`. The accumulator holds raw integer samples. The y of a block's point is an opaque integer function `level` of the block's samples.
- `Math.round(samplesTotal / 600)` is computed exactly in integers. `subchunk2Size / bytesPerSample` is exact in a double. The quotient by 600 lies either exactly on a half or at least 1/1200 away from one, and the double's rounding error stays far below that gap. So rounding the double gives the same integer.
- Tags: `Buffer.toString()` decodes 4 bytes as UTF-8. The model compares raw bytes. Four bytes decode to "RIFF" (or "WAVE", "fmt ", "data") exactly when they are those ASCII bytes.
- SVG text: the document header, `getSvgPathStart`/`getSvgPathEnd`/`getSvgClosingTag` text, the `L x y` strings and `.trim()`. Only the sequence of path vertices is modelled.
- `getSvgRect`: it is never called.
