# Acta, modelled and proved in Dafny

Acta is an append-only log of self-delimiting, CRC-sealed frames, with a columnar codec inside
each data frame. This project models both in Dafny 4.11 and proves what they are for:

* what a writer accepts and publishes reads back, row for row, through whichever encoding each
  column was given, if and only if the reader's memory allowance covers each block;
* a write that stops at any byte never damages what was committed before it, over whole runs of
  publishing, tearing, abandoning, reopening and repairing, except in one overflow family that is
  characterised exactly;
* a reader that extends a snapshot sees exactly what reopening the file would show, a tail delivers
  every block once and in order, and a pruned, binary-searched scan is the naive filter;
* every byte a decode allocates is charged before it is filled, and a scan spends exactly what its
  unpruned blocks owe: it succeeds if and only if they decode and its allowances cover their sum;
* any one changed byte of a committed file is reported as corruption.

A file is a `seq<byte>`. One function, the forward walk, ties its bytes to the writer's
continuation point, to the reader's snapshot and to the recovery plan. CRC32C is the byte fold of
section 12.1 of RFC 3720 on 32-bit vectors, so its streaming law and its detection of single-byte
changes are theorems and not assumptions.

Check the whole project with `dafny verify dfyconfig.toml`.

## Layout

| part | files |
|---|---|
| bytes, bits, errors, limits | `Bytes`, `Bits`, `Core`, `Limits` |
| checksums and frames | `Crc32c`, `Frame`, `Framing`, `Prologue`, `Scanner` |
| schema and block headers | `Schema`, `SchemaFrame`, `DataFrame`, `Tables`, `StreamRanges` |
| the walk and what it proves | `Walk`, `WalkTheorems`, `Creation`, `Contents` |
| stream transforms and layouts | `Packing`, `Integers`, `Booleans`, `Layouts`, `Transforms` |
| columns and blocks | `Rows`, `ColumnCodec`, `Extrema`, `Blocks`, `BlockTheorems`, `BlockSizes` |
| what a decode is charged | `Charges`, `Planned`, `Budgets`, `Decoder`, `AllowanceRun` |
| assembling and writing | `Pricing`, `Assembler`, `AppendAccepts`, `Buffer`, `Sessions`, `Books`, `Writer` |
| runs and recovery | `CrashSafety`, `OverflowRun`, `Recovery`, `Opening`, `Widening` |
| reading | `Reader`, `Scans`, `Scanning`, `Tails` |

Code that updates state is modelled as classes and loops (`Crc32c.Accumulator`,
`Scanner.RegionReader`, `Framing.ColumnSet`, `Transforms.BitUnpacker`, `Buffer.BlockBuffer`,
`Writer.Sink`, `Writer.Writer`, `Recovery.LockedFile`, `Budgets.Budget`, `Budgets.ScanBudget`,
`Scanning.Scan`, `Tails.LiveReader`, `Tails.Tail`), each proved against a function of the values it
works on. Failures of the outside world are nondeterministic choices inside the class that meets
them: a write may stop at any byte, a flush, sync, length or truncation may fail, and a path may
show anything at each look.

## Results that needed a condition

* **Crash safety.** The writer puts a whole frame on disk and only then checks that the next
  sequence number and row ID still fit 64 bits (`rust/write/writer.rs:692-741`). Past that point
  every walk reports corruption. `CrashSafety.RunsAreCrashSafe` states both halves: walking the file
  succeeds if and only if no event of the run wrote such a frame. `OverflowRun.SomeRunEndsInCorruption`
  builds a run that does.
* **Reading what a writer accepts.** A block's payload does not bound what decoding it allocates: a
  null takes no stored byte, and still costs the reader its validity and its slot. `Charges` lists
  what a decode charges, in order, `Planned.ColumnChargesSum` gives the sum from the cells alone, and
  `BlockTheorems.BlockRoundTrip` proves that an encoded block reads back if and only if its planned
  charge fits `maxDecodedBlockBytes`; the same condition runs through `Writer.Writer.Finish` and
  `CrashSafety.RunsAreCrashSafe`. `AllowanceRun.SomePublishedFileIsUnreadable` publishes eight nullable
  Int64 columns of 16,777,216 nulls without a failure, and a full read under the default limits refuses
  the file.
* **Opening what a writer accepts.** The reader also counts blocks and rows, so a file that appends
  can still refuse to open for reading; `Opening.ReaderOpensExactly` gives the exact condition.
* **Chunking independence.** False for a byte target that a priced frame can meet exactly while
  the next row is free: `Assembler.ChunkingMattersAtATie` is the 232-byte example, and
  `Assembler.ChunkingIndependence` proves independence if and only if no such tie exists, which a
  target that is not a multiple of eight rules out (`Assembler.UnalignedTargetHasNoTie`).
* **Stream ranges.** Sorting by offset and checking neighbours gives pairwise disjoint ranges in
  whatever order ties fall, but whether a table with an empty stream at another stream's offset is
  accepted depends on that order: `StreamRanges.TieOrderMatters` and, exactly,
  `StreamRanges.EveryOrderAccepts`.

## Where the code and its documentation disagree

The model follows the code.

* `README.md:513-514` says a block the encoder refuses poisons the writer. The code returns the
  error before any state changes (`rust/write/writer.rs:678-684`), so the writer stays usable with its
  buffer intact.
* The comment at `rust/write/writer.rs:319-321` says a writer cannot emit a frame that an ordinary reader
  would refuse. The format defaults it names bound the frame and not what decoding it allocates:
  `AllowanceRun.EightNullColumnsAreUnreadable`.
* The comments at `rust/recovery.rs:145-150` say every failure before the truncation carries the
  marker that the file is unchanged. Only a failure of the truncation call itself does; a failed scan, a
  length that moved and a file with nothing to repair are unmarked.

## Model

| member | source | states |
|---|---|---|
| `Crc32c.FoldConcat` | rust/crc32c.rs:16-28 | streaming law: absorbing two pieces one after the other is absorbing their concatenation, so any chunking gives one checksum |
| `Crc32c.AbsorbInjectiveInState` | rust/crc32c.rs:16-28 | one byte step is injective in the running state |
| `Crc32c.AbsorbInjectiveInByte` | rust/crc32c.rs:16-28 | one byte step is injective in the byte |
| `Crc32c.SingleByteDetected` | rust/crc32c.rs:30-32 | changing any one byte of any sequence changes its checksum |
| `Crc32c.CheckValue` | rust/crc32c.rs:39-41 | the fold gives the standard check value of "123456789" |
| `Crc32c.Accumulator.Update` | rust/crc32c.rs:21-23 | the accumulator holds the fold of everything fed, in order |
| `Crc32c.Accumulator.Total` | rust/crc32c.rs:25-27 | the result is the checksum of the concatenation of everything fed |
| `Frame.FrameRoundTrip` | rust/format/frame.rs:53-87 | a frame the writer builds is read back complete with the lengths, type and sequence it was built with, whatever bytes follow |
| `Frame.TornFrameIsIncomplete` | rust/format/frame.rs:53-87 | a built frame cut at any byte is an incomplete tail, never corruption |
| `Frame.FrameIsLocal` | rust/format/frame.rs:366-416 | reading a complete frame depends only on the bytes of that frame |
| `Frame.FrameDamageIsCorruption` | rust/format/frame.rs:156-194 | any one changed byte of a complete frame is corruption: checksums are checked before lengths, so it is never read as a shorter file |
| `Frame.PrefixFieldsRoundTrip` | rust/format/frame.rs:219-243 | the fields of a built prefix decode to what was written and its checksum holds |
| `Frame.TrailerRoundTrip` | rust/format/frame.rs:465-519 | a built commit trailer agrees with its prefix and its own checksum |
| `Framing.BuildFrame` | rust/write/framing.rs:175-243 | filling prefix and trailer arrays in place and chaining accumulators produces exactly the frame bytes; refused exactly for unaligned or oversize regions |
| `Framing.BuildPrefix` | rust/write/framing.rs:197-214 | each field lands in its place, then the checksum over the first 44 bytes |
| `Framing.BuildTrailer` | rust/write/framing.rs:222-231 | total length, sequence and body checksum, sealed by a checksum that skips its own field |
| `Framing.ColumnSet.Insert` | rust/format/schema_frame.rs:230-268 | a column joins exactly when its ID is nonzero and its ID and name are new; the sets stay those of the columns |
| `Framing.ReadColumns` | rust/format/schema_frame.rs:115-143 | the descriptor loop computes the recursive reading, and accepted columns have distinct IDs and names |
| `Prologue.RoundTrip` | rust/format/prologue.rs:54-93 | a built prologue parses to its own version and feature flags |
| `Prologue.DamageIsCorruption` | rust/format/prologue.rs:54-69 | any one changed prologue byte is corruption, whatever the field means |
| `SchemaFrame.SchemaRoundTrip` | rust/format/schema_frame.rs:38-48 | every schema the writer accepts and can serialize parses back equal under any limits at least the defaults |
| `SchemaFrame.TypeRoundTrip` | rust/write/framing.rs:104-173 | type IDs and parameters, timezones and decimal scales included, parse back to the same logical type |
| `SchemaFrame.DescriptorRoundTrip` | rust/format/schema_frame.rs:324-380 | a variable-length, padded column descriptor parses back to its column and consumes exactly its own bytes |
| `DataFrame.BlockHeaderRoundTrip` | rust/format/data_frame.rs:71-101 | a built block header parses to the rows, base row ID, bounds and sortedness it declares |
| `Tables.ColumnRecordRoundTrip` | rust/format/data_frame.rs:675-740 | a 32-byte column record reads back as the descriptor printed |
| `Tables.StreamRecordRoundTrip` | rust/format/data_frame.rs:540-620 | a 48-byte stream record reads back as the descriptor printed |
| `Tables.IdOrderSorts` | rust/format/data_frame.rs:674-690 | the order of the column table lists schema positions by ascending column ID |
| `StreamRanges.ValidateStreamRanges` | rust/format/data_frame.rs:899-959 | the neighbour pass accepts exactly when neighbours in the sorted order and every end fit, and then no payload byte belongs to two streams |
| `StreamRanges.AcceptedAreDisjoint` | rust/format/data_frame.rs:914-935 | acceptance makes every two streams pairwise separate, for any order of equal offsets |
| `StreamRanges.AcceptsExactly` | rust/format/data_frame.rs:914-935 | a sorted order accepts if and only if streams are separate and no stream with bytes directly precedes another at its offset |
| `StreamRanges.EveryOrderAccepts` | rust/format/data_frame.rs:914-935 | for separate streams, every order the unstable sort may give accepts if and only if no stream with bytes shares its offset with an empty one |
| `StreamRanges.TieOrderMatters` | rust/format/data_frame.rs:914-935 | one table accepted under one tie order and refused under the other |
| `Scanner.ChecksumFrame` | rust/format/frame.rs:531-560 | one chunked pass through a fixed buffer gives the checksum of the header and of the whole body |
| `Scanner.RegionReader.Feed` | rust/format/frame.rs:575-597 | a region of any size is fed whole and in order, to one accumulator or both |
| `Scanner.VerifyBody` | rust/format/frame.rs:418-453 | trailer first, then both checksums: accepted exactly when the body is intact |
| `Scanner.ReadFrameAt` | rust/format/frame.rs:53-87 | the stepwise read computes the frame-reading function at any offset |
| `Scanner.WalkDataFrames` | rust/format/scan.rs:179-248 | the loop over offset, sequence, count and row ID computes the walk, errors included |
| `Walk.WalkResumes` | rust/format/scan.rs:179-190 | a walk may be resumed from any boundary it has passed, with the same outcome |
| `Walk.WalkStops` | rust/format/scan.rs:191-206 | a successful walk ends at the end of the file, or before a frame that is not complete |
| `Walk.ScanIsLocal` | rust/format/scan.rs:102-134 | prologue and schema discovery depend only on the bytes before the first data frame |
| `WalkTheorems.WalkIsChained` | rust/format/scan.rs:179-262 | in every accepted walk the data frames tile the file without a gap, sequences run from one without a hole, and each base row ID is the sum of all earlier row counts |
| `WalkTheorems.SingleByteDamageIsCorruption` | rust/format/scan.rs:102-248 | any one changed byte of the committed part makes discovery fail as corruption: never another accepted file, never an incomplete tail |
| `WalkTheorems.AppendedFrameIsDiscovered` | rust/format/scan.rs:191-248 | appending one whole frame extends what is discovered by exactly that frame, or reports the counter it overflows |
| `WalkTheorems.TornFrameChangesNothing` | rust/format/scan.rs:191-206 | appending any strict prefix of a frame discovers exactly what was there before, with a tail |
| `Creation.CreatedFileWalks` | rust/write/writer.rs:166-213 | a created file opens with the given schema and row-ID feature, no data frame and no tail |
| `Packing.PackRoundTrip` | rust/write/encode/candidates.rs:1381-1422 | unpacking a packed sequence gives it back at every width that holds it |
| `Packing.UnpackExact` | rust/codec/transform.rs:273-327 | repacking any accepted payload at its own width byte gives the same bytes, so packing is a bijection at each width |
| `Packing.RawBooleansRoundTrip` | rust/write/encode/candidates.rs:1363-1371 | packed boolean bits decode to the values |
| `Packing.RawBooleansExact` | rust/codec/transform.rs:376-393 | every accepted boolean payload is the packing of its own values, zero padding included |
| `Integers.IntegerRoundTrip` | rust/codec/transform.rs:234-246 | a value in range reads back from its stored width, sign-extended |
| `Integers.ZigzagRoundTrip` | rust/codec/transform.rs:248-255 | every signed 64-bit value survives zigzag, through the wrapping shift |
| `Integers.UnzigzagRoundTrip` | rust/write/encode/candidates.rs:1269-1271 | every unsigned 64-bit word is the zigzag of the value it decodes to |
| `Integers.RawRoundTrip` | rust/codec/transform.rs:74-96 | raw integers of every canonical width decode to themselves |
| `Integers.PackedRoundTrip` | rust/codec/transform.rs:98-104 | bit packing accepts exactly nonnegative values and restores them |
| `Integers.FrameOfReferenceRoundTrip` | rust/codec/transform.rs:107-131 | frame of reference accepts every nonempty stream and restores it, 64-bit extremes included |
| `Integers.WrappedOffsetsAreExact` | benchmarks/v0.1/0_taxi_data/encoding_study.py:141-152 | offsets taken on wrapping 64-bit words equal the exact offsets |
| `Integers.DeltaRoundTrip` | rust/codec/transform.rs:134-167 | delta accepts exactly streams whose differences fit 64 signed bits and restores them |
| `Integers.DeltaOfDeltaRoundTrip` | rust/codec/transform.rs:171-222 | delta of delta accepts exactly streams whose first and second differences fit and restores them |
| `Booleans.RleRoundTrip` | rust/codec/transform.rs:408-470 | boolean run lengths restore every stream whose runs can be counted |
| `Booleans.PackedBooleansRoundTrip` | rust/codec/transform.rs:395-405 | packed booleans decode back, all-false streams of width zero included |
| `Booleans.SplitRoundTrip` | rust/write/encode/candidates.rs:1120-1142 | joining a split byte stream restores it for every count and width |
| `Transforms.BitUnpacker.Next` | rust/codec/transform.rs:329-343 | yields the packed values one at a time without ever leaving the payload |
| `Transforms.NewUnpacker` | rust/codec/transform.rs:273-323 | accepts exactly payloads whose width, length and padding are right, before reading any |
| `Transforms.BitUnpack` | rust/codec/transform.rs:352-357 | collecting the iterator gives the unpacked sequence |
| `Transforms.DeltaValues` | rust/codec/transform.rs:134-167 | the accumulating, narrowing loop computes the delta decoding, with the same refusals |
| `Transforms.DeltaOfDeltaValues` | rust/codec/transform.rs:171-222 | the doubly accumulating loop computes the delta-of-delta decoding, with the same refusals |
| `Transforms.ExpandRunsLoop` | rust/codec/transform.rs:448-469 | expands runs exactly when lengths are positive and sum to the count |
| `Transforms.ByteStreamSplit` | rust/codec/transform.rs:474-499 | the in-place nested loop writes exactly the transposed bytes |
| `Transforms.PlaceInto` | rust/read/values.rs:411-440 | fills an array with dense values at valid rows and the default elsewhere; refused exactly when counts differ |
| `Transforms.SplitLoop` | rust/read/decode.rs:1004-1029 | cutting by running offset computes the split, which must consume the payload |
| `Layouts.DictionaryRoundTrip` | rust/write/encode/candidates.rs:374-420 | looking indices up restores the column; entries are distinct and no more than the values |
| `Layouts.RunsRoundTrip` | rust/write/encode/candidates.rs:325-352 | maximal runs expand back to the column with positive lengths summing to its count |
| `Layouts.ConstantRoundTrip` | rust/read/values.rs:195-222 | a column of equal values is restored from its first |
| `Layouts.GatherPlaced` | rust/read/values.rs:373-440 | gathering the valid rows of a scattered column gives the dense values back, for every bitmap |
| `Layouts.PlaceGathered` | rust/read/values.rs:373-440 | scattering a column's valid rows over its own bitmap restores it |
| `Layouts.SplitRoundTrip` | rust/read/decode.rs:1004-1029 | concatenated values split back by their lengths |
| `Layouts.SplitExact` | rust/read/decode.rs:1004-1029 | accepted splits concatenate to the payload and have the lengths asked for |
| `ColumnCodec.DenseRoundTrip` | rust/write/encode/candidates.rs:864-892 | whichever of the ten encodings is chosen for dense values, decoding its streams restores them |
| `ColumnCodec.ValuesRoundTrip` | rust/read/decode.rs:636-663 | raw values, with lengths when the type is variable-width, read back from among any other streams |
| `ColumnCodec.FindUnique` | rust/read/decode.rs:1115-1140 | a stream alone of its kind is the one found |
| `ColumnCodec.ColumnRoundTrip` | rust/read/decode.rs:277-316 | every admissible column decodes to its own cells, nulls included, under every value encoding and either validity encoding |
| `Extrema.PairBounds` | rust/write/encode/mod.rs:441-503 | no described value lies outside the stored min/max pair |
| `Extrema.StatisticsFitReservation` | rust/write/buffer.rs:118-143 | a stored pair takes exactly its reserved bytes or none, and exactly them when no value is NaN |
| `Extrema.CheckClaim` | rust/validate/statistics.rs:40-75 | one pass over the rows confirms a stored pair exactly when it parses, is ordered, and equals the extremes of the values that are neither null nor NaN |
| `Extrema.Reduce` | rust/validate/statistics.rs:456-488 | the pass finds the smallest and largest described value, the first of equals, or that there is none |
| `Extrema.WrittenPairVerifies` | rust/write/encode/mod.rs:441-503 | every pair a writer stores, under any policy and for any type, is one the reader confirms |
| `Extrema.ConfirmedPair` | rust/validate/statistics.rs:518-556 | a pair the reader confirms bounds every value it describes and both ends are attained |
| `Blocks.VerifyPrimary` | rust/read/decode.rs:837-890 | accepts exactly when the declared bounds are both attained, no value lies outside them, and values claimed sorted never decrease; the minimum, maximum and end-value tests of the code amount to no more and no less |
| `Blocks.PrimaryConfirmed` | rust/write/encode/mod.rs:1059-1089 | the bounds and sortedness the encoder declares are the ones the decoder confirms |
| `Charges.MadeAll` | rust/read/budget.rs:42-58 | charges are all made exactly when their sum fits the allowance, and those made always fit |
| `Charges.MadeConcat` | rust/read/budget.rs:42-58 | paying one list and then another from one allowance is paying their concatenation |
| `Planned.ColumnChargesSum` | rust/read/decode.rs:277-316 | what decoding an encoded column charges, stream by stream and buffer by buffer, is a sum known from its cells and encoding before it is written |
| `BlockTheorems.BuiltRangesFit` | rust/write/encode/mod.rs:1029-1058 | the writer's own stream ranges pass under every order of the sort, because an empty stream still takes an offset of its own |
| `BlockTheorems.LayoutRoundTrip` | rust/format/data_frame.rs:188-261 | a built header parses back to exactly its column and stream tables |
| `BlockTheorems.EncodedBlockParses` | rust/write/encode/mod.rs:87-274 | a built block is aligned, within limits, and passes the walk's header checks with its own rows and base |
| `BlockTheorems.BlockRoundTrip` | rust/read/decode.rs:76-236 | decoding an encoded block restores its rows if and only if its planned charge fits the block allowance, and is a resource limit otherwise, for every valid schema and every choice of encodings the encoder accepts |
| `BlockTheorems.PartConfirmed` | rust/validate/statistics.rs:40-75 | the statistics stored with a column are confirmed by the column's own cells |
| `AllowanceRun.NullBlockEncodes` | rust/write/input.rs:164-171 | nullable columns of any number of null rows a block may hold are encoded to a frame without payload |
| `AllowanceRun.NullsAreAffordableExactly` | rust/read/decode.rs:418-423 | such a block is affordable if and only if nine bytes a cell are |
| `AllowanceRun.EightNullColumnsAreUnreadable` | rust/limits.rs:45 | eight such columns of 16,777,216 rows encode, and the default limits refuse to decode them |
| `AllowanceRun.SomePublishedFileIsUnreadable` | rust/write/writer.rs:667-741 | a session publishes that block without a failure into a file that walks, and a full read of it is a resource limit |
| `BlockSizes.FootprintCounts` | rust/write/buffer.rs:30-66 | per-column counters equal the counts and bytes the encoder stores |
| `BlockSizes.ColumnPriceExact` | rust/write/buffer.rs:175-242 | the price of a column is its exact padded payload and stream count |
| `BlockSizes.RawBlockIsPriced` | rust/write/buffer.rs:79-116 | a block within the format limits is never refused by the raw encoder, its payload is exactly as priced and its header at most, exactly when no float is NaN |
| `Pricing.PriceGrows` | rust/write/buffer.rs:79-143 | pricing is monotone in rows through the validity and statistics branches and saturation |
| `Pricing.PriceIsAligned` | rust/write/buffer.rs:226-242 | every price within limits is a multiple of eight and equals a frame length |
| `Assembler.BlocksAreBounded` | rust/write/writer.rs:585-663 | every published block has one to the target's rows, fits the format, and fits the byte target or holds one row; the rest stays below both targets |
| `Assembler.RowsAreConserved` | rust/write/writer.rs:483-520 | published blocks and buffer hold exactly the earlier rows and the rows taken, in order |
| `Assembler.ZeroPrefixNeedsBuffer` | rust/write/writer.rs:585-626 | a zero prefix only occurs with a nonempty buffer, so publishing makes progress |
| `Assembler.ChunkingIndependence` | rust/write/writer.rs:483-520 | blocks and buffer depend only on the concatenated rows, however appended, if and only if no block ties with the byte target |
| `Assembler.UnalignedTargetHasNoTie` | rust/write/writer.rs:655-663 | a byte target that is not a multiple of eight never ties |
| `Assembler.ChunkingMattersAtATie` | rust/write/writer.rs:483-520 | one Int8 column with target 232: eight rows at once make one block, one at a time make eight |
| `AppendAccepts.AppendAcceptsExactly` | rust/write/writer.rs:585-626 | an append takes the whole batch if and only if every row could be written alone |
| `Buffer.BlockBuffer.Push` | rust/write/buffer.rs:301-311 | contents grow by the chunk, and counters and price stay those of the contents |
| `Buffer.BlockBuffer.Clear` | rust/write/buffer.rs:314-319 | the buffer is empty and its counters are zero |
| `Buffer.FittingRows` | rust/write/writer.rs:585-626 | the incremental pricing loop finds the longest prefix the block accepts |
| `Contents.PublishedRows` | rust/write/writer.rs:667-741 | publishing an encoded block adds exactly its rows to what a full read yields, or makes the read a resource limit exactly when the block is not affordable |
| `Contents.ReadBackExactly` | rust/read/reader.rs:668-735 | reading written blocks one after another yields all their rows if and only if each is affordable |
| `Contents.RowsAreLocal` | rust/read/reader.rs:668-735 | the rows of committed blocks depend only on the committed bytes |
| `Sessions.FrameAdvances` | rust/write/writer.rs:667-741 | a published frame whose counters fit moves the walk on by that frame, its sequence and its row IDs, and a full read by its rows or its refusal |
| `Writer.Writer.constructor` | rust/write/writer.rs:442-466 | a session starts at the walk's own end with empty buffer, zero counters and an empty book |
| `Writer.Writer.SelectEncodings` | rust/write/encode/mod.rs:336-364 | the choices are those the policy allows: raw, the one fixed transform, or any |
| `Writer.Writer.Commit` | rust/write/writer.rs:705-741 | advances every counter together, or none and poisons |
| `Writer.Writer.PublishBuffer` | rust/write/writer.rs:667-700 | success publishes the buffer as one block; a refusal changes nothing and never happens to the raw policy; other failures poison and keep the committed bytes and every row |
| `Writer.Writer.WriteFrame` | rust/write/writer.rs:691-700 | a write that stops anywhere leaves the committed frames and a prefix of one frame |
| `Writer.Writer.PublishIfComplete` | rust/write/writer.rs:655-663 | publishes exactly when a target is reached |
| `Writer.Writer.Append` | rust/write/writer.rs:483-520 | rejected batches change nothing; success gives exactly the greedy assembly with the buffer below both targets; otherwise the rows accepted are the earlier ones and a prefix of the batch |
| `Writer.Writer.AppendSlices` | rust/write/writer.rs:505-520 | the slicing loop ends and computes the same assembly as the whole-batch path |
| `Writer.Writer.Flush` | rust/write/writer.rs:524-531 | success leaves nothing buffered; no row is lost either way |
| `Writer.Writer.Sync` | rust/write/writer.rs:534-543 | durable counters follow the published ones only on success |
| `Writer.Writer.Finish` | rust/write/writer.rs:550-563 | after success the file walks to its own end, and a full read yields what it held followed by every row accepted, if and only if each block written is affordable; the summary counts them |
| `Writer.Writer.Accounting` | rust/write/writer.rs:565-579 | rows and priced bytes of what is buffered, published and durable, the durable ones being the blocks the last sync covered, and their saturated totals |
| `Writer.Open` | rust/write/writer.rs:325-411 | under any limits, opens exactly complete, undamaged files whose schema, fixed transform and row-ID option are admissible, in the order the code checks them, writing nothing, at the continuation point of the walk |
| `Writer.Create` | rust/write/writer.rs:166-213 | success leaves exactly the prologue and schema frame; failure, a fixed transform not offered included, leaves nothing |
| `Books.KeepsCounted` | rust/write/writer.rs:667-741 | a whole frame whose counters fit is published, and file, counters, book and run of events agree on it |
| `Books.KeepsTorn` | rust/write/writer.rs:691-700 | a write that stops after any number of bytes keeps the committed frames and is one event of the run |
| `Books.PagesAreEvents` | rust/write/writer.rs:483-563 | whatever a session did between two moments is a run of publish, tear and fail events from the one file and state to the other |
| `Books.SessionIsCrashSafe` | rust/write/writer.rs:483-757 | the file any valid writer stands on walks if and only if none of its events overflowed the counters; it then reads back what it held and every block written whole, and a healthy writer stands at its end |
| `Widening.WalkWidens` | rust/write/writer.rs:313-331 | a complete file walks to the same end under any wider limits |
| `CrashSafety.RunsAreCrashSafe` | rust/write/writer.rs:667-757 | after any run the walk succeeds if and only if no whole frame overflowed the counters; a full read then yields exactly the rows written whole if and only if each block is affordable, and a healthy session stands at the end of the file |
| `CrashSafety.RunIsCrashSafe` | rust/write/writer.rs:667-757 | the same from any sound file, such as one a session has just opened |
| `CrashSafety.EventKeeps` | rust/write/writer.rs:667-757 | every single event keeps the file committed frames plus a strict prefix of one, except an overflowing one |
| `CrashSafety.BrokenStays` | rust/recovery.rs:198-206 | an overflowed file can be neither opened, extended nor repaired |
| `OverflowRun.SomeRunEndsInCorruption` | rust/write/writer.rs:692-741 | there is a run whose every write completes and whose file is then corrupt to every walk |
| `Opening.ReaderOpensExactly` | rust/read/reader.rs:212-298 | a file that walks opens for reading if and only if its blocks and rows fit the reader's counters, with the same blocks |
| `Opening.RunsAreReadable` | rust/read/reader.rs:212-298 | the same after any run that never overflows |
| `Opening.RepairedFileReopens` | rust/write/writer.rs:333-411 | a repaired file opens for append at the sequence and row ID the torn file's walk reached, under the limits that walked it |
| `Recovery.EveryWalkPlans` | rust/recovery.rs:304-342 | both corruption branches of planning are dead: every walk supports exactly one plan |
| `Recovery.TruncationKeepsCommitted` | rust/recovery.rs:237-243 | cutting at the last good offset keeps every block, sequence and row ID and leaves no tail |
| `Recovery.RepairedFilePlans` | rust/recovery.rs:260-302 | a repaired file plans nothing, so a second repair is refused |
| `Recovery.FinishRepair` | rust/recovery.rs:260-302 | succeeds only on a complete file of the planned length, with a summary that adds up |
| `Recovery.RepairLockedFile` | rust/recovery.rs:208-251 | success truncates to exactly the last good offset; the after-truncation marker appears exactly when the truncation happened; any other failure leaves the bytes alone |
| `Reader.RefreshRefinesReopen` | rust/read/reader.rs:357-504 | over the same committed bytes, refresh succeeds exactly when reopening would, with the same error otherwise and the same snapshot |
| `Reader.OpenFacts` | rust/read/reader.rs:212-298 | a snapshot records the walk's end, its blocks, row total and last commit trailer |
| `Reader.CachedBasesAreSums` | rust/read/reader.rs:783-794 | the cached base of each block is the sum of all earlier row counts |
| `Tails.LiveReader.Refresh` | rust/read/reader.rs:357-504 | computes the refresh, and every failure leaves the reader unchanged |
| `Tails.RefreshGrows` | rust/read/reader.rs:413-460 | a refresh only appends blocks, reports how many, and never passes the block limit |
| `Tails.Tail.PollNext` | rust/read/tail.rs:124-147 | blocks are consumed in order, each once; the poll returns the outcome, rows or error, of the newest block it consumed and those before it yielded nothing; or every block is consumed and it returns what the refresh came to: nothing new, its own error with the reader unchanged, or a byte counter that is full; every poll ends |
| `Tails.Tail.DecodeNext` | rust/read/tail.rs:164-221 | consumes exactly the next block; its entry, error or not, is what a scan of the bytes seen makes of it with what is left of the tail's allowances |
| `Tails.TailIsScan` | rust/read/tail.rs:164-221 | each outcome, errors included, is the scan of its block with the account the tail had left, in any file that keeps its committed bytes |
| `Tails.TailRowsAreScanRows` | rust/read/tail.rs:124-221 | a tail that met no error has delivered exactly the rows of a scan over the blocks it consumed, in order, none lost and none twice |
| `Scans.ScanIsFilter` | rust/read/scan.rs:356-428 | when blocks decode, a pruned scan yields in order exactly the full read's rows in the range, projected |
| `Scans.FileScanIsFilter` | rust/read/scan.rs:173-228 | over every block of a file that reads in full, scanning is filtering the full read by primary value and projecting |
| `Scans.FilterIsMatching` | rust/read/scan.rs:194-228 | slicing between partition points equals the linear filter on sorted values |
| `Scans.FindPartitionPoint` | rust/read/scan.rs:205-212 | binary search finds the number of leading values below the bound |
| `Scans.PrunedMatchesNothing` | rust/read/scan.rs:173-186 | pruning by verified bounds drops no matching row |
| `Scans.SelectedAgrees` | rust/read/decode.rs:156-236 | where a full decode succeeds, a projected one does too, within the same allowance, and gives exactly the projected columns and primary values |
| `Scans.ProjectionIsCheaper` | rust/read/decode.rs:184-211 | a projection of distinct columns, with the primary decoded for a range or not, never owes more than the whole block |
| `Scans.WalkRecords` | rust/format/data_frame.rs:71-101 | every block a walk finds is recorded as its header declares it |
| `Scanning.Scan.Next` | rust/read/scan.rs:356-428 | every block is consumed once, in order; blocks passed over yield nothing and are charged exactly their row count and what their decode owes; the last one yields its own item or error if the account it meets affords it, and a resource limit if and only if it does not or its own decode is one |
| `Scanning.Collect` | rust/read/scan.rs:356-428 | draining a scan succeeds if and only if every unpruned block decodes and the allowances and counters cover the sum of what the blocks owe; it then yields exactly the rows of the scan, having charged exactly that sum |
| `Scanning.Consume` | rust/read/scan.rs:359-425 | counting, charging, reading, decoding and filtering one block step by step: outcome, charges and counters are those of the account it met |
| `Scanning.AffordsExactly` | rust/read/scan.rs:359-425 | a block is affordable exactly when the account covers its rows, its decoded bytes and its counts |
| `Scanning.PaidInFull` | rust/read/budget.rs:42-58 | a block that gives its item has been charged all it owes, to both allowances |
| `Scanning.BillConcat` | rust/read/scan.rs:356-428 | what a run of blocks owes is the sum of what its parts owe |
| `Budgets.Budget.Charge` | rust/read/budget.rs:42-58 | charges both allowances or neither, exactly when the lesser covers it; what is left is the allowance minus all successful charges |
| `Budgets.ScanBudget.ChargeRows` | rust/read/budget.rs:156-162 | a refused row charge changes nothing |
| `Budgets.ScanBudget.RecordBlock` | rust/read/budget.rs:164-178 | counts a block considered, and pruned when it was |
| `Budgets.ExpandDictionary` | rust/read/values.rs:76-84 | one charge is made before anything is built, the result is the pointwise lookup, and it costs no more than the charge, for byte-valued and fixed-width columns alike |
| `Budgets.ExpandRuns` | rust/read/values.rs:87-103 | the same for run values and their lengths |
| `Budgets.ExpandConstant` | rust/read/values.rs:65-73 | the same for one stored value repeated |
| `Budgets.ScatterRows` | rust/read/values.rs:107-124 | a column that cannot move into place is charged one slot a row before it is scattered |
| `Budgets.CopiesAreCovered` | rust/read/values.rs:126-142 | copies of stored values cost no more than the price of the dearest stored value, each |
| `Budgets.PaidThen` | rust/read/budget.rs:42-58 | steps that pay what is due compose: what two steps owe in turn is what both owe |
| `Decoder.StreamBytes` | rust/read/decode.rs:763-823 | stored bytes are paid for before they are read and before their checksum is known |
| `Decoder.Stored` | rust/read/decode.rs:522-634 | stored values of every type: payload, split buffer and values are charged in turn, and a failure charges what came before it |
| `Decoder.Values` | rust/read/decode.rs:636-663 | values with their lengths are charged and read in the order of the code |
| `Decoder.DictionaryLayout` | rust/read/decode.rs:461-489 | indices, dictionary and expansion |
| `Decoder.RunLayout` | rust/read/decode.rs:491-516 | run lengths twice over, run values and expansion |
| `Decoder.CheckRunLengths` | rust/read/decode.rs:695-728 | the running total accepts exactly positive lengths that sum to the dense count |
| `Decoder.ColumnRows` | rust/read/decode.rs:277-316 | a column pays its charges one by one until the allowance or the column fails, and otherwise decodes to its cells |
| `Decoder.SelectedColumns` | rust/read/decode.rs:184-186 | the selected columns pay and decode in turn up to the first that fails |
| `Decoder.Rebuilt` | rust/read/decode.rs:156-236 | a projected decode pays exactly what its columns and its primary verification owe, and ends in its own outcome exactly when all of it could be paid |
| `Decoder.DecodeForScan` | rust/read/decode.rs:100-124 | the scan is charged exactly what the block owes as far as the lesser allowance goes; the decode is the unmetered one when the scan can pay |
| `Decoder.DecodeWhole` | rust/read/decode.rs:76-97 | the metered full decode computes the block reading the round trip is about |

## Left out

- Zstandard: streams are stored uncompressed; a stream descriptor with another codec is refused as unsupported.
- File locks, the removal of a partial file and file identity are a caller's exclusive access, an emptied sink and an equality test.
- Error messages, offsets and contexts: an error is its kind, plus the two recovery markers.
- Allocation failure and platform word size: integers are unbounded with explicit 64-bit checks where the counters live.
- The cost model that picks adaptive encodings: the writer may pick any encoding for any column, and the theorems hold for each choice.
- Deferred transform and codec checks for unselected columns: a projected decode checks the whole stream table.
- Column-table and stream-table parsing, schema descriptor checks and stream lookup are recursive functions; the source loops over local vectors.
- A block is re-read by the frame at its recorded offset; the source reads by recorded lengths.
- The reader's behaviour when a file changes between two system calls of one operation.
- Overflow checks on file offsets, which a file of fewer than 2^64 bytes never meets.
- Checkpoint frames, validation levels, the command line, option builders and accessors.
- The counters of streams decoded and of bytes read by a decode, which only a metric shows; the bytes a refresh scans are counted.
- Scanning.Scan.Next: the path opens for every block of one scan or for none; the source retries the open at each block until it succeeds, as `Tails.Tail` does.
