/** The rows a file holds: every committed block decoded, in file order. */
module Contents {
  import opened Core
  import opened Bytes
  import opened Limits
  import opened Rows
  import opened Frame
  import opened DataFrame
  import opened Walk
  import opened WalkTheorems
  import opened Blocks
  import BlockTheorems
  import SchemaFrame

  /** The header and payload of the frame at a committed block, or why they cannot be read. */
  function BlockAt(file: seq<byte>, ctx: Context, offset: nat, sequence: nat): Result<Block> {
    if offset >= |file| then Err(ErrorKind.IncompleteTail)
    else
      var read :- ReadFrameIn(file[offset..], sequence, ctx.limits);
      match read
      case None => Err(ErrorKind.IncompleteTail)
      case Some(prefix) =>
        CompleteFrameShape(file[offset..], sequence, ctx.limits);
        var h := offset + PREFIX_SIZE;
        var p := h + prefix.headerLength;
        Ok(Block(file[h..p], file[p..p + prefix.payloadLength]))
  }

  function RowsAt(file: seq<byte>, ctx: Context, b: BlockMetadata): Result<seq<Row>> {
    var block :- BlockAt(file, ctx, b.fileOffset, b.sequence);
    DecodeBlock(block, ctx.schema, ctx.prologue.RowIds(), b.baseRowId, ctx.limits)
  }

  function RowsOfBlocks(file: seq<byte>, ctx: Context, blocks: seq<BlockMetadata>): Result<seq<Row>> {
    if blocks == [] then Ok([])
    else
      var before :- RowsOfBlocks(file, ctx, blocks[..|blocks| - 1]);
      var rows :- RowsAt(file, ctx, blocks[|blocks| - 1]);
      Ok(before + rows)
  }

  /** Every row a full read of the file yields. */
  function FileRows(file: seq<byte>, limits: Limits): Result<seq<Row>> {
    var (scan, walk) :- WalkFile(file, limits, Discard);
    RowsOfBlocks(file, scan.ctx, walk.end.blocks)
  }

  // --------------------------------------------------------------------- locality

  /** A complete frame lies at this block's offset, with this block's length. */
  ghost predicate Framed(file: seq<byte>, ctx: Context, b: BlockMetadata) {
    && b.fileOffset < |file|
    && var read := ReadFrameIn(file[b.fileOffset..], b.sequence, ctx.limits);
    && read.Ok? && read.value.Some? && read.value.value.TotalLength() == b.totalLength
    && b.fileOffset + b.totalLength <= |file|
  }

  ghost predicate AllFramed(file: seq<byte>, ctx: Context, c: Cursor) {
    forall i :: 0 <= i < |c.blocks| ==>
      Framed(file, ctx, c.blocks[i]) && c.blocks[i].fileOffset + c.blocks[i].totalLength <= c.offset
  }

  lemma StepFrames(file: seq<byte>, ctx: Context, c: Cursor)
    requires c.offset < |file| && Step(file, ctx, c).Ok? && Step(file, ctx, c).value.Some?
    ensures
      var c' := Step(file, ctx, c).value.value;
      |c'.blocks| == |c.blocks| + 1 && Framed(file, ctx, c'.blocks[|c.blocks|])
  {
    hide ReadFrameIn, ParseBlock;
    CompleteFrameShape(file[c.offset..], c.sequence, ctx.limits);
  }

  lemma {:induction false} ReachesFrames(file: seq<byte>, ctx: Context, a: Cursor, b: Cursor, n: nat)
    requires Reaches(file, ctx, a, b, n) && AllFramed(file, ctx, a)
    ensures AllFramed(file, ctx, b)
    decreases n
  {
    hide Step, Framed;
    if n > 0 {
      var c := Step(file, ctx, a).value.value;
      StepFacts(file, ctx, a);
      StepFrames(file, ctx, a);
      assert forall i :: 0 <= i < |a.blocks| ==> c.blocks[i] == c.blocks[..|a.blocks|][i];
      ReachesFrames(file, ctx, c, b, n - 1);
    }
  }

  lemma WalkFrames(file: seq<byte>, limits: Limits, visitor: Visitor)
    requires WalkFile(file, limits, visitor).Ok?
    ensures
      var (scan, walk) := WalkFile(file, limits, visitor).value;
      AllFramed(file, scan.ctx, walk.end)
  {
    hide Step, OpenScan, Framed;
    var (scan, walk) := WalkFile(file, limits, visitor).value;
    var start := StartCursor(scan, visitor);
    ReachesFrames(file, scan.ctx, start, walk.end, FramesRead(file, scan.ctx, start));
  }

  lemma BlockAtIsLocal(f: seq<byte>, g: seq<byte>, ctx: Context, b: BlockMetadata, end: nat)
    requires Framed(f, ctx, b) && b.fileOffset + b.totalLength <= end <= |f| && end <= |g| && f[..end] == g[..end]
    ensures BlockAt(g, ctx, b.fileOffset, b.sequence) == BlockAt(f, ctx, b.fileOffset, b.sequence)
  {
    hide ReadFrameIn;
    var offset := b.fileOffset;
    CompleteFrameShape(f[offset..], b.sequence, ctx.limits);
    assert f[offset..][..b.totalLength] == f[..end][offset..offset + b.totalLength];
    assert g[offset..][..b.totalLength] == g[..end][offset..offset + b.totalLength];
    FrameIsLocal(f[offset..], g[offset..], b.sequence, ctx.limits);
    var prefix := ReadFrameIn(f[offset..], b.sequence, ctx.limits).value.value;
    var h := offset + PREFIX_SIZE;
    var p := h + prefix.headerLength;
    var e := p + prefix.payloadLength;
    SharedSlice(f, g, end, h, p);
    SharedSlice(f, g, end, p, e);
  }

  lemma {:induction false} RowsAreLocal(f: seq<byte>, g: seq<byte>, ctx: Context, blocks: seq<BlockMetadata>, end: nat)
    requires end <= |f| && end <= |g| && f[..end] == g[..end]
    requires forall i :: 0 <= i < |blocks| ==> Framed(f, ctx, blocks[i]) && blocks[i].fileOffset + blocks[i].totalLength <= end
    ensures RowsOfBlocks(g, ctx, blocks) == RowsOfBlocks(f, ctx, blocks)
  {
    hide Framed, BlockAt, DecodeBlock;
    if blocks != [] {
      var n := |blocks| - 1;
      RowsAreLocal(f, g, ctx, blocks[..n], end);
      BlockAtIsLocal(f, g, ctx, blocks[n], end);
    }
  }

  // ------------------------------------------------------------------- publishing

  lemma BlockOfBuiltFrame(before: seq<byte>, ctx: Context, sequence: u64, header: seq<byte>, payload: seq<byte>)
    requires sequence >= FIRST_DATA_FRAME_SEQUENCE && Readable(sequence, header, payload, ctx.limits)
    ensures BlockAt(before + DataFrameBytes(sequence, header, payload), ctx, |before|, sequence) == Ok(Block(header, payload))
  {
    hide ReadFrameIn, FrameBytes;
    var frame := DataFrameBytes(sequence, header, payload);
    var file := before + frame;
    assert file[|before|..] == frame + [];
    FrameRoundTrip(sequence, header, payload, ctx.limits, []);
    HeaderOfBuiltFrame(sequence, header, payload);
    var h := |before| + PREFIX_SIZE;
    var p := h + |header|;
    SliceAfter(before, frame, PREFIX_SIZE, PREFIX_SIZE + |header|);
    SliceAfter(before, frame, PREFIX_SIZE + |header|, PREFIX_SIZE + |header| + |payload|);
  }

  /** A block that was written whole, and the encodings it was written with. */
  datatype Written = Written(plan: Plan, rows: seq<Row>) {
    predicate Valid() {
      plan.Valid() && ValidRows(plan.schema, rows) && 0 < |rows| < U32
    }

    /** What a full read makes of it: its rows, if the reader can afford them. */
    function Outcome(limits: Limits): Result<seq<Row>>
      requires Valid()
    {
      if Affordable(plan, rows, limits) then Ok(rows) else Err(ResourceLimit)
    }
  }

  /** The rows of a file before and after one more block. */
  function ThenRows(before: Result<seq<Row>>, after: Result<seq<Row>>): Result<seq<Row>> {
    var earlier :- before;
    var later :- after;
    Ok(earlier + later)
  }

  predicate AllValid(written: seq<Written>) {
    forall i :: 0 <= i < |written| ==> written[i].Valid()
  }

  /** What a full read yields of a file that yielded `initial`, after more blocks were written. */
  function ReadBack(initial: Result<seq<Row>>, written: seq<Written>, limits: Limits): Result<seq<Row>>
    requires AllValid(written)
  {
    if written == [] then initial
    else ThenRows(ReadBack(initial, written[..|written| - 1], limits), written[|written| - 1].Outcome(limits))
  }

  predicate AllAffordable(written: seq<Written>, limits: Limits)
    requires AllValid(written)
  {
    forall i :: 0 <= i < |written| ==> Affordable(written[i].plan, written[i].rows, limits)
  }

  function RowsWritten(written: seq<Written>): seq<Row> {
    if written == [] then [] else RowsWritten(written[..|written| - 1]) + written[|written| - 1].rows
  }

  /** Written blocks read back, in order, if and only if the reader can afford every one of them. */
  lemma {:induction false} ReadBackExactly(initial: Result<seq<Row>>, written: seq<Written>, limits: Limits)
    requires AllValid(written)
    ensures
      ReadBack(initial, written, limits)
      == if initial.Err? then initial
         else if AllAffordable(written, limits) then Ok(initial.value + RowsWritten(written))
         else Err(ResourceLimit)
  {
    hide Affordable;
    if written == [] {
      assert initial.Ok? ==> initial.value + [] == initial.value;
    } else {
      var n := |written| - 1;
      ReadBackExactly(initial, written[..n], limits);
      assert AllAffordable(written, limits) <==>
             AllAffordable(written[..n], limits) && Affordable(written[n].plan, written[n].rows, limits);
      if initial.Ok? {
        assert (initial.value + RowsWritten(written[..n])) + written[n].rows == initial.value + RowsWritten(written);
      }
    }
  }

  /** What the encoder hands the framer fits at the end of the file. */
  lemma EncodedFitsAt(ctx: Context, c: Cursor, plan: Plan, rows: seq<Row>)
    requires plan.Valid() && ValidRows(plan.schema, rows) && rows != [] && ctx.schema == plan.schema
    requires Generous(ctx.limits) && 1 <= c.sequence < U64
    requires ctx.prologue.RowIds() == c.nextRowId.Some? && (c.nextRowId.Some? ==> c.nextRowId.value < U64)
    requires EncodeBlock(plan, rows, c.nextRowId).Ok?
    ensures
      var block := EncodeBlock(plan, rows, c.nextRowId).value;
      var info := InfoOf(plan.schema, rows, c.nextRowId);
      FitsAt(ctx, c, block.header, block.payload, info) && info.rowCount == |rows| && info.baseRowId == c.nextRowId
  {
    hide EncodeBlock, ParseBlock, ValidRows, SchemaFrame.Valid, InfoOf;
    BlockTheorems.EncodedBlockParses(plan, rows, c.nextRowId);
  }

  /** Publishing an encoded block adds exactly its own outcome to what a full read yields. */
  lemma PublishedRows(
      file: seq<byte>, limits: Limits, scan: FileScan, end: Cursor, plan: Plan, rows: seq<Row>, next: Cursor)
    requires WalkFile(file, limits, Discard) == Ok((scan, Walk(end, false)))
    requires Generous(limits) && plan.Valid() && ValidRows(plan.schema, rows) && rows != [] && scan.ctx.schema == plan.schema
    requires EncodeBlock(plan, rows, end.nextRowId).Ok?
    requires
      var block := EncodeBlock(plan, rows, end.nextRowId).value;
      && FitsAt(scan.ctx, end, block.header, block.payload, InfoOf(plan.schema, rows, end.nextRowId))
      && Advance(end, MetadataAt(end, block.header, block.payload), InfoOf(plan.schema, rows, end.nextRowId), limits) == Ok(next)
    requires end.nextRowId.Some? ==> end.nextRowId.value < U64
    requires scan.ctx.prologue.RowIds() == end.nextRowId.Some?
    ensures Written(plan, rows).Valid()
    ensures
      var block := EncodeBlock(plan, rows, end.nextRowId).value;
      FileRows(file + DataFrameBytes(end.sequence, block.header, block.payload), limits)
      == ThenRows(FileRows(file, limits), Written(plan, rows).Outcome(limits))
  {
    hide WalkFile, EncodeBlock, ParseBlock, BlockAt, DecodeBlock, InfoOf, ValidRows, SchemaFrame.Valid, DataFrameBytes,
         Advance, Framed, Affordable;
    var block := EncodeBlock(plan, rows, end.nextRowId).value;
    var after := file + DataFrameBytes(end.sequence, block.header, block.payload);
    AppendedFrameIsDiscovered(file, limits, Discard, scan, end, block.header, block.payload, InfoOf(plan.schema, rows, end.nextRowId));
    WalkAppended(file, [], limits, Discard, scan, end);
    AdvanceBlocks(end, MetadataAt(end, block.header, block.payload), InfoOf(plan.schema, rows, end.nextRowId), limits);
    BlockTheorems.InfoRows(plan.schema, rows, end.nextRowId);
    WalkFrames(file, limits, Discard);
    assert after[..|file|] == file == file[..|file|];
    RowsAreLocal(file, after, scan.ctx, end.blocks, |file|);
    BlockOfBuiltFrame(file, scan.ctx, end.sequence, block.header, block.payload);
    BlockTheorems.BlockRoundTrip(plan, rows, end.nextRowId, limits);
    var n := |end.blocks|;
    assert next.blocks[..n] == end.blocks;
  }

  lemma AdvanceBlocks(c: Cursor, frame: FrameMetadata, info: BlockInfo, limits: Limits)
    requires Advance(c, frame, info, limits).Ok?
    ensures
      var next := Advance(c, frame, info, limits).value;
      && |next.blocks| == |c.blocks| + 1 && next.blocks[..|c.blocks|] == c.blocks
      && var b := next.blocks[|c.blocks|];
      && b.fileOffset == frame.frameOffset && b.sequence == frame.sequence && b.baseRowId == info.baseRowId
      && b.rowCount == info.rowCount
  {
  }
}
