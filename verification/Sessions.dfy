/** The point where the next frame goes, and what one frame adds to the file there. */
module Sessions {
  import opened Core
  import opened Bytes
  import opened Limits
  import opened Schema
  import opened Rows
  import opened Frame
  import opened DataFrame
  import opened Walk
  import opened WalkTheorems
  import opened Blocks
  import opened Contents
  import SchemaFrame
  import BlockTheorems

  /** The file-global point where the next frame goes. */
  datatype AppendState = AppendState(fileLength: nat, nextSequence: nat, nextRowId: nat)

  /** The continuation point at the end of a complete file. */
  function StateAt(committed: seq<byte>, end: Cursor): AppendState {
    AppendState(|committed|, end.sequence, match end.nextRowId case Some(id) => id case None => 0)
  }

  function Advanced(state: AppendState, rowIds: bool, frameLength: nat, rowCount: nat): AppendState {
    AppendState(state.fileLength + frameLength, state.nextSequence + 1, state.nextRowId + if rowIds then rowCount else 0)
  }

  /** The first `kept` bytes of a data frame that fits at the committed end. */
  ghost predicate TornFrom(
      ctx: Context, end: Cursor, tail: seq<byte>, header: seq<byte>, payload: seq<byte>, info: BlockInfo, kept: nat)
  {
    && FitsAt(ctx, end, header, payload, info)
    && kept <= FrameLength(|header|, |payload|)
    && tail == DataFrameBytes(end.sequence, header, payload)[..kept]
  }

  // ------------------------------------------------------------ what a frame adds

  lemma EndFacts(file: seq<byte>, limits: Limits, scan: FileScan, end: Cursor)
    requires WalkFile(file, limits, Discard) == Ok((scan, Walk(end, false)))
    ensures end.offset == |file| && end.sequence == end.frameCount && end.sequence >= 1 && end.visitor == Discard
    ensures end.nextRowId.Some? == scan.ctx.prologue.RowIds() && scan.ctx.limits == limits
  {
    hide Step, OpenScan, Chained;
    WalkIsChained(file, limits, Discard);
    ScanContext(file, limits);
    ChainedCounts(scan, end);
    VisitorKept(file, scan.ctx, StartCursor(scan, Discard));
  }

  lemma ChainedCounts(scan: FileScan, c: Cursor)
    requires Chained(scan, c)
    ensures c.sequence == c.frameCount && c.sequence >= 1 && c.nextRowId.Some? == scan.ctx.prologue.RowIds()
  {
  }

  /** The encoder, the schema and the file agree on what comes next. */
  ghost predicate Ready(limits: Limits, scan: FileScan, file: seq<byte>, end: Cursor, plan: Plan, rows: seq<Row>) {
    && WalkFile(file, limits, Discard) == Ok((scan, Walk(end, false)))
    && Generous(limits) && plan.Valid() && scan.ctx.schema == plan.schema
    && ValidRows(plan.schema, rows) && rows != []
    && end.sequence < U64 && (end.nextRowId.Some? ==> end.nextRowId.value < U64)
    && EncodeBlock(plan, rows, end.nextRowId).Ok?
  }

  lemma FrameFits(limits: Limits, scan: FileScan, file: seq<byte>, end: Cursor, plan: Plan, rows: seq<Row>)
    requires Ready(limits, scan, file, end, plan, rows)
    ensures
      var block := EncodeBlock(plan, rows, end.nextRowId).value;
      FitsAt(scan.ctx, end, block.header, block.payload, InfoOf(plan.schema, rows, end.nextRowId))
  {
    hide WalkFile, EncodeBlock, InfoOf, SchemaFrame.Valid, ValidRows, FitsAt;
    EndFacts(file, limits, scan, end);
    EncodedFitsAt(scan.ctx, end, plan, rows);
  }

  function NextRowId(id: Option<nat>, rows: nat): Option<nat> {
    match id case Some(n) => Some(n + rows) case None => None
  }

  /** A published frame whose counters fit moves the walk on by exactly that frame and its rows. */
  lemma FrameAdvances(limits: Limits, scan: FileScan, file: seq<byte>, end: Cursor, plan: Plan, rows: seq<Row>)
      returns (next: Cursor)
    requires Ready(limits, scan, file, end, plan, rows)
    requires end.sequence + 1 < U64 && (end.nextRowId.Some? ==> end.nextRowId.value + |rows| < U64)
    ensures
      var block := EncodeBlock(plan, rows, end.nextRowId).value;
      var after := file + DataFrameBytes(end.sequence, block.header, block.payload);
      && WalkFile(after, limits, Discard) == Ok((scan, Walk(next, false)))
      && next.sequence == end.sequence + 1 && next.nextRowId == NextRowId(end.nextRowId, |rows|)
      && Written(plan, rows).Valid()
      && FileRows(after, limits) == ThenRows(FileRows(file, limits), Written(plan, rows).Outcome(limits))
  {
    hide WalkFile, EncodeBlock, InfoOf, SchemaFrame.Valid, ValidRows, DataFrameBytes, FileRows, ParseBlock, Affordable;
    var block := EncodeBlock(plan, rows, end.nextRowId).value;
    var info := InfoOf(plan.schema, rows, end.nextRowId);
    EndFacts(file, limits, scan, end);
    FrameFits(limits, scan, file, end, plan, rows);
    BlockTheorems.InfoRows(plan.schema, rows, end.nextRowId);
    var advanced := Advance(end, MetadataAt(end, block.header, block.payload), info, limits);
    assert advanced.Ok?;
    next := advanced.value;
    AppendedFrameIsDiscovered(file, limits, Discard, scan, end, block.header, block.payload, info);
    PublishedRows(file, limits, scan, end, plan, rows, next);
  }

  lemma ReadyEncodes(limits: Limits, scan: FileScan, file: seq<byte>, end: Cursor, plan: Plan, rows: seq<Row>)
    requires Ready(limits, scan, file, end, plan, rows)
    ensures plan.Valid() && ValidRows(plan.schema, rows) && rows != [] && EncodeBlock(plan, rows, end.nextRowId).Ok?
  {
  }

  lemma {:induction false} CountersFit(file: seq<byte>, ctx: Context, c: Cursor)
    requires c.sequence < U64 && (c.nextRowId.Some? ==> c.nextRowId.value < U64) && WalkFrom(file, ctx, c).Ok?
    ensures
      var end := WalkFrom(file, ctx, c).value.end;
      end.sequence < U64 && (end.nextRowId.Some? ==> end.nextRowId.value < U64)
    decreases |file| - c.offset
  {
    hide ReadFrameIn, ParseBlock;
    if c.offset < |file| && Step(file, ctx, c).value.Some? {
      CountersFit(file, ctx, Step(file, ctx, c).value.value);
    }
  }
}
