/**
 * The one forward walk over a file that every entry point shares: validate the prologue
 * and the schema frame, then read data frames in order until the file ends or a frame is
 * not yet complete.
 */
module Walk {
  import opened Core
  import opened Bytes
  import opened Limits
  import opened Frame
  import opened DataFrame
  import opened Schema
  import Prologue
  import SchemaFrame

  const FIRST_DATA_FRAME_SEQUENCE: nat := 1

  /** Metadata of one complete, committed data block. */
  datatype BlockMetadata = BlockMetadata(
    sequence: nat,
    fileOffset: nat,
    totalLength: nat,
    rowCount: nat,
    baseRowId: Option<nat>,
    bounds: Option<Bounds>,
    sorted: bool)

  /** What the prologue and the schema frame settle for every later frame. */
  datatype Context = Context(prologue: Prologue.Prologue, schema: Schema, limits: Limits)

  /** What a caller does with each block: nothing, or count it into a bounded snapshot. */
  datatype Visitor = Discard | Counting(count: nat, rows: nat)

  function Visit(visitor: Visitor, rowCount: nat, limits: Limits): Result<Visitor> {
    match visitor
    case Discard => Ok(Discard)
    case Counting(count, rows) =>
      if count >= limits.maxBlocks then Err(ResourceLimit)
      else if rows + rowCount >= U64 then Err(Corruption)
      else Ok(Counting(count + 1, rows + rowCount))
  }

  /** How far a walk has come.  `blocks` lists the frames this walk itself has read. */
  datatype Cursor = Cursor(
    offset: nat,
    sequence: nat,
    frameCount: nat,
    nextRowId: Option<nat>,
    scanned: nat,
    visitor: Visitor,
    blocks: seq<BlockMetadata>)

  datatype Walk = Walk(end: Cursor, incompleteTail: bool)

  /** The row ID after a block, which must still be representable. */
  function AdvanceRowId(expected: Option<nat>, info: BlockInfo): Result<Option<nat>> {
    match info.baseRowId
    case None => Ok(expected)
    case Some(base) => if base + info.rowCount < U64 then Ok(Some(base + info.rowCount)) else Err(Corruption)
  }

  /** The cursor after a frame whose block header declares `info`. */
  function Advance(c: Cursor, frame: FrameMetadata, info: BlockInfo, limits: Limits): Result<Cursor> {
    var nextRowId :- AdvanceRowId(c.nextRowId, info);
    var visitor :- Visit(c.visitor, info.rowCount, limits);
    if c.sequence + 1 >= U64 || c.frameCount + 1 >= U64 then Err(Corruption)
    else
      var block := BlockMetadata(
        frame.sequence, frame.frameOffset, frame.TotalLength(), info.rowCount, info.baseRowId, info.bounds, info.sorted);
      Ok(Cursor(c.offset + frame.TotalLength(), c.sequence + 1, c.frameCount + 1, nextRowId,
                c.scanned + frame.TotalLength(), visitor, c.blocks + [block]))
  }

  /** The frame at the cursor; None when the file ends inside it. */
  function FrameAt(file: seq<byte>, ctx: Context, c: Cursor): (r: Result<Option<FrameMetadata>>)
    requires c.offset < |file|
    ensures r.Ok? && r.value.Some? ==>
              var frame := r.value.value;
              && frame.frameOffset == c.offset && frame.sequence == c.sequence
              && 0 < frame.TotalLength() <= |file| - c.offset
              && (frame.frameType == DATA_FRAME_TYPE ==> frame.headerLength >= DATA_BLOCK_HEADER_SIZE)
  {
    var read :- ReadFrameIn(file[c.offset..], c.sequence, ctx.limits);
    match read
    case None => Ok(None)
    case Some(prefix) =>
      CompleteFrameShape(file[c.offset..], c.sequence, ctx.limits);
      Ok(Some(FrameMetadata(prefix.frameType, prefix.sequence, c.offset, prefix.headerLength, prefix.payloadLength)))
  }

  /** The cursor after a complete frame, if its block header parses and its counters fit. */
  function StepOver(file: seq<byte>, ctx: Context, c: Cursor, frame: FrameMetadata): (r: Result<Cursor>)
    requires frame.frameOffset == c.offset && 0 < frame.TotalLength() <= |file| - c.offset
    requires frame.frameType == DATA_FRAME_TYPE ==> frame.headerLength >= DATA_BLOCK_HEADER_SIZE
    ensures r.Ok? ==> r.value.offset == c.offset + frame.TotalLength()
  {
    if frame.frameType != DATA_FRAME_TYPE then Err(Corruption)
    else
      var header := file[frame.HeaderOffset()..frame.HeaderOffset() + 64];
      var info :- ParseBlock(header, frame.headerLength, ctx.schema, ctx.prologue.RowIds(), c.nextRowId);
      Advance(c, frame, info, ctx.limits)
  }

  /** Read one frame; None when the file ends inside it. */
  function Step(file: seq<byte>, ctx: Context, c: Cursor): (r: Result<Option<Cursor>>)
    requires c.offset < |file|
    ensures r.Ok? && r.value.Some? ==> c.offset < r.value.value.offset <= |file|
  {
    match FrameAt(file, ctx, c)
    case Err(kind) => Err(kind)
    case Ok(None) => Ok(None)
    case Ok(Some(frame)) =>
      match StepOver(file, ctx, c, frame)
      case Err(kind) => Err(kind)
      case Ok(next) => Ok(Some(next))
  }

  lemma CompleteFrameShape(rest: seq<byte>, sequence: nat, limits: Limits)
    ensures
      var read := ReadFrameIn(rest, sequence, limits);
      read.Ok? && read.value.Some? ==>
        && read.value.value.TotalLength() <= |rest|
        && (read.value.value.frameType == DATA_FRAME_TYPE ==> read.value.value.headerLength >= DATA_BLOCK_HEADER_SIZE)
        && read.value.value.sequence == sequence
        && read.value.value.frameType == ExpectedFrameType(sequence)
  {
    hide PrefixIntact, BodyIntact, PrefixFields;
  }

  /** Walk from a committed boundary to the end of the file. */
  function WalkFrom(file: seq<byte>, ctx: Context, c: Cursor): Result<Walk>
    decreases |file| - c.offset
  {
    if c.offset >= |file| then Ok(Walk(c, false))
    else
      var next :- Step(file, ctx, c);
      match next
      case None => Ok(Walk(c, true))
      case Some(c') => WalkFrom(file, ctx, c')
  }

  /** An opened file: its context and where its data frames begin. */
  datatype FileScan = FileScan(ctx: Context, first: nat)

  /** Validate everything that precedes the first data frame. */
  function OpenScan(file: seq<byte>, limits: Limits): Result<FileScan> {
    var prologue :- Prologue.Read(file);
    var read :- ReadFrameIn(file[Prologue.PROLOGUE_SIZE..], 0, limits);
    match read
    case None => Err(ErrorKind.IncompleteTail)
    case Some(prefix) =>
      CompleteFrameShape(file[Prologue.PROLOGUE_SIZE..], 0, limits);
      var header := Prologue.PROLOGUE_SIZE + PREFIX_SIZE;
      var payload := header + prefix.headerLength;
      var schema :- SchemaFrame.Parse(file[header..payload], file[payload..payload + prefix.payloadLength], limits);
      Ok(FileScan(Context(prologue, schema, limits), Prologue.PROLOGUE_SIZE + prefix.TotalLength()))
  }

  function StartCursor(scan: FileScan, visitor: Visitor): Cursor {
    Cursor(scan.first, FIRST_DATA_FRAME_SEQUENCE, 1, if scan.ctx.prologue.RowIds() then Some(0) else None, 0, visitor, [])
  }

  /** Discover a whole file. */
  function WalkFile(file: seq<byte>, limits: Limits, visitor: Visitor): Result<(FileScan, Walk)> {
    var scan :- OpenScan(file, limits);
    var walk :- WalkFrom(file, scan.ctx, StartCursor(scan, visitor));
    Ok((scan, walk))
  }

  // ------------------------------------------------------------------- steps

  /** `b` is `n` complete frames after `a`. */
  predicate Reaches(file: seq<byte>, ctx: Context, a: Cursor, b: Cursor, n: nat)
    decreases n
  {
    if n == 0 then a == b
    else
      && a.offset < |file|
      && Step(file, ctx, a).Ok? && Step(file, ctx, a).value.Some?
      && Reaches(file, ctx, Step(file, ctx, a).value.value, b, n - 1)
  }

  /** A walk may be resumed at any boundary it has passed. */
  lemma {:induction false} WalkResumes(file: seq<byte>, ctx: Context, a: Cursor, b: Cursor, n: nat)
    requires Reaches(file, ctx, a, b, n)
    ensures WalkFrom(file, ctx, a) == WalkFrom(file, ctx, b)
    decreases n
  {
    hide Step;
    if n > 0 {
      WalkResumes(file, ctx, Step(file, ctx, a).value.value, b, n - 1);
    }
  }

  lemma {:induction false} ReachesGrows(file: seq<byte>, ctx: Context, a: Cursor, b: Cursor, n: nat)
    requires Reaches(file, ctx, a, b, n)
    ensures a.offset <= b.offset && (n > 0 ==> a.offset < b.offset <= |file|)
    decreases n
  {
    hide Step;
    if n > 0 {
      ReachesGrows(file, ctx, Step(file, ctx, a).value.value, b, n - 1);
    }
  }

  /** The number of complete frames a successful walk reads. */
  function FramesRead(file: seq<byte>, ctx: Context, c: Cursor): (n: nat)
    requires WalkFrom(file, ctx, c).Ok?
    ensures Reaches(file, ctx, c, WalkFrom(file, ctx, c).value.end, n)
    decreases |file| - c.offset
  {
    if c.offset >= |file| || Step(file, ctx, c).value.None? then 0
    else 1 + FramesRead(file, ctx, Step(file, ctx, c).value.value)
  }

  /** Where a successful walk stops: at the end of the file, or before an incomplete frame. */
  lemma {:induction false} WalkStops(file: seq<byte>, ctx: Context, c: Cursor)
    requires WalkFrom(file, ctx, c).Ok? && c.offset <= |file|
    ensures
      var walk := WalkFrom(file, ctx, c).value;
      if walk.incompleteTail
      then walk.end.offset < |file| && Step(file, ctx, walk.end) == Ok(None)
      else walk.end.offset == |file|
    decreases |file| - c.offset
  {
    hide Step;
    if c.offset < |file| && Step(file, ctx, c).value.Some? {
      WalkStops(file, ctx, Step(file, ctx, c).value.value);
    }
  }

  // ---------------------------------------------------------------- locality

  /** A step that completes a frame depends only on the bytes up to that frame's end. */
  lemma StepIsLocal(f: seq<byte>, g: seq<byte>, ctx: Context, c: Cursor)
    requires c.offset < |f| && Step(f, ctx, c).Ok? && Step(f, ctx, c).value.Some?
    requires
      var end := Step(f, ctx, c).value.value.offset;
      end <= |f| && end <= |g| && f[..end] == g[..end]
    ensures Step(g, ctx, c) == Step(f, ctx, c)
  {
    hide ReadFrameIn, ParseBlock;
    var end := Step(f, ctx, c).value.value.offset;
    var prefix := ReadFrameIn(f[c.offset..], c.sequence, ctx.limits).value.value;
    var total := prefix.TotalLength();
    SharedSlice(f, g, end, c.offset, end);
    assert f[c.offset..][..total] == f[c.offset..end];
    assert g[c.offset..][..total] == g[c.offset..end];
    FrameIsLocal(f[c.offset..], g[c.offset..], c.sequence, ctx.limits);
    CompleteFrameShape(f[c.offset..], c.sequence, ctx.limits);
    var h := c.offset + PREFIX_SIZE;
    SharedSlice(f, g, end, h, h + 64);
  }

  lemma {:induction false} ReachesIsLocal(f: seq<byte>, g: seq<byte>, ctx: Context, a: Cursor, b: Cursor, n: nat)
    requires Reaches(f, ctx, a, b, n) && a.offset <= |g|
    requires b.offset <= |f| && b.offset <= |g| && f[..b.offset] == g[..b.offset]
    ensures Reaches(g, ctx, a, b, n)
    decreases n
  {
    hide Step;
    if n > 0 {
      var m := Step(f, ctx, a).value.value;
      ReachesGrows(f, ctx, m, b, n - 1);
      assert f[..m.offset] == f[..b.offset][..m.offset] && g[..m.offset] == g[..b.offset][..m.offset];
      StepIsLocal(f, g, ctx, a);
      ReachesIsLocal(f, g, ctx, m, b, n - 1);
    }
  }

  lemma ScanIsLocal(f: seq<byte>, g: seq<byte>, limits: Limits)
    requires OpenScan(f, limits).Ok?
    requires
      var first := OpenScan(f, limits).value.first;
      first <= |f| && first <= |g| && f[..first] == g[..first]
    ensures OpenScan(g, limits) == OpenScan(f, limits)
  {
    hide ReadFrameIn, Prologue.Parse, SchemaFrame.Parse;
    var first := OpenScan(f, limits).value.first;
    var start := Prologue.PROLOGUE_SIZE;
    assert f[..start] == f[..first][..start] && g[..start] == g[..first][..start];
    var prefix := ReadFrameIn(f[start..], 0, limits).value.value;
    var total := prefix.TotalLength();
    SharedSlice(f, g, first, start, first);
    assert f[start..][..total] == f[start..first] && g[start..][..total] == g[start..first];
    FrameIsLocal(f[start..], g[start..], 0, limits);
    CompleteFrameShape(f[start..], 0, limits);
    var header := start + PREFIX_SIZE;
    var payload := header + prefix.headerLength;
    SharedSlice(f, g, first, header, payload);
    SharedSlice(f, g, first, payload, payload + prefix.payloadLength);
  }

  lemma ScanShape(file: seq<byte>, limits: Limits)
    requires OpenScan(file, limits).Ok?
    ensures Prologue.PROLOGUE_SIZE < OpenScan(file, limits).value.first <= |file|
  {
    hide ReadFrameIn, Prologue.Parse, SchemaFrame.Parse;
    CompleteFrameShape(file[Prologue.PROLOGUE_SIZE..], 0, limits);
  }
}
