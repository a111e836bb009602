/** When a reader opens what a writer accepts: the two walks differ only in what they count. */
module Opening {
  import opened Core
  import opened Bytes
  import opened Limits
  import opened Frame
  import opened DataFrame
  import opened Walk
  import opened WalkTheorems
  import opened CrashSafety
  import opened Contents
  import opened Writer
  import Reader
  import Recovery
  import SchemaFrame

  /** The step of a counting walk, in terms of the same step counting nothing. */
  lemma StepVisits(file: seq<byte>, ctx: Context, c: Cursor, count: nat, rows: nat)
    requires c.visitor == Discard && c.offset < |file| && Step(file, ctx, c).Ok?
    ensures
      var counting := c.(visitor := Counting(count, rows));
      match Step(file, ctx, c).value
      case None => Step(file, ctx, counting) == Ok(None)
      case Some(next) =>
        && |next.blocks| == |c.blocks| + 1 && next.blocks[..|c.blocks|] == c.blocks && next.visitor == Discard
        && Step(file, ctx, counting)
           == (match Visit(Counting(count, rows), next.blocks[|c.blocks|].rowCount, ctx.limits)
               case Ok(visitor) => Ok(Some(next.(visitor := visitor)))
               case Err(kind) => Err(kind))
  {
    hide ReadFrameIn, ParseBlock;
  }

  lemma {:induction false} WalkCounts(file: seq<byte>, ctx: Context, c: Cursor, count: nat, rows: nat)
    requires c.visitor == Discard && WalkFrom(file, ctx, c).Ok? && count <= ctx.limits.maxBlocks && rows < U64
    ensures
      var walk := WalkFrom(file, ctx, c).value;
      var counted := WalkFrom(file, ctx, c.(visitor := Counting(count, rows)));
      && |walk.end.blocks| >= |c.blocks| && RowSum(walk.end.blocks) >= RowSum(c.blocks)
      && var allBlocks := count + |walk.end.blocks| - |c.blocks|;
      && var allRows := rows + RowSum(walk.end.blocks) - RowSum(c.blocks);
      if allBlocks <= ctx.limits.maxBlocks && allRows < U64
      then counted == Ok(Walk(walk.end.(visitor := Counting(allBlocks, allRows)), walk.incompleteTail))
      else counted.Err? && (counted.kind == ResourceLimit || counted.kind == Corruption)
    decreases |file| - c.offset
  {
    hide Step;
    if c.offset < |file| {
      StepVisits(file, ctx, c, count, rows);
      if Step(file, ctx, c).value.Some? {
        var next := Step(file, ctx, c).value.value;
        var n := next.blocks[|c.blocks|].rowCount;
        assert RowSum(next.blocks) == RowSum(c.blocks) + n;
        var visited := Visit(Counting(count, rows), n, ctx.limits);
        if visited.Ok? {
          WalkCounts(file, ctx, next, count + 1, rows + n);
        } else {
          WalkOnlyGrows(file, ctx, next);
        }
      }
    }
  }

  lemma {:induction false} WalkOnlyGrows(file: seq<byte>, ctx: Context, c: Cursor)
    requires WalkFrom(file, ctx, c).Ok?
    ensures
      var end := WalkFrom(file, ctx, c).value.end;
      |end.blocks| >= |c.blocks| && RowSum(end.blocks) >= RowSum(c.blocks)
    decreases |file| - c.offset
  {
    hide Step;
    if c.offset < |file| && Step(file, ctx, c).value.Some? {
      StepFacts(file, ctx, c);
      WalkOnlyGrows(file, ctx, Step(file, ctx, c).value.value);
    }
  }

  /**
   * A file a writer or recovery walks successfully opens for reading if and only if it holds
   * no more blocks than the reader's limit and fewer rows than a 64-bit counter.
   */
  lemma ReaderOpensExactly(file: seq<byte>, identity: int, limits: Limits)
    requires WalkFile(file, limits, Discard).Ok?
    ensures
      var blocks := WalkFile(file, limits, Discard).value.1.end.blocks;
      var reading := Reader.Open(file, identity, limits);
      && (reading.Ok? <==> |blocks| <= limits.maxBlocks && RowSum(blocks) < U64)
      && (reading.Ok? ==> reading.value.blocks == blocks)
  {
    hide Step, OpenScan, WalkFrom, Reader.ReadCommitTrailer;
    var (scan, walk) := WalkFile(file, limits, Discard).value;
    ScanContext(file, limits);
    WalkCounts(file, scan.ctx, StartCursor(scan, Discard), 0, 0);
    EndHasTrailer(file, limits);
  }

  lemma EndHasTrailer(file: seq<byte>, limits: Limits)
    requires WalkFile(file, limits, Discard).Ok?
    ensures Reader.ReadCommitTrailer(file, WalkFile(file, limits, Discard).value.1.end.offset).Ok?
  {
    hide Step, OpenScan;
    WalkIsChained(file, limits, Discard);
    ScanShape(file, limits);
    var (scan, walk) := WalkFile(file, limits, Discard).value;
    ChainedEnd(scan, walk.end);
  }

  lemma ChainedEnd(scan: FileScan, c: Cursor)
    requires Chained(scan, c)
    ensures c.offset >= scan.first
  {
  }

  /** After any run that never overflows, a reader sees every block unless its own counters bind. */
  lemma RunsAreReadable(o: Origin, events: seq<Event>, identity: int)
    requires o.Valid() && NeverOverflows(o, Created(o), events)
    ensures
      var file := Run(o, Created(o), events).file;
      var walked := WalkFile(file, o.limits, Discard);
      && walked.Ok?
      && (Reader.Open(file, identity, o.limits).Ok?
          <==> |walked.value.1.end.blocks| <= o.limits.maxBlocks && RowSum(walked.value.1.end.blocks) < U64)
  {
    hide WalkFile, Run, NeverOverflows, AllAffordable;
    RunsAreCrashSafe(o, events);
    ReaderOpensExactly(Run(o, Created(o), events).file, identity, o.limits);
  }

  /**
   * A repaired file opens for append with matching options and no further condition, and the
   * new session continues at the sequence and row ID the torn file's walk had reached.
   */
  lemma RepairedFileReopens(file: seq<byte>, scan: FileScan, walk: Walk, request: Request, limits: Limits)
    requires WalkFile(file, limits, Discard) == Ok((scan, walk))
    requires SchemaFrame.Valid(scan.ctx.schema) && scan.ctx.prologue.RowIds() == request.rowIds && request.encoding.Offered(scan.ctx.schema)
    ensures
      && walk.end.offset <= |file|
      && OpenRefusal(file[..walk.end.offset], request, Some(scan.ctx.schema), limits) == None
      && WalkFile(file[..walk.end.offset], limits, Discard) == Ok((scan, Walk(walk.end, false)))
  {
    hide Step, OpenScan, WalkFrom, SchemaFrame.Valid;
    WalkIsChained(file, limits, Discard);
    Recovery.TruncationKeepsCommitted(file, limits, Discard, scan, walk);
  }
}
