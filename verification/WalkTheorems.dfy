/** What every accepted walk guarantees about the file under it. */
module WalkTheorems {
  import opened Core
  import opened Bytes
  import opened Limits
  import opened Frame
  import opened DataFrame
  import opened Schema
  import opened Walk
  import Prologue
  import SchemaFrame
  import opened Crc32c

  // ------------------------------------------------------ frame and row-ID chain

  function RowSum(blocks: seq<BlockMetadata>): nat {
    if blocks == [] then 0 else RowSum(blocks[..|blocks| - 1]) + blocks[|blocks| - 1].rowCount
  }

  /** The byte after the first `i` blocks of a file whose data frames begin at `first`. */
  function BlockEnd(first: nat, blocks: seq<BlockMetadata>, i: nat): nat
    requires i <= |blocks|
  {
    if i == 0 then first else blocks[i - 1].fileOffset + blocks[i - 1].totalLength
  }

  /** Block `i` continues the blocks before it in bytes, in sequence number and in row IDs. */
  ghost predicate Link(scan: FileScan, blocks: seq<BlockMetadata>, i: nat)
    requires i < |blocks|
  {
    && blocks[i].sequence == i + 1
    && blocks[i].fileOffset == BlockEnd(scan.first, blocks, i)
    && blocks[i].totalLength >= FrameLength(DATA_BLOCK_HEADER_SIZE, 0)
    && blocks[i].rowCount > 0
    && blocks[i].baseRowId == (if scan.ctx.prologue.RowIds() then Some(RowSum(blocks[..i])) else None)
  }

  /**
   * The chain a walk has verified: its blocks tile the bytes from the first data frame to
   * the cursor with no gap, are numbered from one without a hole, and with row IDs on each
   * base is the sum of all earlier row counts.
   */
  ghost predicate Chained(scan: FileScan, c: Cursor) {
    && c.sequence == c.frameCount == 1 + |c.blocks|
    && c.offset == BlockEnd(scan.first, c.blocks, |c.blocks|)
    && c.scanned == c.offset - scan.first
    && c.nextRowId == (if scan.ctx.prologue.RowIds() then Some(RowSum(c.blocks)) else None)
    && (forall i :: 0 <= i < |c.blocks| ==> Link(scan, c.blocks, i))
    && (c.visitor.Counting? ==> c.visitor == Counting(|c.blocks|, RowSum(c.blocks)))
  }

  /** Everything one completed step says about the cursor after it. */
  lemma StepFacts(file: seq<byte>, ctx: Context, c: Cursor)
    requires c.offset < |file| && Step(file, ctx, c).Ok? && Step(file, ctx, c).value.Some?
    ensures
      var c' := Step(file, ctx, c).value.value;
      && |c'.blocks| == |c.blocks| + 1 && c'.blocks[..|c.blocks|] == c.blocks
      && var b := c'.blocks[|c.blocks|];
      && b.sequence == c.sequence && b.fileOffset == c.offset
      && b.totalLength >= FrameLength(DATA_BLOCK_HEADER_SIZE, 0) && b.rowCount > 0
      && c'.offset == c.offset + b.totalLength && c'.scanned == c.scanned + b.totalLength
      && c'.sequence == c.sequence + 1 && c'.frameCount == c.frameCount + 1
      && (ctx.prologue.RowIds() && c.nextRowId.Some? ==>
            b.baseRowId == c.nextRowId && c'.nextRowId == Some(c.nextRowId.value + b.rowCount))
      && (!ctx.prologue.RowIds() ==> b.baseRowId == None && c'.nextRowId == c.nextRowId)
      && (c.visitor.Counting? ==> c'.visitor == Counting(c.visitor.count + 1, c.visitor.rows + b.rowCount))
      && (c.visitor.Discard? ==> c'.visitor == Discard)
  {
    hide ReadFrameIn, FromLe;
    CompleteFrameShape(file[c.offset..], c.sequence, ctx.limits);
  }

  lemma LinkExtends(scan: FileScan, blocks: seq<BlockMetadata>, longer: seq<BlockMetadata>, i: nat)
    requires i < |blocks| <= |longer| && longer[..|blocks|] == blocks && Link(scan, blocks, i)
    ensures Link(scan, longer, i)
  {
    assert longer[i] == longer[..|blocks|][i];
    assert longer[..i] == longer[..|blocks|][..i];
    if i > 0 {
      assert longer[i - 1] == longer[..|blocks|][i - 1];
    }
  }

  lemma ChainStep(file: seq<byte>, scan: FileScan, c: Cursor)
    requires Chained(scan, c)
    requires c.offset < |file| && Step(file, scan.ctx, c).Ok? && Step(file, scan.ctx, c).value.Some?
    ensures Chained(scan, Step(file, scan.ctx, c).value.value)
  {
    hide Step, Link;
    StepFacts(file, scan.ctx, c);
    var c' := Step(file, scan.ctx, c).value.value;
    NewLink(scan, c, c');
    forall i | 0 <= i < |c'.blocks| ensures Link(scan, c'.blocks, i) {
      if i < |c.blocks| {
        LinkExtends(scan, c.blocks, c'.blocks, i);
      }
    }
  }

  lemma NewLink(scan: FileScan, c: Cursor, c': Cursor)
    requires Chained(scan, c)
    requires |c'.blocks| == |c.blocks| + 1 && c'.blocks[..|c.blocks|] == c.blocks
    requires
      var b := c'.blocks[|c.blocks|];
      && b.sequence == c.sequence && b.fileOffset == c.offset
      && b.totalLength >= FrameLength(DATA_BLOCK_HEADER_SIZE, 0) && b.rowCount > 0
      && b.baseRowId == c.nextRowId
    ensures Link(scan, c'.blocks, |c.blocks|)
    ensures RowSum(c'.blocks) == RowSum(c.blocks) + c'.blocks[|c.blocks|].rowCount
  {
    var n := |c.blocks|;
    if n > 0 {
      assert c'.blocks[n - 1] == c'.blocks[..n][n - 1];
    }
  }

  lemma {:induction false} ChainReaches(file: seq<byte>, scan: FileScan, a: Cursor, b: Cursor, n: nat)
    requires Chained(scan, a) && Reaches(file, scan.ctx, a, b, n)
    ensures Chained(scan, b)
    decreases n
  {
    hide Step, Chained;
    if n > 0 {
      ChainStep(file, scan, a);
      ChainReaches(file, scan, Step(file, scan.ctx, a).value.value, b, n - 1);
    }
  }

  /** Every accepted walk of a whole file has verified the whole chain. */
  lemma WalkIsChained(file: seq<byte>, limits: Limits, visitor: Visitor)
    requires visitor in {Discard, Counting(0, 0)}
    requires WalkFile(file, limits, visitor).Ok?
    ensures
      var (scan, walk) := WalkFile(file, limits, visitor).value;
      && Chained(scan, walk.end)
      && walk.end.offset <= |file|
      && (walk.incompleteTail <==> walk.end.offset < |file|)
  {
    hide Step, OpenScan;
    var (scan, walk) := WalkFile(file, limits, visitor).value;
    var start := StartCursor(scan, visitor);
    var n := FramesRead(file, scan.ctx, start);
    assert Chained(scan, start);
    hide Chained;
    ChainReaches(file, scan, start, walk.end, n);
    ScanShape(file, limits);
    WalkStops(file, scan.ctx, start);
  }

  // ------------------------------------------------------------ damage detection

  lemma StepDamage(file: seq<byte>, ctx: Context, c: Cursor, i: nat, x: byte)
    requires c.offset < |file| && Step(file, ctx, c).Ok? && Step(file, ctx, c).value.Some?
    requires c.offset <= i < Step(file, ctx, c).value.value.offset && file[i] != x
    ensures Step(file[i := x], ctx, c) == Err(Corruption)
  {
    hide ReadFrameIn, ParseBlock;
    CompleteFrameShape(file[c.offset..], c.sequence, ctx.limits);
    FrameDamageIsCorruption(file[c.offset..], c.sequence, ctx.limits, i - c.offset, x);
    assert file[i := x][c.offset..] == file[c.offset..][i - c.offset := x];
  }

  lemma {:induction false} WalkDamage(file: seq<byte>, ctx: Context, c: Cursor, i: nat, x: byte)
    requires WalkFrom(file, ctx, c).Ok?
    requires c.offset <= i < WalkFrom(file, ctx, c).value.end.offset && i < |file| && file[i] != x
    ensures WalkFrom(file[i := x], ctx, c) == Err(Corruption)
    decreases |file| - c.offset
  {
    hide Step;
    var next := Step(file, ctx, c).value.value;
    if i < next.offset {
      StepDamage(file, ctx, c, i, x);
    } else {
      assert file[..next.offset] == file[i := x][..next.offset];
      StepIsLocal(file, file[i := x], ctx, c);
      WalkDamage(file, ctx, next, i, x);
    }
  }

  lemma SchemaDamage(file: seq<byte>, limits: Limits, i: nat, x: byte)
    requires OpenScan(file, limits).Ok?
    requires i < OpenScan(file, limits).value.first && i < |file| && file[i] != x
    ensures OpenScan(file[i := x], limits) == Err(Corruption)
  {
    hide ReadFrameIn, Prologue.Parse, SchemaFrame.Parse;
    var start := Prologue.PROLOGUE_SIZE;
    var changed := file[i := x];
    CompleteFrameShape(file[start..], 0, limits);
    if i < start {
      assert changed[..start] == file[..start][i := x];
      Prologue.DamageIsCorruption(file[..start], i, x);
    } else {
      assert changed[..start] == file[..start];
      assert changed[start..] == file[start..][i - start := x];
      FrameDamageIsCorruption(file[start..], 0, limits, i - start, x);
    }
  }

  /**
   * Changing any one byte of the committed part of a file that opens makes opening it
   * fail as corruption: never a different accepted file and never an incomplete tail.
   */
  lemma SingleByteDamageIsCorruption(file: seq<byte>, limits: Limits, visitor: Visitor, i: nat, x: byte)
    requires WalkFile(file, limits, visitor).Ok?
    requires i < WalkFile(file, limits, visitor).value.1.end.offset && i < |file| && file[i] != x
    ensures WalkFile(file[i := x], limits, visitor) == Err(Corruption)
  {
    hide Step;
    var (scan, walk) := WalkFile(file, limits, visitor).value;
    var changed := file[i := x];
    if i < scan.first {
      SchemaDamage(file, limits, i, x);
    } else {
      ScanShape(file, limits);
      assert changed[..scan.first] == file[..scan.first];
      ScanIsLocal(file, changed, limits);
      WalkDamage(file, scan.ctx, StartCursor(scan, visitor), i, x);
    }
  }

  // -------------------------------------------------------- appending and tearing

  /** A data frame the writer may put at cursor `c`. */
  ghost predicate FitsAt(ctx: Context, c: Cursor, header: seq<byte>, payload: seq<byte>, info: BlockInfo) {
    && c.sequence >= FIRST_DATA_FRAME_SEQUENCE
    && Readable(c.sequence, header, payload, ctx.limits)
    && ParseBlock(header[..64], |header|, ctx.schema, ctx.prologue.RowIds(), c.nextRowId) == Ok(info)
  }

  function DataFrameBytes(sequence: u64, header: seq<byte>, payload: seq<byte>): (bytes: seq<byte>)
    ensures |bytes| == FrameLength(|header|, |payload|)
  {
    FrameBytes(DATA_FRAME_TYPE, sequence, header, payload)
  }

  function MetadataAt(c: Cursor, header: seq<byte>, payload: seq<byte>): FrameMetadata {
    FrameMetadata(DATA_FRAME_TYPE, c.sequence, c.offset, |header|, |payload|)
  }

  /** Stepping over a whole built frame succeeds exactly when its counters still fit. */
  lemma StepOverBuiltFrame(
      before: seq<byte>, ctx: Context, c: Cursor, header: seq<byte>, payload: seq<byte>, info: BlockInfo, after: seq<byte>)
    requires c.offset == |before| && FitsAt(ctx, c, header, payload, info)
    ensures
      Step(before + DataFrameBytes(c.sequence, header, payload) + after, ctx, c)
      == (match Advance(c, MetadataAt(c, header, payload), info, ctx.limits)
          case Ok(next) => Ok(Some(next))
          case Err(kind) => Err(kind))
  {
    hide ReadFrameIn, ParseBlock, FrameBytes, Checksum;
    var frame := DataFrameBytes(c.sequence, header, payload);
    var file := before + frame + after;
    assert file[c.offset..] == frame + after;
    FrameRoundTrip(c.sequence, header, payload, ctx.limits, after);
    HeaderOfBuiltFrame(c.sequence, header, payload);
    var h := c.offset + PREFIX_SIZE;
    assert file[h..h + 64] == frame[PREFIX_SIZE..PREFIX_SIZE + 64];
    assert frame[PREFIX_SIZE..PREFIX_SIZE + 64] == frame[PREFIX_SIZE..PREFIX_SIZE + |header|][..64];
  }

  lemma HeaderOfBuiltFrame(sequence: u64, header: seq<byte>, payload: seq<byte>)
    ensures DataFrameBytes(sequence, header, payload)[PREFIX_SIZE..PREFIX_SIZE + |header|] == header
    ensures DataFrameBytes(sequence, header, payload)[PREFIX_SIZE + |header|..PREFIX_SIZE + |header| + |payload|] == payload
  {
    hide Prefix, Trailer, Checksum;
  }

  /** Stepping into a torn frame stops the walk without reporting damage. */
  lemma StepIntoTornFrame(
      before: seq<byte>, ctx: Context, c: Cursor, header: seq<byte>, payload: seq<byte>, info: BlockInfo, kept: nat)
    requires c.offset == |before| && FitsAt(ctx, c, header, payload, info)
    requires 0 < kept < FrameLength(|header|, |payload|)
    ensures Step(before + DataFrameBytes(c.sequence, header, payload)[..kept], ctx, c) == Ok(None)
  {
    hide ReadFrameIn, ParseBlock, FrameBytes, Checksum;
    var torn := DataFrameBytes(c.sequence, header, payload)[..kept];
    assert (before + torn)[c.offset..] == torn;
    TornFrameIsIncomplete(c.sequence, header, payload, ctx.limits, kept);
  }

  /** Bytes after the committed end of a file leave everything before it as it was found. */
  lemma WalkThroughCommitted(
      file: seq<byte>, after: seq<byte>, limits: Limits, visitor: Visitor, scan: FileScan, walk: Walk)
    requires WalkFile(file, limits, visitor) == Ok((scan, walk))
    requires walk.end.offset <= |file| && walk.end.offset <= |after|
    requires after[..walk.end.offset] == file[..walk.end.offset]
    ensures OpenScan(after, limits) == Ok(scan)
    ensures WalkFrom(after, scan.ctx, StartCursor(scan, visitor)) == WalkFrom(after, scan.ctx, walk.end)
  {
    hide Step, OpenScan, Reaches, WalkFrom;
    var start := StartCursor(scan, visitor);
    var n := FramesRead(file, scan.ctx, start);
    ReachesGrows(file, scan.ctx, start, walk.end, n);
    ScanShape(file, limits);
    assert after[..scan.first] == after[..walk.end.offset][..scan.first];
    assert file[..scan.first] == file[..walk.end.offset][..scan.first];
    ScanIsLocal(file, after, limits);
    ReachesIsLocal(file, after, scan.ctx, start, walk.end, n);
    WalkResumes(after, scan.ctx, start, walk.end, n);
  }

  /** Appending bytes to a file that ends at a boundary resumes the walk at that boundary. */
  lemma WalkAppended(file: seq<byte>, bytes: seq<byte>, limits: Limits, visitor: Visitor, scan: FileScan, end: Cursor)
    requires WalkFile(file, limits, visitor) == Ok((scan, Walk(end, false)))
    ensures scan.ctx.limits == limits && end.offset == |file|
    ensures WalkFile(file + bytes, limits, visitor)
         == (match WalkFrom(file + bytes, scan.ctx, end) case Ok(walk) => Ok((scan, walk)) case Err(kind) => Err(kind))
  {
    hide Step, WalkFrom, OpenScan;
    ScanContext(file, limits);
    ScanShape(file, limits);
    WalkStops(file, scan.ctx, StartCursor(scan, visitor));
    var after := file + bytes;
    assert after[..|file|] == file == file[..|file|];
    WalkThroughCommitted(file, after, limits, visitor, scan, Walk(end, false));
  }

  /** Appending a whole frame extends what is discovered by exactly that frame. */
  lemma AppendedFrameIsDiscovered(
      file: seq<byte>, limits: Limits, visitor: Visitor, scan: FileScan, end: Cursor,
      header: seq<byte>, payload: seq<byte>, info: BlockInfo)
    requires WalkFile(file, limits, visitor) == Ok((scan, Walk(end, false)))
    requires FitsAt(scan.ctx, end, header, payload, info)
    ensures
      WalkFile(file + DataFrameBytes(end.sequence, header, payload), limits, visitor)
      == (match Advance(end, MetadataAt(end, header, payload), info, limits)
          case Ok(next) => Ok((scan, Walk(next, false)))
          case Err(kind) => Err(kind))
  {
    hide Step, ParseBlock, WalkFile, Advance, WalkFrom;
    WalkAppended(file, DataFrameBytes(end.sequence, header, payload), limits, visitor, scan, end);
    WalkOverLastFrame(file, scan.ctx, end, header, payload, info);
  }

  lemma WalkOverLastFrame(
      before: seq<byte>, ctx: Context, c: Cursor, header: seq<byte>, payload: seq<byte>, info: BlockInfo)
    requires c.offset == |before| && FitsAt(ctx, c, header, payload, info)
    ensures
      WalkFrom(before + DataFrameBytes(c.sequence, header, payload), ctx, c)
      == (match Advance(c, MetadataAt(c, header, payload), info, ctx.limits)
          case Ok(next) => Ok(Walk(next, false))
          case Err(kind) => Err(kind))
  {
    hide Step, ParseBlock, FrameBytes;
    var after := before + DataFrameBytes(c.sequence, header, payload);
    assert after + [] == after;
    StepOverBuiltFrame(before, ctx, c, header, payload, info, []);
  }

  /** Tearing a frame at any byte discovers exactly what was there before it. */
  lemma TornFrameChangesNothing(
      file: seq<byte>, limits: Limits, visitor: Visitor, scan: FileScan, end: Cursor,
      header: seq<byte>, payload: seq<byte>, info: BlockInfo, kept: nat)
    requires WalkFile(file, limits, visitor) == Ok((scan, Walk(end, false)))
    requires FitsAt(scan.ctx, end, header, payload, info)
    requires kept < FrameLength(|header|, |payload|)
    ensures
      WalkFile(file + DataFrameBytes(end.sequence, header, payload)[..kept], limits, visitor)
      == Ok((scan, Walk(end, kept > 0)))
  {
    hide Step, ParseBlock, WalkFile, WalkFrom;
    WalkAppended(file, DataFrameBytes(end.sequence, header, payload)[..kept], limits, visitor, scan, end);
    WalkIntoTornFrame(file, scan.ctx, end, header, payload, info, kept);
  }

  lemma WalkIntoTornFrame(
      before: seq<byte>, ctx: Context, c: Cursor, header: seq<byte>, payload: seq<byte>, info: BlockInfo, kept: nat)
    requires c.offset == |before| && FitsAt(ctx, c, header, payload, info)
    requires kept < FrameLength(|header|, |payload|)
    ensures WalkFrom(before + DataFrameBytes(c.sequence, header, payload)[..kept], ctx, c) == Ok(Walk(c, kept > 0))
  {
    hide Step, ParseBlock, FrameBytes;
    if kept > 0 {
      StepIntoTornFrame(before, ctx, c, header, payload, info, kept);
    }
  }

  lemma ScanContext(file: seq<byte>, limits: Limits)
    requires OpenScan(file, limits).Ok?
    ensures OpenScan(file, limits).value.ctx.limits == limits
  {
  }

  /** A walk never changes what kind of visitor it carries. */
  lemma {:induction false} VisitorKept(file: seq<byte>, ctx: Context, c: Cursor)
    requires WalkFrom(file, ctx, c).Ok?
    ensures WalkFrom(file, ctx, c).value.end.visitor.Counting? <==> c.visitor.Counting?
    decreases |file| - c.offset
  {
    hide Step;
    if c.offset < |file| && Step(file, ctx, c).value.Some? {
      StepFacts(file, ctx, c);
      VisitorKept(file, ctx, Step(file, ctx, c).value.value);
    }
  }
}
