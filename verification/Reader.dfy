/** Snapshots of a file, and extending a snapshot with the frames committed since. */
module Reader {
  import opened Core
  import opened Bytes
  import opened Limits
  import opened Frame
  import opened DataFrame
  import opened Schema
  import opened Walk
  import opened WalkTheorems
  import Prologue

  /** File-level metadata retained by a snapshot. */
  datatype FileMetadata = FileMetadata(
    prologue: Prologue.Prologue,
    schemaId: nat,
    fileSize: nat,
    lastGoodOffset: nat,
    frameCount: nat,
    blockCount: nat,
    totalRows: nat,
    incompleteTail: bool,
    nextSequence: nat,
    nextRowId: Option<nat>,
    commitAnchor: seq<byte>)

  /** A metadata-first snapshot of one file. */
  datatype Snapshot = Snapshot(
    limits: Limits,
    identity: int,
    schema: Schema,
    metadata: FileMetadata,
    blocks: seq<BlockMetadata>)

  /** What a path names at one moment. */
  datatype PathView = Missing | Present(identity: int, bytes: seq<byte>)

  /** What one refresh added to a snapshot. */
  datatype RefreshReport = RefreshReport(
    blocksAdded: nat,
    rowsAdded: nat,
    previousFileSize: nat,
    observedFileSize: nat,
    incompleteTail: bool,
    frameBytesScanned: nat)

  /** The stored commit trailer of the frame that ends at `end`. */
  function ReadCommitTrailer(file: seq<byte>, end: nat): Result<seq<byte>> {
    if TRAILER_SIZE <= end <= |file| then Ok(file[end - TRAILER_SIZE..end]) else Err(Corruption)
  }

  /** The metadata a walk that ended at `walk` establishes. */
  function MetadataOf(scan: FileScan, file: seq<byte>, walk: Walk, anchor: seq<byte>, blockCount: nat, totalRows: nat)
    : FileMetadata
  {
    FileMetadata(
      scan.ctx.prologue, scan.ctx.schema.schemaId, |file|, walk.end.offset, walk.end.frameCount, blockCount, totalRows,
      walk.incompleteTail, walk.end.sequence, walk.end.nextRowId, anchor)
  }

  function RowsSeen(visitor: Visitor): nat {
    match visitor
    case Discard => 0
    case Counting(_, rows) => rows
  }

  /** Open a file and discover everything committed in it. */
  function Open(file: seq<byte>, identity: int, limits: Limits): Result<Snapshot> {
    var (scan, walk) :- WalkFile(file, limits, Counting(0, 0));
    var anchor :- ReadCommitTrailer(file, walk.end.offset);
    Ok(Snapshot(limits, identity, scan.ctx.schema,
                MetadataOf(scan, file, walk, anchor, |walk.end.blocks|, RowsSeen(walk.end.visitor)), walk.end.blocks))
  }

  /** Where a refresh resumes: every field is carried from the walk that made the snapshot. */
  function ResumePoint(snapshot: Snapshot): Cursor {
    var m := snapshot.metadata;
    Cursor(m.lastGoodOffset, m.nextSequence, m.frameCount, m.nextRowId, 0,
           Counting(m.blockCount, m.totalRows), [])
  }

  /** The snapshot and report after a resumed walk of a grown file. */
  function Extend(snapshot: Snapshot, scan: FileScan, file: seq<byte>, walk: Walk, anchor: seq<byte>)
    : (Snapshot, RefreshReport)
  {
    var added := |walk.end.blocks|;
    var rows := RowsSeen(walk.end.visitor);
    var before := snapshot.metadata;
    (snapshot.(metadata := MetadataOf(scan, file, walk, anchor, before.blockCount + added, rows),
               blocks := snapshot.blocks + walk.end.blocks),
     RefreshReport(added, if rows >= before.totalRows then rows - before.totalRows else 0,
                   before.fileSize, |file|, walk.incompleteTail, walk.end.scanned))
  }

  /** Refresh against what the path names now: the new snapshot and its report, or the error. */
  function Refresh(snapshot: Snapshot, view: PathView): Result<(Snapshot, RefreshReport)> {
    match view
    case Missing => Err(Io)
    case Present(identity, bytes) =>
      var m := snapshot.metadata;
      var _ :- Check(identity == snapshot.identity, FileReplaced);
      var _ :- Check(|bytes| >= m.lastGoodOffset, FileTruncated);
      var anchor :- ReadCommitTrailer(bytes, m.lastGoodOffset);
      var _ :- Check(anchor == m.commitAnchor, FileReplaced);
      if |bytes| == m.lastGoodOffset then
        Ok((snapshot.(metadata := m.(fileSize := |bytes|, incompleteTail := false)),
            RefreshReport(0, 0, m.fileSize, |bytes|, false, 0)))
      else
        var scan :- OpenScan(bytes, snapshot.limits);
        var _ :- Check(scan.ctx.prologue == m.prologue && scan.ctx.schema == snapshot.schema, FileReplaced);
        var walk :- WalkFrom(bytes, scan.ctx, ResumePoint(snapshot));
        var newAnchor :- ReadCommitTrailer(bytes, walk.end.offset);
        Ok(Extend(snapshot, scan, bytes, walk, newAnchor))
  }

  // ------------------------------------------------------- refresh refines reopen

  /** A walk with the record of what it has already read put in front. */
  function Rebase(c: Cursor, blocks: seq<BlockMetadata>, scanned: nat): Cursor {
    c.(blocks := blocks + c.blocks, scanned := scanned + c.scanned)
  }

  lemma StepRebases(file: seq<byte>, ctx: Context, c: Cursor, blocks: seq<BlockMetadata>, scanned: nat)
    requires c.offset < |file|
    ensures
      Step(file, ctx, Rebase(c, blocks, scanned))
      == (match Step(file, ctx, c)
          case Ok(Some(next)) => Ok(Some(Rebase(next, blocks, scanned)))
          case other => other)
  {
    hide ReadFrameIn, ParseBlock;
    if Step(file, ctx, c).Ok? && Step(file, ctx, c).value.Some? {
      var next := Step(file, ctx, c).value.value;
      assert blocks + next.blocks == blocks + c.blocks + next.blocks[|c.blocks|..];
    }
  }

  lemma {:induction false} WalkRebases(file: seq<byte>, ctx: Context, c: Cursor, blocks: seq<BlockMetadata>, scanned: nat)
    ensures
      WalkFrom(file, ctx, Rebase(c, blocks, scanned))
      == (match WalkFrom(file, ctx, c)
          case Ok(walk) => Ok(Walk(Rebase(walk.end, blocks, scanned), walk.incompleteTail))
          case Err(kind) => Err(kind))
    decreases |file| - c.offset
  {
    hide Step;
    if c.offset < |file| {
      StepRebases(file, ctx, c, blocks, scanned);
      if Step(file, ctx, c).Ok? && Step(file, ctx, c).value.Some? {
        WalkRebases(file, ctx, Step(file, ctx, c).value.value, blocks, scanned);
      }
    }
  }

  /** What opening a file leaves in the snapshot, in terms of the walk behind it. */
  lemma OpenFacts(file: seq<byte>, identity: int, limits: Limits)
    requires Open(file, identity, limits).Ok?
    ensures
      var (scan, walk) := WalkFile(file, limits, Counting(0, 0)).value;
      var s := Open(file, identity, limits).value;
      && Chained(scan, walk.end) && walk.end.offset <= |file|
      && scan.ctx == Context(s.metadata.prologue, s.schema, limits)
      && Rebase(ResumePoint(s), s.blocks, walk.end.scanned) == walk.end
      && s.metadata.blockCount == |s.blocks| && s.metadata.totalRows == RowSum(s.blocks)
      && TRAILER_SIZE <= s.metadata.lastGoodOffset
      && s.metadata.commitAnchor == file[s.metadata.lastGoodOffset - TRAILER_SIZE..s.metadata.lastGoodOffset]
  {
    hide WalkFrom, OpenScan;
    WalkIsChained(file, limits, Counting(0, 0));
    ScanContext(file, limits);
    var (scan, walk) := WalkFile(file, limits, Counting(0, 0)).value;
    ChainKeepsVisitor(scan, file, limits);
    assert walk.end.blocks + [] == walk.end.blocks;
  }

  lemma ChainKeepsVisitor(scan: FileScan, file: seq<byte>, limits: Limits)
    requires WalkFile(file, limits, Counting(0, 0)).Ok?
    ensures WalkFile(file, limits, Counting(0, 0)).value.1.end.visitor.Counting?
  {
    hide Step, OpenScan;
    var scan := WalkFile(file, limits, Counting(0, 0)).value.0;
    VisitorKept(file, scan.ctx, StartCursor(scan, Counting(0, 0)));
  }

  /** The snapshot is exactly what opening `file` would give. */
  ghost predicate SnapshotOf(snapshot: Snapshot, file: seq<byte>) {
    Open(file, snapshot.identity, snapshot.limits) == Ok(snapshot)
  }

  /** `file` still begins with the bytes `snapshot` committed. */
  ghost predicate KeepsCommitted(snapshot: Snapshot, was: seq<byte>, file: seq<byte>) {
    var end := snapshot.metadata.lastGoodOffset;
    end <= |was| && end <= |file| && file[..end] == was[..end]
  }

  lemma AnchorKept(snapshot: Snapshot, was: seq<byte>, file: seq<byte>)
    requires SnapshotOf(snapshot, was) && KeepsCommitted(snapshot, was, file)
    ensures ReadCommitTrailer(file, snapshot.metadata.lastGoodOffset) == Ok(snapshot.metadata.commitAnchor)
  {
    hide WalkFile;
    OpenFacts(was, snapshot.identity, snapshot.limits);
    var end := snapshot.metadata.lastGoodOffset;
    assert file[end - TRAILER_SIZE..end] == file[..end][end - TRAILER_SIZE..];
    assert was[end - TRAILER_SIZE..end] == was[..end][end - TRAILER_SIZE..];
  }

  /** Reopening a file that kept the committed bytes only has to walk what follows them. */
  lemma ReopenResumes(snapshot: Snapshot, was: seq<byte>, file: seq<byte>) returns (scan: FileScan, scanned: nat)
    requires SnapshotOf(snapshot, was) && KeepsCommitted(snapshot, was, file)
    ensures OpenScan(file, snapshot.limits) == Ok(scan)
    ensures scan.ctx == Context(snapshot.metadata.prologue, snapshot.schema, snapshot.limits)
    ensures
      WalkFile(file, snapshot.limits, Counting(0, 0))
      == (match WalkFrom(file, scan.ctx, ResumePoint(snapshot))
          case Ok(walk) => Ok((scan, Walk(Rebase(walk.end, snapshot.blocks, scanned), walk.incompleteTail)))
          case Err(kind) => Err(kind))
  {
    hide WalkFrom, OpenScan, Chained, ResumePoint;
    OpenFacts(was, snapshot.identity, snapshot.limits);
    var found := WalkFile(was, snapshot.limits, Counting(0, 0)).value;
    var walk := found.1;
    scan, scanned := found.0, walk.end.scanned;
    WalkThroughCommitted(was, file, snapshot.limits, Counting(0, 0), scan, walk);
    WalkRebases(file, scan.ctx, ResumePoint(snapshot), snapshot.blocks, scanned);
  }

  /**
   * Refresh refines reopen.  If the path still names the same file and that file kept the
   * committed bytes, refresh succeeds exactly when a fresh open would, with the same error
   * when neither does, and the refreshed snapshot is the reopened one.
   */
  lemma RefreshRefinesReopen(snapshot: Snapshot, was: seq<byte>, file: seq<byte>)
    requires SnapshotOf(snapshot, was) && KeepsCommitted(snapshot, was, file)
    ensures
      match Refresh(snapshot, Present(snapshot.identity, file))
      case Ok((newer, _)) => Open(file, snapshot.identity, snapshot.limits) == Ok(newer)
      case Err(kind) => Open(file, snapshot.identity, snapshot.limits) == Err(kind)
  {
    hide WalkFrom, OpenScan, Step, WalkFile;
    AnchorKept(snapshot, was, file);
    var scan, _ := ReopenResumes(snapshot, was, file);
    var m := snapshot.metadata;
    if |file| == m.lastGoodOffset {
      WalkAtEnd(file, scan.ctx, ResumePoint(snapshot));
      assert snapshot.blocks + [] == snapshot.blocks;
      OpenFactsCounts(snapshot, was);
    } else {
      OpenFactsCounts(snapshot, was);
    }
  }

  lemma WalkAtEnd(file: seq<byte>, ctx: Context, c: Cursor)
    requires c.offset == |file|
    ensures WalkFrom(file, ctx, c) == Ok(Walk(c, false))
  {
  }

  lemma OpenFactsCounts(snapshot: Snapshot, was: seq<byte>)
    requires SnapshotOf(snapshot, was)
    ensures snapshot.metadata.blockCount == |snapshot.blocks|
    ensures snapshot.metadata.schemaId == snapshot.schema.schemaId
  {
    hide WalkFrom, OpenScan;
    OpenFacts(was, snapshot.identity, snapshot.limits);
  }

  /**
   * The base row ID cached for each block is the sum of the row counts of every block before
   * it, so a decode may expect it without re-deriving the sum.
   */
  lemma CachedBasesAreSums(snapshot: Snapshot, file: seq<byte>, i: nat)
    requires SnapshotOf(snapshot, file) && i < |snapshot.blocks|
    ensures snapshot.blocks[i].baseRowId
         == if snapshot.metadata.prologue.RowIds() then Some(RowSum(snapshot.blocks[..i])) else None
  {
    hide WalkFrom, OpenScan;
    OpenFacts(file, snapshot.identity, snapshot.limits);
    var scan := WalkFile(file, snapshot.limits, Counting(0, 0)).value.0;
    assert Link(scan, snapshot.blocks, i);
  }
}
