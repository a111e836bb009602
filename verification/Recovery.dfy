/** Recovery inspection and the one repair: truncating a verified incomplete tail. */
module Recovery {
  import opened Core
  import opened Bytes
  import opened Limits
  import opened Walk
  import opened WalkTheorems

  datatype RecoveryAction = NoAction | TruncateIncompleteTail

  datatype RecoveryPlan = RecoveryPlan(action: RecoveryAction, fileSize: nat, lastGoodOffset: nat, bytesToRemove: nat)

  datatype RecoverySummary = RecoverySummary(originalFileSize: nat, repairedFileSize: nat, bytesRemoved: nat)

  /** Which side of the truncation a failure reports. */
  datatype Marker = Unmarked | BeforeTruncation | AfterTruncation

  datatype RepairResult = Repaired(summary: RecoverySummary) | Refused(kind: ErrorKind, marker: Marker)

  /** The plan a walk supports. */
  function FromWalk(fileSize: nat, lastGoodOffset: nat, incompleteTail: bool): Result<RecoveryPlan> {
    if incompleteTail then
      if lastGoodOffset >= fileSize then Err(Corruption)
      else Ok(RecoveryPlan(TruncateIncompleteTail, fileSize, lastGoodOffset, fileSize - lastGoodOffset))
    else if lastGoodOffset != fileSize then Err(Corruption)
    else Ok(RecoveryPlan(NoAction, fileSize, lastGoodOffset, 0))
  }

  /** Walk the file and plan. */
  function Discover(file: seq<byte>, limits: Limits): Result<RecoveryPlan> {
    var (_, walk) :- WalkFile(file, limits, Discard);
    FromWalk(|file|, walk.end.offset, walk.incompleteTail)
  }

  /** Both corruption branches of `FromWalk` are dead: a real walk always supports a plan. */
  lemma EveryWalkPlans(file: seq<byte>, limits: Limits)
    requires WalkFile(file, limits, Discard).Ok?
    ensures
      var walk := WalkFile(file, limits, Discard).value.1;
      && walk.end.offset <= |file|
      && Discover(file, limits)
         == Ok(RecoveryPlan(if walk.end.offset < |file| then TruncateIncompleteTail else NoAction,
                            |file|, walk.end.offset, |file| - walk.end.offset))
  {
    hide WalkFile;
    WalkIsChained(file, limits, Discard);
  }

  /**
   * Cutting a file back to its last good offset keeps every committed frame: any walk then
   * ends at the same cursor, with the same blocks, sequence and row ID, and with no tail.
   */
  lemma TruncationKeepsCommitted(file: seq<byte>, limits: Limits, visitor: Visitor, scan: FileScan, walk: Walk)
    requires WalkFile(file, limits, visitor) == Ok((scan, walk)) && walk.end.offset <= |file|
    ensures WalkFile(file[..walk.end.offset], limits, visitor) == Ok((scan, Walk(walk.end, false)))
  {
    hide Step, OpenScan;
    var cut := file[..walk.end.offset];
    assert cut[..walk.end.offset] == cut;
    WalkThroughCommitted(file, cut, limits, visitor, scan, walk);
  }

  /** A locked file whose operations may fail at any time. */
  class LockedFile {
    var bytes: seq<byte>

    constructor (bytes: seq<byte>)
      ensures this.bytes == bytes
    {
      this.bytes := bytes;
    }

    method PhysicalLength() returns (length: Result<nat>)
      ensures length.Ok? ==> length.value == |bytes|
      ensures length.Err? ==> length.kind == Io
    {
      var fails: bool := *;
      length := if fails then Err(Io) else Ok(|bytes|);
    }

    method SetLength(length: nat) returns (ok: bool)
      requires length <= |bytes|
      modifies this
      ensures bytes == if ok then old(bytes)[..length] else old(bytes)
    {
      ok := *;
      if ok {
        bytes := bytes[..length];
      }
    }

    method Sync() returns (ok: bool) {
      ok := *;
    }
  }

  /** Everything after the one mutation: synchronize, rescan and validate. */
  method FinishRepair(file: LockedFile, limits: Limits, plan: RecoveryPlan) returns (r: Result<RecoverySummary>)
    requires plan.lastGoodOffset <= plan.fileSize
    ensures
      var complete := Discover(file.bytes, limits) == Ok(RecoveryPlan(NoAction, plan.lastGoodOffset, plan.lastGoodOffset, 0));
      match r
      case Ok(summary) =>
        && complete
        && summary == RecoverySummary(plan.fileSize, plan.lastGoodOffset, plan.fileSize - plan.lastGoodOffset)
      case Err(kind) => complete ==> kind == Io
  {
    hide WalkFile;
    var synced := file.Sync();
    if !synced {
      return Err(Io);
    }
    var post := Discover(file.bytes, limits);
    if post.Err? {
      return Err(post.kind);
    }
    if post.value.action != NoAction || post.value.fileSize != plan.lastGoodOffset
       || post.value.lastGoodOffset != plan.lastGoodOffset {
      return Err(Corruption);
    }
    if plan.fileSize < post.value.fileSize {
      return Err(Corruption);
    }
    r := Ok(RecoverySummary(plan.fileSize, post.value.fileSize, plan.fileSize - post.value.fileSize));
  }

  /**
   * Repair a locked file.  On success the file is exactly its original bytes up to the last
   * good offset.  A failure carries the after-truncation marker exactly when the truncation
   * happened, and can then only be an I/O failure; otherwise the file is unchanged.
   */
  method RepairLockedFile(file: LockedFile, limits: Limits) returns (r: RepairResult)
    modifies file
    ensures
      match Discover(old(file.bytes), limits)
      case Err(kind) => r == Refused(kind, Unmarked) && file.bytes == old(file.bytes)
      case Ok(plan) =>
        var repaired := old(file.bytes)[..plan.lastGoodOffset];
        match r
        case Repaired(summary) =>
          && plan.action == TruncateIncompleteTail
          && file.bytes == repaired
          && summary == RecoverySummary(|old(file.bytes)|, plan.lastGoodOffset, plan.bytesToRemove)
        case Refused(kind, AfterTruncation) =>
          plan.action == TruncateIncompleteTail && file.bytes == repaired && kind == Io
        case Refused(kind, _) =>
          && file.bytes == old(file.bytes)
          && (kind == Io || (kind == InvalidArgument && plan.action == NoAction))
  {
    hide WalkFile;
    var before := file.bytes;
    var planned := Discover(file.bytes, limits);
    if planned.Err? {
      return Refused(planned.kind, Unmarked);
    }
    var plan := planned.value;
    EveryWalkPlans(before, limits);
    var length := file.PhysicalLength();
    if length.Err? || length.value != plan.fileSize {
      return Refused(Io, Unmarked);
    }
    if plan.action == NoAction {
      return Refused(InvalidArgument, Unmarked);
    }
    var cut := file.SetLength(plan.lastGoodOffset);
    if !cut {
      return Refused(Io, BeforeTruncation);
    }
    RepairedFilePlans(before, limits);
    var finished := FinishRepair(file, limits, plan);
    r := match finished case Ok(summary) => Repaired(summary) case Err(kind) => Refused(kind, AfterTruncation);
  }

  /** A repaired file plans nothing, so a second repair is refused. */
  lemma RepairedFilePlans(file: seq<byte>, limits: Limits)
    requires WalkFile(file, limits, Discard).Ok?
    ensures
      var end := WalkFile(file, limits, Discard).value.1.end.offset;
      end <= |file| && Discover(file[..end], limits) == Ok(RecoveryPlan(NoAction, end, end, 0))
  {
    hide WalkFile;
    var (scan, walk) := WalkFile(file, limits, Discard).value;
    WalkIsChained(file, limits, Discard);
    TruncationKeepsCommitted(file, limits, Discard, scan, walk);
  }
}
