/**
 * Whole runs: a file is created, then published to, torn, abandoned, reopened and repaired in
 * any order.  What any walk of the file finds is always exactly what was written whole.
 */
module CrashSafety {
  import opened Core
  import opened Bytes
  import opened Limits
  import opened Schema
  import opened Rows
  import opened Frame
  import opened DataFrame
  import opened Walk
  import opened WalkTheorems
  import opened Blocks
  import opened Contents
  import opened Sessions
  import opened Creation
  import Recovery
  import BlockTheorems
  import SchemaFrame

  /** A writer's continuation point and whether it may still be used. */
  datatype Session = Session(state: AppendState, poisoned: bool)

  /**
   * The file, the session holding it, what a full read yielded when the run began, and every
   * block written whole since.
   */
  datatype World = World(file: seq<byte>, session: Option<Session>, initial: Result<seq<Row>>, written: seq<Written>)

  datatype Event =
    /** A frame is written whole and accounted for. */
    | Publish(plan: Plan, rows: seq<Row>)
    /** The write of a frame stops after `kept` bytes, or its accounting fails after the last one. */
    | Tear(plan: Plan, rows: seq<Row>, kept: nat)
    /** A flush or sync fails. */
    | Fail
    /** The session ends: finished, dropped or crashed. */
    | Drop
    /** A new session opens the file for append. */
    | Reopen
    /** Recovery truncates an incomplete tail. */
    | Repair

  /** What the file was created as, and the limits it is walked under; fixed for a whole run. */
  datatype Origin = Origin(schema: Schema, rowIds: bool, limits: Limits) {
    predicate Valid() {
      SchemaFrame.Valid(schema) && Generous(limits) && CreatedFile(schema, rowIds).Ok?
    }

    function Base(state: AppendState): Option<nat> {
      if rowIds then Some(state.nextRowId) else None
    }
  }

  function Healthy(w: World): bool {
    w.session.Some? && !w.session.value.poisoned
  }

  /** The frame a healthy session would write for these rows, if its encoder accepts them. */
  function FrameFor(o: Origin, w: World, plan: Plan, rows: seq<Row>): Option<seq<byte>> {
    if Healthy(w) && plan.Valid() && plan.schema == o.schema && ValidRows(plan.schema, rows) && rows != []
       && w.session.value.state.nextSequence < U64
    then
      match EncodeBlock(plan, rows, o.Base(w.session.value.state))
      case Ok(block) => Some(DataFrameBytes(w.session.value.state.nextSequence, block.header, block.payload))
      case Err(_) => None
    else None
  }

  /** Whether the file's own counters still fit after one more frame of these rows. */
  predicate Fits(o: Origin, state: AppendState, rows: nat) {
    state.nextSequence + 1 < U64 && (o.rowIds ==> state.nextRowId + rows < U64)
  }

  /** One event; one that is not possible changes nothing. */
  function Apply(o: Origin, w: World, e: Event): World {
    match e
    case Publish(plan, rows) =>
      var frame := FrameFor(o, w, plan, rows);
      if frame.Some? && Fits(o, w.session.value.state, |rows|) && |w.file| + |frame.value| < U64 then
        World(w.file + frame.value,
              Some(Session(Advanced(w.session.value.state, o.rowIds, |frame.value|, |rows|), false)),
              w.initial, w.written + [Written(plan, rows)])
      else w
    case Tear(plan, rows, kept) =>
      var frame := FrameFor(o, w, plan, rows);
      if frame.Some? && kept <= |frame.value| then
        World(w.file + frame.value[..kept], Some(w.session.value.(poisoned := true)), w.initial,
              if kept == |frame.value| then w.written + [Written(plan, rows)] else w.written)
      else w
    case Fail => if w.session.Some? then w.(session := Some(w.session.value.(poisoned := true))) else w
    case Drop => w.(session := None)
    case Reopen =>
      if w.session.Some? || |w.file| >= U64 then w
      else
        var walked := WalkFile(w.file, o.limits, Discard);
        if walked.Err? || walked.value.1.incompleteTail then w
        else w.(session := Some(Session(StateAt(w.file, walked.value.1.end), false)))
    case Repair =>
      if w.session.Some? then w
      else
        var plan := Recovery.Discover(w.file, o.limits);
        if plan.Ok? && plan.value.lastGoodOffset <= |w.file| then w.(file := w.file[..plan.value.lastGoodOffset]) else w
  }

  function Run(o: Origin, w: World, events: seq<Event>): World
    decreases |events|
  {
    if events == [] then w else Run(o, Apply(o, w, events[0]), events[1..])
  }

  /** An event that puts on disk a whole frame the file's own counters cannot follow. */
  predicate Overflows(o: Origin, w: World, e: Event) {
    && e.Tear?
    && var frame := FrameFor(o, w, e.plan, e.rows);
    && frame.Some? && e.kept == |frame.value| && !Fits(o, w.session.value.state, |e.rows|)
  }

  predicate NeverOverflows(o: Origin, w: World, events: seq<Event>)
    decreases |events|
  {
    events == [] || (!Overflows(o, w, events[0]) && NeverOverflows(o, Apply(o, w, events[0]), events[1..]))
  }

  /** A session opened on a complete file stands at its end. */
  lemma ReopenedAtEnd(o: Origin, w: World, scan: FileScan, end: Cursor)
    requires w.session.None? && |w.file| < U64 && WalkFile(w.file, o.limits, Discard) == Ok((scan, Walk(end, false)))
    ensures Apply(o, w, Reopen) == w.(session := Some(Session(StateAt(w.file, end), false)))
  {
    hide WalkFile;
  }

  /** One more event after a run. */
  lemma {:induction false} RunAppend(o: Origin, w: World, events: seq<Event>, last: Event)
    ensures Run(o, w, events + [last]) == Apply(o, Run(o, w, events), last)
    decreases |events|
  {
    hide Apply;
    if events == [] {
      assert ([] + [last])[1..] == [];
    } else {
      assert (events + [last])[1..] == events[1..] + [last];
      RunAppend(o, Apply(o, w, events[0]), events[1..], last);
    }
  }

  function Created(o: Origin): World
    requires o.Valid()
  {
    World(CreatedFile(o.schema, o.rowIds).value, None, Ok([]), [])
  }

  // ------------------------------------------------------------------- invariant

  ghost predicate StrictTail(ctx: Context, end: Cursor, tail: seq<byte>) {
    tail == [] || exists header: seq<byte>, payload: seq<byte>, info: BlockInfo, kept: nat ::
      TornFrom(ctx, end, tail, header, payload, info, kept) && kept < FrameLength(|header|, |payload|)
  }

  /** Committed frames and a possibly empty strict prefix of one more. */
  ghost predicate Sound(o: Origin, w: World, scan: FileScan, committed: seq<byte>, end: Cursor, tail: seq<byte>) {
    && w.file == committed + tail
    && WalkFile(committed, o.limits, Discard) == Ok((scan, Walk(end, false)))
    && scan.ctx.schema == o.schema && scan.ctx.prologue.RowIds() == o.rowIds
    && Generous(o.limits) && end.sequence < U64 && (end.nextRowId.Some? ==> end.nextRowId.value < U64)
    && AllValid(w.written) && FileRows(committed, o.limits) == ReadBack(w.initial, w.written, o.limits)
    && StrictTail(scan.ctx, end, tail)
    && (Healthy(w) ==> tail == [] && w.session.value.state == StateAt(committed, end))
  }

  /** The file's walk fails as corruption, and no session can use it. */
  ghost predicate Broken(o: Origin, w: World) {
    WalkFile(w.file, o.limits, Discard) == Err(Corruption) && !Healthy(w)
  }

  ghost predicate IsSound(o: Origin, w: World) {
    exists scan, committed, end, tail :: Sound(o, w, scan, committed, end, tail)
  }

  /** What any walk of a sound file finds: the committed frames and their rows, and whether a tail remains. */
  lemma SoundWalk(o: Origin, w: World, scan: FileScan, committed: seq<byte>, end: Cursor, tail: seq<byte>)
    requires Sound(o, w, scan, committed, end, tail)
    ensures WalkFile(w.file, o.limits, Discard) == Ok((scan, Walk(end, tail != [])))
    ensures FileRows(w.file, o.limits) == ReadBack(w.initial, w.written, o.limits)
    ensures end.offset == |committed|
  {
    hide WalkFile, FitsAt, DataFrameBytes, RowsOfBlocks, Framed;
    EndFacts(committed, o.limits, scan, end);
    if tail == [] {
      assert committed + [] == committed;
    } else {
      var header: seq<byte>, payload: seq<byte>, info: BlockInfo, kept: nat :|
        TornFrom(scan.ctx, end, tail, header, payload, info, kept) && kept < FrameLength(|header|, |payload|);
      TornFrameChangesNothing(committed, o.limits, Discard, scan, end, header, payload, info, kept);
      TailLength(scan.ctx, end, tail, header, payload, info, kept);
    }
    WalkFrames(committed, o.limits, Discard);
    assert w.file[..|committed|] == committed == committed[..|committed|];
    RowsAreLocal(committed, w.file, scan.ctx, end.blocks, |committed|);
  }

  lemma TailLength(
      ctx: Context, end: Cursor, tail: seq<byte>, header: seq<byte>, payload: seq<byte>, info: BlockInfo, kept: nat)
    requires TornFrom(ctx, end, tail, header, payload, info, kept)
    ensures |tail| == kept
  {
  }

  // ----------------------------------------------------------------- single events

  lemma NextFacts(o: Origin, w: World, plan: Plan, rows: seq<Row>, scan: FileScan, committed: seq<byte>, end: Cursor, tail: seq<byte>)
    requires Sound(o, w, scan, committed, end, tail) && FrameFor(o, w, plan, rows).Some?
    ensures tail == [] && w.file == committed && Healthy(w) && w.session.value.state == StateAt(committed, end)
    ensures o.Base(w.session.value.state) == end.nextRowId && scan.ctx.schema == o.schema && Generous(o.limits)
    ensures end.sequence < U64 && (end.nextRowId.Some? ==> end.nextRowId.value < U64)
    ensures WalkFile(committed, o.limits, Discard) == Ok((scan, Walk(end, false)))
    ensures Fits(o, w.session.value.state, |rows|) <==>
              end.sequence + 1 < U64 && (end.nextRowId.Some? ==> end.nextRowId.value + |rows| < U64)
  {
    hide WalkFile, FileRows, StrictTail, FrameFor;
    FrameNeedsHealth(o, w, plan, rows);
    EndFacts(committed, o.limits, scan, end);
    assert committed + [] == committed;
  }

  /** A healthy session's frame is the one that comes next after the committed end. */
  lemma FrameIsNext(o: Origin, w: World, plan: Plan, rows: seq<Row>, scan: FileScan, committed: seq<byte>, end: Cursor, tail: seq<byte>)
    requires Sound(o, w, scan, committed, end, tail) && FrameFor(o, w, plan, rows).Some?
    ensures Ready(o.limits, scan, committed, end, plan, rows)
    ensures
      var block := EncodeBlock(plan, rows, end.nextRowId).value;
      FrameFor(o, w, plan, rows) == Some(DataFrameBytes(end.sequence, block.header, block.payload))
  {
    hide WalkFile, EncodeBlock, DataFrameBytes, FileRows, SchemaFrame.Valid, ValidRows, Sound, CreatedFile, FrameFor, Ready, Fits;
    NextFacts(o, w, plan, rows, scan, committed, end, tail);
    FrameParts(o, w, plan, rows);
    ReadyIs(o.limits, scan, committed, end, plan, rows);
  }

  lemma FrameParts(o: Origin, w: World, plan: Plan, rows: seq<Row>)
    requires FrameFor(o, w, plan, rows).Some?
    ensures Healthy(w) && plan.Valid() && plan.schema == o.schema && ValidRows(plan.schema, rows) && rows != []
    ensures w.session.value.state.nextSequence < U64
    ensures
      var block := EncodeBlock(plan, rows, o.Base(w.session.value.state));
      block.Ok? && FrameFor(o, w, plan, rows)
                   == Some(DataFrameBytes(w.session.value.state.nextSequence, block.value.header, block.value.payload))
  {
    hide EncodeBlock, DataFrameBytes, SchemaFrame.Valid, ValidRows;
  }

  lemma ReadyIs(limits: Limits, scan: FileScan, committed: seq<byte>, end: Cursor, plan: Plan, rows: seq<Row>)
    requires WalkFile(committed, limits, Discard) == Ok((scan, Walk(end, false))) && Generous(limits)
    requires plan.Valid() && scan.ctx.schema == plan.schema && ValidRows(plan.schema, rows) && rows != []
    requires end.sequence < U64 && (end.nextRowId.Some? ==> end.nextRowId.value < U64)
    requires EncodeBlock(plan, rows, end.nextRowId).Ok?
    ensures Ready(limits, scan, committed, end, plan, rows)
  {
    hide WalkFile, EncodeBlock, SchemaFrame.Valid, ValidRows;
  }

  lemma FrameNeedsHealth(o: Origin, w: World, plan: Plan, rows: seq<Row>)
    requires FrameFor(o, w, plan, rows).Some?
    ensures Healthy(w)
  {
  }

  lemma NoTail(ctx: Context, end: Cursor)
    ensures StrictTail(ctx, end, [])
  {
  }

  /** A whole frame that fits becomes committed; a session on it is healthy only at its end. */
  lemma WholeFrameKeeps(
      o: Origin, w: World, plan: Plan, rows: seq<Row>, w': World, scan: FileScan, committed: seq<byte>, end: Cursor, tail: seq<byte>)
    requires Sound(o, w, scan, committed, end, tail) && FrameFor(o, w, plan, rows).Some?
    requires Fits(o, w.session.value.state, |rows|)
    requires w'.file == w.file + FrameFor(o, w, plan, rows).value
    requires w'.initial == w.initial && w'.written == w.written + [Written(plan, rows)]
    requires Healthy(w') ==>
               w'.session.value.state == Advanced(w.session.value.state, o.rowIds, |FrameFor(o, w, plan, rows).value|, |rows|)
    ensures IsSound(o, w')
  {
    hide WalkFile, EncodeBlock, DataFrameBytes, FileRows, SchemaFrame.Valid, ValidRows, FrameFor, Ready, StrictTail;
    NextFacts(o, w, plan, rows, scan, committed, end, tail);
    FrameIsNext(o, w, plan, rows, scan, committed, end, tail);
    EndFacts(committed, o.limits, scan, end);
    var frame := FrameFor(o, w, plan, rows).value;
    var next := FrameAdvances(o.limits, scan, committed, end, plan, rows);
    assert (committed + frame) + [] == w'.file;
    OneMoreWritten(w.initial, w.written, Written(plan, rows), o.limits);
    NoTail(scan.ctx, next);
    assert Sound(o, w', scan, committed + frame, next, []);
  }

  /** Fewer bytes than the frame has leave an incomplete tail after the same committed frames. */
  lemma TornFrameKeeps(
      o: Origin, w: World, plan: Plan, rows: seq<Row>, kept: nat, w': World, scan: FileScan, committed: seq<byte>, end: Cursor,
      tail: seq<byte>)
    requires Sound(o, w, scan, committed, end, tail) && FrameFor(o, w, plan, rows).Some?
    requires kept < |FrameFor(o, w, plan, rows).value|
    requires w'.file == w.file + FrameFor(o, w, plan, rows).value[..kept] && !Healthy(w')
    requires w'.initial == w.initial && w'.written == w.written
    ensures IsSound(o, w')
  {
    hide WalkFile, EncodeBlock, DataFrameBytes, FileRows, SchemaFrame.Valid, ValidRows, FrameFor, Ready, FitsAt;
    NextFacts(o, w, plan, rows, scan, committed, end, tail);
    FrameIsNext(o, w, plan, rows, scan, committed, end, tail);
    FrameFits(o.limits, scan, committed, end, plan, rows);
    ReadyEncodes(o.limits, scan, committed, end, plan, rows);
    var block := EncodeBlock(plan, rows, end.nextRowId).value;
    var torn := FrameFor(o, w, plan, rows).value[..kept];
    assert TornFrom(scan.ctx, end, torn, block.header, block.payload, InfoOf(plan.schema, rows, end.nextRowId), kept);
    assert StrictTail(scan.ctx, end, torn);
    assert Sound(o, w', scan, committed, end, torn);
  }

  lemma OneMoreWritten(initial: Result<seq<Row>>, written: seq<Written>, last: Written, limits: Limits)
    requires AllValid(written) && last.Valid()
    ensures AllValid(written + [last])
    ensures ReadBack(initial, written + [last], limits) == ThenRows(ReadBack(initial, written, limits), last.Outcome(limits))
  {
    hide Affordable;
    assert (written + [last])[..|written|] == written;
  }

  /** A whole frame past the last sequence number or row ID makes every walk report corruption. */
  lemma OverflowBreaks(
      o: Origin, w: World, plan: Plan, rows: seq<Row>, w': World, scan: FileScan, committed: seq<byte>, end: Cursor, tail: seq<byte>)
    requires Sound(o, w, scan, committed, end, tail) && FrameFor(o, w, plan, rows).Some?
    requires !Fits(o, w.session.value.state, |rows|)
    requires w'.file == w.file + FrameFor(o, w, plan, rows).value && !Healthy(w')
    ensures Broken(o, w')
  {
    hide WalkFile, EncodeBlock, DataFrameBytes, FileRows, SchemaFrame.Valid, ValidRows, FrameFor, Ready, FitsAt, InfoOf;
    NextFacts(o, w, plan, rows, scan, committed, end, tail);
    FrameIsNext(o, w, plan, rows, scan, committed, end, tail);
    FrameFits(o.limits, scan, committed, end, plan, rows);
    ReadyEncodes(o.limits, scan, committed, end, plan, rows);
    EndFacts(committed, o.limits, scan, end);
    var block := EncodeBlock(plan, rows, end.nextRowId).value;
    var info := InfoOf(plan.schema, rows, end.nextRowId);
    BlockTheorems.InfoRows(plan.schema, rows, end.nextRowId);
    AppendedFrameIsDiscovered(committed, o.limits, Discard, scan, end, block.header, block.payload, info);
    assert Advance(end, MetadataAt(end, block.header, block.payload), info, o.limits) == Err(Corruption);
  }

  lemma ReopenKeeps(o: Origin, w: World, scan: FileScan, committed: seq<byte>, end: Cursor, tail: seq<byte>)
    requires Sound(o, w, scan, committed, end, tail)
    ensures IsSound(o, Apply(o, w, Reopen))
  {
    hide WalkFile, FileRows, StrictTail;
    SoundWalk(o, w, scan, committed, end, tail);
    assert tail == [] ==> committed + tail == committed;
    assert Sound(o, Apply(o, w, Reopen), scan, committed, end, tail);
  }

  /** Repair truncates exactly the tail. */
  lemma RepairKeeps(o: Origin, w: World, scan: FileScan, committed: seq<byte>, end: Cursor, tail: seq<byte>)
    requires Sound(o, w, scan, committed, end, tail)
    ensures IsSound(o, Apply(o, w, Repair))
    ensures w.session.None? ==> Apply(o, w, Repair).file == committed
  {
    hide WalkFile, FileRows, Recovery.Discover, StrictTail;
    SoundWalk(o, w, scan, committed, end, tail);
    Recovery.EveryWalkPlans(w.file, o.limits);
    assert w.file[..|committed|] == committed == committed + [];
    NoTail(scan.ctx, end);
    assert Sound(o, Apply(o, w, Repair), scan, committed, end, if w.session.Some? then tail else []);
  }

  lemma SessionEventKeeps(o: Origin, w: World, e: Event, scan: FileScan, committed: seq<byte>, end: Cursor, tail: seq<byte>)
    requires Sound(o, w, scan, committed, end, tail) && (e.Fail? || e.Drop?)
    ensures IsSound(o, Apply(o, w, e))
  {
    hide WalkFile, FileRows, StrictTail;
    assert Sound(o, Apply(o, w, e), scan, committed, end, tail);
  }

  /** Every event keeps a sound file sound, except one that overflows the file's counters. */
  lemma EventKeeps(o: Origin, w: World, e: Event)
    requires IsSound(o, w)
    ensures !Overflows(o, w, e) ==> IsSound(o, Apply(o, w, e))
    ensures Overflows(o, w, e) ==> Broken(o, Apply(o, w, e))
  {
    hide WalkFile, FileRows, StrictTail, FrameFor, Sound;
    var scan, committed, end, tail :| Sound(o, w, scan, committed, end, tail);
    match e
    case Publish(plan, rows) =>
      if Apply(o, w, e) != w {
        FrameNeedsHealth(o, w, plan, rows);
        WholeFrameKeeps(o, w, plan, rows, Apply(o, w, e), scan, committed, end, tail);
      }
    case Tear(plan, rows, kept) =>
      var frame := FrameFor(o, w, plan, rows);
      if frame.Some? {
        FrameNeedsHealth(o, w, plan, rows);
      }
      if frame.Some? && kept < |frame.value| {
        TornFrameKeeps(o, w, plan, rows, kept, Apply(o, w, e), scan, committed, end, tail);
      } else if frame.Some? && kept == |frame.value| {
        assert frame.value[..kept] == frame.value;
        if Fits(o, w.session.value.state, |rows|) {
          WholeFrameKeeps(o, w, plan, rows, Apply(o, w, e), scan, committed, end, tail);
        } else {
          OverflowBreaks(o, w, plan, rows, Apply(o, w, e), scan, committed, end, tail);
        }
      }
    case Reopen => ReopenKeeps(o, w, scan, committed, end, tail);
    case Repair => RepairKeeps(o, w, scan, committed, end, tail);
    case _ => SessionEventKeeps(o, w, e, scan, committed, end, tail);
  }

  /** A broken file stays broken: nothing can open it, extend it or repair it. */
  lemma BrokenStays(o: Origin, w: World, e: Event)
    requires Broken(o, w)
    ensures Broken(o, Apply(o, w, e)) && Apply(o, w, e).file == w.file && !Overflows(o, w, e)
  {
    hide WalkFile;
  }

  // --------------------------------------------------------------------- whole runs

  lemma {:induction false} BrokenRun(o: Origin, w: World, events: seq<Event>)
    requires Broken(o, w)
    ensures Broken(o, Run(o, w, events))
    decreases |events|
  {
    hide Broken, Apply;
    if events != [] {
      BrokenStays(o, w, events[0]);
      BrokenRun(o, Apply(o, w, events[0]), events[1..]);
    }
  }

  lemma {:induction false} RunKeeps(o: Origin, w: World, events: seq<Event>)
    requires IsSound(o, w)
    ensures NeverOverflows(o, w, events) ==> IsSound(o, Run(o, w, events))
    ensures !NeverOverflows(o, w, events) ==> Broken(o, Run(o, w, events))
    decreases |events|
  {
    hide Broken, IsSound, Apply, Overflows;
    if events != [] {
      EventKeeps(o, w, events[0]);
      if Overflows(o, w, events[0]) {
        BrokenRun(o, Apply(o, w, events[0]), events[1..]);
      } else {
        RunKeeps(o, Apply(o, w, events[0]), events[1..]);
      }
    }
  }

  lemma CreatedIsSound(o: Origin)
    requires o.Valid()
    ensures IsSound(o, Created(o))
  {
    hide WalkFile, SchemaFrame.Valid, CreatedFile, FileRows, StrictTail, CreatedScan;
    var file := CreatedFile(o.schema, o.rowIds).value;
    var scan := CreatedScan(o.schema, o.rowIds, o.limits, |file|);
    CreatedFileOpens(o.schema, o.rowIds, o.limits);
    CreatedFileWalks(o.schema, o.rowIds, o.limits, Discard);
    CreatedRows(file, o.limits, scan);
    ScanSchema(o.schema, o.rowIds, o.limits, |file|);
    SoundStart(o, Created(o), scan, file, StartCursor(scan, Discard));
  }

  lemma ScanSchema(schema: Schema, rowIds: bool, limits: Limits, length: nat)
    ensures CreatedScan(schema, rowIds, limits, length).ctx.schema == schema
  {
  }

  lemma CreatedRows(file: seq<byte>, limits: Limits, scan: FileScan)
    requires WalkFile(file, limits, Discard) == Ok((scan, Walk(StartCursor(scan, Discard), false)))
    ensures FileRows(file, limits) == Ok([])
  {
    hide WalkFile;
  }

  /** A complete file is sound before anything more is written to it, with or without a session at its end. */
  lemma SoundStart(o: Origin, w: World, scan: FileScan, file: seq<byte>, end: Cursor)
    requires w.file == file && w.written == [] && w.initial == FileRows(file, o.limits) && Generous(o.limits)
    requires Healthy(w) ==> w.session.value.state == StateAt(file, end)
    requires WalkFile(file, o.limits, Discard) == Ok((scan, Walk(end, false)))
    requires scan.ctx.schema == o.schema && scan.ctx.prologue.RowIds() == o.rowIds
    requires end.sequence < U64 && (end.nextRowId.Some? ==> end.nextRowId.value < U64)
    ensures IsSound(o, w)
  {
    hide WalkFile, FileRows, StrictTail;
    NoTail(scan.ctx, end);
    assert file + [] == file;
    assert Sound(o, w, scan, file, end, []);
  }

  /**
   * Crash safety over whole runs.  After any sequence of events in which any frame write may
   * stop at any byte, walking the file succeeds if and only if no event put on disk a whole
   * frame past the last sequence number or row ID.  Then a full read yields exactly the rows
   * of the frames written whole, in order, if and only if the reader's block allowance covers
   * each of them; and a session that is still healthy stands exactly at the end of the file
   * with the walk's own next sequence and row ID.
   */
  lemma RunsAreCrashSafe(o: Origin, events: seq<Event>)
    requires o.Valid()
    ensures
      var w := Run(o, Created(o), events);
      var walked := WalkFile(w.file, o.limits, Discard);
      && (walked.Ok? <==> NeverOverflows(o, Created(o), events))
      && (walked.Err? ==> walked.kind == Corruption)
      && AllValid(w.written)
      && (walked.Ok? ==>
            && FileRows(w.file, o.limits)
               == (if AllAffordable(w.written, o.limits) then Ok(RowsWritten(w.written)) else Err(ResourceLimit))
            && (Healthy(w) ==>
                  !walked.value.1.incompleteTail && w.session.value.state == StateAt(w.file, walked.value.1.end)))
  {
    hide WalkFile, FileRows, Sound, Created, Run, NeverOverflows, Affordable;
    CreatedIsSound(o);
    RunIsCrashSafe(o, Created(o), events);
    var w := Run(o, Created(o), events);
    InitialKept(o, Created(o), events);
    CreatedInitial(o);
    ReadBackExactly(Ok([]), w.written, o.limits);
    assert [] + RowsWritten(w.written) == RowsWritten(w.written);
  }

  lemma CreatedInitial(o: Origin)
    requires o.Valid()
    ensures Created(o).initial == Ok([])
  {
  }

  lemma {:induction false} InitialKept(o: Origin, w: World, events: seq<Event>)
    ensures Run(o, w, events).initial == w.initial
    decreases |events|
  {
    hide WalkFile, FrameFor;
    if events != [] {
      InitialKept(o, Apply(o, w, events[0]), events[1..]);
    }
  }

  /** The same from any sound file, such as one a session has just opened. */
  lemma RunIsCrashSafe(o: Origin, start: World, events: seq<Event>)
    requires IsSound(o, start)
    ensures
      var w := Run(o, start, events);
      var walked := WalkFile(w.file, o.limits, Discard);
      && (walked.Ok? <==> NeverOverflows(o, start, events))
      && (walked.Err? ==> walked.kind == Corruption)
      && AllValid(w.written)
      && (walked.Ok? ==>
            && FileRows(w.file, o.limits) == ReadBack(w.initial, w.written, o.limits)
            && (Healthy(w) ==>
                  !walked.value.1.incompleteTail && w.session.value.state == StateAt(w.file, walked.value.1.end)))
  {
    hide WalkFile, FileRows, Sound, Run, NeverOverflows;
    RunKeeps(o, start, events);
    RunValid(o, start, events);
    var w := Run(o, start, events);
    if NeverOverflows(o, start, events) {
      SoundFacts(o, w);
    }
  }

  lemma SoundValid(o: Origin, w: World)
    requires IsSound(o, w)
    ensures AllValid(w.written)
  {
  }

  lemma ApplyValid(o: Origin, w: World, e: Event)
    requires AllValid(w.written)
    ensures AllValid(Apply(o, w, e).written)
  {
    hide WalkFile, EncodeBlock, SchemaFrame.Valid, ValidRows, DataFrameBytes;
    if e.Publish? && FrameFor(o, w, e.plan, e.rows).Some? {
      EncodedRowsFit(e.plan, e.rows, o.Base(w.session.value.state));
    } else if e.Tear? && FrameFor(o, w, e.plan, e.rows).Some? {
      EncodedRowsFit(e.plan, e.rows, o.Base(w.session.value.state));
    }
  }

  lemma EncodedRowsFit(plan: Plan, rows: seq<Row>, base: Option<nat>)
    requires plan.Valid() && ValidRows(plan.schema, rows) && rows != [] && EncodeBlock(plan, rows, base).Ok?
    ensures Written(plan, rows).Valid()
  {
    hide EncodeParts, InfoOf, HeaderOf;
  }

  lemma {:induction false} RunValid(o: Origin, w: World, events: seq<Event>)
    requires IsSound(o, w) || AllValid(w.written)
    ensures AllValid(Run(o, w, events).written)
    decreases |events|
  {
    hide Apply, IsSound;
    if IsSound(o, w) {
      SoundValid(o, w);
    }
    if events != [] {
      ApplyValid(o, w, events[0]);
      RunValid(o, Apply(o, w, events[0]), events[1..]);
    }
  }

  lemma SoundFacts(o: Origin, w: World)
    requires IsSound(o, w)
    ensures
      var walked := WalkFile(w.file, o.limits, Discard);
      && walked.Ok? && AllValid(w.written) && FileRows(w.file, o.limits) == ReadBack(w.initial, w.written, o.limits)
      && (Healthy(w) ==> !walked.value.1.incompleteTail && w.session.value.state == StateAt(w.file, walked.value.1.end))
  {
    hide WalkFile, FileRows, StrictTail;
    var scan, committed, end, tail :| Sound(o, w, scan, committed, end, tail);
    SoundWalk(o, w, scan, committed, end, tail);
    assert tail == [] ==> committed + tail == committed;
  }
}
