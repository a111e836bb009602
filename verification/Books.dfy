/** What an append session keeps true of its file and of its counters. */
module Books {
  import opened Core
  import opened Bytes
  import opened Limits
  import opened Schema
  import opened Rows
  import opened Frame
  import opened DataFrame
  import opened Walk
  import opened WalkTheorems
  import opened Pricing
  import opened Assembler
  import opened Blocks
  import opened BlockSizes
  import opened Buffer
  import opened Contents
  import opened ColumnCodec
  import opened Sessions
  import opened CrashSafety
  import SchemaFrame

  /** How a writer picks encodings: always raw, by a cost model, or one transform for every column. */
  datatype EncodingPolicy = RawPolicy | AdaptivePolicy | FixedPolicy(encoding: Encoding) {
    predicate IsRaw() {
      this == RawPolicy || this == FixedPolicy(Encoding.Raw)
    }

    /** A fixed transform must be one the writer offers for every column of the schema. */
    predicate Offered(schema: Schema) {
      FixedPolicy? ==> forall i :: 0 <= i < |schema.columns| ==> Supports(schema.columns[i].logicalType, encoding)
    }

    /** The choices the policy may settle on. */
    predicate Allows(schema: Schema, choices: seq<Choice>) {
      && |choices| == |schema.columns|
      && (RawPolicy? ==> forall i :: 0 <= i < |choices| ==> choices[i] == Choice(Encoding.Raw, false))
      && (FixedPolicy? ==> forall i :: 0 <= i < |choices| ==> choices[i] == Choice(encoding, false))
    }
  }

  datatype Options = Options(cfg: Config, rowIds: bool, encoding: EncodingPolicy)

  ghost predicate TailAt(ctx: Context, end: Cursor, tail: seq<byte>) {
    tail == [] || exists header, payload, info, kept :: TornFrom(ctx, end, tail, header, payload, info, kept)
  }

  /** The priced bytes of rows that fit the schema. */
  function PricedBytes(cfg: Config, rows: seq<Row>): nat {
    if ValidRows(cfg.schema, rows) then Size(cfg, rows).frame else 0
  }

  function FrameSum(cfg: Config, blocks: seq<seq<Row>>): nat {
    if blocks == [] then 0 else FrameSum(cfg, blocks[..|blocks| - 1]) + PricedBytes(cfg, blocks[|blocks| - 1])
  }

  // ------------------------------------------------------- the writer's invariants

  /** The committed bytes walk to exactly the writer's own continuation point. */
  ghost predicate ContinuesAt(limits: Limits, scan: FileScan, committed: seq<byte>, end: Cursor, state: AppendState) {
    && WalkFile(committed, limits, Discard) == Ok((scan, Walk(end, false)))
    && state == StateAt(committed, end)
    && state.fileLength < U64 && 1 <= state.nextSequence < U64 && state.nextRowId < U64
  }

  /** The session's counters describe its published blocks, and the file holds exactly those. */
  ghost predicate AccountsFor(
      cfg: Config, limits: Limits, initial: Result<seq<Row>>, committed: seq<byte>, published: seq<seq<Row>>,
      written: seq<Written>, rows: nat, bytes: nat, blocks: nat)
  {
    && (forall i :: 0 <= i < |published| ==> Publishable(cfg, published[i]))
    && rows == |Flatten(published)| < U64 && bytes == FrameSum(cfg, published) < U64 && blocks == |published| < U64
    && |written| == |published| && AllValid(written)
    && (forall i :: 0 <= i < |written| ==> written[i].rows == published[i] && written[i].plan.schema == cfg.schema)
    && FileRows(committed, limits) == ReadBack(initial, written, limits)
  }

  /** The durable counters are those of the blocks the last successful sync covered. */
  ghost predicate Durable(cfg: Config, published: seq<seq<Row>>, synced: nat, rows: nat, bytes: nat) {
    synced <= |published| && rows == |Flatten(published[..synced])| && bytes == FrameSum(cfg, published[..synced])
  }

  /** Whether every counter still fits after one more frame. */
  predicate Countable(
      state: AppendState, rowIds: bool, rows: nat, bytes: nat, blocks: nat, frameLength: nat, rawBytes: nat, rowCount: nat)
  {
    && state.fileLength + frameLength < U64
    && blocks + 1 < U64
    && state.nextSequence + 1 < U64
    && (rowIds ==> state.nextRowId + rowCount < U64)
    && rows + rowCount < U64
    && bytes + rawBytes < U64
  }

  /** Committing a published frame keeps both invariants. */
  lemma CommitKeepsInvariants(
      cfg: Config, limits: Limits, scan: FileScan, initial: Result<seq<Row>>, committed: seq<byte>, end: Cursor,
      state: AppendState, published: seq<seq<Row>>, written: seq<Written>, counted: nat, bytes: nat, blocks: nat, plan: Plan,
      rows: seq<Row>, frame: seq<byte>)
      returns (next: Cursor)
    requires ContinuesAt(limits, scan, committed, end, state)
    requires AccountsFor(cfg, limits, initial, committed, published, written, counted, bytes, blocks)
    requires Ready(limits, scan, committed, end, plan, rows) && Publishable(cfg, rows) && plan.schema == cfg.schema
    requires
      var block := EncodeBlock(plan, rows, end.nextRowId).value;
      frame == DataFrameBytes(end.sequence, block.header, block.payload)
    requires Countable(state, scan.ctx.prologue.RowIds(), counted, bytes, blocks, |frame|, Size(cfg, rows).frame, |rows|)
    ensures ContinuesAt(limits, scan, committed + frame, next, Advanced(state, scan.ctx.prologue.RowIds(), |frame|, |rows|))
    ensures AccountsFor(cfg, limits, initial, committed + frame, published + [rows], written + [Written(plan, rows)],
                        counted + |rows|, bytes + Size(cfg, rows).frame, blocks + 1)
  {
    hide WalkFile, EncodeBlock, SchemaFrame.Valid, ValidRows, DataFrameBytes, FileRows, Price, Flatten, FrameSum, Writable,
         Affordable, ReadBack;
    EndFacts(committed, limits, scan, end);
    next := FrameAdvances(limits, scan, committed, end, plan, rows);
    AddPublished(cfg, published, rows);
    OneMoreWritten(initial, written, Written(plan, rows), limits);
  }

  lemma DurableKept(
      cfg: Config, limits: Limits, initial: Result<seq<Row>>, committed: seq<byte>, published: seq<seq<Row>>,
      written: seq<Written>, counted: nat, bytes: nat, blocks: nat, more: seq<Row>, synced: nat, durable: nat, durableBytes: nat)
    requires AccountsFor(cfg, limits, initial, committed, published, written, counted, bytes, blocks) && Publishable(cfg, more)
    requires Durable(cfg, published, synced, durable, durableBytes)
    ensures forall i :: 0 <= i < |published + [more]| ==> ValidRows(cfg.schema, (published + [more])[i])
    ensures Durable(cfg, published + [more], synced, durable, durableBytes)
  {
    hide FileRows, ReadBack, Price, Flatten, Writable;
    assert (published + [more])[..synced] == published[..synced];
  }

  /** What the accounts say of a full read: the session's rows, if each block is affordable. */
  lemma AccountsRead(
      cfg: Config, limits: Limits, initial: Result<seq<Row>>, committed: seq<byte>, published: seq<seq<Row>>,
      written: seq<Written>, counted: nat, bytes: nat, blocks: nat)
    requires AccountsFor(cfg, limits, initial, committed, published, written, counted, bytes, blocks)
    ensures AllValid(written) && RowsWritten(written) == Flatten(published)
    ensures counted == |Flatten(published)| && blocks == |published|
    ensures FileRows(committed, limits)
         == if initial.Err? then initial
            else if AllAffordable(written, limits) then Ok(initial.value + Flatten(published))
            else Err(ResourceLimit)
  {
    hide FileRows, ReadBack, Price, Flatten, Writable, Affordable, RowsWritten;
    PublishedAreWritten(published, written);
    ReadBackExactly(initial, written, limits);
  }

  /** The rows of the written blocks are the published rows. */
  lemma {:induction false} PublishedAreWritten(published: seq<seq<Row>>, written: seq<Written>)
    requires |written| == |published| && forall i :: 0 <= i < |written| ==> written[i].rows == published[i]
    ensures RowsWritten(written) == Flatten(published)
  {
    if published != [] {
      var n := |published| - 1;
      PublishedAreWritten(published[..n], written[..n]);
      FlattenAppend(published[..n], published[n]);
      assert published[..n] + [published[n]] == published;
    }
  }

  // ------------------------------------------------------ sessions as runs of events

  /** The file and the session are where a run of events from a sound start leaves them. */
  ghost predicate Recorded(o: Origin, start: World, events: seq<Event>, now: World) {
    IsSound(o, start) && Run(o, start, events) == now
  }

  lemma EventRecorded(o: Origin, start: World, events: seq<Event>, now: World, e: Event)
    requires Recorded(o, start, events, now)
    ensures Recorded(o, start, events + [e], Apply(o, now, e))
  {
    hide Apply, IsSound;
    RunAppend(o, start, events, e);
  }

  /** The frame a ready writer is about to write is the one its next event writes. */
  lemma FrameForReady(o: Origin, w: World, scan: FileScan, committed: seq<byte>, end: Cursor, plan: Plan, rows: seq<Row>)
    requires Ready(o.limits, scan, committed, end, plan, rows) && plan.schema == o.schema
    requires Healthy(w) && w.session.value.state == StateAt(committed, end) && o.rowIds == end.nextRowId.Some?
    ensures
      var block := EncodeBlock(plan, rows, end.nextRowId).value;
      FrameFor(o, w, plan, rows) == Some(DataFrameBytes(end.sequence, block.header, block.payload))
  {
    hide WalkFile, EncodeBlock, SchemaFrame.Valid, ValidRows, DataFrameBytes;
  }

  lemma TearIs(o: Origin, w: World, plan: Plan, rows: seq<Row>, frame: seq<byte>, kept: nat)
    requires Healthy(w) && FrameFor(o, w, plan, rows) == Some(frame) && kept <= |frame|
    ensures Apply(o, w, Tear(plan, rows, kept))
         == World(w.file + frame[..kept], Some(Session(w.session.value.state, true)), w.initial,
                  if kept == |frame| then w.written + [Written(plan, rows)] else w.written)
  {
    hide FrameFor;
  }

  lemma PublishIs(o: Origin, w: World, plan: Plan, rows: seq<Row>, frame: seq<byte>)
    requires Healthy(w) && FrameFor(o, w, plan, rows) == Some(frame)
    requires Fits(o, w.session.value.state, |rows|) && |w.file| + |frame| < U64
    ensures Apply(o, w, Publish(plan, rows))
         == World(w.file + frame, Some(Session(Advanced(w.session.value.state, o.rowIds, |frame|, |rows|), false)), w.initial,
                  w.written + [Written(plan, rows)])
  {
    hide FrameFor;
  }

  lemma AllDurable(
      cfg: Config, limits: Limits, initial: Result<seq<Row>>, committed: seq<byte>, published: seq<seq<Row>>,
      written: seq<Written>, rows: nat, bytes: nat, blocks: nat)
    requires AccountsFor(cfg, limits, initial, committed, published, written, rows, bytes, blocks)
    ensures Durable(cfg, published, |published|, rows, bytes)
  {
    hide FileRows, ReadBack, Price, Flatten;
    assert published[..|published|] == published;
  }

  lemma NothingAfter(ctx: Context, end: Cursor)
    ensures TailAt(ctx, end, [])
  {
  }

  lemma CountedFits(
      o: Origin, state: AppendState, rows: nat, bytes: nat, blocks: nat, frameLength: nat, rawBytes: nat, rowCount: nat)
    requires Countable(state, o.rowIds, rows, bytes, blocks, frameLength, rawBytes, rowCount)
    ensures Fits(o, state, rowCount) && state.fileLength + frameLength < U64
  {
  }

  /** Whatever part of the frame is written is a proper tail, and the rows are nonempty. */
  lemma WrittenTail(
      limits: Limits, scan: FileScan, committed: seq<byte>, end: Cursor, plan: Plan, rows: seq<Row>, frame: seq<byte>)
    requires Ready(limits, scan, committed, end, plan, rows)
    requires
      var block := EncodeBlock(plan, rows, end.nextRowId).value;
      frame == DataFrameBytes(end.sequence, block.header, block.payload)
    ensures rows != [] && frame[..|frame|] == frame
    ensures forall kept :: 0 <= kept <= |frame| ==> TailAt(scan.ctx, end, frame[..kept])
  {
    hide WalkFile, EncodeBlock, SchemaFrame.Valid, ValidRows, DataFrameBytes, FitsAt;
    FrameFits(limits, scan, committed, end, plan, rows);
    var block := EncodeBlock(plan, rows, end.nextRowId).value;
    forall kept | 0 <= kept <= |frame| ensures TailAt(scan.ctx, end, frame[..kept]) {
      assert TornFrom(scan.ctx, end, frame[..kept], block.header, block.payload, InfoOf(plan.schema, rows, end.nextRowId), kept);
    }
  }

  lemma AddPublished(cfg: Config, published: seq<seq<Row>>, rows: seq<Row>)
    requires forall i :: 0 <= i < |published| ==> ValidRows(cfg.schema, published[i])
    requires ValidRows(cfg.schema, rows)
    ensures FrameSum(cfg, published + [rows]) == FrameSum(cfg, published) + Size(cfg, rows).frame
    ensures |Flatten(published + [rows])| == |Flatten(published)| + |rows|
  {
    hide Price;
    FlattenAppend(published, rows);
    assert (published + [rows])[..|published|] == published;
  }

  // ------------------------------------------------------------------------ the book

  /** The counters a writer holds. */
  datatype Figures = Figures(
    state: AppendState, rows: nat, bytes: nat, blocks: nat, durableRows: nat, durableBytes: nat, poisoned: bool)

  /**
   * Everything a session has done: the limits and file it began with, the bytes of the frames
   * it accounts for and where a walk of them ends, the blocks published and how each was
   * encoded, how many of them the last sync covered, every block on disk counted or not, the
   * bytes a failure left after the committed ones, rows written whole whose accounting
   * overflowed, and the session's events.
   */
  datatype Book = Book(
    limits: Limits, scan: FileScan, initial: Result<seq<Row>>, start: World, committed: seq<byte>, end: Cursor,
    published: seq<seq<Row>>, written: seq<Written>, synced: nat, whole: seq<Written>, tail: seq<byte>, lost: seq<Row>,
    events: seq<Event>)
  {
    function Life(options: Options): Origin {
      Origin(options.cfg.schema, options.rowIds, limits)
    }

    /** A later page of the same session. */
    ghost predicate Continues(earlier: Book) {
      && limits == earlier.limits && scan == earlier.scan && initial == earlier.initial && start == earlier.start
      && earlier.published <= published && earlier.events <= events
    }
  }

  function WorldOf(f: Figures, b: Book, file: seq<byte>): World {
    World(file, Some(Session(f.state, f.poisoned)), b.initial, b.whole)
  }

  ghost predicate Fixed(options: Options, b: Book) {
    && options.cfg.Valid() && SchemaFrame.Valid(options.cfg.schema) && Generous(b.limits)
    && b.scan.ctx.schema == options.cfg.schema && b.scan.ctx.prologue.RowIds() == options.rowIds
  }

  /** The file, the figures and the book agree. */
  ghost predicate Keeps(options: Options, f: Figures, b: Book, file: seq<byte>) {
    && Fixed(options, b)
    && ContinuesAt(b.limits, b.scan, b.committed, b.end, f.state)
    && AccountsFor(options.cfg, b.limits, b.initial, b.committed, b.published, b.written, f.rows, f.bytes, f.blocks)
    && Durable(options.cfg, b.published, b.synced, f.durableRows, f.durableBytes)
    && Recorded(b.Life(options), b.start, b.events, WorldOf(f, b, file))
    && file == b.committed + b.tail && TailAt(b.scan.ctx, b.end, b.tail)
    && (!f.poisoned ==> b.tail == [] && b.lost == [] && b.whole == b.written)
  }

  function BaseOf(options: Options, f: Figures): Option<nat> {
    if options.rowIds then Some(f.state.nextRowId) else None
  }

  /** The frame of publishable rows under a plan the encoder accepts. */
  ghost predicate Writes(options: Options, f: Figures, plan: Plan, rows: seq<Row>, frame: seq<byte>) {
    && plan.Valid() && plan.schema == options.cfg.schema && Publishable(options.cfg, rows)
    && f.state.nextSequence < U64
    && var block := EncodeBlock(plan, rows, BaseOf(options, f));
    block.Ok? && frame == DataFrameBytes(f.state.nextSequence, block.value.header, block.value.payload)
  }

  function StartBook(limits: Limits, scan: FileScan, file: seq<byte>, end: Cursor, state: AppendState): Book {
    var initial := FileRows(file, limits);
    Book(limits, scan, initial, World(file, Some(Session(state, false)), initial, []), file, end, [], [], 0, [], [], [], [])
  }

  lemma KeepsStart(options: Options, limits: Limits, scan: FileScan, file: seq<byte>, end: Cursor, state: AppendState)
    requires Fixed(options, StartBook(limits, scan, file, end, state)) && ContinuesAt(limits, scan, file, end, state)
    ensures Keeps(options, Figures(state, 0, 0, 0, 0, 0, false), StartBook(limits, scan, file, end, state), file)
  {
    hide WalkFile, FileRows, IsSound, SchemaFrame.Valid;
    var b := StartBook(limits, scan, file, end, state);
    EndFacts(file, limits, scan, end);
    SoundStart(b.Life(options), b.start, scan, file, end);
    assert file + [] == file;
  }

  /** A healthy session is ready for the frame its encoder built. */
  lemma KeepsReady(options: Options, f: Figures, b: Book, file: seq<byte>, plan: Plan, rows: seq<Row>, frame: seq<byte>)
    requires Keeps(options, f, b, file) && !f.poisoned && Writes(options, f, plan, rows, frame)
    ensures file == b.committed && BaseOf(options, f) == b.end.nextRowId
    ensures Ready(b.limits, b.scan, b.committed, b.end, plan, rows)
    ensures
      var block := EncodeBlock(plan, rows, b.end.nextRowId).value;
      frame == DataFrameBytes(b.end.sequence, block.header, block.payload)
    ensures FrameFor(b.Life(options), WorldOf(f, b, file), plan, rows) == Some(frame)
  {
    hide WalkFile, EncodeBlock, DataFrameBytes, SchemaFrame.Valid, ValidRows, AccountsFor, Durable, Recorded, TailAt, FrameFor, Price;
    EndFacts(b.committed, b.limits, b.scan, b.end);
    assert b.committed + [] == b.committed;
    FrameForReady(b.Life(options), WorldOf(f, b, file), b.scan, b.committed, b.end, plan, rows);
  }

  /** A write that stops after `kept` bytes keeps the committed frames and adds one event. */
  lemma KeepsTorn(options: Options, f: Figures, b: Book, file: seq<byte>, plan: Plan, rows: seq<Row>, frame: seq<byte>, kept: nat)
      returns (next: Book)
    requires Keeps(options, f, b, file) && !f.poisoned && Writes(options, f, plan, rows, frame) && kept <= |frame|
    ensures Keeps(options, f.(poisoned := true), next, file + frame[..kept])
    ensures next.Continues(b) && next.published == b.published && next.committed == b.committed && next.lost == []
  {
    hide WalkFile, EncodeBlock, DataFrameBytes, SchemaFrame.Valid, ValidRows, AccountsFor, Durable, Recorded, TailAt, FrameFor, Price,
         Apply, ContinuesAt, Writes, Ready;
    KeepsReady(options, f, b, file, plan, rows, frame);
    WrittenTail(b.limits, b.scan, b.committed, b.end, plan, rows, frame);
    var e := Tear(plan, rows, kept);
    TearIs(b.Life(options), WorldOf(f, b, file), plan, rows, frame, kept);
    EventRecorded(b.Life(options), b.start, b.events, WorldOf(f, b, file), e);
    next := b.(tail := frame[..kept], events := b.events + [e],
               whole := if kept == |frame| then b.whole + [Written(plan, rows)] else b.whole);
  }

  /** A whole frame whose accounting overflows is on disk, counted by nobody. */
  lemma KeepsUncounted(options: Options, f: Figures, b: Book, file: seq<byte>, plan: Plan, rows: seq<Row>, frame: seq<byte>)
      returns (next: Book)
    requires Keeps(options, f, b, file) && !f.poisoned && Writes(options, f, plan, rows, frame)
    ensures Keeps(options, f.(poisoned := true), next, file + frame)
    ensures next.Continues(b) && next.published == b.published && next.committed == b.committed && next.lost == rows
  {
    hide Keeps, Writes;
    next := KeepsTorn(options, f, b, file, plan, rows, frame, |frame|);
    assert frame[..|frame|] == frame;
    LostKept(options, f.(poisoned := true), next, file + frame, rows);
    next := next.(lost := rows);
  }

  lemma LostKept(options: Options, f: Figures, b: Book, file: seq<byte>, rows: seq<Row>)
    requires Keeps(options, f, b, file) && f.poisoned
    ensures Keeps(options, f, b.(lost := rows), file)
  {
    hide WalkFile, AccountsFor, Durable, Recorded, TailAt, ContinuesAt, SchemaFrame.Valid;
  }

  function Counted(options: Options, f: Figures, rows: nat, frameLength: nat, rawBytes: nat): Figures {
    f.(state := Advanced(f.state, options.rowIds, frameLength, rows), rows := f.rows + rows, bytes := f.bytes + rawBytes,
       blocks := f.blocks + 1)
  }

  /** A whole frame whose counters fit is published, and everything agrees on it. */
  lemma KeepsCounted(options: Options, f: Figures, b: Book, file: seq<byte>, plan: Plan, rows: seq<Row>, frame: seq<byte>)
      returns (next: Book)
    requires Keeps(options, f, b, file) && !f.poisoned && Writes(options, f, plan, rows, frame)
    requires Countable(f.state, options.rowIds, f.rows, f.bytes, f.blocks, |frame|, Size(options.cfg, rows).frame, |rows|)
    ensures Keeps(options, Counted(options, f, |rows|, |frame|, Size(options.cfg, rows).frame), next, file + frame)
    ensures next.Continues(b) && next.published == b.published + [rows] && next.lost == []
  {
    hide WalkFile, EncodeBlock, DataFrameBytes, SchemaFrame.Valid, ValidRows, AccountsFor, Durable, Recorded, TailAt, FrameFor, Price,
         Apply, Writable, Ready, Fits;
    KeepsReady(options, f, b, file, plan, rows, frame);
    var raw := Size(options.cfg, rows).frame;
    var e := Publish(plan, rows);
    CountedFits(b.Life(options), f.state, f.rows, f.bytes, f.blocks, |frame|, raw, |rows|);
    PublishIs(b.Life(options), WorldOf(f, b, file), plan, rows, frame);
    EventRecorded(b.Life(options), b.start, b.events, WorldOf(f, b, file), e);
    DurableKept(options.cfg, b.limits, b.initial, b.committed, b.published, b.written, f.rows, f.bytes, f.blocks, rows, b.synced,
                f.durableRows, f.durableBytes);
    var end := CommitKeepsInvariants(options.cfg, b.limits, b.scan, b.initial, b.committed, b.end, f.state, b.published, b.written,
                                     f.rows, f.bytes, f.blocks, plan, rows, frame);
    NothingAfter(b.scan.ctx, end);
    next := b.(committed := b.committed + frame, end := end, published := b.published + [rows],
               written := b.written + [Written(plan, rows)], whole := b.whole + [Written(plan, rows)], events := b.events + [e]);
    assert next.committed + [] == next.committed;
  }

  /** A failed flush or sync poisons and changes nothing else. */
  lemma KeepsFailed(options: Options, f: Figures, b: Book, file: seq<byte>) returns (next: Book)
    requires Keeps(options, f, b, file) && !f.poisoned
    ensures Keeps(options, f.(poisoned := true), next, file)
    ensures next.Continues(b) && next.published == b.published && next.lost == b.lost
  {
    hide WalkFile, AccountsFor, Durable, Recorded, TailAt, ContinuesAt, SchemaFrame.Valid;
    EventRecorded(b.Life(options), b.start, b.events, WorldOf(f, b, file), Event.Fail);
    next := b.(events := b.events + [Event.Fail]);
  }

  lemma KeepsSynced(options: Options, f: Figures, b: Book, file: seq<byte>)
    requires Keeps(options, f, b, file)
    ensures Keeps(options, f.(durableRows := f.rows, durableBytes := f.bytes), b.(synced := |b.published|), file)
  {
    hide WalkFile, AccountsFor, Durable, Recorded, TailAt, ContinuesAt, SchemaFrame.Valid;
    AllDurable(options.cfg, b.limits, b.initial, b.committed, b.published, b.written, f.rows, f.bytes, f.blocks);
  }

  /** What the figures count. */
  lemma KeepsTotals(options: Options, f: Figures, b: Book, file: seq<byte>)
    requires Keeps(options, f, b, file)
    ensures (forall i :: 0 <= i < |b.published| ==> ValidRows(options.cfg.schema, b.published[i]))
    ensures f.rows == |Flatten(b.published)| && f.bytes == FrameSum(options.cfg, b.published) && f.blocks == |b.published|
    ensures Durable(options.cfg, b.published, b.synced, f.durableRows, f.durableBytes)
  {
    hide WalkFile, FileRows, Recorded, TailAt, SchemaFrame.Valid, Flatten, Price, ReadBack, Writable, ContinuesAt, FrameSum, Durable;
  }

  /** What a full read of a healthy session's file yields. */
  lemma KeepsRead(options: Options, f: Figures, b: Book, file: seq<byte>)
    requires Keeps(options, f, b, file) && !f.poisoned
    ensures b.lost == [] && WalkFile(file, b.limits, Discard) == Ok((b.scan, Walk(b.end, false)))
    ensures f.rows == |Flatten(b.published)| && f.blocks == |b.published| && f.state == StateAt(file, b.end)
    ensures AllValid(b.written) && RowsWritten(b.written) == Flatten(b.published)
    ensures FileRows(file, b.limits)
         == if b.initial.Err? then b.initial
            else if AllAffordable(b.written, b.limits) then Ok(b.initial.value + Flatten(b.published))
            else Err(ResourceLimit)
  {
    hide WalkFile, FileRows, Recorded, TailAt, SchemaFrame.Valid, Affordable, RowsWritten, Flatten, ReadBack, AccountsFor, Durable;
    AccountsRead(options.cfg, b.limits, b.initial, b.committed, b.published, b.written, f.rows, f.bytes, f.blocks);
    assert b.committed + [] == b.committed;
  }

  lemma KeepsFacts(options: Options, f: Figures, b: Book, file: seq<byte>)
    requires Keeps(options, f, b, file)
    ensures SchemaFrame.Valid(options.cfg.schema) && options.cfg.Valid()
    ensures 1 <= f.state.nextSequence < U64 && f.state.nextRowId < U64 && f.state.fileLength < U64
    ensures !f.poisoned ==> b.lost == []
  {
    hide WalkFile, AccountsFor, Durable, Recorded, TailAt, SchemaFrame.Valid;
  }

  lemma {:induction false} RunConcat(o: Origin, w: World, first: seq<Event>, second: seq<Event>)
    ensures Run(o, w, first + second) == Run(o, Run(o, w, first), second)
    decreases |first|
  {
    hide Apply;
    if first == [] {
      assert [] + second == second;
    } else {
      assert (first + second)[1..] == first[1..] + second;
      RunConcat(o, Apply(o, w, first[0]), first[1..], second);
    }
  }

  /** Between two pages of one session lie only events: they take the one world to the other. */
  lemma PagesAreEvents(options: Options, f: Figures, b: Book, file: seq<byte>, f': Figures, b': Book, file': seq<byte>)
    requires Keeps(options, f, b, file) && Keeps(options, f', b', file') && b'.Continues(b)
    ensures Run(b.Life(options), WorldOf(f, b, file), b'.events[|b.events|..]) == WorldOf(f', b', file')
  {
    hide WalkFile, AccountsFor, Durable, TailAt, ContinuesAt, SchemaFrame.Valid, IsSound, Run;
    assert b.events + b'.events[|b.events|..] == b'.events;
    RunConcat(b.Life(options), b.start, b.events, b'.events[|b.events|..]);
  }

  /**
   * Whatever sequence of appends, flushes and syncs a session has made, the file it leaves is
   * crash safe: it walks if and only if no event overflowed the counters, it then reads back
   * what it held followed by every block written whole, within the reader's allowance, and a
   * healthy session stands at its end.
   */
  lemma SessionIsCrashSafe(options: Options, f: Figures, b: Book, file: seq<byte>)
    requires Keeps(options, f, b, file)
    ensures
      var walked := WalkFile(file, b.limits, Discard);
      && (walked.Ok? <==> NeverOverflows(b.Life(options), b.start, b.events))
      && (walked.Err? ==> walked.kind == Corruption)
      && AllValid(b.whole)
      && (walked.Ok? ==>
            && FileRows(file, b.limits) == ReadBack(b.initial, b.whole, b.limits)
            && (!f.poisoned ==> !walked.value.1.incompleteTail && f.state == StateAt(file, walked.value.1.end)))
  {
    hide WalkFile, FileRows, IsSound, Run, NeverOverflows, AccountsFor, ContinuesAt, ReadBack, TailAt;
    RunIsCrashSafe(b.Life(options), b.start, b.events);
  }
}
