/**
 * A run that does end in corruption: the writer puts a whole frame on disk before it checks
 * that the row IDs after it still fit.
 */
module OverflowRun {
  import opened Core
  import opened Bytes
  import opened Limits
  import opened Schema
  import opened Rows
  import opened Frame
  import opened Walk
  import opened Pricing
  import opened Blocks
  import opened BlockSizes
  import opened Sessions
  import opened Creation
  import opened CrashSafety
  import SchemaFrame
  import Prologue

  const BLOCK_ROWS: nat := 0x100_0000
  const BLOCKS: nat := 0x100_0000_0000

  const COLUMN: Column := Column(1, [97], LogicalType.Int8, true)
  const SCHEMA: Schema := Schema(1, [COLUMN], None)
  const ORIGIN: Origin := Origin(SCHEMA, true, DEFAULT)

  /** Rows whose only value is null, so that a block of any length stores no streams. */
  function Nulls(n: nat): (rows: seq<Row>)
    ensures |rows| == n
  {
    seq(n, _ => [Null])
  }

  lemma NullsAreValid(n: nat)
    ensures ValidRows(SCHEMA, Nulls(n))
  {
    forall r | 0 <= r < n ensures ValidRow(SCHEMA, Nulls(n)[r]) {
      assert Nulls(n)[r] == [Null];
    }
  }

  lemma {:induction false} NullFootprints(n: nat)
    ensures ValidRows(SCHEMA, Nulls(n))
    ensures Footprints(SCHEMA, Nulls(n)) == [Footprint(0, n, 0)]
  {
    hide ValidRow;
    NullsAreValid(n);
    if n > 0 {
      NullsAreValid(n - 1);
      NullFootprints(n - 1);
      assert Nulls(n)[..n - 1] == Nulls(n - 1);
    }
  }

  lemma SchemaIsValid()
    ensures SchemaFrame.Valid(SCHEMA) && ORIGIN.Valid()
    ensures |CreatedFile(SCHEMA, true).value| < 0x1000
  {
    hide Le, Prologue.Build;
    assert SCHEMA.columns[1..] == [];
    assert SchemaFrame.TypeParameters(LogicalType.Int8) == Ok([]);
    var d := SchemaFrame.Descriptor(COLUMN);
    assert d.Ok? && |d.value| < 0x100;
    assert SchemaFrame.Descriptors([]) == Ok([]);
    assert SchemaFrame.Descriptors(SCHEMA.columns) == Ok(d.value + []);
  }

  const PLAN: Plan := RawPlan(SCHEMA, NoStatistics)

  /** Any number of null rows a block may hold encodes to a frame of at most 176 bytes. */
  lemma NullBlock(base: Option<nat>)
    ensures PLAN.Valid() && ValidRows(SCHEMA, Nulls(BLOCK_ROWS))
    ensures
      var block := EncodeBlock(PLAN, Nulls(BLOCK_ROWS), base);
      block.Ok? && FrameLength(|block.value.header|, |block.value.payload|) <= 176
  {
    hide EncodeBlock, SchemaFrame.Valid, ValidRows, Nulls, Footprints;
    SchemaIsValid();
    NullFootprints(BLOCK_ROWS);
    var f := Footprint(0, BLOCK_ROWS, 0);
    assert TotalsOf(SCHEMA, [f], BLOCK_ROWS, NoStatistics, 0) == Totals(0, 0, 0);
    assert ColumnBytes(COLUMN, f, BLOCK_ROWS) == 0 && ColumnStreams(COLUMN, f) == 0;
    assert TotalsOf(SCHEMA, [f], BLOCK_ROWS, NoStatistics, 1) == Totals(0, 0, 0);
    RawBlockIsPriced(SCHEMA, Nulls(BLOCK_ROWS), NoStatistics, base);
  }

  ghost predicate Encodes(plan: Plan, rows: seq<Row>) {
    plan.Valid() && ValidRows(plan.schema, rows) && rows != []
  }

  ghost predicate SmallFrame(plan: Plan, rows: seq<Row>, base: Option<nat>)
    requires Encodes(plan, rows)
  {
    var block := EncodeBlock(plan, rows, base);
    block.Ok? && FrameLength(|block.value.header|, |block.value.payload|) <= 176
  }

  /** Full blocks that encode to small frames, whatever base they carry. */
  ghost predicate Cheap(o: Origin, plan: Plan, rows: seq<Row>) {
    && o.Valid() && o.rowIds && o.limits == DEFAULT && |CreatedFile(o.schema, o.rowIds).value| < 0x1000
    && Encodes(plan, rows) && plan.schema == o.schema && |rows| == BLOCK_ROWS
    && forall base: Option<nat> :: SmallFrame(plan, rows, base)
  }

  lemma NullsAreCheap() returns (o: Origin, plan: Plan, rows: seq<Row>)
    ensures Cheap(o, plan, rows)
  {
    hide EncodeBlock, SchemaFrame.Valid, ValidRows, Nulls, CreatedFile;
    o, plan, rows := ORIGIN, PLAN, Nulls(BLOCK_ROWS);
    SchemaIsValid();
    NullBlock(None);
    forall base: Option<nat> ensures SmallFrame(plan, rows, base) {
      NullBlock(base);
    }
  }

  function Publishes(plan: Plan, rows: seq<Row>, k: nat): seq<Event>
    decreases k
  {
    if k == 0 then [] else Publishes(plan, rows, k - 1) + [Publish(plan, rows)]
  }

  lemma {:induction false} OverflowAtEnd(o: Origin, w: World, events: seq<Event>, last: Event)
    requires Overflows(o, Run(o, w, events), last)
    ensures !NeverOverflows(o, w, events + [last])
    decreases |events|
  {
    hide Apply, Overflows;
    if events == [] {
      assert (events + [last])[0] == last;
    } else {
      assert (events + [last])[1..] == events[1..] + [last];
      OverflowAtEnd(o, Apply(o, w, events[0]), events[1..], last);
    }
  }

  function Start(o: Origin): World
    requires o.Valid()
  {
    Apply(o, Created(o), Reopen)
  }

  /** A healthy session after `k` such blocks. */
  ghost predicate After(w: World, k: nat) {
    && Healthy(w)
    && w.session.value.state.nextSequence == k + 1
    && w.session.value.state.nextRowId == k * BLOCK_ROWS
    && |w.file| <= 0x1000 + 176 * k
  }

  lemma StartIsHealthy(o: Origin, plan: Plan, rows: seq<Row>)
    requires Cheap(o, plan, rows)
    ensures After(Start(o), 0)
  {
    hide WalkFile, CreatedFile, CreatedScan, SchemaFrame.Valid, EncodeBlock, ValidRows, SmallFrame, Encodes, Apply;
    CreatedFileWalks(o.schema, o.rowIds, DEFAULT, Discard);
    CreatedFileOpens(o.schema, o.rowIds, DEFAULT);
    var scan := CreatedScan(o.schema, o.rowIds, DEFAULT, |CreatedFile(o.schema, o.rowIds).value|);
    ReopenedAtEnd(o, Created(o), scan, StartCursor(scan, Discard));
  }

  /** The frame a session after `k` blocks writes next. */
  lemma NextFrame(o: Origin, plan: Plan, rows: seq<Row>, w: World, k: nat)
    requires Cheap(o, plan, rows) && After(w, k) && k < BLOCKS
    ensures FrameFor(o, w, plan, rows).Some? && |FrameFor(o, w, plan, rows).value| <= 176
    ensures |rows| == BLOCK_ROWS && o.rowIds
  {
    hide EncodeBlock, SchemaFrame.Valid, ValidRows, CreatedFile;
    assert SmallFrame(plan, rows, o.Base(w.session.value.state));
  }

  lemma OneMoreBlock(o: Origin, plan: Plan, rows: seq<Row>, w: World, k: nat)
    requires Cheap(o, plan, rows) && After(w, k) && k + 1 < BLOCKS
    ensures After(Apply(o, w, Publish(plan, rows)), k + 1)
  {
    hide FrameFor, Cheap;
    NextFrame(o, plan, rows, w, k);
  }

  lemma NoEvents(o: Origin, w: World, plan: Plan, rows: seq<Row>)
    ensures Run(o, w, Publishes(plan, rows, 0)) == w
  {
  }

  lemma PublishesMore(plan: Plan, rows: seq<Row>, k: nat)
    requires k > 0
    ensures Publishes(plan, rows, k) == Publishes(plan, rows, k - 1) + [Publish(plan, rows)]
  {
  }

  lemma {:induction false} ManyBlocks(o: Origin, plan: Plan, rows: seq<Row>, k: nat)
    requires Cheap(o, plan, rows) && k < BLOCKS && o.Valid()
    ensures After(Run(o, Start(o), Publishes(plan, rows, k)), k)
    decreases k
  {
    hide Apply, After, Start, Cheap, Run, Publishes, SchemaFrame.Valid, CreatedFile;
    if k == 0 {
      NoEvents(o, Start(o), plan, rows);
      StartIsHealthy(o, plan, rows);
    } else {
      ManyBlocks(o, plan, rows, k - 1);
      PublishesMore(plan, rows, k);
      RunAppend(o, Start(o), Publishes(plan, rows, k - 1), Publish(plan, rows));
      OneMoreBlock(o, plan, rows, Run(o, Start(o), Publishes(plan, rows, k - 1)), k - 1);
    }
  }

  lemma CheapIsValid(o: Origin, plan: Plan, rows: seq<Row>)
    requires Cheap(o, plan, rows)
    ensures o.Valid() && o.limits == DEFAULT
  {
  }

  /** The last block tears after its last byte, at the last representable row ID. */
  lemma LastBlockOverflows(o: Origin, plan: Plan, rows: seq<Row>, w: World, k: nat) returns (e: Event)
    requires Cheap(o, plan, rows) && k + 1 == BLOCKS && After(w, k)
    ensures Overflows(o, w, e)
  {
    hide FrameFor, Cheap;
    NextFrame(o, plan, rows, w, k);
    e := Tear(plan, rows, |FrameFor(o, w, plan, rows).value|);
  }

  /**
   * Crash safety cannot be unconditional: there is a run, every write of which completes,
   * whose file every walk then reports as corrupt.
   */
  lemma SomeRunEndsInCorruption() returns (o: Origin, events: seq<Event>)
    ensures o.Valid() && o.limits == DEFAULT
    ensures WalkFile(Run(o, Created(o), events).file, DEFAULT, Discard) == Err(Corruption)
  {
    hide WalkFile, Apply, Overflows, CreatedFile, SchemaFrame.Valid, Cheap, After, Publishes;
    var plan, rows;
    o, plan, rows := NullsAreCheap();
    CheapIsValid(o, plan, rows);
    var k: nat :| k + 1 == BLOCKS;
    ManyBlocks(o, plan, rows, k);
    var many := Publishes(plan, rows, k);
    var last := LastBlockOverflows(o, plan, rows, Run(o, Start(o), many), k);
    OverflowAtEnd(o, Start(o), many, last);
    events := [Reopen] + (many + [last]);
    FirstEvent(o, Created(o), Reopen, many + [last]);
    RunsAreCrashSafe(o, events);
  }

  lemma FirstEvent(o: Origin, w: World, first: Event, rest: seq<Event>)
    requires !NeverOverflows(o, Apply(o, w, first), rest)
    ensures !NeverOverflows(o, w, [first] + rest)
  {
    hide Apply, Overflows;
    assert ([first] + rest)[1..] == rest;
  }
}
