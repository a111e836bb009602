/**
 * Blocks the writer publishes and a reader may not afford: nulls take no stored byte, while
 * each costs the reader its validity and its slot.
 */
module AllowanceRun {
  import opened Core
  import opened Bytes
  import opened Limits
  import opened Schema
  import opened Rows
  import opened Frame
  import opened Layouts
  import opened DataFrame
  import opened Walk
  import opened WalkTheorems
  import opened Pricing
  import opened ColumnCodec
  import opened Charges
  import opened Planned
  import opened Blocks
  import opened BlockSizes
  import opened Contents
  import opened Sessions
  import opened Creation
  import opened CrashSafety
  import opened Books
  import SchemaFrame
  import Prologue
  import BlockTheorems

  const MOST_COLUMNS: nat := 100
  const NULL_BYTES: nat := 9

  function NullableColumn(i: nat): Column
    requires i < MOST_COLUMNS
  {
    var name := [i as byte];
    assert ScalarLength(name) == 1 && name[1..] == [] && ValidUtf8([]);
    assert ValidUtf8(name);
    Column(i + 1, name, LogicalType.Int64, true)
  }

  /** Nullable 64-bit integer columns, with no primary. */
  function Wide(n: nat): (schema: Schema)
    requires n <= MOST_COLUMNS
    ensures |schema.columns| == n && schema.primaryColumnId == None
    ensures forall i :: 0 <= i < n ==> schema.columns[i] == NullableColumn(i)
  {
    Schema(1, seq(n, i requires 0 <= i < n => NullableColumn(i)), None)
  }

  function NullRow(n: nat): (row: Row)
    ensures |row| == n && forall i :: 0 <= i < n ==> row[i] == Null
  {
    seq(n, _ => Null)
  }

  function NullRows(n: nat, count: nat): (rows: seq<Row>)
    ensures |rows| == count && forall r :: 0 <= r < count ==> rows[r] == NullRow(n)
  {
    seq(count, _ => NullRow(n))
  }

  function NullPlan(n: nat): Plan
    requires 0 < n <= MOST_COLUMNS
  {
    RawPlan(Wide(n), NoStatistics)
  }

  lemma WideIsValid(n: nat)
    requires 0 < n <= MOST_COLUMNS
    ensures SchemaFrame.Valid(Wide(n)) && NullPlan(n).Valid()
  {
    var columns := Wide(n).columns;
    forall c | c in columns
      ensures c.id != 0 && SchemaFrame.TypeParameters(c.logicalType).Ok? && |c.name| <= DEFAULT.maxSchemaFieldLength
    {
      var i :| 0 <= i < |columns| && columns[i] == c;
      assert c == NullableColumn(i);
    }
  }

  lemma NullRowsAreValid(n: nat, count: nat)
    requires 0 < n <= MOST_COLUMNS
    ensures ValidRows(Wide(n), NullRows(n, count))
  {
    hide Wide, NullRow;
    forall r | 0 <= r < count ensures ValidRow(Wide(n), NullRows(n, count)[r]) {
      assert NullRows(n, count)[r] == NullRow(n);
    }
  }

  lemma {:induction false} NullFootprints(n: nat, count: nat)
    requires 0 < n <= MOST_COLUMNS
    ensures ValidRows(Wide(n), NullRows(n, count))
    ensures forall i :: 0 <= i < n ==> Footprints(Wide(n), NullRows(n, count))[i] == Footprint(0, count, 0)
  {
    hide ValidRow, NullRow, Wide;
    NullRowsAreValid(n, count);
    if count > 0 {
      NullRowsAreValid(n, count - 1);
      NullFootprints(n, count - 1);
      assert NullRows(n, count)[..count - 1] == NullRows(n, count - 1);
    }
  }

  lemma {:induction false} NothingStored(n: nat, fs: seq<Footprint>, count: nat, k: nat)
    requires k <= n <= MOST_COLUMNS && |fs| == n && forall i :: 0 <= i < n ==> fs[i] == Footprint(0, count, 0)
    ensures TotalsOf(Wide(n), fs, count, NoStatistics, k) == Totals(0, 0, 0)
  {
    hide Wide;
    if k > 0 {
      NothingStored(n, fs, count, k - 1);
    }
  }

  /** The writer accepts any such block a block may hold, in a frame without payload. */
  lemma NullBlockEncodes(n: nat, count: nat, base: Option<nat>)
    requires 0 < n <= MOST_COLUMNS && 0 < count <= DEFAULT.maxRowsPerBlock
    ensures NullPlan(n).Valid() && ValidRows(Wide(n), NullRows(n, count))
    ensures
      var block := EncodeBlock(NullPlan(n), NullRows(n, count), base);
      block.Ok? && block.value.payload == [] && FrameLength(|block.value.header|, 0) < 0x10000
  {
    hide EncodeBlock, SchemaFrame.Valid, ValidRows, NullRows, Footprints, Wide, TotalsOf;
    WideIsValid(n);
    NullFootprints(n, count);
    NothingStored(n, Footprints(Wide(n), NullRows(n, count)), count, n);
    RawBlockIsPriced(Wide(n), NullRows(n, count), NoStatistics, base);
  }

  lemma NothingPresent(cells: seq<Cell>)
    requires forall r :: 0 <= r < |cells| ==> cells[r].Null?
    ensures Present(cells) == []
  {
    CountBound(ValidityOf(cells));
  }

  /** A column of nulls costs a validity byte and a slot each. */
  lemma NullColumnCharge(n: nat, count: nat, i: nat)
    requires i < n <= MOST_COLUMNS && 0 < count < U32
    requires NullPlan(n).Valid() && ValidRows(Wide(n), NullRows(n, count))
    ensures PartCharge(NullPlan(n), NullRows(n, count), i) == count * NULL_BYTES
  {
    hide SchemaFrame.Valid, ValidRows, NullRows, Wide;
    var cells := CellsOf(Wide(n), NullRows(n, count), i);
    NothingPresent(cells);
  }

  lemma {:induction false} NullCharges(n: nat, count: nat, k: nat)
    requires 0 < n <= MOST_COLUMNS && k <= n && 0 < count < U32
    requires NullPlan(n).Valid() && ValidRows(Wide(n), NullRows(n, count))
    ensures ChargeUpTo(NullPlan(n), NullRows(n, count), k) == k * (count * NULL_BYTES)
  {
    hide SchemaFrame.Valid, ValidRows, NullRows, Wide, PartCharge;
    if k > 0 {
      NullCharges(n, count, k - 1);
      NullColumnCharge(n, count, k - 1);
    }
  }

  /** A block of nulls is affordable exactly when nine bytes a cell are. */
  lemma NullsAreAffordableExactly(n: nat, count: nat, limits: Limits)
    requires 0 < n <= MOST_COLUMNS && 0 < count <= DEFAULT.maxRowsPerBlock
    ensures NullPlan(n).Valid() && ValidRows(Wide(n), NullRows(n, count))
    ensures Affordable(NullPlan(n), NullRows(n, count), limits) <==> n * (count * NULL_BYTES) <= limits.maxDecodedBlockBytes
  {
    hide SchemaFrame.Valid, ValidRows, NullRows, Wide, ChargeUpTo;
    WideIsValid(n);
    NullRowsAreValid(n, count);
    NullCharges(n, count, n);
  }

  const EIGHT: nat := 8
  const FULL: nat := 0x100_0000

  /** Eight such columns of a full block are encoded, and refused by a reader with default limits. */
  lemma EightNullColumnsAreUnreadable(base: Option<nat>, rowIds: bool)
    requires base.Some? == rowIds && (base.Some? ==> base.value < U64)
    ensures NullPlan(EIGHT).Valid() && ValidRows(Wide(EIGHT), NullRows(EIGHT, FULL))
    ensures
      var block := EncodeBlock(NullPlan(EIGHT), NullRows(EIGHT, FULL), base);
      && block.Ok? && block.value.payload == []
      && DecodeBlock(block.value, Wide(EIGHT), rowIds, base, DEFAULT) == Err(ResourceLimit)
  {
    hide EncodeBlock, DecodeBlock, SchemaFrame.Valid, ValidRows, NullRows, Wide, Affordable;
    NullBlockEncodes(EIGHT, FULL, base);
    NullsAreAffordableExactly(EIGHT, FULL, DEFAULT);
    BlockTheorems.BlockRoundTrip(NullPlan(EIGHT), NullRows(EIGHT, FULL), base, DEFAULT);
  }

  function WideOrigin(rowIds: bool): Origin {
    Origin(Wide(EIGHT), rowIds, DEFAULT)
  }

  lemma {:induction false} SmallDescriptors(columns: seq<Column>)
    requires forall i :: 0 <= i < |columns| ==> |columns[i].name| == 1 && columns[i].logicalType == LogicalType.Int64
    ensures
      var printed := SchemaFrame.Descriptors(columns);
      printed.Ok? && |printed.value| <= 64 * |columns|
  {
    hide Le;
    if columns != [] {
      SmallDescriptors(columns[1..]);
    }
  }

  lemma WideIsCreatable(rowIds: bool)
    ensures WideOrigin(rowIds).Valid() && |CreatedFile(Wide(EIGHT), rowIds).value| < 0x1000
  {
    hide Le, Prologue.Build, SchemaFrame.Valid, Wide;
    WideIsValid(EIGHT);
    SmallDescriptors(Wide(EIGHT).columns);
    Prologue.RoundTrip(Features(rowIds));
  }

  /** A session opened on the created file publishes the block. */
  lemma FirstPublish(rowIds: bool)
    requires NullPlan(EIGHT).Valid() && ValidRows(Wide(EIGHT), NullRows(EIGHT, FULL)) && WideOrigin(rowIds).Valid()
    ensures
      var o := WideOrigin(rowIds);
      var w := Apply(o, Apply(o, Created(o), Reopen), Publish(NullPlan(EIGHT), NullRows(EIGHT, FULL)));
      Healthy(w) && w.written == [Written(NullPlan(EIGHT), NullRows(EIGHT, FULL))]
  {
    hide WalkFile, CreatedFile, CreatedScan, SchemaFrame.Valid, EncodeBlock, ValidRows, Wide, NullRows, Apply, NullPlan, DataFrameBytes,
         FrameFor;
    var o := WideOrigin(rowIds);
    var plan, rows := NullPlan(EIGHT), NullRows(EIGHT, FULL);
    WideIsCreatable(rowIds);
    CreatedFileWalks(o.schema, o.rowIds, DEFAULT, Discard);
    var scan := CreatedScan(o.schema, o.rowIds, DEFAULT, |CreatedFile(o.schema, o.rowIds).value|);
    ReopenedAtEnd(o, Created(o), scan, StartCursor(scan, Discard));
    var w := Apply(o, Created(o), Reopen);
    NullFrame(o, w);
    PublishIs(o, w, plan, rows, FrameFor(o, w, plan, rows).value);
  }

  lemma NullFrame(o: Origin, w: World)
    requires Healthy(w) && o.schema == Wide(EIGHT) && w.session.value.state.nextSequence < U64
    ensures
      var frame := FrameFor(o, w, NullPlan(EIGHT), NullRows(EIGHT, FULL));
      frame.Some? && |frame.value| < 0x10000
  {
    hide SchemaFrame.Valid, EncodeBlock, ValidRows, Wide, NullRows, FrameFor;
    var base := o.Base(w.session.value.state);
    NullBlockEncodes(EIGHT, FULL, base);
    FrameIsEncoded(o, w, NullPlan(EIGHT), NullRows(EIGHT, FULL));
  }

  lemma FrameIsEncoded(o: Origin, w: World, plan: Plan, rows: seq<Row>)
    requires Healthy(w) && w.session.value.state.nextSequence < U64 && plan.Valid() && plan.schema == o.schema
    requires ValidRows(plan.schema, rows) && rows != [] && EncodeBlock(plan, rows, o.Base(w.session.value.state)).Ok?
    ensures
      var block := EncodeBlock(plan, rows, o.Base(w.session.value.state)).value;
      var frame := FrameFor(o, w, plan, rows);
      frame.Some? && |frame.value| == FrameLength(|block.header|, |block.payload|)
  {
    hide SchemaFrame.Valid, EncodeBlock, ValidRows;
  }

  /** Publishing is not enough to be read: this run never fails, and a full read of its file is refused. */
  lemma SomePublishedFileIsUnreadable(rowIds: bool) returns (events: seq<Event>)
    ensures
      var o := WideOrigin(rowIds);
      && o.Valid()
      && var w := Run(o, Created(o), events);
      && Healthy(w) && WalkFile(w.file, DEFAULT, Discard).Ok? && FileRows(w.file, DEFAULT) == Err(ResourceLimit)
  {
    hide WalkFile, Apply, Created, FileRows, SchemaFrame.Valid, EncodeBlock, ValidRows, Wide, NullRows, Affordable, NullPlan,
         NeverOverflows, Run, CreatedFile;
    var o := WideOrigin(rowIds);
    var plan, rows := NullPlan(EIGHT), NullRows(EIGHT, FULL);
    events := [Reopen, Publish(plan, rows)];
    WideIsCreatable(rowIds);
    NullsAreAffordableExactly(EIGHT, FULL, DEFAULT);
    FirstPublish(rowIds);
    TwoEvents(o, Created(o), Reopen, Publish(plan, rows));
    RunsAreCrashSafe(o, events);
    assert !AllAffordable([Written(plan, rows)], DEFAULT);
  }

  lemma TwoEvents(o: Origin, w: World, first: Event, second: Event)
    ensures Run(o, w, [first, second]) == Apply(o, Apply(o, w, first), second)
    ensures !first.Tear? && !second.Tear? ==> NeverOverflows(o, w, [first, second])
  {
    hide Apply, FrameFor;
    assert [first, second][1..] == [second] && [second][1..] == [];
    assert !second.Tear? ==> NeverOverflows(o, Apply(o, w, first), [second]);
    assert Run(o, Apply(o, w, first), [second]) == Apply(o, Apply(o, w, first), second);
  }
}
