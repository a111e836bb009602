/** The price of a raw block is the size of the block the encoder builds. */
module BlockSizes {
  import opened Core
  import opened Bytes
  import opened Limits
  import opened Schema
  import opened Rows
  import opened Pricing
  import opened Frame
  import opened DataFrame
  import opened Layouts
  import opened Packing
  import opened ColumnCodec
  import opened StreamRanges
  import opened Tables
  import opened Extrema
  import opened Blocks
  import BlockTheorems
  import SchemaFrame

  // -------------------------------------------------------- counters and columns

  lemma {:induction false} ConcatAppend(blobs: seq<seq<byte>>, last: seq<byte>)
    ensures Concat(blobs + [last]) == Concat(blobs) + last
  {
    if blobs != [] {
      assert (blobs + [last])[1..] == blobs[1..] + [last];
      ConcatAppend(blobs[1..], last);
    }
  }

  /** What one column's cells amount to in the counters. */
  function FootprintOf(t: LogicalType, cells: seq<Cell>): Footprint {
    if cells == [] then EMPTY else AddCell(t, FootprintOf(t, cells[..|cells| - 1]), cells[|cells| - 1])
  }

  lemma {:induction false} FootprintsAre(schema: Schema, rows: seq<Row>, i: nat)
    requires ValidRows(schema, rows) && i < |schema.columns|
    ensures Footprints(schema, rows)[i] == FootprintOf(schema.columns[i].logicalType, CellsOf(schema, rows, i))
  {
    hide ValidRow;
    if rows != [] {
      var n := |rows| - 1;
      FootprintsAre(schema, rows[..n], i);
      assert CellsOf(schema, rows, i)[..n] == CellsOf(schema, rows[..n], i);
    }
  }

  lemma PresentAppend(cells: seq<Cell>)
    requires cells != []
    ensures
      var n := |cells| - 1;
      Present(cells) == Present(cells[..n]) + if cells[n].Null? then [] else [cells[n]]
  {
    var n := |cells| - 1;
    assert ValidityOf(cells)[..n] == ValidityOf(cells[..n]);
  }

  /** Variable bytes a column stores. */
  function VariableBytesOf(column: Column, dense: seq<Cell>): nat
    requires Dense(column, dense)
  {
    if StorageOf(column.logicalType).VariableBytes? then |RawBytes(column, dense)| else 0
  }

  lemma VariableAppend(column: Column, dense: seq<Cell>, cell: Cell)
    requires Dense(column, dense + [cell]) && Dense(column, dense)
    ensures
      VariableBytesOf(column, dense + [cell]) == VariableBytesOf(column, dense)
      + if StorageOf(column.logicalType).VariableBytes? then VariableLength(cell) else 0
  {
    hide Admits;
    var all := dense + [cell];
    if StorageOf(column.logicalType).VariableBytes? {
      DenseShape(column, all);
      DenseShape(column, dense);
      assert all[|dense|] == cell;
      assert BlobsOf(all) == BlobsOf(dense) + [cell.bytes];
      ConcatAppend(BlobsOf(dense), cell.bytes);
    }
  }

  /** The counters of a column are the counts its encoder will store. */
  lemma {:induction false} FootprintCounts(column: Column, cells: seq<Cell>)
    requires Admissible(column, cells)
    ensures Dense(column, Present(cells))
    ensures
      var dense := Present(cells);
      FootprintOf(column.logicalType, cells) == Footprint(|dense|, |cells| - |dense|, VariableBytesOf(column, dense))
  {
    hide Admits, RawBytes;
    PresentIsDense(column, cells);
    if cells == [] {
      NoBytes(column);
    } else {
      var n := |cells| - 1;
      FootprintCounts(column, cells[..n]);
      PresentAppend(cells);
      assert Present(cells[..n]) + [] == Present(cells[..n]);
      if !cells[n].Null? {
        VariableAppend(column, Present(cells[..n]), cells[n]);
      }
    }
  }

  lemma NoBytes(column: Column)
    ensures Present([]) == [] && VariableBytesOf(column, []) == 0
  {
  }

  // -------------------------------------------------------------- one raw column

  function RawPlan(schema: Schema, policy: Policy): Plan {
    Plan(schema, seq(|schema.columns|, _ => Choice(Encoding.Raw, false)), policy)
  }

  function PaddedLength(length: nat): nat {
    if length == 0 then 8 else Align8(length)
  }

  lemma StreamBytesExact(length: nat)
    requires StreamBytes(length) <= DEFAULT.maxFramePayloadLength
    ensures StreamBytes(length) == PaddedLength(length)
  {
  }

  /** The streams the raw encoder stores for a column. */
  function RawColumn(column: Column, cells: seq<Cell>): (encoded: EncodedColumn)
    requires Admissible(column, cells) && |cells| < U32
    ensures EncodeColumn(column, cells, Encoding.Raw, false) == Ok(encoded)
  {
    PresentIsDense(column, cells);
    EncodeColumn(column, cells, Encoding.Raw, false).value
  }

  lemma RawValueBytes(column: Column, cells: seq<Cell>, f: Footprint, rows: nat)
    requires Dense(column, cells) && cells != [] && f.dense == |cells| <= DEFAULT.maxRowsPerBlock
    requires f.variable == VariableBytesOf(column, cells)
    ensures ValuesBytes(column.logicalType, f) == |RawBytes(column, cells)|
    ensures Saturate(4 * f.dense) == 4 * |cells|
  {
    hide Admits, RawBytes;
    RawLength(column, cells);
    match StorageOf(column.logicalType)
    case Integer(width, _) => assert width * f.dense < U64;
    case FixedBytes(width) =>
      FixedWidthBound(column.logicalType);
      ProductBound(width, f.dense);
    case _ =>
  }

  lemma FixedWidthBound(t: LogicalType)
    ensures StorageOf(t).FixedBytes? ==> StorageOf(t).width < U32
  {
  }

  lemma ProductBound(a: nat, b: nat)
    requires a < U32 && b < U32
    ensures a * b < U64 && a * b == b * a
  {
    assert a * b <= a * U32;
  }

  lemma PayloadOfOne(s: Stream)
    requires s.content.Good?
    ensures |PayloadOf([s])| == PaddedLength(|s.content.bytes|)
  {
    assert [s][1..] == [];
  }

  lemma {:induction false} PayloadConcat(a: seq<Stream>, b: seq<Stream>)
    requires Built(a) && Built(b)
    ensures Built(a + b) && |PayloadOf(a + b)| == |PayloadOf(a)| + |PayloadOf(b)|
  {
    hide Padded;
    if a == [] {
      assert a + b == b;
    } else {
      assert (a + b)[1..] == a[1..] + b;
      PayloadConcat(a[1..], b);
    }
  }

  lemma RawStreamsSize(column: Column, cells: seq<Cell>)
    requires Dense(column, cells)
    ensures
      var streams := RawStreams(column, cells, VALUES, LENGTHS);
      var variable := StorageOf(column.logicalType).VariableBytes?;
      && Built(streams) && |streams| == (if variable then 2 else 1)
      && |PayloadOf(streams)| ==
         PaddedLength(|RawBytes(column, cells)|) + if variable then PaddedLength(4 * |cells|) else 0
  {
    hide Admits, RawBytes, LengthBytes;
    var streams := RawStreams(column, cells, VALUES, LENGTHS);
    PayloadOfOne(streams[0]);
    if StorageOf(column.logicalType).VariableBytes? {
      PayloadOfOne(streams[1]);
      assert streams == [streams[0]] + [streams[1]];
      PayloadConcat([streams[0]], [streams[1]]);
    } else {
      assert streams == [streams[0]];
    }
  }

  lemma ValidityStreamSize(bits: seq<bool>)
    requires 0 < |bits| < U32
    ensures
      var v := ValidityStream(bits, false);
      v.Ok? && v.value.content.Good? && |PayloadOf([v.value])| == PaddedLength(ByteCount(|bits|))
  {
    hide PackBits;
    PayloadOfOne(ValidityStream(bits, false).value);
  }

  /** Pricing one column is exact, unless it saturates past every limit. */
  lemma ColumnPriceExact(column: Column, cells: seq<Cell>)
    requires Admissible(column, cells) && 0 < |cells| <= DEFAULT.maxRowsPerBlock
    requires ColumnBytes(column, FootprintOf(column.logicalType, cells), |cells|) <= DEFAULT.maxFramePayloadLength
    ensures
      var f := FootprintOf(column.logicalType, cells);
      var streams := RawColumn(column, cells).streams;
      && Built(streams)
      && |PayloadOf(streams)| == ColumnBytes(column, f, |cells|) && |streams| == ColumnStreams(column, f)
  {
    hide Admits, RawBytes, RawStreams, Present, PayloadOf, FootprintOf, ValidityStream, Align8, ValuesBytes, StreamBytes;
    FootprintCounts(column, cells);
    var f := FootprintOf(column.logicalType, cells);
    var dense := Present(cells);
    PresentIsDense(column, cells);
    if dense == [] {
      assert PayloadOf([]) == [] by { EmptyPayload(); }
    } else {
      RawValueBytes(column, dense, f, |cells|);
      RawStreamsSize(column, dense);
      ValidityStreamSize(ValidityOf(cells));
      ColumnTerms(column, f, |cells|);
      if f.nulls > 0 {
        var v := ValidityStream(ValidityOf(cells), false).value;
        PayloadConcat([v], RawStreams(column, dense, VALUES, LENGTHS));
      }
    }
  }

  lemma EmptyPayload()
    ensures PayloadOf([]) == []
  {
  }

  /** Below the limit every term of a column's price is exact. */
  lemma ColumnTerms(column: Column, f: Footprint, rows: nat)
    requires f.dense != 0 && ColumnBytes(column, f, rows) <= DEFAULT.maxFramePayloadLength
    ensures
      ColumnBytes(column, f, rows)
      == (if f.ImplicitValidity() then 0 else PaddedLength(ByteCount(rows)))
         + PaddedLength(ValuesBytes(column.logicalType, f))
         + if StorageOf(column.logicalType).VariableBytes? then PaddedLength(Saturate(4 * f.dense)) else 0
  {
    hide ValuesBytes, StorageOf, PaddedLength, StreamBytes;
    if !f.ImplicitValidity() {
      StreamBytesExact(ByteCount(rows));
    }
    StreamBytesExact(ValuesBytes(column.logicalType, f));
    if StorageOf(column.logicalType).VariableBytes? {
      StreamBytesExact(Saturate(4 * f.dense));
    }
  }

  // ------------------------------------------------------------------ whole block

  ghost predicate Input(schema: Schema, rows: seq<Row>) {
    SchemaFrame.Valid(schema) && ValidRows(schema, rows) && 0 < |rows| <= DEFAULT.maxRowsPerBlock
  }

  /** One column as the raw encoder stores it. */
  function RawPart(schema: Schema, rows: seq<Row>, policy: Policy, i: nat): (part: Part)
    requires SchemaFrame.Valid(schema) && ValidRows(schema, rows) && |rows| < U32 && i < |schema.columns|
    ensures EncodePart(RawPlan(schema, policy), rows, i) == Ok(part)
  {
    var cells := CellsOf(schema, rows, i);
    CellsAreAdmissible(schema, rows, i);
    Part(schema.columns[i], RawColumn(schema.columns[i], cells),
         StatisticsOf(schema, schema.columns[i], Present(cells), policy))
  }

  function Plus(a: Totals, b: Totals): Totals {
    Totals(a.payload + b.payload, a.streams + b.streams, a.statistics + b.statistics)
  }

  ghost predicate BuiltParts(parts: seq<Part>) {
    forall p :: 0 <= p < |parts| ==> Built(parts[p].encoded.streams)
  }

  ghost function PartTotals(part: Part): Totals
    requires Built(part.encoded.streams)
  {
    Totals(|PayloadOf(part.encoded.streams)|, |part.encoded.streams|, |part.statistics|)
  }

  ghost function SumParts(parts: seq<Part>): Totals
    requires BuiltParts(parts)
  {
    if parts == [] then Totals(0, 0, 0) else Plus(PartTotals(parts[0]), SumParts(parts[1..]))
  }

  lemma {:induction false} SumPartsIs(parts: seq<Part>)
    requires BuiltParts(parts)
    ensures Built(AllStreams(parts))
    ensures SumParts(parts) == Totals(|PayloadOf(AllStreams(parts))|, |AllStreams(parts)|, |AllStatistics(parts)|)
  {
    hide PayloadOf;
    if parts == [] {
      EmptyPayload();
    } else {
      SumPartsIs(parts[1..]);
      PayloadConcat(parts[0].encoded.streams, AllStreams(parts[1..]));
    }
  }

  /** The totals of one column, whatever its place in the table. */
  ghost function TotalsAt(schema: Schema, rows: seq<Row>, policy: Policy, i: nat): Totals
    requires SchemaFrame.Valid(schema) && ValidRows(schema, rows) && |rows| < U32 && i < |schema.columns|
  {
    PartIsBuilt(RawPlan(schema, policy), rows, i);
    PartTotals(RawPart(schema, rows, policy, i))
  }

  ghost function SumOver(schema: Schema, rows: seq<Row>, policy: Policy, order: seq<nat>): Totals
    requires SchemaFrame.Valid(schema) && ValidRows(schema, rows) && |rows| < U32
    requires forall p :: 0 <= p < |order| ==> order[p] < |schema.columns|
    decreases |order|
  {
    if order == [] then Totals(0, 0, 0)
    else Plus(TotalsAt(schema, rows, policy, order[0]), SumOver(schema, rows, policy, order[1..]))
  }

  ghost function SumUpTo(schema: Schema, rows: seq<Row>, policy: Policy, n: nat): Totals
    requires SchemaFrame.Valid(schema) && ValidRows(schema, rows) && |rows| < U32 && n <= |schema.columns|
  {
    if n == 0 then Totals(0, 0, 0) else Plus(SumUpTo(schema, rows, policy, n - 1), TotalsAt(schema, rows, policy, n - 1))
  }

  lemma {:induction false} SumInserted(schema: Schema, rows: seq<Row>, policy: Policy, order: seq<nat>, i: nat)
    requires SchemaFrame.Valid(schema) && ValidRows(schema, rows) && |rows| < U32 && i < |schema.columns|
    requires forall p :: 0 <= p < |order| ==> order[p] < |schema.columns|
    ensures
      SumOver(schema, rows, policy, InsertById(schema.columns, order, i))
      == Plus(SumOver(schema, rows, policy, order), TotalsAt(schema, rows, policy, i))
    decreases |order|
  {
    hide SchemaFrame.Valid, ValidRows, TotalsAt;
    var r := InsertById(schema.columns, order, i);
    if order == [] || schema.columns[i].id < schema.columns[order[0]].id {
      assert r[1..] == order;
    } else {
      assert r[1..] == InsertById(schema.columns, order[1..], i);
      SumInserted(schema, rows, policy, order[1..], i);
    }
  }

  /** Storing columns in ID order does not change what they add up to. */
  lemma {:induction false} SumReordered(schema: Schema, rows: seq<Row>, policy: Policy, n: nat)
    requires SchemaFrame.Valid(schema) && ValidRows(schema, rows) && |rows| < U32 && n <= |schema.columns|
    ensures SumOver(schema, rows, policy, IdOrderUpTo(schema.columns, n)) == SumUpTo(schema, rows, policy, n)
  {
    hide SchemaFrame.Valid, ValidRows, TotalsAt, InsertById;
    if n > 0 {
      SumReordered(schema, rows, policy, n - 1);
      SumInserted(schema, rows, policy, IdOrderUpTo(schema.columns, n - 1), n - 1);
    }
  }

  lemma {:induction false} PartsOverOrder(schema: Schema, rows: seq<Row>, policy: Policy, order: seq<nat>)
    requires SchemaFrame.Valid(schema) && ValidRows(schema, rows) && |rows| < U32
    requires forall p :: 0 <= p < |order| ==> order[p] < |schema.columns|
    ensures
      var parts := EncodeParts(RawPlan(schema, policy), rows, order);
      && parts.Ok? && BuiltParts(parts.value) && |parts.value| == |order|
      && SumParts(parts.value) == SumOver(schema, rows, policy, order)
    decreases |order|
  {
    hide SchemaFrame.Valid, ValidRows, EncodePart, PartTotals, RawPart;
    if order != [] {
      PartsOverOrder(schema, rows, policy, order[1..]);
      var part := RawPart(schema, rows, policy, order[0]);
      PartIsBuilt(RawPlan(schema, policy), rows, order[0]);
      var parts := EncodeParts(RawPlan(schema, policy), rows, order).value;
      assert parts[0] == part && parts[1..] == EncodeParts(RawPlan(schema, policy), rows, order[1..]).value;
    }
  }

  /** No float of the block is NaN. */
  ghost predicate NoNans(schema: Schema, rows: seq<Row>)
    requires ValidRows(schema, rows)
  {
    forall i, r :: 0 <= i < |schema.columns| && 0 <= r < |rows| ==>
      !IsNan(schema.columns[i].logicalType, CellsOf(schema, rows, i)[r])
  }

  lemma ColumnTotals(schema: Schema, rows: seq<Row>, policy: Policy, i: nat)
    requires Input(schema, rows) && i < |schema.columns|
    requires ColumnBytes(schema.columns[i], Footprints(schema, rows)[i], |rows|) <= DEFAULT.maxFramePayloadLength
    ensures
      var t := TotalsAt(schema, rows, policy, i);
      var f := Footprints(schema, rows)[i];
      && t.payload == ColumnBytes(schema.columns[i], f, |rows|) && t.streams == ColumnStreams(schema.columns[i], f)
      && t.statistics <= ReservedStatistics(schema, schema.columns[i], f, policy)
      && (NoNans(schema, rows) ==> t.statistics == ReservedStatistics(schema, schema.columns[i], f, policy))
  {
    hide SchemaFrame.Valid, ColumnBytes, ColumnStreams, ReservedStatistics, StatisticsOf, FootprintOf, RawColumn, Footprints,
         ValidRows, IsNan, Present, CellsOf;
    var column := schema.columns[i];
    var cells := CellsOf(schema, rows, i);
    CellsAreAdmissible(schema, rows, i);
    FootprintsAre(schema, rows, i);
    ColumnPriceExact(column, cells);
    FootprintCounts(column, cells);
    StatisticsFitReservation(schema, column, Present(cells), FootprintOf(column.logicalType, cells), policy);
    if NoNans(schema, rows) {
      NoNanPresent(column.logicalType, cells);
    }
  }

  lemma {:induction false} NoNanGathered(t: LogicalType, cells: seq<Cell>, bits: seq<bool>)
    requires |bits| == |cells| && forall r :: 0 <= r < |cells| ==> !IsNan(t, cells[r])
    ensures forall j :: 0 <= j < |Gather(cells, bits)| ==> !IsNan(t, Gather(cells, bits)[j])
  {
    hide IsNan;
    if bits != [] {
      NoNanGathered(t, cells[..|cells| - 1], bits[..|bits| - 1]);
    }
  }

  lemma NoNanPresent(t: LogicalType, cells: seq<Cell>)
    requires forall r :: 0 <= r < |cells| ==> !IsNan(t, cells[r])
    ensures forall j :: 0 <= j < |Present(cells)| ==> !IsNan(t, Present(cells)[j])
  {
    NoNanGathered(t, cells, ValidityOf(cells));
  }

  /** Totals below the limits were never saturated. */
  lemma {:induction false} TotalsExact(schema: Schema, rows: seq<Row>, policy: Policy, n: nat)
    requires Input(schema, rows) && n <= |schema.columns|
    requires
      var t := TotalsOf(schema, Footprints(schema, rows), |rows|, policy, n);
      t.payload <= DEFAULT.maxFramePayloadLength && t.streams < U32 && t.statistics < U32
    ensures
      var t := TotalsOf(schema, Footprints(schema, rows), |rows|, policy, n);
      var sum := SumUpTo(schema, rows, policy, n);
      && sum.payload == t.payload && sum.streams == t.streams && sum.statistics <= t.statistics
      && (NoNans(schema, rows) ==> sum.statistics == t.statistics)
  {
    hide SchemaFrame.Valid, ColumnBytes, ColumnStreams, ReservedStatistics, Footprints, ValidRows, TotalsAt, NoNans;
    if n > 0 {
      TotalsExact(schema, rows, policy, n - 1);
      ColumnTotals(schema, rows, policy, n - 1);
    }
  }

  /** What the price promises of the built parts. */
  lemma PartsArePriced(schema: Schema, rows: seq<Row>, policy: Policy)
    requires Input(schema, rows) && Price(schema, rows, policy).WithinFormatLimits(|rows|)
    ensures
      var t := TotalsOf(schema, Footprints(schema, rows), |rows|, policy, |schema.columns|);
      var parts := EncodeParts(RawPlan(schema, policy), rows, IdOrder(schema.columns));
      && parts.Ok? && |parts.value| == |schema.columns|
      && Built(AllStreams(parts.value))
      && |PayloadOf(AllStreams(parts.value))| == t.payload && |AllStreams(parts.value)| == t.streams
      && |AllStatistics(parts.value)| <= t.statistics
      && (NoNans(schema, rows) ==> |AllStatistics(parts.value)| == t.statistics)
  {
    hide SchemaFrame.Valid, Footprints, ValidRows, NoNans, PayloadOf, AllStreams, AllStatistics, EncodeParts, TotalsOf, SumParts,
         SumOver, SumUpTo;
    var order := IdOrder(schema.columns);
    PartsOverOrder(schema, rows, policy, order);
    SumPartsIs(EncodeParts(RawPlan(schema, policy), rows, order).value);
    SumReordered(schema, rows, policy, |schema.columns|);
    TotalsExact(schema, rows, policy, |schema.columns|);
  }

  lemma SizeIs(columnCount: nat, t: Totals, rows: nat, statistics: nat)
    requires SizeOf(columnCount, t).WithinFormatLimits(rows) && statistics <= t.statistics
    ensures
      var size := SizeOf(columnCount, t);
      var header := 64 + columnCount * COLUMN_DESCRIPTOR_SIZE + t.streams * STREAM_DESCRIPTOR_SIZE + Align8(statistics);
      && size.payload == t.payload && header <= size.header && FrameLength(header, t.payload) <= size.frame
      && (statistics == t.statistics ==> header == size.header && FrameLength(header, t.payload) == size.frame)
  {
  }

  /**
   * A block within the format limits is never refused by the raw encoder: its payload is
   * exactly as long as priced, its header at most as long, and exactly as long when no float
   * is NaN.
   */
  lemma RawBlockIsPriced(schema: Schema, rows: seq<Row>, policy: Policy, base: Option<nat>)
    requires SchemaFrame.Valid(schema) && ValidRows(schema, rows) && rows != []
    requires Price(schema, rows, policy).WithinFormatLimits(|rows|)
    ensures
      var size := Price(schema, rows, policy);
      var block := EncodeBlock(RawPlan(schema, policy), rows, base);
      && block.Ok?
      && |block.value.payload| == size.payload && |block.value.header| <= size.header
      && FrameLength(|block.value.header|, |block.value.payload|) <= size.frame
      && (NoNans(schema, rows) ==>
            |block.value.header| == size.header && FrameLength(|block.value.header|, |block.value.payload|) == size.frame)
  {
    hide SchemaFrame.Valid, Footprints, ValidRows, NoNans, PayloadOf, AllStreams, AllStatistics, EncodeParts, InfoOf, HeaderOf,
         TotalsOf, SizeOf, Align8, IdOrder, EncodeBlock, Built;
    PartsArePriced(schema, rows, policy);
    var t := TotalsOf(schema, Footprints(schema, rows), |rows|, policy, |schema.columns|);
    var parts := EncodeParts(RawPlan(schema, policy), rows, IdOrder(schema.columns)).value;
    SizeIs(|schema.columns|, t, |rows|, |AllStatistics(parts)|);
    HeaderLength(schema, InfoOf(schema, rows, base), parts);
    EncodesAs(RawPlan(schema, policy), rows, base, parts);
  }

  lemma HeaderLength(schema: Schema, info: BlockInfo, parts: seq<Part>)
    requires Built(AllStreams(parts)) && |parts| == |schema.columns|
    ensures |HeaderOf(schema, info, parts)| == StatisticsOffset(parts) + |StatisticsArea(parts)|
  {
    hide AllStreams, HeaderOf, StatisticsArea;
    BlockTheorems.HeaderPieces(schema, info, parts);
  }

  lemma EncodesAs(plan: Plan, rows: seq<Row>, base: Option<nat>, parts: seq<Part>)
    requires plan.Valid() && ValidRows(plan.schema, rows) && 0 < |rows| <= DEFAULT.maxRowsPerBlock
    requires EncodeParts(plan, rows, IdOrder(plan.schema.columns)) == Ok(parts) && Built(AllStreams(parts))
    requires StatisticsOffset(parts) + |StatisticsArea(parts)| <= DEFAULT.maxFrameHeaderLength
    requires |PayloadOf(AllStreams(parts))| <= DEFAULT.maxFramePayloadLength
    ensures EncodeBlock(plan, rows, base)
         == Ok(Block(HeaderOf(plan.schema, InfoOf(plan.schema, rows, base), parts), PayloadOf(AllStreams(parts))))
  {
    hide SchemaFrame.Valid, ValidRows, EncodeParts, PayloadOf, AllStreams, InfoOf, HeaderOf, IdOrder;
  }
}
