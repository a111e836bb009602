/**
 * Pricing a raw block from per-column counters, without serializing it.  Arithmetic
 * saturates at the largest 64-bit value.
 */
module Pricing {
  import opened Core
  import opened Bytes
  import opened Limits
  import opened Schema
  import opened Rows
  import opened Frame
  import opened DataFrame
  import opened Packing

  datatype Policy = NoStatistics | MinMax | Automatic

  /** What one column's rows cost in a raw block, accumulated as rows arrive. */
  datatype Footprint = Footprint(dense: nat, nulls: nat, variable: nat) {
    /** Whether this column's validity needs no stream of its own. */
    predicate ImplicitValidity() {
      nulls == 0 || dense == 0
    }

    predicate AtMost(other: Footprint) {
      dense <= other.dense && nulls <= other.nulls && variable <= other.variable
    }
  }

  const EMPTY: Footprint := Footprint(0, 0, 0)

  datatype BlockSize = BlockSize(header: nat, payload: nat, frame: nat) {
    predicate AtMost(other: BlockSize) {
      header <= other.header && payload <= other.payload && frame <= other.frame
    }

    /** Whether a block this large can be written at all. */
    predicate WithinFormatLimits(rows: nat) {
      && rows <= DEFAULT.maxRowsPerBlock
      && rows < U32
      && header <= DEFAULT.maxFrameHeaderLength
      && payload <= DEFAULT.maxFramePayloadLength
    }
  }

  function Saturate(n: nat): u64 {
    if n < U64 then n else U64 - 1
  }

  function VariableLength(cell: Cell): nat {
    match cell
    case Blob(bytes) => |bytes|
    case _ => 0
  }

  function AddCell(t: LogicalType, f: Footprint, cell: Cell): Footprint {
    if cell.Null? then f.(nulls := f.nulls + 1)
    else f.(dense := f.dense + 1,
            variable := f.variable + if StorageOf(t).VariableBytes? then VariableLength(cell) else 0)
  }

  /** Add one row to every column's counters. */
  function AddRow(schema: Schema, fs: seq<Footprint>, row: Row): (r: seq<Footprint>)
    requires |fs| == |schema.columns| == |row|
    ensures |r| == |fs|
  {
    seq(|fs|, i requires 0 <= i < |fs| => AddCell(schema.columns[i].logicalType, fs[i], row[i]))
  }

  /** The counters of a run of rows. */
  function Footprints(schema: Schema, rows: seq<Row>): (fs: seq<Footprint>)
    requires ValidRows(schema, rows)
    ensures |fs| == |schema.columns|
  {
    if rows == [] then seq(|schema.columns|, _ => EMPTY)
    else AddRow(schema, Footprints(schema, rows[..|rows| - 1]), rows[|rows| - 1])
  }

  /** The payload bytes one stream occupies; an empty stream still takes an alignment unit. */
  function StreamBytes(length: nat): nat {
    if length == 0 then 8 else Saturate(length + 7) / 8 * 8
  }

  /** The raw bytes of a column's dense values. */
  function ValuesBytes(t: LogicalType, f: Footprint): nat {
    match StorageOf(t)
    case Bitmap => ByteCount(f.dense)
    case VariableBytes => f.variable
    case Integer(width, _) => Saturate(width * f.dense)
    case FixedBytes(width) => Saturate(width * f.dense)
  }

  /** The payload bytes of one column. */
  function ColumnBytes(column: Column, f: Footprint, rows: nat): nat {
    var validity := if f.ImplicitValidity() then 0 else StreamBytes(ByteCount(rows));
    if f.dense == 0 then validity
    else
      var values := Saturate(validity + StreamBytes(ValuesBytes(column.logicalType, f)));
      if StorageOf(column.logicalType).VariableBytes? then Saturate(values + StreamBytes(Saturate(4 * f.dense)))
      else values
  }

  function ColumnStreams(column: Column, f: Footprint): nat {
    (if f.ImplicitValidity() then 0 else 1)
    + if f.dense == 0 then 0 else if StorageOf(column.logicalType).VariableBytes? then 2 else 1
  }

  /** The canonical width of a type's statistic; zero for types that carry none. */
  function StatisticsWidth(t: LogicalType): nat {
    match StorageOf(t)
    case Bitmap => 1
    case VariableBytes => 0
    case Integer(width, _) => width
    case FixedBytes(width) => width
  }

  predicate ReservesStatistics(schema: Schema, column: Column, f: Footprint, policy: Policy) {
    var width := StatisticsWidth(column.logicalType);
    && f.dense != 0
    && width != 0
    && (policy.MinMax?
        || (&& policy.Automatic?
            && schema.primaryColumnId != Some(column.id)
            && f.dense >= 64
            && width * 16 <= if column.logicalType.Bool? then ByteCount(f.dense) else Saturate(width * f.dense)))
  }

  function ReservedStatistics(schema: Schema, column: Column, f: Footprint, policy: Policy): nat {
    if ReservesStatistics(schema, column, f, policy) then 2 * StatisticsWidth(column.logicalType) else 0
  }

  /** Running totals over the first `n` columns. */
  datatype Totals = Totals(payload: nat, streams: nat, statistics: nat) {
    predicate AtMost(other: Totals) {
      payload <= other.payload && streams <= other.streams && statistics <= other.statistics
    }
  }

  function TotalsOf(schema: Schema, fs: seq<Footprint>, rows: nat, policy: Policy, n: nat): Totals
    requires n <= |fs| == |schema.columns|
  {
    if n == 0 then Totals(0, 0, 0)
    else
      var t := TotalsOf(schema, fs, rows, policy, n - 1);
      var column := schema.columns[n - 1];
      Totals(Saturate(t.payload + ColumnBytes(column, fs[n - 1], rows)),
             Saturate(t.streams + ColumnStreams(column, fs[n - 1])),
             Saturate(t.statistics + ReservedStatistics(schema, column, fs[n - 1], policy)))
  }

  /** Assemble the block geometry from the totals of all columns. */
  function SizeOf(columnCount: nat, t: Totals): BlockSize {
    var statistics := if t.statistics == 0 then 0 else Saturate(t.statistics + 7) / 8 * 8;
    var header := Saturate(
      DATA_BLOCK_HEADER_SIZE + columnCount * COLUMN_DESCRIPTOR_SIZE + t.streams * STREAM_DESCRIPTOR_SIZE + statistics);
    BlockSize(header, t.payload, Saturate(PREFIX_SIZE + header + t.payload + TRAILER_SIZE))
  }

  function PriceFootprints(schema: Schema, fs: seq<Footprint>, rows: nat, policy: Policy): BlockSize
    requires |fs| == |schema.columns|
  {
    SizeOf(|schema.columns|, TotalsOf(schema, fs, rows, policy, |fs|))
  }

  /** The price of a block of these rows. */
  function Price(schema: Schema, rows: seq<Row>, policy: Policy): BlockSize
    requires ValidRows(schema, rows)
  {
    PriceFootprints(schema, Footprints(schema, rows), |rows|, policy)
  }

  // --------------------------------------------------------------- monotonicity

  lemma ProductGrows(w: nat, a: nat, b: nat)
    requires a <= b
    ensures w * a <= w * b
  {
  }

  lemma ValuesGrow(t: LogicalType, f: Footprint, g: Footprint)
    requires f.AtMost(g)
    ensures ValuesBytes(t, f) <= ValuesBytes(t, g)
  {
    match StorageOf(t)
    case Integer(width, _) => ProductGrows(width, f.dense, g.dense);
    case FixedBytes(width) => ProductGrows(width, f.dense, g.dense);
    case _ =>
  }

  /** A column's price never falls as rows arrive, whichever way its validity changes. */
  lemma ColumnGrows(column: Column, f: Footprint, g: Footprint, rows: nat, more: nat)
    requires f.AtMost(g) && rows <= more
    ensures ColumnBytes(column, f, rows) <= ColumnBytes(column, g, more)
    ensures ColumnStreams(column, f) <= ColumnStreams(column, g)
  {
    hide ValuesBytes, StorageOf, StreamBytes;
    ValuesGrow(column.logicalType, f, g);
    StreamGrows(ValuesBytes(column.logicalType, f), ValuesBytes(column.logicalType, g));
    StreamGrows(ByteCount(rows), ByteCount(more));
    StreamGrows(Saturate(4 * f.dense), Saturate(4 * g.dense));
  }

  lemma StreamGrows(a: nat, b: nat)
    requires a <= b
    ensures StreamBytes(a) <= StreamBytes(b)
  {
  }

  lemma StreamAligned(length: nat)
    ensures StreamBytes(length) % 8 == 0
  {
  }

  /** Once a block reserves statistics for a column it never stops reserving them. */
  lemma StatisticsGrow(schema: Schema, column: Column, f: Footprint, g: Footprint, policy: Policy)
    requires f.AtMost(g)
    ensures ReservedStatistics(schema, column, f, policy) <= ReservedStatistics(schema, column, g, policy)
  {
    ProductGrows(StatisticsWidth(column.logicalType), f.dense, g.dense);
  }

  ghost predicate AllAtMost(fs: seq<Footprint>, gs: seq<Footprint>) {
    |fs| == |gs| && forall i :: 0 <= i < |fs| ==> fs[i].AtMost(gs[i])
  }

  lemma {:induction false} TotalsGrow(
      schema: Schema, fs: seq<Footprint>, gs: seq<Footprint>, rows: nat, more: nat, policy: Policy, n: nat)
    requires AllAtMost(fs, gs) && |fs| == |schema.columns| && rows <= more && n <= |fs|
    ensures TotalsOf(schema, fs, rows, policy, n).AtMost(TotalsOf(schema, gs, more, policy, n))
  {
    hide ColumnBytes, ColumnStreams, ReservedStatistics;
    if n > 0 {
      TotalsGrow(schema, fs, gs, rows, more, policy, n - 1);
      ColumnGrows(schema.columns[n - 1], fs[n - 1], gs[n - 1], rows, more);
      StatisticsGrow(schema, schema.columns[n - 1], fs[n - 1], gs[n - 1], policy);
    }
  }

  lemma SizeGrows(columnCount: nat, t: Totals, u: Totals)
    requires t.AtMost(u)
    ensures SizeOf(columnCount, t).AtMost(SizeOf(columnCount, u))
  {
  }

  lemma {:induction false} FootprintsGrow(schema: Schema, rows: seq<Row>, more: seq<Row>)
    requires ValidRows(schema, rows + more)
    ensures ValidRows(schema, rows)
    ensures AllAtMost(Footprints(schema, rows), Footprints(schema, rows + more))
    decreases |more|
  {
    PrefixIsValid(schema, rows, more);
    if more == [] {
      assert rows + more == rows;
    } else {
      var all := rows + more;
      assert all[..|all| - 1] == rows + more[..|more| - 1];
      PrefixIsValid(schema, all[..|all| - 1], [all[|all| - 1]]);
      FootprintsGrow(schema, rows, more[..|more| - 1]);
    }
  }

  lemma PrefixIsValid(schema: Schema, rows: seq<Row>, more: seq<Row>)
    requires ValidRows(schema, rows + more)
    ensures ValidRows(schema, rows) && ValidRows(schema, more)
  {
    assert forall r :: 0 <= r < |rows| ==> rows[r] == (rows + more)[r];
    assert forall r :: 0 <= r < |more| ==> more[r] == (rows + more)[|rows| + r];
  }

  /** Pricing is monotone in rows, through the validity and statistics branches alike. */
  lemma PriceGrows(schema: Schema, rows: seq<Row>, more: seq<Row>, policy: Policy)
    requires ValidRows(schema, rows + more)
    ensures ValidRows(schema, rows)
    ensures Price(schema, rows, policy).AtMost(Price(schema, rows + more, policy))
  {
    FootprintsGrow(schema, rows, more);
    var fs, gs := Footprints(schema, rows), Footprints(schema, rows + more);
    TotalsGrow(schema, fs, gs, |rows|, |rows + more|, policy, |fs|);
    SizeGrows(|schema.columns|, TotalsOf(schema, fs, |rows|, policy, |fs|), TotalsOf(schema, gs, |rows + more|, policy, |gs|));
  }

  // ------------------------------------------------------------------ alignment

  lemma ColumnBytesAligned(column: Column, f: Footprint, rows: nat)
    requires ColumnBytes(column, f, rows) < U64 - 1
    ensures ColumnBytes(column, f, rows) % 8 == 0
  {
    hide ValuesBytes, StorageOf, StreamBytes;
    StreamAligned(ValuesBytes(column.logicalType, f));
    StreamAligned(ByteCount(rows));
    StreamAligned(Saturate(4 * f.dense));
  }

  lemma {:induction false} TotalsAligned(schema: Schema, fs: seq<Footprint>, rows: nat, policy: Policy, n: nat)
    requires n <= |fs| == |schema.columns|
    requires TotalsOf(schema, fs, rows, policy, n).payload < U64 - 1
    ensures TotalsOf(schema, fs, rows, policy, n).payload % 8 == 0
  {
    hide ColumnBytes, ColumnStreams, ReservedStatistics;
    if n > 0 {
      TotalsAligned(schema, fs, rows, policy, n - 1);
      ColumnBytesAligned(schema.columns[n - 1], fs[n - 1], rows);
    }
  }

  /** A block within the format limits is priced at a multiple of eight bytes. */
  lemma PriceIsAligned(schema: Schema, rows: seq<Row>, policy: Policy)
    requires ValidRows(schema, rows)
    requires Price(schema, rows, policy).WithinFormatLimits(|rows|)
    ensures
      var size := Price(schema, rows, policy);
      && size.frame % 8 == 0 && size.payload % 8 == 0 && size.header % 8 == 0
      && size.frame == FrameLength(size.header, size.payload)
  {
    hide TotalsOf, Footprints, SizeOf;
    var fs := Footprints(schema, rows);
    var t := TotalsOf(schema, fs, |rows|, policy, |fs|);
    SizeKeepsPayload(|schema.columns|, t);
    TotalsAligned(schema, fs, |rows|, policy, |fs|);
    SizeIsAligned(|schema.columns|, t, |rows|);
  }

  lemma SizeKeepsPayload(columnCount: nat, t: Totals)
    ensures SizeOf(columnCount, t).payload == t.payload
  {
  }

  lemma SizeIsAligned(columnCount: nat, t: Totals, rows: nat)
    requires t.payload % 8 == 0 && SizeOf(columnCount, t).WithinFormatLimits(rows)
    ensures
      var size := SizeOf(columnCount, t);
      size.header % 8 == 0 && size.frame % 8 == 0 && size.frame == FrameLength(size.header, size.payload)
  {
    var statistics := if t.statistics == 0 then 0 else Saturate(t.statistics + 7) / 8 * 8;
    var size := SizeOf(columnCount, t);
    assert statistics % 8 == 0;
    assert size.header == 64 + columnCount * 32 + t.streams * 48 + statistics;
    assert columnCount * 32 == 8 * (columnCount * 4) && t.streams * 48 == 8 * (t.streams * 6);
  }
}
