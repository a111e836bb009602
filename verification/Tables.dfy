/** The column and stream descriptor tables of a data-frame header. */
module Tables {
  import opened Core
  import opened Bytes
  import opened Limits
  import opened Schema
  import opened DataFrame
  import opened StreamRanges
  import opened ColumnCodec

  datatype ColumnDescriptor = ColumnDescriptor(
    columnId: nat, layout: nat, flags: nat, nullCount: nat, denseCount: nat,
    firstStream: nat, streamCount: nat, statsKind: nat, statsOffset: nat, statsLength: nat)
  {
    predicate Encodable() {
      && columnId < U32 && layout < U16 && flags < U16 && nullCount < U32 && denseCount < U32
      && firstStream < U32 && streamCount < U16 && statsKind < U16 && statsOffset < U32 && statsLength < U32
    }

    predicate HasStatistics() {
      flags >= 2
    }

    function AsShape(): Shape {
      Shape(layout, flags % 2 == 1, nullCount, denseCount)
    }
  }

  datatype StreamDescriptor = StreamDescriptor(
    kind: nat, transform: nat, codec: nat, flags: nat,
    payloadOffset: nat, storedLength: nat, transformedLength: nat, elementCount: nat, crc: nat)
  {
    predicate Encodable() {
      && kind < U16 && transform < U16 && codec < U16 && flags < U16
      && payloadOffset < U64 && storedLength < U64 && transformedLength < U64 && elementCount < U64 && crc < U32
    }

    function AsExtent(): Extent {
      Extent(payloadOffset, storedLength)
    }
  }

  function PrintColumn(d: ColumnDescriptor): (bytes: seq<byte>)
    ensures |bytes| == COLUMN_DESCRIPTOR_SIZE
  {
    Le(d.columnId, 4) + Le(d.layout, 2) + Le(d.flags, 2) + Le(d.nullCount, 4) + Le(d.denseCount, 4)
    + Le(d.firstStream, 4) + Le(d.streamCount, 2) + Le(d.statsKind, 2) + Le(d.statsOffset, 4) + Le(d.statsLength, 4)
  }

  function ReadColumn(b: seq<byte>): ColumnDescriptor
    requires |b| == COLUMN_DESCRIPTOR_SIZE
  {
    ColumnDescriptor(Field(b, 0, 4), Field(b, 4, 2), Field(b, 6, 2), Field(b, 8, 4), Field(b, 12, 4),
                     Field(b, 16, 4), Field(b, 20, 2), Field(b, 22, 2), Field(b, 24, 4), Field(b, 28, 4))
  }

  lemma ColumnRecordRoundTrip(d: ColumnDescriptor)
    requires d.Encodable()
    ensures ReadColumn(PrintColumn(d)) == d
  {
    hide Le, Field, Range;
    Ranges();
    var b := PrintColumn(d);
    var x1 := Le(d.columnId, 4);
    var x2 := x1 + Le(d.layout, 2);
    var x3 := x2 + Le(d.flags, 2);
    var x4 := x3 + Le(d.nullCount, 4);
    var x5 := x4 + Le(d.denseCount, 4);
    var x6 := x5 + Le(d.firstStream, 4);
    var x7 := x6 + Le(d.streamCount, 2);
    var x8 := x7 + Le(d.statsKind, 2);
    var x9 := x8 + Le(d.statsOffset, 4);
    assert b[..32] == b == x9 + Le(d.statsLength, 4);
    Peel(b, x9, Le(d.statsLength, 4));
    Peel(b, x8, Le(d.statsOffset, 4));
    Peel(b, x7, Le(d.statsKind, 2));
    Peel(b, x6, Le(d.streamCount, 2));
    Peel(b, x5, Le(d.firstStream, 4));
    Peel(b, x4, Le(d.denseCount, 4));
    Peel(b, x3, Le(d.nullCount, 4));
    Peel(b, x2, Le(d.flags, 2));
    Peel(b, x1, Le(d.layout, 2));
    FieldRoundTrip(b, 0, 4, d.columnId);
    FieldRoundTrip(b, 4, 2, d.layout);
    FieldRoundTrip(b, 6, 2, d.flags);
    FieldRoundTrip(b, 8, 4, d.nullCount);
    FieldRoundTrip(b, 12, 4, d.denseCount);
    FieldRoundTrip(b, 16, 4, d.firstStream);
    FieldRoundTrip(b, 20, 2, d.streamCount);
    FieldRoundTrip(b, 22, 2, d.statsKind);
    FieldRoundTrip(b, 24, 4, d.statsOffset);
    FieldRoundTrip(b, 28, 4, d.statsLength);
  }

  function PrintStream(d: StreamDescriptor): (bytes: seq<byte>)
    ensures |bytes| == STREAM_DESCRIPTOR_SIZE
  {
    Le(d.kind, 2) + Le(d.transform, 2) + Le(d.codec, 2) + Le(d.flags, 2) + Le(d.payloadOffset, 8)
    + Le(d.storedLength, 8) + Le(d.transformedLength, 8) + Le(d.elementCount, 8) + Le(d.crc, 4) + Le(0, 4)
  }

  function ReadStream(b: seq<byte>): StreamDescriptor
    requires |b| == STREAM_DESCRIPTOR_SIZE
  {
    StreamDescriptor(Field(b, 0, 2), Field(b, 2, 2), Field(b, 4, 2), Field(b, 6, 2), Field(b, 8, 8),
                     Field(b, 16, 8), Field(b, 24, 8), Field(b, 32, 8), Field(b, 40, 4))
  }

  lemma StreamRecordRoundTrip(d: StreamDescriptor)
    requires d.Encodable()
    ensures ReadStream(PrintStream(d)) == d
  {
    hide Le, Field, Range;
    Ranges();
    var b := PrintStream(d);
    var x1 := Le(d.kind, 2);
    var x2 := x1 + Le(d.transform, 2);
    var x3 := x2 + Le(d.codec, 2);
    var x4 := x3 + Le(d.flags, 2);
    var x5 := x4 + Le(d.payloadOffset, 8);
    var x6 := x5 + Le(d.storedLength, 8);
    var x7 := x6 + Le(d.transformedLength, 8);
    var x8 := x7 + Le(d.elementCount, 8);
    var x9 := x8 + Le(d.crc, 4);
    assert b[..48] == b == x9 + Le(0, 4);
    Peel(b, x9, Le(0, 4));
    Peel(b, x8, Le(d.crc, 4));
    Peel(b, x7, Le(d.elementCount, 8));
    Peel(b, x6, Le(d.transformedLength, 8));
    Peel(b, x5, Le(d.storedLength, 8));
    Peel(b, x4, Le(d.payloadOffset, 8));
    Peel(b, x3, Le(d.flags, 2));
    Peel(b, x2, Le(d.codec, 2));
    Peel(b, x1, Le(d.transform, 2));
    FieldRoundTrip(b, 0, 2, d.kind);
    FieldRoundTrip(b, 2, 2, d.transform);
    FieldRoundTrip(b, 4, 2, d.codec);
    FieldRoundTrip(b, 6, 2, d.flags);
    FieldRoundTrip(b, 8, 8, d.payloadOffset);
    FieldRoundTrip(b, 16, 8, d.storedLength);
    FieldRoundTrip(b, 24, 8, d.transformedLength);
    FieldRoundTrip(b, 32, 8, d.elementCount);
    FieldRoundTrip(b, 40, 4, d.crc);
  }

  // ---------------------------------------------------------------- column order

  /** Insert a schema position into positions sorted by column ID. */
  function InsertById(columns: seq<Column>, order: seq<nat>, i: nat): (r: seq<nat>)
    requires i < |columns| && forall p :: 0 <= p < |order| ==> order[p] < |columns|
    ensures |r| == |order| + 1
    ensures forall p :: 0 <= p < |r| ==> r[p] < |columns|
    ensures forall k :: Has(order, k) || k == i ==> Has(r, k)
  {
    if order == [] || columns[i].id < columns[order[0]].id then
      HasCons(i, order);
      [i] + order
    else
      var rest := InsertById(columns, order[1..], i);
      HasCons(order[0], rest);
      HasCons(order[0], order[1..]);
      assert order == [order[0]] + order[1..];
      [order[0]] + rest
  }

  /** The first `n` schema positions in column-ID order. */
  function IdOrderUpTo(columns: seq<Column>, n: nat): (order: seq<nat>)
    requires n <= |columns|
    ensures |order| == n
    ensures forall p :: 0 <= p < n ==> order[p] < |columns|
    ensures forall k :: 0 <= k < n ==> Has(order, k)
  {
    if n == 0 then [] else InsertById(columns, IdOrderUpTo(columns, n - 1), n - 1)
  }

  /** Schema positions in the order of the column table, which is sorted by column ID. */
  function IdOrder(columns: seq<Column>): (order: seq<nat>)
    ensures |order| == |columns|
    ensures forall p :: 0 <= p < |columns| ==> order[p] < |columns|
    ensures forall k :: 0 <= k < |columns| ==> Has(order, k)
  {
    IdOrderUpTo(columns, |columns|)
  }

  ghost predicate SortedById(columns: seq<Column>, order: seq<nat>)
    requires forall p :: 0 <= p < |order| ==> order[p] < |columns|
  {
    forall p :: 0 <= p < |order| - 1 ==> columns[order[p]].id <= columns[order[p + 1]].id
  }

  lemma {:induction false} InsertByIdSorts(columns: seq<Column>, order: seq<nat>, i: nat)
    requires i < |columns| && forall p :: 0 <= p < |order| ==> order[p] < |columns|
    requires SortedById(columns, order)
    ensures SortedById(columns, InsertById(columns, order, i))
    ensures
      var r := InsertById(columns, order, i);
      r[0] == i || (order != [] && r[0] == order[0])
  {
    if order != [] && columns[i].id >= columns[order[0]].id {
      InsertByIdSorts(columns, order[1..], i);
    }
  }

  lemma EmptyIsSorted(columns: seq<Column>)
    ensures SortedById(columns, [])
  {
  }

  /** The column table really is in column-ID order, and lists every schema position. */
  lemma {:induction false} IdOrderSorts(columns: seq<Column>, n: nat)
    requires n <= |columns|
    ensures SortedById(columns, IdOrderUpTo(columns, n))
  {
    hide InsertById, SortedById;
    if n == 0 {
      assert SortedById(columns, []) by { EmptyIsSorted(columns); }
    } else {
      IdOrderSorts(columns, n - 1);
      InsertByIdSorts(columns, IdOrderUpTo(columns, n - 1), n - 1);
    }
  }

  // --------------------------------------------------------------------- parsing

  datatype Area = Area(offset: nat, length: nat)

  /** A column descriptor against its schema column and the other tables. */
  function CheckColumn(d: ColumnDescriptor, column: Column, rowCount: nat, statistics: Area, streamCount: nat): Result<()> {
    if d.flags >= 4 then Err(Corruption)
    else if d.layout > RUN_LENGTH then Err(UnsupportedFrame)
    else if d.nullCount > rowCount || d.denseCount != rowCount - d.nullCount then Err(Corruption)
    else if !column.nullable && d.nullCount != 0 then Err(Corruption)
    else if d.firstStream + d.streamCount > streamCount then Err(Corruption)
    else if d.statsKind > 1 then Err(UnsupportedFrame)
    else if d.HasStatistics() != (d.statsKind != 0) then Err(Corruption)
    else if !d.HasStatistics() && (d.statsOffset != 0 || d.statsLength != 0) then Err(Corruption)
    else if d.HasStatistics()
      && (d.statsOffset < statistics.offset || d.statsOffset + d.statsLength > statistics.offset + statistics.length)
    then Err(Corruption)
    else Ok(())
  }

  /** Uncompressed streams only: any other codec is left to a build that offers it. */
  function CheckStream(d: StreamDescriptor, limits: Limits): Result<()> {
    if d.flags != 0 then Err(Corruption)
    else if !(VALIDITY <= d.kind <= RUN_LENGTHS) then Err(UnsupportedFrame)
    else if d.transform > BOOLEAN_RLE then Err(UnsupportedFrame)
    else if d.codec != 0 then Err(UnsupportedFrame)
    else if d.payloadOffset % 8 != 0 then Err(Corruption)
    else if d.storedLength > limits.maxFramePayloadLength || d.transformedLength > limits.maxFramePayloadLength
    then Err(ResourceLimit)
    else if d.storedLength != d.transformedLength then Err(Corruption)
    else Ok(())
  }

  predicate RecordsOf(records: seq<seq<byte>>, size: nat) {
    forall i :: 0 <= i < |records| ==> |records[i]| == size
  }

  /** Column descriptors must appear in the order of the sorted schema positions. */
  function ParseColumns(
      records: seq<seq<byte>>, columns: seq<Column>, order: seq<nat>, rowCount: nat, statistics: Area, streamCount: nat)
      : (r: Result<seq<ColumnDescriptor>>)
    requires |records| == |order| && RecordsOf(records, COLUMN_DESCRIPTOR_SIZE)
    requires forall p :: 0 <= p < |order| ==> order[p] < |columns|
    ensures r.Ok? ==> |r.value| == |order| && forall p :: 0 <= p < |order| ==> r.value[p].columnId == columns[order[p]].id
    decreases |order|
  {
    if order == [] then Ok([])
    else
      var d := ReadColumn(records[0]);
      var column := columns[order[0]];
      if d.columnId != column.id then Err(Corruption)
      else
        var _ :- CheckColumn(d, column, rowCount, statistics, streamCount);
        var rest :- ParseColumns(records[1..], columns, order[1..], rowCount, statistics, streamCount);
        Ok([d] + rest)
  }

  function ParseStreams(records: seq<seq<byte>>, limits: Limits): (r: Result<seq<StreamDescriptor>>)
    requires RecordsOf(records, STREAM_DESCRIPTOR_SIZE)
    ensures r.Ok? ==> |r.value| == |records|
  {
    if records == [] then Ok([])
    else
      var d := ReadStream(records[0]);
      var _ :- CheckStream(d, limits);
      var rest :- ParseStreams(records[1..], limits);
      Ok([d] + rest)
  }

  function Extents(streams: seq<StreamDescriptor>): (extents: seq<Extent>)
    ensures |extents| == |streams|
  {
    seq(|streams|, i requires 0 <= i < |streams| => streams[i].AsExtent())
  }

  predicate RangesFit(streams: seq<StreamDescriptor>, payloadLength: nat) {
    var extents := Extents(streams);
    NeighboursFit(extents, SortByOffset(extents)) && Inside(extents, payloadLength)
  }

  /** The checked descriptor tables of one block. */
  datatype BlockLayout = BlockLayout(info: BlockInfo, columns: seq<ColumnDescriptor>, streams: seq<StreamDescriptor>)

  lemma {:induction false} ChunkSizes(bytes: seq<byte>, count: nat, width: nat)
    requires |bytes| == count * width
    ensures RecordsOf(Chunked(bytes, count, width), width)
    decreases count
  {
    if count > 0 {
      assert (count - 1) * width + width == count * width;
      ChunkSizes(bytes[width..], count - 1, width);
    }
  }

  function Records(bytes: seq<byte>, count: nat, width: nat): (records: seq<seq<byte>>)
    requires |bytes| == count * width
    ensures |records| == count && RecordsOf(records, width)
  {
    ChunkSizes(bytes, count, width);
    Chunked(bytes, count, width)
  }

  /** Parse and check the whole data-frame header. */
  function ParseLayout(
      header: seq<byte>, payloadLength: nat, schema: Schema, rowIds: bool, expected: Option<nat>, limits: Limits)
      : Result<BlockLayout>
  {
    if |header| < 64 then Err(Corruption)
    else
      var info :- ParseBlock(header[..64], |header|, schema, rowIds, expected);
      var n := |schema.columns|;
      var streamTable := Field(header[..64], 44, 4);
      var statistics := Field(header[..64], 48, 4);
      var streamCount := (statistics - streamTable) / STREAM_DESCRIPTOR_SIZE;
      if n > limits.maxSchemaColumns then Err(ResourceLimit)
      else
        var columns :- ParseColumns(
          Records(header[64..streamTable], n, COLUMN_DESCRIPTOR_SIZE), schema.columns, IdOrder(schema.columns),
          info.rowCount, Area(statistics, Field(header[..64], 52, 4)), streamCount);
        var streams :- ParseStreams(Records(header[streamTable..statistics], streamCount, STREAM_DESCRIPTOR_SIZE), limits);
        if RangesFit(streams, payloadLength) then Ok(BlockLayout(info, columns, streams)) else Err(Corruption)
  }
}
