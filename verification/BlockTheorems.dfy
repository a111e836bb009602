/** Encoding a block and decoding it again restores its rows. */
module BlockTheorems {
  import opened Core
  import opened Bytes
  import opened Limits
  import opened Crc32c
  import opened Schema
  import opened Rows
  import opened DataFrame
  import opened Layouts
  import opened ColumnCodec
  import opened Charges
  import opened Planned
  import opened StreamRanges
  import opened Tables
  import opened Extrema
  import opened Blocks
  import SchemaFrame

  // --------------------------------------------------------------------- streams

  function StoredBytes(streams: seq<Stream>, j: nat): seq<byte>
    requires Built(streams) && j < |streams|
  {
    streams[j].content.bytes
  }

  /** Where one stream lies, and what its descriptor copies. */
  lemma {:induction false} StreamPlace(streams: seq<Stream>, offset: nat, j: nat)
    requires Built(streams) && j < |streams| && offset % 8 == 0
    ensures
      var d := DescribeStreams(streams, offset)[j];
      && offset <= d.payloadOffset && d.payloadOffset % 8 == 0
      && d.payloadOffset + |Padded(StoredBytes(streams, j))| <= offset + |PayloadOf(streams)|
      && d == StreamDescriptor(streams[j].kind, streams[j].transform, 0, 0, d.payloadOffset, |StoredBytes(streams, j)|,
                               |StoredBytes(streams, j)|, streams[j].count, Checksum(StoredBytes(streams, j)))
    decreases j
  {
    hide Checksum, Padded;
    if j > 0 {
      StreamPlace(streams[1..], offset + |Padded(StoredBytes(streams, 0))|, j - 1);
    }
  }

  lemma {:induction false} StreamsInOrder(streams: seq<Stream>, offset: nat, j: nat, k: nat)
    requires Built(streams) && j < k < |streams| && offset % 8 == 0
    ensures
      var ds := DescribeStreams(streams, offset);
      ds[j].payloadOffset + |Padded(StoredBytes(streams, j))| <= ds[k].payloadOffset
    decreases j
  {
    hide Checksum, Padded;
    var next := offset + |Padded(StoredBytes(streams, 0))|;
    if j > 0 {
      StreamsInOrder(streams[1..], next, j - 1, k - 1);
    } else {
      StreamPlace(streams[1..], next, k - 1);
    }
  }

  /** The payload holds every stream's bytes where its descriptor says. */
  lemma {:induction false} StreamBytesAt(streams: seq<Stream>, before: seq<byte>, j: nat)
    requires Built(streams) && j < |streams| && |before| % 8 == 0
    ensures
      var d := DescribeStreams(streams, |before|)[j];
      var payload := before + PayloadOf(streams);
      && d.payloadOffset + d.storedLength <= |payload|
      && payload[d.payloadOffset..d.payloadOffset + d.storedLength] == StoredBytes(streams, j)
    decreases j
  {
    hide Checksum, Padded;
    var first := Padded(StoredBytes(streams, 0));
    if j > 0 {
      StreamBytesAt(streams[1..], before + first, j - 1);
      assert before + first + PayloadOf(streams[1..]) == before + PayloadOf(streams);
    } else {
      var n := |StoredBytes(streams, 0)|;
      var payload := before + PayloadOf(streams);
      assert payload[|before|..|before| + n] == first[..n];
    }
  }

  /** The writer's own stream ranges always pass, under any order of the sort. */
  lemma BuiltRangesFit(streams: seq<Stream>)
    requires Built(streams) && |PayloadOf(streams)| < U64
    ensures RangesFit(DescribeStreams(streams, 0), |PayloadOf(streams)|)
    ensures NoSharedOffset(Extents(DescribeStreams(streams, 0)))
  {
    hide DescribeStreams, PayloadOf, Padded, Checksum;
    var ds := DescribeStreams(streams, 0);
    var extents := Extents(ds);
    forall i | 0 <= i < |extents| ensures extents[i].End() <= |PayloadOf(streams)| {
      StreamPlace(streams, 0, i);
    }
    forall i, j | 0 <= i < j < |extents|
      ensures extents[i].End() <= extents[j].offset && extents[i].offset < extents[j].offset
    {
      StreamsInOrder(streams, 0, i, j);
      StreamPlace(streams, 0, i);
    }
    UnsharedAccepts(extents, |PayloadOf(streams)|, SortByOffset(extents));
  }

  lemma StreamChecksOut(streams: seq<Stream>, j: nat, limits: Limits)
    requires Generous(limits) && j < |streams| && WellFormed(streams, DEFAULT.maxRowsPerBlock)
    requires |PayloadOf(streams)| <= DEFAULT.maxFramePayloadLength
    ensures
      var d := DescribeStreams(streams, 0)[j];
      d.Encodable() && CheckStream(d, limits) == Ok(())
  {
    hide DescribeStreams, PayloadOf, Padded, Checksum;
    StreamPlace(streams, 0, j);
  }

  lemma {:induction false} StreamsParse(ds: seq<StreamDescriptor>, limits: Limits)
    requires forall i :: 0 <= i < |ds| ==> ds[i].Encodable() && CheckStream(ds[i], limits) == Ok(())
    ensures ParseStreams(StreamRecords(ds), limits) == Ok(ds)
  {
    hide CheckStream, PrintStream, ReadStream;
    if ds != [] {
      assert StreamRecords(ds)[1..] == StreamRecords(ds[1..]);
      StreamRecordRoundTrip(ds[0]);
      StreamsParse(ds[1..], limits);
      assert [ds[0]] + ds[1..] == ds;
    }
  }

  // --------------------------------------------------------------------- columns

  /** A column's slice of the stream table is its own streams, and its statistics lie in the area. */
  lemma {:induction false} ColumnPlace(parts: seq<Part>, firstStream: nat, statsOffset: nat, p: nat)
    requires p < |parts|
    ensures
      var d := DescribeColumns(parts, firstStream, statsOffset)[p];
      && d == DescribeColumn(parts[p], d.firstStream, if parts[p].statistics == [] then 0 else d.statsOffset)
      && firstStream <= d.firstStream
      && d.firstStream - firstStream + d.streamCount <= |AllStreams(parts)|
      && AllStreams(parts)[d.firstStream - firstStream..d.firstStream - firstStream + d.streamCount] == parts[p].encoded.streams
      && (parts[p].statistics != [] ==>
            statsOffset <= d.statsOffset && d.statsOffset + d.statsLength <= statsOffset + |AllStatistics(parts)|)
    decreases p
  {
    if p > 0 {
      var next := firstStream + |parts[0].encoded.streams|;
      ColumnPlace(parts[1..], next, statsOffset + |parts[0].statistics|, p - 1);
      var d := DescribeColumns(parts, firstStream, statsOffset)[p];
      var a := d.firstStream - firstStream;
      var b := d.firstStream - next;
      assert AllStreams(parts)[a..a + d.streamCount] == AllStreams(parts[1..])[b..b + d.streamCount];
    }
  }

  /** Where a column's pair lies in the statistics area. */
  ghost predicate PairPlaced(d: ColumnDescriptor, all: seq<byte>, statsOffset: nat, pair: seq<byte>) {
    && d.statsKind == 1 && d.statsLength == |pair|
    && statsOffset <= d.statsOffset && d.statsOffset + d.statsLength <= statsOffset + |all|
    && all[d.statsOffset - statsOffset..d.statsOffset + d.statsLength - statsOffset] == pair
  }

  lemma PairAfter(d: ColumnDescriptor, first: seq<byte>, rest: seq<byte>, statsOffset: nat, pair: seq<byte>)
    requires PairPlaced(d, rest, statsOffset + |first|, pair)
    ensures PairPlaced(d, first + rest, statsOffset, pair)
  {
    var y := d.statsOffset - statsOffset - |first|;
    SliceAfter(first, rest, y, y + d.statsLength);
  }

  lemma PairFirst(d: ColumnDescriptor, pair: seq<byte>, rest: seq<byte>)
    requires d.statsKind == 1 && d.statsLength == |pair|
    ensures PairPlaced(d, pair + rest, d.statsOffset, pair)
  {
    SliceBefore(pair, rest, 0, |pair|);
  }

  /** A column's slice of the statistics area is its own pair. */
  lemma {:induction false} StatisticsPlace(parts: seq<Part>, firstStream: nat, statsOffset: nat, p: nat)
    requires p < |parts| && parts[p].statistics != []
    ensures PairPlaced(DescribeColumns(parts, firstStream, statsOffset)[p], AllStatistics(parts), statsOffset, parts[p].statistics)
    decreases p
  {
    hide PairPlaced;
    var d := DescribeColumns(parts, firstStream, statsOffset)[p];
    var first, rest := parts[0].statistics, AllStatistics(parts[1..]);
    if p > 0 {
      StatisticsPlace(parts[1..], firstStream + |parts[0].encoded.streams|, statsOffset + |first|, p - 1);
      PairAfter(d, first, rest, statsOffset, parts[p].statistics);
    } else {
      PairFirst(d, first, rest);
    }
  }

  lemma {:induction false} ColumnsParse(
      ds: seq<ColumnDescriptor>, columns: seq<Column>, order: seq<nat>, rowCount: nat, area: Area, streamCount: nat)
    requires |ds| == |order| && forall p :: 0 <= p < |order| ==> order[p] < |columns|
    requires forall p :: 0 <= p < |ds| ==>
               ds[p].Encodable() && ds[p].columnId == columns[order[p]].id
               && CheckColumn(ds[p], columns[order[p]], rowCount, area, streamCount) == Ok(())
    ensures ParseColumns(ColumnRecords(ds), columns, order, rowCount, area, streamCount) == Ok(ds)
    decreases |ds|
  {
    hide CheckColumn, PrintColumn, ReadColumn;
    if ds != [] {
      assert ColumnRecords(ds)[1..] == ColumnRecords(ds[1..]);
      ColumnRecordRoundTrip(ds[0]);
      ColumnsParse(ds[1..], columns, order[1..], rowCount, area, streamCount);
      assert [ds[0]] + ds[1..] == ds;
    }
  }

  /** What the encoder guarantees of each part. */
  ghost predicate GoodPart(part: Part, rowCount: nat) {
    var shape := part.encoded.shape;
    && WellFormed(part.encoded.streams, rowCount) && |part.encoded.streams| <= 4 && shape.layout <= RUN_LENGTH
    && shape.nullCount + shape.denseCount == rowCount
    && (!part.column.nullable ==> shape.nullCount == 0)
  }

  lemma PartIsGood(plan: Plan, rows: seq<Row>, i: nat)
    requires plan.Valid() && ValidRows(plan.schema, rows) && |rows| < U32 && i < |plan.schema.columns|
    requires EncodePart(plan, rows, i).Ok?
    ensures GoodPart(EncodePart(plan, rows, i).value, |rows|)
    ensures EncodePart(plan, rows, i).value.column == plan.schema.columns[i]
  {
    hide EncodeColumn, SchemaFrame.Valid, WellFormed;
    CellsAreAdmissible(plan.schema, rows, i);
    ColumnIsBuilt(plan.schema.columns[i], CellsOf(plan.schema, rows, i), plan.choices[i].encoding, plan.choices[i].rle);
  }

  lemma {:induction false} AllAreWellFormed(parts: seq<Part>, n: nat)
    requires forall p :: 0 <= p < |parts| ==> WellFormed(parts[p].encoded.streams, n)
    ensures WellFormed(AllStreams(parts), n)
  {
    if parts != [] {
      AllAreWellFormed(parts[1..], n);
    }
  }

  lemma ColumnChecksOut(parts: seq<Part>, p: nat, rowCount: nat)
    requires p < |parts| && GoodPart(parts[p], rowCount) && rowCount < U32
    requires StatisticsOffset(parts) + |StatisticsArea(parts)| < U32
    ensures
      var d := DescribeColumns(parts, 0, StatisticsOffset(parts))[p];
      && d.Encodable() && d.columnId == parts[p].column.id && d.AsShape() == parts[p].encoded.shape
      && CheckColumn(d, parts[p].column, rowCount, Area(StatisticsOffset(parts), |StatisticsArea(parts)|), |AllStreams(parts)|)
         == Ok(())
  {
    hide DescribeColumns, AllStreams, AllStatistics;
    ColumnPlace(parts, 0, StatisticsOffset(parts), p);
  }

  // ---------------------------------------------------------------------- header

  /** Parts that together fit one data frame. */
  ghost predicate Fits(parts: seq<Part>, rowCount: nat) {
    && 0 < rowCount <= DEFAULT.maxRowsPerBlock
    && (forall p :: 0 <= p < |parts| ==> GoodPart(parts[p], rowCount))
    && WellFormed(AllStreams(parts), rowCount)
    && StatisticsOffset(parts) + |StatisticsArea(parts)| <= DEFAULT.maxFrameHeaderLength
    && |PayloadOf(AllStreams(parts))| <= DEFAULT.maxFramePayloadLength
  }

  function ColumnTable(parts: seq<Part>): seq<ColumnDescriptor> {
    DescribeColumns(parts, 0, StatisticsOffset(parts))
  }

  function StreamTable(parts: seq<Part>): seq<StreamDescriptor>
    requires Built(AllStreams(parts))
  {
    DescribeStreams(AllStreams(parts), 0)
  }

  lemma {:induction false} RecordsConcat(records: seq<seq<byte>>, width: nat)
    requires RecordsOf(records, width)
    ensures |Concat(records)| == |records| * width
    ensures Records(Concat(records), |records|, width) == records
  {
    ChunkedRoundTrip(records, width);
  }

  /** Where each piece of a built header lies. */
  lemma HeaderPieces(schema: Schema, info: BlockInfo, parts: seq<Part>)
    requires Built(AllStreams(parts)) && |parts| == |schema.columns|
    ensures
      var header := HeaderOf(schema, info, parts);
      var streamTable, statistics := StreamTableOffset(parts), StatisticsOffset(parts);
      && 64 <= streamTable <= statistics && |header| == statistics + |StatisticsArea(parts)|
      && header[..64] == BlockHeader(schema, info, |AllStreams(parts)|, |StatisticsArea(parts)|)
      && header[64..streamTable] == Concat(ColumnRecords(ColumnTable(parts)))
      && header[streamTable..statistics] == Concat(StreamRecords(StreamTable(parts)))
      && header[statistics..] == StatisticsArea(parts)
  {
    hide BlockHeader, Concat, DescribeColumns, DescribeStreams, AllStreams, StatisticsArea, PrintColumn, PrintStream;
    var a := BlockHeader(schema, info, |AllStreams(parts)|, |StatisticsArea(parts)|);
    var b := Concat(ColumnRecords(ColumnTable(parts)));
    var c := Concat(StreamRecords(StreamTable(parts)));
    RecordsConcat(ColumnRecords(ColumnTable(parts)), COLUMN_DESCRIPTOR_SIZE);
    RecordsConcat(StreamRecords(StreamTable(parts)), STREAM_DESCRIPTOR_SIZE);
    Pieces(a, b, c, StatisticsArea(parts));
  }

  lemma Pieces(a: seq<byte>, b: seq<byte>, c: seq<byte>, d: seq<byte>)
    ensures
      var all := a + b + c + d;
      && all[..|a|] == a && all[|a|..|a| + |b|] == b && all[|a| + |b|..|a| + |b| + |c|] == c
      && |all| == |a| + |b| + |c| + |d| && all[|a| + |b| + |c|..] == d
  {
  }

  /** The block header fields a reader needs to find the tables. */
  lemma TableFields(schema: Schema, info: BlockInfo, streamCount: nat, statisticsLength: nat)
    requires Describes(schema, info, streamCount, statisticsLength)
    ensures
      var h := BlockHeader(schema, info, streamCount, statisticsLength);
      var streamTable := 64 + |schema.columns| * COLUMN_DESCRIPTOR_SIZE;
      && Field(h, 44, 4) == streamTable
      && Field(h, 48, 4) == streamTable + streamCount * STREAM_DESCRIPTOR_SIZE
      && Field(h, 52, 4) == statisticsLength
  {
    hide HeaderFacts, HeaderTables, Field;
    var h := BlockHeader(schema, info, streamCount, statisticsLength);
    var streamTable := 64 + |schema.columns| * COLUMN_DESCRIPTOR_SIZE;
    assert h + [] == h;
    TablesRead(HeaderFacts(schema, info), streamTable, streamTable + streamCount * STREAM_DESCRIPTOR_SIZE, statisticsLength,
               BlockFlags(info), []);
  }

  lemma ColumnsOfHeader(schema: Schema, parts: seq<Part>, rowCount: nat)
    requires Fits(parts, rowCount) && |parts| == |schema.columns|
    requires forall p :: 0 <= p < |parts| ==> parts[p].column == schema.columns[IdOrder(schema.columns)[p]]
    ensures
      ParseColumns(ColumnRecords(ColumnTable(parts)), schema.columns, IdOrder(schema.columns), rowCount,
                   Area(StatisticsOffset(parts), |StatisticsArea(parts)|), |AllStreams(parts)|)
      == Ok(ColumnTable(parts))
  {
    hide DescribeColumns, AllStreams, StatisticsArea, WellFormed, CheckColumn, IdOrder, PayloadOf, ParseColumns, PrintColumn;
    var ds, order := ColumnTable(parts), IdOrder(schema.columns);
    var area := Area(StatisticsOffset(parts), |StatisticsArea(parts)|);
    forall p | 0 <= p < |ds|
      ensures ds[p].Encodable() && ds[p].columnId == schema.columns[order[p]].id
      ensures CheckColumn(ds[p], schema.columns[order[p]], rowCount, area, |AllStreams(parts)|) == Ok(())
    {
      ColumnChecksOut(parts, p, rowCount);
    }
    ColumnsParse(ds, schema.columns, order, rowCount, area, |AllStreams(parts)|);
  }

  lemma StreamsOfHeader(parts: seq<Part>, rowCount: nat, limits: Limits)
    requires Fits(parts, rowCount) && Generous(limits)
    ensures ParseStreams(StreamRecords(StreamTable(parts)), limits) == Ok(StreamTable(parts))
    ensures RangesFit(StreamTable(parts), |PayloadOf(AllStreams(parts))|)
  {
    hide DescribeStreams, AllStreams, CheckStream, PayloadOf, ParseStreams, PrintStream, RangesFit;
    var streams := AllStreams(parts);
    forall j | 0 <= j < |streams|
      ensures StreamTable(parts)[j].Encodable() && CheckStream(StreamTable(parts)[j], limits) == Ok(())
    {
      StreamChecksOut(streams, j, limits);
    }
    StreamsParse(StreamTable(parts), limits);
    BuiltRangesFit(streams);
  }

  /** A built header parses back to exactly the tables it was built from. */
  lemma LayoutRoundTrip(schema: Schema, info: BlockInfo, parts: seq<Part>, limits: Limits)
    requires Generous(limits) && Fits(parts, info.rowCount) && |parts| == |schema.columns| <= DEFAULT.maxSchemaColumns
    requires forall p :: 0 <= p < |parts| ==> parts[p].column == schema.columns[IdOrder(schema.columns)[p]]
    requires Describes(schema, info, |AllStreams(parts)|, |StatisticsArea(parts)|)
    ensures
      var header := HeaderOf(schema, info, parts);
      && |header| >= 64 && |header| % 8 == 0 && |header| <= DEFAULT.maxFrameHeaderLength
      && ParseBlock(header[..64], |header|, schema, info.baseRowId.Some?, info.baseRowId) == Ok(info)
      && ParseLayout(header, |PayloadOf(AllStreams(parts))|, schema, info.baseRowId.Some?, info.baseRowId, limits)
         == Ok(BlockLayout(info, ColumnTable(parts), StreamTable(parts)))
  {
    hide HeaderOf, ParseBlock, BlockHeader, ParseColumns, ParseStreams, RangesFit, ColumnTable, StreamTable, Field, Concat,
         AllStreams, PayloadOf, StatisticsArea, IdOrder, Describes, Built, GoodPart, PrintColumn, PrintStream;
    var header := HeaderOf(schema, info, parts);
    HeaderPieces(schema, info, parts);
    TableFields(schema, info, |AllStreams(parts)|, |StatisticsArea(parts)|);
    var h := BlockHeader(schema, info, |AllStreams(parts)|, |StatisticsArea(parts)|);
    assert h + [] == h;
    BlockHeaderRoundTrip(schema, info, |AllStreams(parts)|, |StatisticsArea(parts)|, [], |header|);
    TableSizes(parts);
    RecordsConcat(ColumnRecords(ColumnTable(parts)), COLUMN_DESCRIPTOR_SIZE);
    RecordsConcat(StreamRecords(StreamTable(parts)), STREAM_DESCRIPTOR_SIZE);
    ColumnsOfHeader(schema, parts, info.rowCount);
    StreamsOfHeader(parts, info.rowCount, limits);
  }

  lemma TableSizes(parts: seq<Part>)
    requires Built(AllStreams(parts))
    ensures |ColumnTable(parts)| == |parts| && |StreamTable(parts)| == |AllStreams(parts)|
    ensures |StatisticsArea(parts)| % 8 == 0
  {
  }

  // -------------------------------------------------------------------- decoding

  /** Reading a column's slice of the payload yields the streams it was built from. */
  lemma StreamsRestored(streams: seq<Stream>, first: nat, count: nat, limits: Limits)
    requires WellFormed(streams, limits.maxRowsPerBlock) && first + count <= |streams|
    ensures
      StreamsOf(PayloadOf(streams), DescribeStreams(streams, 0)[first..first + count], limits)
      == streams[first..first + count]
  {
    hide DescribeStreams, PayloadOf, Padded, Checksum;
    var ds := DescribeStreams(streams, 0);
    var payload := PayloadOf(streams);
    forall j | first <= j < first + count
      ensures Stream(ds[j].kind, ds[j].transform, ds[j].elementCount, StreamContent(payload, ds[j], limits)) == streams[j]
    {
      StreamPlace(streams, 0, j);
      StreamBytesAt(streams, [], j);
      assert [] + payload == payload;
    }
  }

  lemma {:induction false} DescriptorFound(columns: seq<ColumnDescriptor>, p: nat) returns (q: nat)
    requires p < |columns| && columns[p].columnId < U32
    ensures q < |columns| && columns[q].columnId == columns[p].columnId
    ensures DescriptorFor(columns, columns[p].columnId) == Some(columns[q])
  {
    if columns[0].columnId == columns[p].columnId {
      q := 0;
    } else {
      var rest := DescriptorFound(columns[1..], p - 1);
      q := rest + 1;
    }
  }

  ghost predicate Encodes(plan: Plan, rows: seq<Row>, parts: seq<Part>) {
    && plan.Valid() && ValidRows(plan.schema, rows) && 0 < |rows| <= DEFAULT.maxRowsPerBlock
    && EncodeParts(plan, rows, IdOrder(plan.schema.columns)) == Ok(parts)
    && Fits(parts, |rows|)
  }

  lemma EncodesBuilt(plan: Plan, rows: seq<Row>, parts: seq<Part>)
    requires Encodes(plan, rows, parts)
    ensures Built(AllStreams(parts))
  {
  }

  lemma PartDecodes(plan: Plan, rows: seq<Row>, i: nat)
    requires plan.Valid() && ValidRows(plan.schema, rows) && 0 < |rows| < U32 && i < |plan.schema.columns|
    requires EncodePart(plan, rows, i).Ok?
    ensures
      var part := EncodePart(plan, rows, i).value;
      DecodeColumn(plan.schema.columns[i], part.encoded.shape, part.encoded.streams, |rows|) == Ok(CellsOf(plan.schema, rows, i))
  {
    hide EncodeColumn, DecodeColumn, SchemaFrame.Valid;
    CellsAreAdmissible(plan.schema, rows, i);
    ColumnRoundTrip(plan.schema.columns[i], CellsOf(plan.schema, rows, i), plan.choices[i].encoding, plan.choices[i].rle);
  }

  lemma SameIdSamePosition(schema: Schema, i: nat, j: nat)
    requires SchemaFrame.Valid(schema) && i < |schema.columns| && j < |schema.columns|
    requires schema.columns[i].id == schema.columns[j].id
    ensures i == j
  {
  }

  /** The statistics a part stores are the ones its descriptor claims. */
  function Claimed(part: Part): Option<seq<byte>> {
    if part.statistics == [] then None else Some(part.statistics)
  }

  lemma ClaimRestored(schema: Schema, info: BlockInfo, parts: seq<Part>, p: nat)
    requires Built(AllStreams(parts)) && |parts| == |schema.columns| && p < |parts|
    ensures p < |ColumnTable(parts)| && ClaimOf(ColumnTable(parts)[p], HeaderOf(schema, info, parts)) == Claimed(parts[p])
  {
    hide HeaderOf, DescribeColumns, AllStreams, StatisticsOffset, AllStatistics, StreamTableOffset, Concat, BlockHeader, StreamTable;
    TableSizes(parts);
    ColumnPlace(parts, 0, StatisticsOffset(parts), p);
    if parts[p].statistics != [] {
      HeaderPieces(schema, info, parts);
      StatisticsPlace(parts, 0, StatisticsOffset(parts), p);
      var d := ColumnTable(parts)[p];
      PairInArea(HeaderOf(schema, info, parts), StatisticsOffset(parts), StatisticsArea(parts), AllStatistics(parts), d.statsOffset,
                 d.statsLength);
    }
  }

  lemma PairInArea(header: seq<byte>, at: nat, area: seq<byte>, all: seq<byte>, offset: nat, length: nat)
    requires at <= |header| && header[at..] == area && all <= area && at <= offset && offset + length <= at + |all|
    ensures offset + length <= |header| && header[offset..offset + length] == all[offset - at..offset + length - at]
  {
    var a := offset - at;
    SliceBefore(all, area[|all|..], a, a + length);
    SliceAfter(header[..at], area, a, a + length);
    assert header[..at] + area == header && all + area[|all|..] == area;
  }

  /** The block these parts make. */
  ghost function BlockOf(plan: Plan, rows: seq<Row>, base: Option<nat>, parts: seq<Part>): Block
    requires Encodes(plan, rows, parts)
  {
    Block(HeaderOf(plan.schema, InfoOf(plan.schema, rows, base), parts), PayloadOf(AllStreams(parts)))
  }

  /** A column's own cells confirm the statistics stored for them. */
  lemma PartConfirmed(plan: Plan, rows: seq<Row>, i: nat)
    requires plan.Valid() && ValidRows(plan.schema, rows) && 0 < |rows| < U32 && i < |plan.schema.columns|
    requires EncodePart(plan, rows, i).Ok?
    ensures
      VerifyClaim(plan.schema.columns[i].logicalType, Claimed(EncodePart(plan, rows, i).value), CellsOf(plan.schema, rows, i)) == Ok(())
  {
    hide EncodeColumn, SchemaFrame.Valid, StatisticsOf, VerifyPair, Comparable, Present;
    CellsAreAdmissible(plan.schema, rows, i);
    var column, cells := plan.schema.columns[i], CellsOf(plan.schema, rows, i);
    PresentIsDense(column, cells);
    if StatisticsOf(plan.schema, column, Present(cells), plan.statistics) != [] {
      WrittenPairVerifies(plan.schema, column, Present(cells), plan.statistics);
    }
  }

  lemma OneColumnLocated(plan: Plan, rows: seq<Row>, base: Option<nat>, parts: seq<Part>, limits: Limits, i: nat)
    requires Generous(limits) && Encodes(plan, rows, parts) && i < |plan.schema.columns|
    ensures
      var layout := BlockLayout(InfoOf(plan.schema, rows, base), ColumnTable(parts), StreamTable(parts));
      && EncodePart(plan, rows, i).Ok?
      && var encoded := EncodePart(plan, rows, i).value.encoded;
      Locate(layout, BlockOf(plan, rows, base, parts), plan.schema.columns[i], limits)
      == Some(Stored(encoded.shape, encoded.streams, Claimed(EncodePart(plan, rows, i).value)))
  {
    hide SchemaFrame.Valid, EncodePart, DecodeColumn, ValidRows, DescribeColumns, DescribeStreams, AllStreams, PayloadOf,
         StatisticsArea, StatisticsOffset, IdOrder, CellsOf, StreamsOf, EncodeParts, GoodPart, HeaderOf, InfoOf, Claimed, ClaimOf;
    var schema := plan.schema;
    var order := IdOrder(schema.columns);
    assert Has(order, i);
    var p :| 0 <= p < |order| && order[p] == i;
    TableSizes(parts);
    ColumnIdsAre(plan, rows, parts, p);
    var q := DescriptorFound(ColumnTable(parts), p);
    ColumnIdsAre(plan, rows, parts, q);
    SameIdSamePosition(schema, order[q], i);
    var d := ColumnTable(parts)[q];
    ColumnPlace(parts, 0, StatisticsOffset(parts), q);
    ClaimRestored(schema, InfoOf(schema, rows, base), parts, q);
    StreamsRestored(AllStreams(parts), d.firstStream, d.streamCount, limits);
    InfoRows(schema, rows, base);
  }

  lemma InfoRows(schema: Schema, rows: seq<Row>, base: Option<nat>)
    requires SchemaFrame.Valid(schema) && ValidRows(schema, rows) && rows != []
    ensures InfoOf(schema, rows, base).rowCount == |rows| && InfoOf(schema, rows, base).baseRowId == base
  {
  }

  /** Entry `p` of the column table describes the schema column the order puts there. */
  lemma ColumnIdsAre(plan: Plan, rows: seq<Row>, parts: seq<Part>, p: nat)
    requires Encodes(plan, rows, parts) && p < |plan.schema.columns|
    ensures |parts| == |plan.schema.columns| && p < |ColumnTable(parts)|
    ensures
      var i := IdOrder(plan.schema.columns)[p];
      var d := ColumnTable(parts)[p];
      && EncodePart(plan, rows, i) == Ok(parts[p]) && parts[p].column == plan.schema.columns[i]
      && d.columnId == plan.schema.columns[i].id && d.AsShape() == parts[p].encoded.shape
      && d.streamCount == |parts[p].encoded.streams|
  {
    hide SchemaFrame.Valid, EncodePart, ValidRows, DescribeColumns, AllStreams, PayloadOf, StatisticsArea, StatisticsOffset,
         IdOrder, EncodeParts, GoodPart;
    TableSizes(parts);
    PartIsGood(plan, rows, IdOrder(plan.schema.columns)[p]);
    ColumnChecksOut(parts, p, |rows|);
    ColumnPlace(parts, 0, StatisticsOffset(parts), p);
  }

  /** The first `n` columns of a row block. */
  function ColumnsOf(schema: Schema, rows: seq<Row>, n: nat): (columns: seq<seq<Cell>>)
    requires ValidRows(schema, rows) && n <= |schema.columns|
    ensures |columns| == n && forall i :: 0 <= i < n ==> columns[i] == CellsOf(schema, rows, i)
  {
    seq(n, i requires 0 <= i < n => CellsOf(schema, rows, i))
  }

  /** A located column decodes to its cells and charges what was planned for it. */
  lemma OneColumnRestored(plan: Plan, rows: seq<Row>, base: Option<nat>, parts: seq<Part>, limits: Limits, i: nat)
    requires Generous(limits) && Encodes(plan, rows, parts) && i < |plan.schema.columns|
    ensures
      var layout := BlockLayout(InfoOf(plan.schema, rows, base), ColumnTable(parts), StreamTable(parts));
      var block := BlockOf(plan, rows, base, parts);
      && DecodeOne(layout, block, plan.schema.columns[i], limits) == Ok(CellsOf(plan.schema, rows, i))
      && Sum(OneCharges(layout, block, plan.schema.columns[i], limits)) == PartCharge(plan, rows, i)
  {
    hide SchemaFrame.Valid, EncodePart, DecodeColumn, ValidRows, ColumnTable, StreamTable, AllStreams, PayloadOf, CellsOf, EncodeParts,
         Fits, Locate, ColumnCharges, Sum, PartCharge;
    OneColumnLocated(plan, rows, base, parts, limits, i);
    InfoRows(plan.schema, rows, base);
    PartDecodes(plan, rows, i);
    PartConfirmed(plan, rows, i);
    PartCharges(plan, rows, i);
  }

  lemma PartCharges(plan: Plan, rows: seq<Row>, i: nat)
    requires plan.Valid() && ValidRows(plan.schema, rows) && 0 < |rows| < U32 && i < |plan.schema.columns|
    requires EncodePart(plan, rows, i).Ok?
    ensures
      var encoded := EncodePart(plan, rows, i).value.encoded;
      Sum(ColumnCharges(plan.schema.columns[i], encoded.shape, encoded.streams, |rows|)) == PartCharge(plan, rows, i)
  {
    hide EncodeColumn, ColumnCharges, SchemaFrame.Valid, Sum, ColumnCharge;
    CellsAreAdmissible(plan.schema, rows, i);
    ColumnChargesSum(plan.schema.columns[i], CellsOf(plan.schema, rows, i), plan.choices[i].encoding, plan.choices[i].rle);
  }

  lemma {:induction false} ColumnsRestored(plan: Plan, rows: seq<Row>, base: Option<nat>, parts: seq<Part>, limits: Limits, n: nat)
    requires Generous(limits) && Encodes(plan, rows, parts) && n <= |plan.schema.columns|
    ensures
      var layout := BlockLayout(InfoOf(plan.schema, rows, base), ColumnTable(parts), StreamTable(parts));
      var block := BlockOf(plan, rows, base, parts);
      && DecodeSome(layout, block, plan.schema.columns, limits, Indices(n)) == Ok(ColumnsOf(plan.schema, rows, n))
      && Sum(SomeCharges(layout, block, plan.schema.columns, limits, Indices(n))) == ChargeUpTo(plan, rows, n)
  {
    hide Fits, SchemaFrame.Valid, ValidRows, ColumnTable, StreamTable, PayloadOf, AllStreams, DecodeOne, CellsOf, EncodeParts,
         OneCharges, Sum, PartCharge, BlockOf, InfoOf;
    SumOne(0);
    EncodesBuilt(plan, rows, parts);
    if n > 0 {
      var layout := BlockLayout(InfoOf(plan.schema, rows, base), ColumnTable(parts), StreamTable(parts));
      var block := BlockOf(plan, rows, base, parts);
      ColumnsRestored(plan, rows, base, parts, limits, n - 1);
      OneColumnRestored(plan, rows, base, parts, limits, n - 1);
      assert Indices(n)[..n - 1] == Indices(n - 1);
      assert ColumnsOf(plan.schema, rows, n) == ColumnsOf(plan.schema, rows, n - 1) + [CellsOf(plan.schema, rows, n - 1)];
      SumConcat(SomeCharges(layout, block, plan.schema.columns, limits, Indices(n - 1)),
                OneCharges(layout, block, plan.schema.columns[n - 1], limits));
    }
  }

  lemma TransposeRestores(schema: Schema, rows: seq<Row>)
    requires ValidRows(schema, rows)
    ensures Transpose(ColumnsOf(schema, rows, |schema.columns|), |rows|) == Ok(rows)
  {
    hide Admits, ColumnsOf, CellsOf;
    var columns := ColumnsOf(schema, rows, |schema.columns|);
    var transposed := Transpose(columns, |rows|).value;
    forall r | 0 <= r < |rows| ensures transposed[r] == rows[r] {
      assert ValidRow(schema, rows[r]);
      assert forall c :: 0 <= c < |columns| ==> columns[c] == CellsOf(schema, rows, c);
    }
    assert transposed == rows;
  }

  lemma EncodedFits(plan: Plan, rows: seq<Row>, base: Option<nat>)
    requires plan.Valid() && ValidRows(plan.schema, rows) && rows != [] && EncodeBlock(plan, rows, base).Ok?
    ensures
      var parts := EncodeParts(plan, rows, IdOrder(plan.schema.columns));
      parts.Ok? && Encodes(plan, rows, parts.value)
  {
    hide SchemaFrame.Valid, EncodePart, HeaderOf, PayloadOf, AllStreams, InfoOf, StatisticsArea, WellFormed;
    var order := IdOrder(plan.schema.columns);
    var parts := EncodeParts(plan, rows, order).value;
    forall p | 0 <= p < |parts| ensures GoodPart(parts[p], |rows|) {
      PartIsGood(plan, rows, order[p]);
    }
    AllAreWellFormed(parts, |rows|);
  }

  lemma InfoDescribes(plan: Plan, rows: seq<Row>, base: Option<nat>, parts: seq<Part>)
    requires Encodes(plan, rows, parts) && (base.Some? ==> base.value < U64)
    ensures |parts| == |plan.schema.columns|
    ensures Describes(plan.schema, InfoOf(plan.schema, rows, base), |AllStreams(parts)|, |StatisticsArea(parts)|)
    ensures forall p :: 0 <= p < |parts| ==> parts[p].column == plan.schema.columns[IdOrder(plan.schema.columns)[p]]
  {
    hide EncodePart, AllStreams, StatisticsArea, GoodPart, WellFormed, ValidRows, PayloadOf, IdOrder, Nondecreasing, CellsOf;
    forall p | 0 <= p < |parts| ensures parts[p].column == plan.schema.columns[IdOrder(plan.schema.columns)[p]] {
      PartIsGood(plan, rows, IdOrder(plan.schema.columns)[p]);
    }
    PrimaryFound(plan.schema);
  }

  lemma PrimaryFound(schema: Schema)
    requires SchemaFrame.Valid(schema)
    ensures PrimaryIndex(schema).Some? <==> schema.primaryColumnId.Some?
  {
  }

  /** A built block satisfies the forward walk's checks and declares what it holds. */
  lemma EncodedBlockParses(plan: Plan, rows: seq<Row>, base: Option<nat>)
    requires plan.Valid() && ValidRows(plan.schema, rows) && rows != [] && EncodeBlock(plan, rows, base).Ok?
    requires base.Some? ==> base.value < U64
    ensures
      var block := EncodeBlock(plan, rows, base).value;
      var info := InfoOf(plan.schema, rows, base);
      && 64 <= |block.header| <= DEFAULT.maxFrameHeaderLength && |block.header| % 8 == 0
      && |block.payload| <= DEFAULT.maxFramePayloadLength && |block.payload| % 8 == 0
      && info.rowCount == |rows| && info.baseRowId == base
      && ParseBlock(block.header[..64], |block.header|, plan.schema, base.Some?, base) == Ok(info)
  {
    hide SchemaFrame.Valid, ValidRows, EncodeParts, HeaderOf, AllStreams, InfoOf, StatisticsArea, StatisticsOffset, ParseBlock,
         ParseLayout, ColumnTable, StreamTable, Fits, Describes, IdOrder;
    EncodedFits(plan, rows, base);
    var parts := EncodeParts(plan, rows, IdOrder(plan.schema.columns)).value;
    InfoDescribes(plan, rows, base, parts);
    InfoRows(plan.schema, rows, base);
    SchemaWidth(plan.schema);
    LayoutRoundTrip(plan.schema, InfoOf(plan.schema, rows, base), parts, DEFAULT);
  }

  lemma SchemaWidth(schema: Schema)
    requires SchemaFrame.Valid(schema)
    ensures |schema.columns| <= DEFAULT.maxSchemaColumns
  {
  }

  /** The primary column of an encoded block costs its verification copy and is confirmed. */
  lemma PrimaryRestored(plan: Plan, rows: seq<Row>, base: Option<nat>, parts: seq<Part>, limits: Limits)
    requires Generous(limits) && Encodes(plan, rows, parts)
    ensures
      var layout := BlockLayout(InfoOf(plan.schema, rows, base), ColumnTable(parts), StreamTable(parts));
      var block := BlockOf(plan, rows, base, parts);
      var primary := PrimaryIndex(plan.schema);
      && Sum(PrimaryCharges(layout, block, plan.schema.columns, limits, Indices(|plan.schema.columns|), primary))
         == (if primary.Some? then |rows| * PRIMARY_VALUE_BYTES else 0)
      && (primary.Some? ==>
            var cells := CellsOf(plan.schema, rows, primary.value);
            DecodeOne(layout, block, plan.schema.columns[primary.value], limits) == Ok(cells)
            && VerifyPrimary(cells, layout.info).Ok?)
  {
    hide Fits, SchemaFrame.Valid, ValidRows, ColumnTable, StreamTable, PayloadOf, AllStreams, DecodeOne, CellsOf, EncodeParts,
         OneCharges, Sum, PartCharge, VerifyPrimary, PrimaryIndex, InfoOf, BlockOf;
    SumOne(|rows| * PRIMARY_VALUE_BYTES);
    InfoRows(plan.schema, rows, base);
    if PrimaryIndex(plan.schema).Some? {
      var i := PrimaryIndex(plan.schema).value;
      OneColumnRestored(plan, rows, base, parts, limits, i);
      PrimaryConfirmed(plan.schema, rows, base, i);
      var all := Indices(|plan.schema.columns|);
      assert all[i] == i;
      assert Has(all, i);
      assert [] + [|rows| * PRIMARY_VALUE_BYTES] == [|rows| * PRIMARY_VALUE_BYTES];
    }
  }

  /** Rebuilding an encoded block from its own tables gives its rows and charges what was planned. */
  lemma BlockRebuilds(plan: Plan, rows: seq<Row>, base: Option<nat>, parts: seq<Part>, limits: Limits)
    requires Generous(limits) && Encodes(plan, rows, parts)
    ensures
      var schema := plan.schema;
      var layout := BlockLayout(InfoOf(schema, rows, base), ColumnTable(parts), StreamTable(parts));
      var block := BlockOf(plan, rows, base, parts);
      var all, primary := Indices(|schema.columns|), PrimaryIndex(schema);
      && Sum(SelectedCharges(layout, block, schema.columns, limits, all, primary)) == BlockCharge(plan, rows)
      && var d := Rebuild(layout, block, schema.columns, limits, all, primary);
      d.Ok? && d.value.rows == rows
  {
    hide Fits, SchemaFrame.Valid, ValidRows, ColumnTable, StreamTable, PayloadOf, AllStreams, DecodeOne, CellsOf, EncodeParts,
         SomeCharges, DecodeSome, PrimaryCharges, Sum, VerifyPrimary, PrimaryIndex, InfoOf, ColumnsOf, Transpose, ChargeUpTo;
    var schema := plan.schema;
    var n := |schema.columns|;
    EncodesBuilt(plan, rows, parts);
    var layout := BlockLayout(InfoOf(schema, rows, base), ColumnTable(parts), StreamTable(parts));
    var block := BlockOf(plan, rows, base, parts);
    InfoRows(schema, rows, base);
    ColumnsRestored(plan, rows, base, parts, limits, n);
    PrimaryRestored(plan, rows, base, parts, limits);
    TransposeRestores(schema, rows);
    SumConcat(SomeCharges(layout, block, schema.columns, limits, Indices(n)),
              PrimaryCharges(layout, block, schema.columns, limits, Indices(n), PrimaryIndex(schema)));
  }

  /**
   * Decoding an encoded block restores its rows if and only if its planned charge fits the
   * reader's block allowance, and is otherwise refused as a resource limit: for every valid
   * schema, every block of rows the encoder accepts, and every choice of encoding for each
   * column and its validity.
   */
  lemma BlockRoundTrip(plan: Plan, rows: seq<Row>, base: Option<nat>, limits: Limits)
    requires Generous(limits) && plan.Valid() && ValidRows(plan.schema, rows) && rows != [] && EncodeBlock(plan, rows, base).Ok?
    requires base.Some? ==> base.value < U64
    ensures |rows| < U32
    ensures DecodeBlock(EncodeBlock(plan, rows, base).value, plan.schema, base.Some?, base, limits)
         == if Affordable(plan, rows, limits) then Ok(rows) else Err(ResourceLimit)
  {
    hide SchemaFrame.Valid, ValidRows, EncodeParts, HeaderOf, AllStreams, InfoOf, StatisticsArea, StatisticsOffset, ParseBlock,
         ParseLayout, ColumnTable, StreamTable, Fits, Describes, IdOrder, Rebuild, SelectedCharges, PrimaryIndex, PayloadOf,
         BlockCharge, Sum;
    EncodedFits(plan, rows, base);
    var schema := plan.schema;
    var info := InfoOf(schema, rows, base);
    var parts := EncodeParts(plan, rows, IdOrder(schema.columns)).value;
    InfoDescribes(plan, rows, base, parts);
    InfoRows(schema, rows, base);
    SchemaWidth(schema);
    LayoutRoundTrip(schema, info, parts, limits);
    BlockRebuilds(plan, rows, base, parts, limits);
  }
}
