/** The fixed 64-byte block header that begins every data-frame header. */
module DataFrame {
  import opened Core
  import opened Bytes
  import opened Schema

  const COLUMN_DESCRIPTOR_SIZE: nat := 32
  const STREAM_DESCRIPTOR_SIZE: nat := 48
  const UNAVAILABLE_BASE_ROW_ID: u64 := U64 - 1

  /** Inclusive primary bounds. */
  datatype Bounds = Bounds(min: i64, max: i64)

  /** What a block declares about its rows. */
  datatype BlockInfo = BlockInfo(rowCount: nat, baseRowId: Option<nat>, bounds: Option<Bounds>, sorted: bool)

  /** An eight-byte field as a signed 64-bit value. */
  function I64At(bytes: seq<byte>, offset: nat): i64
    requires offset + 8 <= |bytes|
  {
    var bits := U64At(bytes, offset);
    if bits < I64 then bits else bits - U64
  }

  /** The tables of the header are where the schema's column count puts them. */
  predicate LayoutFits(header: seq<byte>, headerLength: nat, columnCount: nat)
    requires |header| >= 64
  {
    var streamTable := Field(header, 44, 4);
    var statistics := Field(header, 48, 4);
    && Field(header, 40, 4) == 64
    && streamTable == 64 + columnCount * COLUMN_DESCRIPTOR_SIZE
    && statistics >= streamTable
    && (statistics - streamTable) % STREAM_DESCRIPTOR_SIZE == 0
    && statistics + Field(header, 52, 4) <= headerLength
  }

  /**
   * With row IDs on, the stored base must be the one expected; with them off every block
   * stores the unavailable sentinel.
   */
  predicate BaseRowIdFits(header: seq<byte>, rowIds: bool, expected: Option<nat>)
    requires |header| >= 64
  {
    && (Field(header, 56, 4) % 2 == 1) == rowIds
    && Field(header, 8, 8) ==
       if rowIds then (match expected case Some(id) => id case None => 0) else UNAVAILABLE_BASE_ROW_ID
  }

  predicate BoundsFit(header: seq<byte>, schema: Schema)
    requires |header| >= 64
  {
    if schema.primaryColumnId.Some? then I64At(header, 24) <= I64At(header, 32)
    else I64At(header, 24) == 0 && I64At(header, 32) == 0 && Field(header, 56, 4) < 2
  }

  /** Parse the block header; every refusal is corruption. */
  function ParseBlock(header: seq<byte>, headerLength: nat, schema: Schema, rowIds: bool, expected: Option<nat>)
    : Result<BlockInfo>
    requires |header| >= 64
  {
    if && Field(header, 0, 8) == schema.schemaId
       && Field(header, 20, 4) == |schema.columns|
       && Field(header, 16, 4) != 0
       && LayoutFits(header, headerLength, |schema.columns|)
       && Field(header, 56, 4) < 4
       && BaseRowIdFits(header, rowIds, expected)
       && BoundsFit(header, schema)
    then
      Ok(BlockInfo(
           Field(header, 16, 4),
           if rowIds then Some(Field(header, 8, 8)) else None,
           if schema.primaryColumnId.Some? then Some(Bounds(I64At(header, 24), I64At(header, 32))) else None,
           Field(header, 56, 4) >= 2))
    else Err(Corruption)
  }

  /** A signed 64-bit value as its stored bits. */
  function I64Bits(x: i64): u64 {
    if x < 0 then x + U64 else x
  }

  /** The first forty bytes: schema, base row ID, counts and bounds. */
  function HeaderFacts(schema: Schema, info: BlockInfo): (bytes: seq<byte>)
    ensures |bytes| == 40
  {
    var bounds := match info.bounds case Some(b) => b case None => Bounds(0, 0);
    Le(schema.schemaId, 8)
    + Le(match info.baseRowId case Some(id) => id case None => UNAVAILABLE_BASE_ROW_ID, 8)
    + Le(info.rowCount, 4) + Le(|schema.columns|, 4)
    + Le(I64Bits(bounds.min), 8) + Le(I64Bits(bounds.max), 8)
  }

  function BlockFlags(info: BlockInfo): nat {
    (if info.baseRowId.Some? then 1 else 0) + (if info.sorted then 2 else 0)
  }

  /** The last twenty-four bytes: where the tables are, and the flags. */
  function HeaderTables(streamTable: nat, statistics: nat, statisticsLength: nat, flags: nat): (bytes: seq<byte>)
    ensures |bytes| == 24
  {
    Le(64, 4) + Le(streamTable, 4) + Le(statistics, 4) + Le(statisticsLength, 4) + Le(flags, 4) + Le(0, 4)
  }

  /** The block header the writer stores for `info`, over tables of the given sizes. */
  function BlockHeader(schema: Schema, info: BlockInfo, streamCount: nat, statisticsLength: nat): (bytes: seq<byte>)
    ensures |bytes| == 64
  {
    var streamTable := 64 + |schema.columns| * COLUMN_DESCRIPTOR_SIZE;
    HeaderFacts(schema, info)
    + HeaderTables(streamTable, streamTable + streamCount * STREAM_DESCRIPTOR_SIZE, statisticsLength, BlockFlags(info))
  }

  /** Header facts a writer must respect for its block to parse. */
  predicate Describes(schema: Schema, info: BlockInfo, streamCount: nat, statisticsLength: nat) {
    && 0 < info.rowCount < U32
    && |schema.columns| < U32
    && (info.baseRowId.Some? ==> info.baseRowId.value < U64)
    && (info.bounds.Some? <==> schema.primaryColumnId.Some?)
    && (info.bounds.Some? ==> info.bounds.value.min <= info.bounds.value.max)
    && (info.sorted ==> info.bounds.Some?)
    && 64 + |schema.columns| * COLUMN_DESCRIPTOR_SIZE + streamCount * STREAM_DESCRIPTOR_SIZE + statisticsLength < U32
  }

  lemma I64RoundTrip(bytes: seq<byte>, offset: nat, x: i64)
    requires offset + 8 <= |bytes| && bytes[offset..offset + 8] == Le(I64Bits(x), 8)
    ensures I64At(bytes, offset) == x
  {
    Ranges();
    LeRoundTrip(I64Bits(x), 8);
  }

  lemma FieldRoundTrip(b: seq<byte>, offset: nat, width: nat, n: nat)
    requires offset + width <= |b| && b[offset..offset + width] == Le(n, width) && n < Range(width)
    ensures Field(b, offset, width) == n
  {
    LeRoundTrip(n, width);
  }

  lemma FactsRead(schema: Schema, info: BlockInfo, rest: seq<byte>)
    requires info.rowCount < U32 && |schema.columns| < U32 && (info.baseRowId.Some? ==> info.baseRowId.value < U64)
    ensures
      var h := HeaderFacts(schema, info) + rest;
      var bounds := match info.bounds case Some(b) => b case None => Bounds(0, 0);
      && Field(h, 0, 8) == schema.schemaId
      && Field(h, 8, 8) == (match info.baseRowId case Some(id) => id case None => UNAVAILABLE_BASE_ROW_ID)
      && Field(h, 16, 4) == info.rowCount && Field(h, 20, 4) == |schema.columns|
      && I64At(h, 24) == bounds.min && I64At(h, 32) == bounds.max
  {
    hide Le, Field, Range, I64At;
    Ranges();
    var facts := HeaderFacts(schema, info);
    var h := facts + rest;
    var base := match info.baseRowId case Some(id) => id case None => UNAVAILABLE_BASE_ROW_ID;
    var bounds := match info.bounds case Some(b) => b case None => Bounds(0, 0);
    var x1 := Le(schema.schemaId, 8);
    var x2 := x1 + Le(base, 8);
    var x3 := x2 + Le(info.rowCount, 4);
    var x4 := x3 + Le(|schema.columns|, 4);
    var x5 := x4 + Le(I64Bits(bounds.min), 8);
    assert h[..40] == facts == x5 + Le(I64Bits(bounds.max), 8);
    Peel(h, x5, Le(I64Bits(bounds.max), 8));
    Peel(h, x4, Le(I64Bits(bounds.min), 8));
    Peel(h, x3, Le(|schema.columns|, 4));
    Peel(h, x2, Le(info.rowCount, 4));
    Peel(h, x1, Le(base, 8));
    FieldRoundTrip(h, 0, 8, schema.schemaId);
    FieldRoundTrip(h, 8, 8, base);
    FieldRoundTrip(h, 16, 4, info.rowCount);
    FieldRoundTrip(h, 20, 4, |schema.columns|);
    I64RoundTrip(h, 24, bounds.min);
    I64RoundTrip(h, 32, bounds.max);
  }

  lemma TablesRead(facts: seq<byte>, streamTable: nat, statistics: nat, statisticsLength: nat, flags: nat, rest: seq<byte>)
    requires |facts| == 40 && streamTable < U32 && statistics < U32 && statisticsLength < U32 && flags < U32
    ensures
      var h := facts + HeaderTables(streamTable, statistics, statisticsLength, flags) + rest;
      && Field(h, 40, 4) == 64 && Field(h, 44, 4) == streamTable && Field(h, 48, 4) == statistics
      && Field(h, 52, 4) == statisticsLength && Field(h, 56, 4) == flags
  {
    hide Le, Field, Range;
    Ranges();
    var tables := HeaderTables(streamTable, statistics, statisticsLength, flags);
    var h := facts + tables + rest;
    var x1 := Le(64, 4);
    var x2 := x1 + Le(streamTable, 4);
    var x3 := x2 + Le(statistics, 4);
    var x4 := x3 + Le(statisticsLength, 4);
    var x5 := x4 + Le(flags, 4);
    assert tables[..24] == tables == x5 + Le(0, 4);
    Peel(tables, x5, Le(0, 4));
    Peel(tables, x4, Le(flags, 4));
    Peel(tables, x3, Le(statisticsLength, 4));
    Peel(tables, x2, Le(statistics, 4));
    Peel(tables, x1, Le(streamTable, 4));
    TableField(facts, tables, rest, 0, 64);
    TableField(facts, tables, rest, 4, streamTable);
    TableField(facts, tables, rest, 8, statistics);
    TableField(facts, tables, rest, 12, statisticsLength);
    TableField(facts, tables, rest, 16, flags);
  }

  lemma TableField(facts: seq<byte>, tables: seq<byte>, rest: seq<byte>, offset: nat, n: nat)
    requires offset + 4 <= |tables| && tables[offset..offset + 4] == Le(n, 4) && n < U32
    ensures Field(facts + tables + rest, |facts| + offset, 4) == n
  {
    hide Le, Field, Range;
    Ranges();
    SliceAfter(facts, tables, offset, offset + 4);
    SliceBefore(facts + tables, rest, |facts| + offset, |facts| + offset + 4);
    FieldRoundTrip(facts + tables + rest, |facts| + offset, 4, n);
  }

  /** A block header the writer builds parses back to what it declares. */
  lemma BlockHeaderRoundTrip(
      schema: Schema, info: BlockInfo, streamCount: nat, statisticsLength: nat, tables: seq<byte>, headerLength: nat)
    requires Describes(schema, info, streamCount, statisticsLength)
    requires 64 + |schema.columns| * COLUMN_DESCRIPTOR_SIZE + streamCount * STREAM_DESCRIPTOR_SIZE + statisticsLength <= headerLength
    ensures
      ParseBlock(BlockHeader(schema, info, streamCount, statisticsLength) + tables, headerLength, schema,
                 info.baseRowId.Some?, info.baseRowId) == Ok(info)
  {
    hide HeaderFacts, HeaderTables, Field, I64At;
    var streamTable := 64 + |schema.columns| * COLUMN_DESCRIPTOR_SIZE;
    var statistics := streamTable + streamCount * STREAM_DESCRIPTOR_SIZE;
    var facts, located := HeaderFacts(schema, info), HeaderTables(streamTable, statistics, statisticsLength, BlockFlags(info));
    FactsRead(schema, info, located + tables);
    assert facts + (located + tables) == facts + located + tables;
    TablesRead(facts, streamTable, statistics, statisticsLength, BlockFlags(info), tables);
    assert (statistics - streamTable) % STREAM_DESCRIPTOR_SIZE == 0;
  }
}
