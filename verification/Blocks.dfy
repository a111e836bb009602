/**
 * Whole data blocks: rows become column streams, descriptor tables and one payload, and a
 * reader rebuilds the rows from those bytes alone.
 */
module Blocks {
  import opened Core
  import opened Bytes
  import opened Limits
  import opened Crc32c
  import opened Schema
  import opened Rows
  import opened Pricing
  import opened DataFrame
  import opened Layouts
  import opened ColumnCodec
  import opened Charges
  import opened Planned
  import opened StreamRanges
  import opened Tables
  import opened Extrema
  import opened Packing
  import SchemaFrame
  import Integers

  /** How the writer stores one column: any encoding, and raw or run-length validity. */
  datatype Choice = Choice(encoding: Encoding, rle: bool)

  /** What decides a block's bytes besides its rows. */
  datatype Plan = Plan(schema: Schema, choices: seq<Choice>, statistics: Policy)
  {
    predicate Valid() {
      SchemaFrame.Valid(schema) && |choices| == |schema.columns|
    }
  }

  datatype Block = Block(header: seq<byte>, payload: seq<byte>)

  /** One column of a row block. */
  function CellsOf(schema: Schema, rows: seq<Row>, i: nat): (cells: seq<Cell>)
    requires ValidRows(schema, rows) && i < |schema.columns|
    ensures |cells| == |rows|
    ensures forall r :: 0 <= r < |rows| ==> cells[r] == rows[r][i]
  {
    seq(|rows|, r requires 0 <= r < |rows| => assert ValidRow(schema, rows[r]); rows[r][i])
  }

  lemma CellsAreAdmissible(schema: Schema, rows: seq<Row>, i: nat)
    requires ValidRows(schema, rows) && i < |schema.columns|
    ensures Admissible(schema.columns[i], CellsOf(schema, rows, i))
  {
    hide Admits;
    forall r | 0 <= r < |rows| ensures Admits(schema.columns[i], rows[r][i]) {
      assert ValidRow(schema, rows[r]);
    }
  }

  // ------------------------------------------------------------- primary metadata

  predicate Nondecreasing(values: seq<int>) {
    forall i :: 0 <= i < |values| - 1 ==> values[i] <= values[i + 1]
  }

  function MaxOf(values: seq<int>): (m: int)
    requires values != []
    ensures m in values && forall i :: 0 <= i < |values| ==> values[i] <= m
  {
    if |values| == 1 then values[0]
    else
      var m := MaxOf(values[..|values| - 1]);
      var last := values[|values| - 1];
      assert forall i :: 0 <= i < |values| - 1 ==> values[i] == values[..|values| - 1][i];
      if last > m then last else m
  }

  /** The schema position of the primary column. */
  function PrimaryIndex(schema: Schema): (r: Option<nat>)
    ensures r.Some? ==> r.value < |schema.columns| && schema.primaryColumnId == Some(schema.columns[r.value].id)
  {
    match schema.primaryColumnId
    case None => None
    case Some(id) => PositionOfId(schema.columns, id)
  }

  function PositionOfId(columns: seq<Column>, id: u32): (r: Option<nat>)
    ensures r.Some? ==> r.value < |columns| && columns[r.value].id == id && ColumnById(columns, id) == Some(columns[r.value])
    ensures r.None? ==> ColumnById(columns, id) == None
  {
    if columns == [] then None
    else if columns[0].id == id then Some(0)
    else
      match PositionOfId(columns[1..], id)
      case None => None
      case Some(i) => Some(i + 1)
  }

  /** The declared bounds are attained and nothing lies outside them, and a sorted claim holds. */
  predicate Exact(values: seq<int>, info: BlockInfo) {
    && (info.bounds.None? <==> values == [])
    && (info.bounds.Some? ==>
          && info.bounds.value.min as int in values && info.bounds.value.max as int in values
          && forall i :: 0 <= i < |values| ==> info.bounds.value.min <= values[i] <= info.bounds.value.max)
    && (info.sorted ==> Nondecreasing(values))
  }

  /**
   * Confirm a decoded primary column against what its block declares: exact bounds, and
   * when the block claims to be sorted, nondecreasing values from one bound to the other.
   */
  function VerifyPrimary(cells: seq<Cell>, info: BlockInfo): (r: Result<seq<int>>)
    ensures r == if AllNumbers(cells) && Exact(NumbersOf(cells), info) then Ok(NumbersOf(cells)) else Err(Corruption)
  {
    if !AllNumbers(cells) then Err(Corruption)
    else
      var values := NumbersOf(cells);
      var min := if values == [] then None else Some(Integers.Minimum(values));
      var max := if values == [] then None else Some(MaxOf(values));
      if info.bounds.None? then (if min.Some? || (info.sorted && !Nondecreasing(values)) then Err(Corruption) else Ok(values))
      else if min != Some(info.bounds.value.min as int) || max != Some(info.bounds.value.max as int) then Err(Corruption)
      else if !info.sorted then Ok(values)
      else if !Nondecreasing(values) then Err(Corruption)
      else
        SortedEnds(values);
        if values[0] != info.bounds.value.min || values[|values| - 1] != info.bounds.value.max then Err(Corruption) else Ok(values)
  }

  /** The bounds and sortedness a block declares for its primary column. */
  function InfoOf(schema: Schema, rows: seq<Row>, base: Option<nat>): BlockInfo
    requires SchemaFrame.Valid(schema) && ValidRows(schema, rows) && rows != []
  {
    match PrimaryIndex(schema)
    case None => BlockInfo(|rows|, base, None, false)
    case Some(i) =>
      PrimaryIsNumeric(schema, rows, i);
      var values := NumbersOf(CellsOf(schema, rows, i));
      BlockInfo(|rows|, base, Some(Bounds(Integers.Minimum(values), MaxOf(values))), Nondecreasing(values))
  }

  /** A primary column holds no nulls, and its values are signed 64-bit numbers. */
  lemma PrimaryIsNumeric(schema: Schema, rows: seq<Row>, i: nat)
    requires SchemaFrame.Valid(schema) && ValidRows(schema, rows) && PrimaryIndex(schema) == Some(i)
    ensures AllNumbers(CellsOf(schema, rows, i))
    ensures forall r :: 0 <= r < |rows| ==> -I64 <= NumbersOf(CellsOf(schema, rows, i))[r] < I64
  {
    hide ValidUtf8;
    Ranges();
    CellsAreAdmissible(schema, rows, i);
    assert schema.columns[i].PrimaryCandidate();
    forall r | 0 <= r < |rows|
      ensures var cell := CellsOf(schema, rows, i)[r]; cell.Number? && -I64 <= cell.value < I64
    {
      assert Admits(schema.columns[i], CellsOf(schema, rows, i)[r]);
    }
  }

  /** What was declared is confirmed by the values themselves. */
  lemma PrimaryConfirmed(schema: Schema, rows: seq<Row>, base: Option<nat>, i: nat)
    requires SchemaFrame.Valid(schema) && ValidRows(schema, rows) && rows != [] && PrimaryIndex(schema) == Some(i)
    ensures VerifyPrimary(CellsOf(schema, rows, i), InfoOf(schema, rows, base)).Ok?
  {
    hide SchemaFrame.Valid, ValidRows, VerifyPrimary;
    PrimaryIsNumeric(schema, rows, i);
    DeclaredIsConfirmed(CellsOf(schema, rows, i), base);
  }

  lemma DeclaredIsConfirmed(cells: seq<Cell>, base: Option<nat>)
    requires cells != [] && AllNumbers(cells)
    requires forall r :: 0 <= r < |cells| ==> -I64 <= NumbersOf(cells)[r] < I64
    ensures
      var values := NumbersOf(cells);
      && -I64 <= Integers.Minimum(values) < I64 && -I64 <= MaxOf(values) < I64
      && VerifyPrimary(cells, BlockInfo(|cells|, base, Some(Bounds(Integers.Minimum(values), MaxOf(values))), Nondecreasing(values))).Ok?
  {
    hide Integers.Minimum, MaxOf;
    var values := NumbersOf(cells);
    if Nondecreasing(values) {
      SortedEnds(values);
    }
  }

  lemma {:induction false} SortedEnds(values: seq<int>)
    requires values != [] && Nondecreasing(values)
    ensures Integers.Minimum(values) == values[0] && MaxOf(values) == values[|values| - 1]
  {
    if |values| > 1 {
      SortedEnds(values[..|values| - 1]);
    }
  }

  // ----------------------------------------------------------------------- parts

  /** One column as it will appear in the tables. */
  datatype Part = Part(column: Column, encoded: EncodedColumn, statistics: seq<byte>)

  function EncodePart(plan: Plan, rows: seq<Row>, i: nat): Result<Part>
    requires plan.Valid() && ValidRows(plan.schema, rows) && |rows| < U32 && i < |plan.schema.columns|
  {
    var column := plan.schema.columns[i];
    var cells := CellsOf(plan.schema, rows, i);
    CellsAreAdmissible(plan.schema, rows, i);
    var encoded :- EncodeColumn(column, cells, plan.choices[i].encoding, plan.choices[i].rle);
    Ok(Part(column, encoded, StatisticsOf(plan.schema, column, Present(cells), plan.statistics)))
  }

  function EncodeParts(plan: Plan, rows: seq<Row>, order: seq<nat>): (r: Result<seq<Part>>)
    requires plan.Valid() && ValidRows(plan.schema, rows) && |rows| < U32
    requires forall p :: 0 <= p < |order| ==> order[p] < |plan.schema.columns|
    ensures r.Ok? ==> |r.value| == |order| && forall p :: 0 <= p < |order| ==> EncodePart(plan, rows, order[p]) == Ok(r.value[p])
    decreases |order|
  {
    if order == [] then Ok([])
    else
      var part :- EncodePart(plan, rows, order[0]);
      var rest :- EncodeParts(plan, rows, order[1..]);
      Ok([part] + rest)
  }

  function AllStreams(parts: seq<Part>): (streams: seq<Stream>) {
    if parts == [] then [] else parts[0].encoded.streams + AllStreams(parts[1..])
  }

  function AllStatistics(parts: seq<Part>): (bytes: seq<byte>) {
    if parts == [] then [] else parts[0].statistics + AllStatistics(parts[1..])
  }

  /** Every stream is padded to the alignment; an empty one still takes eight bytes. */
  function Padded(bytes: seq<byte>): (padded: seq<byte>)
    ensures |padded| % 8 == 0 && |padded| > 0 && |padded| >= |bytes| && padded[..|bytes|] == bytes
    ensures |padded| == if bytes == [] then 8 else Align8(|bytes|)
  {
    if bytes == [] then Zeros(8) else bytes + Zeros(Align8(|bytes|) - |bytes|)
  }

  /** The bytes of streams an encoder has built. */
  predicate Built(streams: seq<Stream>) {
    forall i :: 0 <= i < |streams| ==> streams[i].content.Good?
  }

  function PayloadOf(streams: seq<Stream>): (payload: seq<byte>)
    requires Built(streams)
    ensures |payload| % 8 == 0
  {
    if streams == [] then [] else Padded(streams[0].content.bytes) + PayloadOf(streams[1..])
  }

  /** Stream descriptors for streams whose payload begins at `offset`. */
  function DescribeStreams(streams: seq<Stream>, offset: nat): (ds: seq<StreamDescriptor>)
    requires Built(streams)
    ensures |ds| == |streams|
  {
    if streams == [] then []
    else
      var s := streams[0];
      var bytes := s.content.bytes;
      [StreamDescriptor(s.kind, s.transform, 0, 0, offset, |bytes|, |bytes|, s.count, Checksum(bytes))]
      + DescribeStreams(streams[1..], offset + |Padded(bytes)|)
  }

  function Flags(part: Part): nat {
    (if part.encoded.shape.implicitValidity then 1 else 0) + (if part.statistics != [] then 2 else 0)
  }

  function DescribeColumn(part: Part, firstStream: nat, statsOffset: nat): ColumnDescriptor {
    var shape := part.encoded.shape;
    ColumnDescriptor(
      part.column.id, shape.layout, Flags(part), shape.nullCount, shape.denseCount, firstStream, |part.encoded.streams|,
      if part.statistics == [] then 0 else 1, if part.statistics == [] then 0 else statsOffset, |part.statistics|)
  }

  function DescribeColumns(parts: seq<Part>, firstStream: nat, statsOffset: nat): (ds: seq<ColumnDescriptor>)
    ensures |ds| == |parts|
  {
    if parts == [] then []
    else
      [DescribeColumn(parts[0], firstStream, statsOffset)]
      + DescribeColumns(parts[1..], firstStream + |parts[0].encoded.streams|, statsOffset + |parts[0].statistics|)
  }

  function ColumnRecords(ds: seq<ColumnDescriptor>): (records: seq<seq<byte>>)
    ensures |records| == |ds| && forall i :: 0 <= i < |ds| ==> records[i] == PrintColumn(ds[i])
  {
    seq(|ds|, i requires 0 <= i < |ds| => PrintColumn(ds[i]))
  }

  function StreamRecords(ds: seq<StreamDescriptor>): (records: seq<seq<byte>>)
    ensures |records| == |ds| && forall i :: 0 <= i < |ds| ==> records[i] == PrintStream(ds[i])
  {
    seq(|ds|, i requires 0 <= i < |ds| => PrintStream(ds[i]))
  }

  function StatisticsArea(parts: seq<Part>): (area: seq<byte>)
    ensures |area| == Align8(|AllStatistics(parts)|)
  {
    var all := AllStatistics(parts);
    all + Zeros(Align8(|all|) - |all|)
  }

  function StreamTableOffset(parts: seq<Part>): nat {
    64 + |parts| * COLUMN_DESCRIPTOR_SIZE
  }

  function StatisticsOffset(parts: seq<Part>): nat {
    StreamTableOffset(parts) + |AllStreams(parts)| * STREAM_DESCRIPTOR_SIZE
  }

  function HeaderOf(schema: Schema, info: BlockInfo, parts: seq<Part>): seq<byte>
    requires Built(AllStreams(parts))
  {
    BlockHeader(schema, info, |AllStreams(parts)|, |StatisticsArea(parts)|)
    + Concat(ColumnRecords(DescribeColumns(parts, 0, StatisticsOffset(parts))))
    + Concat(StreamRecords(DescribeStreams(AllStreams(parts), 0)))
    + StatisticsArea(parts)
  }

  lemma {:induction false} PartsAreBuilt(plan: Plan, rows: seq<Row>, order: seq<nat>)
    requires plan.Valid() && ValidRows(plan.schema, rows) && |rows| < U32
    requires forall p :: 0 <= p < |order| ==> order[p] < |plan.schema.columns|
    requires EncodeParts(plan, rows, order).Ok?
    ensures Built(AllStreams(EncodeParts(plan, rows, order).value))
    decreases |order|
  {
    hide EncodePart;
    if order != [] {
      PartIsBuilt(plan, rows, order[0]);
      PartsAreBuilt(plan, rows, order[1..]);
    }
  }

  lemma PartIsBuilt(plan: Plan, rows: seq<Row>, i: nat)
    requires plan.Valid() && ValidRows(plan.schema, rows) && |rows| < U32 && i < |plan.schema.columns|
    requires EncodePart(plan, rows, i).Ok?
    ensures Built(EncodePart(plan, rows, i).value.encoded.streams)
  {
    hide EncodeColumn, SchemaFrame.Valid;
    var column := plan.schema.columns[i];
    var cells := CellsOf(plan.schema, rows, i);
    CellsAreAdmissible(plan.schema, rows, i);
    ColumnIsBuilt(column, cells, plan.choices[i].encoding, plan.choices[i].rle);
  }

  lemma ColumnIsBuilt(column: Column, cells: seq<Cell>, e: Encoding, rle: bool)
    requires Admissible(column, cells) && |cells| < U32 && EncodeColumn(column, cells, e, rle).Ok?
    ensures
      var encoded := EncodeColumn(column, cells, e, rle).value;
      && WellFormed(encoded.streams, |cells|) && |encoded.streams| <= 4 && encoded.shape.layout <= RUN_LENGTH
      && encoded.shape.nullCount + encoded.shape.denseCount == |cells|
      && (!column.nullable ==> encoded.shape.nullCount == 0)
  {
    hide Admits, EncodeDense, Present;
    PresentIsDense(column, cells);
    if !column.nullable {
      NullsNeedNullable(column, cells);
    }
    if Present(cells) != [] {
      DenseIsBuilt(column, Present(cells), e);
    }
  }

  /** What every built stream list respects, for at most `n` elements a stream. */
  predicate WellFormed(streams: seq<Stream>, n: nat) {
    && Built(streams)
    && forall j :: 0 <= j < |streams| ==>
         VALIDITY <= streams[j].kind <= RUN_LENGTHS && streams[j].transform <= BOOLEAN_RLE && streams[j].count <= n
  }

  lemma RawIsWellFormed(column: Column, cells: seq<Cell>, valuesKind: nat, lengthsKind: nat, extra: seq<Stream>, n: nat)
    requires Dense(column, cells) && |cells| <= n
    requires VALIDITY <= valuesKind <= RUN_LENGTHS && VALIDITY <= lengthsKind <= RUN_LENGTHS
    requires WellFormed(extra, n)
    ensures WellFormed(RawStreams(column, cells, valuesKind, lengthsKind) + extra, n)
    ensures |RawStreams(column, cells, valuesKind, lengthsKind)| <= 2
  {
    hide Admits, RawBytes, LengthBytes;
  }

  lemma PackedIsWellFormed(kind: nat, values: seq<nat>)
    requires VALIDITY <= kind <= RUN_LENGTHS && forall i :: 0 <= i < |values| ==> values[i] < U64
    ensures WellFormed([Packed(kind, values)], |values|)
  {
    hide Pack, MaxWidth;
  }

  lemma DictionaryIsWellFormed(column: Column, cells: seq<Cell>)
    requires Dense(column, cells) && 0 < |cells| < U32 && EncodeDictionary(column, cells).Ok?
    ensures
      var encoded := EncodeDictionary(column, cells).value;
      WellFormed(encoded.streams, |cells|) && |encoded.streams| <= 3 && encoded.layout <= RUN_LENGTH
  {
    hide Admits, RawBytes, RawStreams, Packed, DictionaryOf, Lookup, WellFormed;
    DictionaryIsDense(column, cells);
    DictionaryRoundTrip(cells);
    var d := DictionaryOf(cells);
    PackedIsWellFormed(INDICES, d.indices);
    RawIsWellFormed(column, d.values, DICTIONARY_VALUES, DICTIONARY_LENGTHS, [Packed(INDICES, d.indices)], |cells|);
  }

  lemma RunsAreWellFormed(column: Column, cells: seq<Cell>)
    requires Dense(column, cells) && 0 < |cells| < U32
    ensures
      var encoded := EncodeRuns(column, cells);
      WellFormed(encoded.streams, |cells|) && |encoded.streams| <= 3 && encoded.layout <= RUN_LENGTH
  {
    hide Admits, RawBytes, RawStreams, Packed, RunsOf, Expand, RunLengthsFit;
    RunsAreDense(column, cells);
    RunsRoundTrip(cells);
    var runs := RunsOf(cells);
    PackedIsWellFormed(RUN_LENGTHS, runs.lengths);
    RawIsWellFormed(column, runs.values, RUN_VALUES, LENGTHS, [Packed(RUN_LENGTHS, runs.lengths)], |cells|);
  }

  lemma DenseIsBuilt(column: Column, cells: seq<Cell>, e: Encoding)
    requires Dense(column, cells) && 0 < |cells| < U32 && EncodeDense(column, cells, e).Ok?
    ensures
      var encoded := EncodeDense(column, cells, e).value;
      WellFormed(encoded.streams, |cells|) && |encoded.streams| <= 3 && encoded.layout <= RUN_LENGTH
  {
    hide Admits, RawStreams, EncodeDictionary, EncodeRuns;
    match e
    case Raw =>
      RawIsWellFormed(column, cells, VALUES, LENGTHS, [], |cells|);
      assert RawStreams(column, cells, VALUES, LENGTHS) + [] == RawStreams(column, cells, VALUES, LENGTHS);
    case Constant =>
      RawIsWellFormed(column, cells[..1], VALUES, LENGTHS, [], |cells|);
      assert RawStreams(column, cells[..1], VALUES, LENGTHS) + [] == RawStreams(column, cells[..1], VALUES, LENGTHS);
    case Dictionary => DictionaryIsWellFormed(column, cells);
    case RunLength => RunsAreWellFormed(column, cells);
    case _ =>
  }

  /** Serialize rows as one block, or refuse them. */
  function EncodeBlock(plan: Plan, rows: seq<Row>, base: Option<nat>): Result<Block>
    requires plan.Valid() && ValidRows(plan.schema, rows) && rows != []
  {
    if |rows| >= U32 then Err(InvalidArgument)
    else if |rows| > DEFAULT.maxRowsPerBlock then Err(ResourceLimit)
    else
      var order := IdOrder(plan.schema.columns);
      var parts :- EncodeParts(plan, rows, order);
      PartsAreBuilt(plan, rows, order);
      var payload := PayloadOf(AllStreams(parts));
      if StatisticsOffset(parts) + |StatisticsArea(parts)| > DEFAULT.maxFrameHeaderLength then Err(ResourceLimit)
      else if |payload| > DEFAULT.maxFramePayloadLength then Err(ResourceLimit)
      else Ok(Block(HeaderOf(plan.schema, InfoOf(plan.schema, rows, base), parts), payload))
  }

  // -------------------------------------------------------------------- decoding

  /** What reading one stream of the payload comes to. */
  function StreamContent(payload: seq<byte>, d: StreamDescriptor, limits: Limits): Content {
    if d.elementCount > limits.maxRowsPerBlock then Refused(ResourceLimit)
    else if d.payloadOffset + d.storedLength > |payload| then Refused(Corruption)
    else
      var bytes := payload[d.payloadOffset..d.payloadOffset + d.storedLength];
      if Checksum(bytes) != d.crc then Damaged(|bytes|) else Good(bytes)
  }

  function StreamsOf(payload: seq<byte>, ds: seq<StreamDescriptor>, limits: Limits): (streams: seq<Stream>)
    ensures |streams| == |ds|
  {
    seq(|ds|, i requires 0 <= i < |ds| => Stream(ds[i].kind, ds[i].transform, ds[i].elementCount, StreamContent(payload, ds[i], limits)))
  }

  function DescriptorFor(columns: seq<ColumnDescriptor>, id: u32): (r: Option<ColumnDescriptor>)
    ensures r.Some? ==> r.value in columns && r.value.columnId == id
  {
    if columns == [] then None
    else if columns[0].columnId == id then Some(columns[0])
    else DescriptorFor(columns[1..], id)
  }

  /** A column of a block as its descriptors locate it. */
  datatype Stored = Stored(shape: Shape, streams: seq<Stream>, claim: Option<seq<byte>>)

  /** The statistics a descriptor claims; a range outside the header holds no pair. */
  function ClaimOf(d: ColumnDescriptor, header: seq<byte>): Option<seq<byte>> {
    if d.statsKind == 0 then None
    else if d.statsOffset + d.statsLength > |header| then Some([])
    else Some(header[d.statsOffset..d.statsOffset + d.statsLength])
  }

  function Locate(layout: BlockLayout, block: Block, column: Column, limits: Limits): Option<Stored> {
    match DescriptorFor(layout.columns, column.id)
    case None => None
    case Some(d) =>
      if d.firstStream + d.streamCount > |layout.streams| then None
      else
        Some(Stored(d.AsShape(),
                    StreamsOf(block.payload, layout.streams[d.firstStream..d.firstStream + d.streamCount], limits),
                    ClaimOf(d, block.header)))
  }

  function DecodeOne(layout: BlockLayout, block: Block, column: Column, limits: Limits): Result<seq<Cell>> {
    match Locate(layout, block, column, limits)
    case None => Err(Corruption)
    case Some(stored) =>
      var cells :- DecodeColumn(column, stored.shape, stored.streams, layout.info.rowCount);
      var confirmed :- VerifyClaim(column.logicalType, stored.claim, cells);
      Ok(cells)
  }

  function OneCharges(layout: BlockLayout, block: Block, column: Column, limits: Limits): seq<nat> {
    match Locate(layout, block, column, limits)
    case None => []
    case Some(stored) => ColumnCharges(column, stored.shape, stored.streams, layout.info.rowCount)
  }

  // ---------------------------------------------------------- selected columns

  predicate InSchema(columns: seq<Column>, selected: seq<nat>) {
    forall k :: 0 <= k < |selected| ==> selected[k] < |columns|
  }

  function DecodeSome(layout: BlockLayout, block: Block, columns: seq<Column>, limits: Limits, selected: seq<nat>)
    : (r: Result<seq<seq<Cell>>>)
    requires InSchema(columns, selected)
    ensures r.Ok? ==> |r.value| == |selected|
  {
    if selected == [] then Ok([])
    else
      var n := |selected| - 1;
      var before :- DecodeSome(layout, block, columns, limits, selected[..n]);
      var cells :- DecodeOne(layout, block, columns[selected[n]], limits);
      Ok(before + [cells])
  }

  /** The charges of the selected columns, up to the first that fails. */
  function SomeCharges(layout: BlockLayout, block: Block, columns: seq<Column>, limits: Limits, selected: seq<nat>)
    : seq<nat>
    requires InSchema(columns, selected)
  {
    if selected == [] then []
    else
      var n := |selected| - 1;
      SomeCharges(layout, block, columns, limits, selected[..n])
      + if DecodeSome(layout, block, columns, limits, selected[..n]).Ok?
        then OneCharges(layout, block, columns[selected[n]], limits) else []
  }

  const PRIMARY_VALUE_BYTES: nat := 8

  /** The primary is decoded even when it is not selected, and its values are copied to be verified. */
  function PrimaryCharges(
      layout: BlockLayout, block: Block, columns: seq<Column>, limits: Limits, selected: seq<nat>, primary: Option<nat>)
      : seq<nat>
    requires primary.Some? ==> primary.value < |columns|
  {
    if primary.None? then []
    else
      var column := columns[primary.value];
      (if Has(selected, primary.value) then [] else OneCharges(layout, block, column, limits))
      + if DecodeOne(layout, block, column, limits).Ok? then [layout.info.rowCount * PRIMARY_VALUE_BYTES] else []
  }

  /** Every charge a selected decode makes before it ends or fails. */
  function SelectedCharges(
      layout: BlockLayout, block: Block, columns: seq<Column>, limits: Limits, selected: seq<nat>, primary: Option<nat>)
      : seq<nat>
    requires InSchema(columns, selected) && (primary.Some? ==> primary.value < |columns|)
  {
    SomeCharges(layout, block, columns, limits, selected)
    + if DecodeSome(layout, block, columns, limits, selected).Ok?
      then PrimaryCharges(layout, block, columns, limits, selected, primary) else []
  }

  /** Rows from columns; a column of the wrong length cannot form a batch. */
  function Transpose(columns: seq<seq<Cell>>, rows: nat): Result<seq<Row>> {
    if exists c :: 0 <= c < |columns| && |columns[c]| != rows then Err(InvalidArgument)
    else
      Ok(seq(rows, r requires 0 <= r < rows =>
        seq(|columns|, c requires 0 <= c < |columns| => columns[c][r])))
  }

  /** A decoded block: the projected rows, and the primary values when they were decoded. */
  datatype Decoded = Decoded(rows: seq<Row>, primary: Option<seq<int>>, sorted: bool)

  /** Rebuild the selected columns and, when asked, verify the primary one. */
  function Rebuild(
      layout: BlockLayout, block: Block, columns: seq<Column>, limits: Limits, selected: seq<nat>, primary: Option<nat>)
      : Result<Decoded>
    requires InSchema(columns, selected) && (primary.Some? ==> primary.value < |columns|)
  {
    var some :- DecodeSome(layout, block, columns, limits, selected);
    if primary.None? then
      var rows :- Transpose(some, layout.info.rowCount);
      Ok(Decoded(rows, None, false))
    else
      var cells :- DecodeOne(layout, block, columns[primary.value], limits);
      var values :- VerifyPrimary(cells, layout.info);
      var rows :- Transpose(some, layout.info.rowCount);
      Ok(Decoded(rows, Some(values), layout.info.sorted))
  }

  /** The checked tables of a block whose row count a decode may materialize. */
  function DecodableLayout(block: Block, schema: Schema, rowIds: bool, expected: Option<nat>, limits: Limits)
    : Result<BlockLayout>
  {
    var layout :- ParseLayout(block.header, |block.payload|, schema, rowIds, expected, limits);
    if layout.info.rowCount > limits.maxRowsPerBlock then Err(ResourceLimit) else Ok(layout)
  }

  /** Decode selected columns of a block within the block's own memory allowance. */
  function DecodeSelected(
      block: Block, schema: Schema, rowIds: bool, expected: Option<nat>, limits: Limits, selected: seq<nat>, primary: Option<nat>)
      : Result<Decoded>
    requires InSchema(schema.columns, selected) && (primary.Some? ==> primary.value < |schema.columns|)
  {
    var layout :- DecodableLayout(block, schema, rowIds, expected, limits);
    if Sum(SelectedCharges(layout, block, schema.columns, limits, selected, primary)) > limits.maxDecodedBlockBytes
    then Err(ResourceLimit)
    else Rebuild(layout, block, schema.columns, limits, selected, primary)
  }

  function Indices(n: nat): (indices: seq<nat>)
    ensures |indices| == n && forall k :: 0 <= k < n ==> indices[k] == k
  {
    seq(n, k requires 0 <= k < n => k)
  }

  /** Decode a whole block into rows, verifying its primary column. */
  function DecodeBlock(block: Block, schema: Schema, rowIds: bool, expected: Option<nat>, limits: Limits)
    : Result<seq<Row>>
  {
    var d :- DecodeSelected(block, schema, rowIds, expected, limits, Indices(|schema.columns|), PrimaryIndex(schema));
    Ok(d.rows)
  }

  // -------------------------------------------------------------- planned charges

  /** What decoding column `i` of these rows will charge. */
  function PartCharge(plan: Plan, rows: seq<Row>, i: nat): nat
    requires plan.Valid() && ValidRows(plan.schema, rows) && |rows| < U32 && i < |plan.schema.columns|
  {
    var column := plan.schema.columns[i];
    var cells := CellsOf(plan.schema, rows, i);
    CellsAreAdmissible(plan.schema, rows, i);
    var choice := plan.choices[i];
    if EncodeColumn(column, cells, choice.encoding, choice.rle).Ok? then ColumnCharge(column, cells, choice.encoding, choice.rle)
    else 0
  }

  function ChargeUpTo(plan: Plan, rows: seq<Row>, n: nat): nat
    requires plan.Valid() && ValidRows(plan.schema, rows) && |rows| < U32 && n <= |plan.schema.columns|
  {
    if n == 0 then 0 else ChargeUpTo(plan, rows, n - 1) + PartCharge(plan, rows, n - 1)
  }

  /** What a full read of a block of these rows will charge, known before the block is written. */
  function BlockCharge(plan: Plan, rows: seq<Row>): nat
    requires plan.Valid() && ValidRows(plan.schema, rows) && |rows| < U32
  {
    ChargeUpTo(plan, rows, |plan.schema.columns|)
    + if PrimaryIndex(plan.schema).Some? then |rows| * PRIMARY_VALUE_BYTES else 0
  }

  /** Whether a reader with these limits can afford to read the block. */
  predicate Affordable(plan: Plan, rows: seq<Row>, limits: Limits)
    requires plan.Valid() && ValidRows(plan.schema, rows) && |rows| < U32
  {
    BlockCharge(plan, rows) <= limits.maxDecodedBlockBytes
  }
}
