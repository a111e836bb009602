/** Printing a schema as a schema frame's header and payload, and parsing it back. */
module SchemaFrame {
  import opened Core
  import opened Bytes
  import opened Limits
  import opened Schema

  const DESCRIPTOR_SIZE: nat := 24

  // ------------------------------------------------------------------ printing

  function UnitCode(unit: TimeUnit): byte {
    match unit
    case Second => 0
    case Millisecond => 1
    case Microsecond => 2
    case Nanosecond => 3
  }

  function ModeCode(timezone: TimeZone): byte {
    match timezone
    case Naive => 0
    case Utc => 1
    case Iana(_) => 2
  }

  function ZoneName(timezone: TimeZone): Text {
    match timezone
    case Iana(name) => name
    case _ => []
  }

  /** A signed 16-bit value as its two's-complement bits. */
  function ScaleBits(scale: i16): u16 {
    if scale < 0 then scale + U16 else scale
  }

  function TypeId(t: LogicalType): u16 {
    match t
    case Bool => 1
    case Int8 => 2
    case Int16 => 3
    case Int32 => 4
    case Int64 => 5
    case UInt8 => 6
    case UInt16 => 7
    case UInt32 => 8
    case UInt64 => 9
    case Float32 => 10
    case Float64 => 11
    case Decimal(_, _) => 12
    case Timestamp(_, _) => 13
    case Utf8 => 14
    case Categorical(_) => 15
    case Binary => 16
    case FixedBinary(_) => 17
    case Date32 => 18
  }

  function PadTo8(bytes: seq<byte>): (r: seq<byte>)
    ensures |r| == Align8(|bytes|)
  {
    bytes + Zeros(Align8(|bytes|) - |bytes|)
  }

  /** The type-parameter record, or the refusal of parameters no reader would accept. */
  function TypeParameters(t: LogicalType): Result<seq<byte>> {
    match t
    case Decimal(precision, scale) =>
      if 1 <= precision <= 18 then Ok(Le(precision, 2) + Le(ScaleBits(scale), 2) + Le(0, 4))
      else Err(InvalidArgument)
    case Timestamp(unit, timezone) =>
      var name := ZoneName(timezone);
      if timezone.Iana? && name == [] then Err(InvalidArgument)
      else if |name| >= U32 then Err(InvalidArgument)
      else Ok(PadTo8([UnitCode(unit), ModeCode(timezone), 0, 0] + Le(|name|, 4) + name))
    case Categorical(ordered) => Ok([if ordered then 1 else 0] + Zeros(7))
    case FixedBinary(byteWidth) =>
      if byteWidth == 0 then Err(InvalidArgument) else Ok(Le(byteWidth, 4) + Le(0, 4))
    case _ => Ok([])
  }

  /** The fixed part of a descriptor. */
  function DescriptorFields(length: nat, id: nat, typeId: nat, flags: nat, nameLength: nat, parametersLength: nat): (bytes: seq<byte>)
    ensures |bytes| == DESCRIPTOR_SIZE
  {
    Le(length, 4) + Le(id, 4) + Le(typeId, 2) + Le(flags, 2) + Le(nameLength, 4) + Le(parametersLength, 4) + Le(0, 4)
  }

  /** One column descriptor, padded to the frame alignment. */
  function Descriptor(column: Column): Result<seq<byte>> {
    var parameters :- TypeParameters(column.logicalType);
    if |parameters| > DEFAULT.maxSchemaFieldLength then Err(ResourceLimit)
    else
      var content := DESCRIPTOR_SIZE + |column.name| + |parameters|;
      if Align8(content) >= U32 then Err(InvalidArgument)
      else
        Ok(DescriptorFields(Align8(content), column.id, TypeId(column.logicalType), if column.nullable then 1 else 0,
                            |column.name|, |parameters|)
           + (column.name + parameters + Zeros(Align8(content) - content)))
  }

  function Descriptors(columns: seq<Column>): Result<seq<byte>> {
    if columns == [] then Ok([])
    else
      var first :- Descriptor(columns[0]);
      var rest :- Descriptors(columns[1..]);
      Ok(first + rest)
  }

  function Header(schema: Schema): (bytes: seq<byte>)
    ensures |bytes| == 24
  {
    Le(schema.schemaId, 8) + Le(|schema.columns|, 4)
    + Le(match schema.primaryColumnId case Some(id) => id case None => 0, 4) + Le(0, 4) + Le(0, 4)
  }

  /** The header and payload of the schema frame. */
  function Print(schema: Schema): Result<(seq<byte>, seq<byte>)> {
    if |schema.columns| >= U32 then Err(InvalidArgument)
    else
      var payload :- Descriptors(schema.columns);
      if |payload| > DEFAULT.maxFramePayloadLength then Err(ResourceLimit)
      else Ok((Header(schema), payload))
  }

  // ------------------------------------------------------------------- parsing

  function ParseUnit(code: byte): Result<TimeUnit> {
    match code
    case 0 => Ok(Second)
    case 1 => Ok(Millisecond)
    case 2 => Ok(Microsecond)
    case 3 => Ok(Nanosecond)
    case _ => Err(Corruption)
  }

  function ParseTimestamp(parameters: seq<byte>): Result<LogicalType> {
    if |parameters| < 8 then Err(Corruption)
    else
      var unit :- ParseUnit(parameters[0]);
      var mode := parameters[1];
      var nameLength := Field(parameters, 4, 4);
      if Align8(8 + nameLength) != |parameters| then Err(Corruption)
      else
        var name := parameters[8..8 + nameLength];
        if mode == 0 && nameLength == 0 then Ok(Timestamp(unit, Naive))
        else if mode == 1 && nameLength == 0 then Ok(Timestamp(unit, Utc))
        else if mode == 2 && nameLength != 0 && ValidUtf8(name) then Ok(Timestamp(unit, Iana(name)))
        else Err(Corruption)
  }

  function ParseDecimal(parameters: seq<byte>): Result<LogicalType> {
    if |parameters| != 8 then Err(Corruption)
    else
      var precision := U16At(parameters, 0);
      var bits := U16At(parameters, 2);
      if 1 <= precision <= 18 then
        Ok(Decimal(precision, if bits < 0x8000 then bits else bits - U16))
      else Err(Corruption)
  }

  function ParseCategorical(parameters: seq<byte>): Result<LogicalType> {
    if |parameters| == 8 && parameters[0] <= 1 then Ok(Categorical(parameters[0] != 0)) else Err(Corruption)
  }

  function ParseFixedBinary(parameters: seq<byte>): Result<LogicalType> {
    if |parameters| == 8 && U32At(parameters, 0) != 0 then Ok(FixedBinary(U32At(parameters, 0)))
    else Err(Corruption)
  }

  function NoParameters(parameters: seq<byte>, t: LogicalType): Result<LogicalType> {
    if parameters == [] then Ok(t) else Err(Corruption)
  }

  function ParseType(typeId: nat, parameters: seq<byte>): Result<LogicalType> {
    match typeId
    case 1 => NoParameters(parameters, Bool)
    case 2 => NoParameters(parameters, Int8)
    case 3 => NoParameters(parameters, Int16)
    case 4 => NoParameters(parameters, Int32)
    case 5 => NoParameters(parameters, Int64)
    case 6 => NoParameters(parameters, UInt8)
    case 7 => NoParameters(parameters, UInt16)
    case 8 => NoParameters(parameters, UInt32)
    case 9 => NoParameters(parameters, UInt64)
    case 10 => NoParameters(parameters, Float32)
    case 11 => NoParameters(parameters, Float64)
    case 12 => ParseDecimal(parameters)
    case 13 => ParseTimestamp(parameters)
    case 14 => NoParameters(parameters, Utf8)
    case 15 => ParseCategorical(parameters)
    case 16 => NoParameters(parameters, Binary)
    case 17 => ParseFixedBinary(parameters)
    case 18 => NoParameters(parameters, Date32)
    case _ => Err(UnsupportedFrame)
  }

  /** The column that begins `rest`, and how many payload bytes its descriptor takes. */
  function ParseDescriptor(rest: seq<byte>, limits: Limits): Result<(Column, nat)> {
    if |rest| < DESCRIPTOR_SIZE then Err(Corruption)
    else
      var length := Field(rest, 0, 4);
      var flags := Field(rest, 10, 2);
      var nameLength := Field(rest, 12, 4);
      var parametersLength := Field(rest, 16, 4);
      if length < DESCRIPTOR_SIZE || length % 8 != 0 || length > |rest| || flags > 1
         || DESCRIPTOR_SIZE + nameLength + parametersLength > length then Err(Corruption)
      else if nameLength > limits.maxSchemaFieldLength || parametersLength > limits.maxSchemaFieldLength then
        Err(ResourceLimit)
      else
        var nameEnd := DESCRIPTOR_SIZE + nameLength;
        var name := rest[DESCRIPTOR_SIZE..nameEnd];
        if !ValidUtf8(name) then Err(Corruption)
        else
          var logicalType :- ParseType(Field(rest, 8, 2), rest[nameEnd..nameEnd + parametersLength]);
          Ok((Column(U32At(rest, 4), name, logicalType, flags == 1), length))
  }

  function Ids(columns: seq<Column>): set<u32> {
    set c | c in columns :: c.id
  }

  function Names(columns: seq<Column>): set<Text> {
    set c | c in columns :: c.name
  }

  /** Whether a column may join the columns already accepted. */
  predicate Joins(columns: seq<Column>, column: Column) {
    column.id != 0 && column.id !in Ids(columns) && column.name !in Names(columns)
  }

  /** Read `count` more descriptors from `position`; they must fill the payload exactly. */
  function ReadColumns(payload: seq<byte>, position: nat, count: nat, columns: seq<Column>, limits: Limits)
    : Result<seq<Column>>
    requires position <= |payload|
    decreases count
  {
    if count == 0 then (if position == |payload| then Ok(columns) else Err(Corruption))
    else
      var (column, length) :- ParseDescriptor(payload[position..], limits);
      if position + length > |payload| || !Joins(columns, column) then Err(Corruption)
      else ReadColumns(payload, position + length, count - 1, columns + [column], limits)
  }

  function ResolvePrimary(columns: seq<Column>, primaryId: u32): Result<Option<u32>> {
    if primaryId == 0 then Ok(None)
    else
      match ColumnById(columns, primaryId)
      case Some(column) => if column.PrimaryCandidate() then Ok(Some(primaryId)) else Err(Corruption)
      case None => Err(Corruption)
  }

  function Parse(header: seq<byte>, payload: seq<byte>, limits: Limits): Result<Schema> {
    if |header| != 24 then Err(Corruption)
    else
      var schemaId := U64At(header, 0);
      var count := Field(header, 8, 4);
      var _ :- Check(schemaId != 0 && count != 0 && Field(header, 16, 4) == 0, Corruption);
      var _ :- Check(count <= limits.maxSchemaColumns, ResourceLimit);
      var _ :- Check(count <= |payload| / DESCRIPTOR_SIZE, Corruption);
      var columns :- ReadColumns(payload, 0, count, [], limits);
      var primary :- ResolvePrimary(columns, U32At(header, 12));
      Ok(Schema(schemaId, columns, primary))
  }

  // ---------------------------------------------------------------- validation

  predicate Distinct(columns: seq<Column>) {
    forall i, j :: 0 <= i < j < |columns| ==> columns[i].id != columns[j].id && columns[i].name != columns[j].name
  }

  /** What the writer demands of a schema before it creates a file. */
  predicate Valid(schema: Schema) {
    && schema.schemaId != 0
    && 0 < |schema.columns| <= DEFAULT.maxSchemaColumns
    && Distinct(schema.columns)
    && (forall c :: c in schema.columns ==>
          c.id != 0 && TypeParameters(c.logicalType).Ok? && |c.name| <= DEFAULT.maxSchemaFieldLength)
    && (schema.primaryColumnId.Some? ==>
          var column := ColumnById(schema.columns, schema.primaryColumnId.value);
          column.Some? && column.value.PrimaryCandidate())
  }

  // ---------------------------------------------------------------- round trip

  lemma TimestampRoundTrip(unit: TimeUnit, timezone: TimeZone)
    requires TypeParameters(Timestamp(unit, timezone)).Ok?
    ensures ParseTimestamp(TypeParameters(Timestamp(unit, timezone)).value) == Ok(Timestamp(unit, timezone))
  {
    hide Le, FromLe, ValidUtf8;
    var name := ZoneName(timezone);
    var p := TypeParameters(Timestamp(unit, timezone)).value;
    Ranges();
    LeRoundTrip(|name|, 4);
    assert p[4..8] == Le(|name|, 4) && p[8..8 + |name|] == name;
    assert p[0] == UnitCode(unit) && p[1] == ModeCode(timezone);
  }

  lemma TypeRoundTrip(t: LogicalType)
    requires TypeParameters(t).Ok?
    ensures ParseType(TypeId(t), TypeParameters(t).value) == Ok(t)
  {
    hide Le, FromLe;
    Ranges();
    var p := TypeParameters(t).value;
    match t
    case Decimal(precision, scale) =>
      LeRoundTrip(precision, 2);
      LeRoundTrip(ScaleBits(scale), 2);
      assert p[0..2] == Le(precision, 2) && p[2..4] == Le(ScaleBits(scale), 2);
    case Timestamp(unit, timezone) =>
      TimestampRoundTrip(unit, timezone);
    case FixedBinary(byteWidth) =>
      LeRoundTrip(byteWidth, 4);
      assert p[0..4] == Le(byteWidth, 4);
    case _ =>
  }

  lemma FieldBefore(fields: seq<byte>, rest: seq<byte>, offset: nat, width: nat, n: nat)
    requires offset + width <= |fields| && fields[offset..offset + width] == Le(n, width) && n < Range(width)
    ensures Field(fields + rest, offset, width) == n
  {
    hide Le, Range;
    SliceBefore(fields, rest, offset, offset + width);
    LeRoundTrip(n, width);
  }

  /** Every fixed field of a descriptor reads back, whatever follows. */
  lemma FieldsRead(length: nat, id: nat, typeId: nat, flags: nat, nameLength: nat, parametersLength: nat, rest: seq<byte>)
    requires length < U32 && id < U32 && typeId < U16 && flags < U16 && nameLength < U32 && parametersLength < U32
    ensures
      var all := DescriptorFields(length, id, typeId, flags, nameLength, parametersLength) + rest;
      && Field(all, 0, 4) == length && Field(all, 4, 4) == id && Field(all, 8, 2) == typeId && Field(all, 10, 2) == flags
      && Field(all, 12, 4) == nameLength && Field(all, 16, 4) == parametersLength
  {
    hide Le, Field, Range;
    Ranges();
    var fields := DescriptorFields(length, id, typeId, flags, nameLength, parametersLength);
    var x1 := Le(length, 4);
    var x2 := x1 + Le(id, 4);
    var x3 := x2 + Le(typeId, 2);
    var x4 := x3 + Le(flags, 2);
    var x5 := x4 + Le(nameLength, 4);
    var x6 := x5 + Le(parametersLength, 4);
    assert fields[..24] == fields == x6 + Le(0, 4);
    Peel(fields, x6, Le(0, 4));
    Peel(fields, x5, Le(parametersLength, 4));
    Peel(fields, x4, Le(nameLength, 4));
    Peel(fields, x3, Le(flags, 2));
    Peel(fields, x2, Le(typeId, 2));
    Peel(fields, x1, Le(id, 4));
    assert fields[0..4] == fields[..4];
    FieldBefore(fields, rest, 0, 4, length);
    FieldBefore(fields, rest, 4, 4, id);
    FieldBefore(fields, rest, 8, 2, typeId);
    FieldBefore(fields, rest, 10, 2, flags);
    FieldBefore(fields, rest, 12, 4, nameLength);
    FieldBefore(fields, rest, 16, 4, parametersLength);
  }

  /** The name and the parameters follow the fixed part. */
  lemma TailRead(fields: seq<byte>, name: seq<byte>, parameters: seq<byte>, padding: seq<byte>, suffix: seq<byte>)
    ensures
      var all := fields + (name + parameters + padding) + suffix;
      && all[|fields|..|fields| + |name|] == name
      && all[|fields| + |name|..|fields| + |name| + |parameters|] == parameters
      && all == fields + (name + parameters + padding + suffix)
  {
    var tail := name + parameters + padding;
    SliceAfter(fields, tail, 0, |name|);
    SliceAfter(fields, tail, |name|, |name| + |parameters|);
    SliceBefore(fields + tail, suffix, |fields|, |fields| + |name|);
    SliceBefore(fields + tail, suffix, |fields| + |name|, |fields| + |name| + |parameters|);
    Peel(tail, name + parameters, padding);
    Peel(tail, name, parameters);
    assert tail[0..|name|] == tail[..|name|];
  }

  lemma DescriptorRoundTrip(column: Column, suffix: seq<byte>, limits: Limits)
    requires Generous(limits) && Descriptor(column).Ok? && |column.name| <= DEFAULT.maxSchemaFieldLength
    ensures
      var bytes := Descriptor(column).value;
      ParseDescriptor(bytes + suffix, limits) == Ok((column, |bytes|)) && |bytes| >= DESCRIPTOR_SIZE
  {
    hide Field, ParseType, TypeParameters, TypeId, ValidUtf8, DescriptorFields, Zeros;
    var parameters := TypeParameters(column.logicalType).value;
    var content := DESCRIPTOR_SIZE + |column.name| + |parameters|;
    var flags := if column.nullable then 1 else 0;
    var typeId := TypeId(column.logicalType);
    var padding := Zeros(Align8(content) - content);
    var fields := DescriptorFields(Align8(content), column.id, typeId, flags, |column.name|, |parameters|);
    TailRead(fields, column.name, parameters, padding, suffix);
    FieldsRead(Align8(content), column.id, typeId, flags, |column.name|, |parameters|, column.name + parameters + padding + suffix);
    TypeRoundTrip(column.logicalType);
  }

  lemma DistinctColumnJoins(columns: seq<Column>, k: nat)
    requires k < |columns| && Distinct(columns) && columns[k].id != 0
    ensures Joins(columns[..k], columns[k])
  {
    forall c | c in columns[..k] ensures c.id != columns[k].id && c.name != columns[k].name {
      var i :| 0 <= i < k && columns[..k][i] == c;
      assert columns[i] == c;
    }
  }

  lemma {:induction false} ColumnsRoundTrip(columns: seq<Column>, k: nat, payload: seq<byte>, position: nat, limits: Limits)
    requires Generous(limits) && k <= |columns| && Distinct(columns)
    requires forall c :: c in columns ==> c.id != 0 && |c.name| <= DEFAULT.maxSchemaFieldLength
    requires Descriptors(columns[k..]).Ok? && position <= |payload|
    requires payload[position..] == Descriptors(columns[k..]).value
    ensures ReadColumns(payload, position, |columns| - k, columns[..k], limits) == Ok(columns)
    ensures |payload| - position >= DESCRIPTOR_SIZE * (|columns| - k)
    decreases |columns| - k
  {
    hide ParseDescriptor, Descriptor, Joins;
    if k == |columns| {
      assert columns[..k] == columns && columns[k..] == [];
    } else {
      var column := columns[k];
      assert columns[k..][0] == column && columns[k..][1..] == columns[k + 1..];
      var first := Descriptor(column).value;
      var rest := Descriptors(columns[k + 1..]).value;
      DescriptorRoundTrip(column, rest, limits);
      assert payload[position..] == first + rest;
      assert payload[position + |first|..] == payload[position..][|first|..] == rest;
      DistinctColumnJoins(columns, k);
      assert columns[..k] + [column] == columns[..k + 1];
      ColumnsRoundTrip(columns, k + 1, payload, position + |first|, limits);
    }
  }

  /** A schema the writer accepts parses back from its own frame as the same schema. */
  lemma SchemaRoundTrip(schema: Schema, limits: Limits)
    requires Generous(limits) && Valid(schema) && Print(schema).Ok?
    ensures
      var (header, payload) := Print(schema).value;
      Parse(header, payload, limits) == Ok(schema)
  {
    hide Le, FromLe, ReadColumns, Descriptors;
    var (h, payload) := Print(schema).value;
    var primaryId := match schema.primaryColumnId case Some(id) => id case None => 0;
    Ranges();
    LeRoundTrip(schema.schemaId, 8);
    LeRoundTrip(|schema.columns|, 4);
    LeRoundTrip(primaryId, 4);
    LeRoundTrip(0, 4);
    var x1 := Le(schema.schemaId, 8);
    var x2 := x1 + Le(|schema.columns|, 4);
    var x3 := x2 + Le(primaryId, 4);
    var x4 := x3 + Le(0, 4);
    assert h[..24] == h == x4 + Le(0, 4);
    Peel(h, x4, Le(0, 4));
    Peel(h, x3, Le(0, 4));
    Peel(h, x2, Le(primaryId, 4));
    Peel(h, x1, Le(|schema.columns|, 4));
    assert schema.columns[0..] == schema.columns && payload[0..] == payload && schema.columns[..0] == [];
    ColumnsRoundTrip(schema.columns, 0, payload, 0, limits);
    if schema.primaryColumnId.Some? {
      PrimaryIdNonzero(schema);
    }
  }

  lemma PrimaryIdNonzero(schema: Schema)
    requires Valid(schema) && schema.primaryColumnId.Some?
    ensures schema.primaryColumnId.value != 0
  {
    ColumnByIdFound(schema.columns, schema.primaryColumnId.value);
  }

  lemma {:induction false} ColumnByIdFound(columns: seq<Column>, id: u32)
    requires ColumnById(columns, id).Some?
    ensures ColumnById(columns, id).value in columns && ColumnById(columns, id).value.id == id
  {
    if columns[0].id != id {
      ColumnByIdFound(columns[1..], id);
    }
  }
}
