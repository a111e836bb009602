/** Rows of logical values, and what each logical type stores for one value. */
module Rows {
  import opened Core
  import opened Bytes
  import opened Schema

  /** One logical value: a null, a boolean, an integer (or float bits), or bytes. */
  datatype Cell = Null | Flag(on: bool) | Number(value: int) | Blob(bytes: seq<byte>)

  type Row = seq<Cell>

  /** How a logical type stores its dense values. */
  datatype Storage =
    | Bitmap
    | Integer(width: nat, signed: bool)
    | FixedBytes(width: nat)
    | VariableBytes

  function StorageOf(t: LogicalType): Storage {
    match t
    case Bool => Bitmap
    case Int8 => Integer(1, true)
    case Int16 => Integer(2, true)
    case Int32 => Integer(4, true)
    case Int64 => Integer(8, true)
    case UInt8 => Integer(1, false)
    case UInt16 => Integer(2, false)
    case UInt32 => Integer(4, false)
    case UInt64 => Integer(8, false)
    case Float32 => Integer(4, false)
    case Float64 => Integer(8, false)
    case Decimal(_, _) => Integer(8, true)
    case Timestamp(_, _) => Integer(8, true)
    case Utf8 => VariableBytes
    case Categorical(_) => VariableBytes
    case Binary => VariableBytes
    case FixedBinary(byteWidth) => FixedBytes(byteWidth)
    case Date32 => Integer(4, true)
  }

  predicate IsText(t: LogicalType) {
    t.Utf8? || t.Categorical?
  }

  /** The values an integer storage can hold. */
  predicate InRange(value: int, width: nat, signed: bool) {
    if signed then -2 * value <= Range(width) && 2 * value < Range(width) else 0 <= value < Range(width)
  }

  /** Whether a batch may carry this value in this column. */
  predicate Admits(column: Column, cell: Cell) {
    match cell
    case Null => column.nullable
    case Flag(_) => column.logicalType.Bool?
    case Number(value) =>
      var storage := StorageOf(column.logicalType);
      storage.Integer? && InRange(value, storage.width, storage.signed)
    case Blob(bytes) =>
      var storage := StorageOf(column.logicalType);
      || (storage.FixedBytes? && |bytes| == storage.width)
      || (storage.VariableBytes? && |bytes| < U32 && (IsText(column.logicalType) ==> ValidUtf8(bytes)))
  }

  predicate ValidRow(schema: Schema, row: Row) {
    |row| == |schema.columns| && forall i :: 0 <= i < |row| ==> Admits(schema.columns[i], row[i])
  }

  predicate ValidRows(schema: Schema, rows: seq<Row>) {
    forall r :: 0 <= r < |rows| ==> ValidRow(schema, rows[r])
  }
}
