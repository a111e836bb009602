/** Schema metadata: column types, columns and the primary-column selection. */
module Schema {
  import opened Core
  import opened Bytes

  predicate Continuation(b: byte) {
    0x80 <= b <= 0xBF
  }

  /** The bytes after the lead byte of one well-formed scalar value, or None. */
  function ScalarLength(s: seq<byte>): (n: nat)
    requires s != []
    ensures n <= |s|
  {
    var b := s[0];
    if b < 0x80 then 1
    else if 0xC2 <= b <= 0xDF && |s| >= 2 && Continuation(s[1]) then 2
    else if 0xE0 <= b <= 0xEF && |s| >= 3 && Continuation(s[1]) && Continuation(s[2])
      && (b == 0xE0 ==> s[1] >= 0xA0) && (b == 0xED ==> s[1] <= 0x9F) then 3
    else if 0xF0 <= b <= 0xF4 && |s| >= 4 && Continuation(s[1]) && Continuation(s[2]) && Continuation(s[3])
      && (b == 0xF0 ==> s[1] >= 0x90) && (b == 0xF4 ==> s[1] <= 0x8F) then 4
    else 0
  }

  /** Well-formed UTF-8, as section 3.9 of the Unicode standard tabulates it. */
  predicate ValidUtf8(s: seq<byte>) {
    s == [] || (ScalarLength(s) > 0 && ValidUtf8(s[ScalarLength(s)..]))
  }

  type Text = s: seq<byte> | ValidUtf8(s)

  datatype TimeUnit = Second | Millisecond | Microsecond | Nanosecond

  datatype TimeZone = Naive | Utc | Iana(name: Text)

  type i16 = x: int | -0x8000 <= x < 0x8000

  datatype LogicalType =
    | Bool
    | Int8 | Int16 | Int32 | Int64
    | UInt8 | UInt16 | UInt32 | UInt64
    | Float32 | Float64
    | Decimal(precision: u16, scale: i16)
    | Timestamp(unit: TimeUnit, timezone: TimeZone)
    | Utf8
    | Categorical(ordered: bool)
    | Binary
    | FixedBinary(byteWidth: u32)
    | Date32

  datatype Column = Column(id: u32, name: Text, logicalType: LogicalType, nullable: bool) {
    predicate PrimaryCandidate() {
      !nullable && (logicalType.Timestamp? || logicalType.Date32?)
    }
  }

  datatype Schema = Schema(schemaId: u64, columns: seq<Column>, primaryColumnId: Option<u32>)

  /** The first column with this ID. */
  function ColumnById(columns: seq<Column>, id: u32): Option<Column> {
    if columns == [] then None
    else if columns[0].id == id then Some(columns[0])
    else ColumnById(columns[1..], id)
  }
}
