/**
 * One column of a block: the physical streams each encoding stores for its dense values, and
 * how a reader rebuilds logical values from whichever layout and transforms it finds.
 */
module ColumnCodec {
  import opened Core
  import opened Bytes
  import opened Limits
  import opened Schema
  import opened Rows
  import opened Layouts
  import opened Packing
  import Integers
  import Booleans

  const VALIDITY: nat := 1
  const VALUES: nat := 2
  const LENGTHS: nat := 3
  const DICTIONARY_VALUES: nat := 4
  const DICTIONARY_LENGTHS: nat := 5
  const INDICES: nat := 6
  const RUN_VALUES: nat := 7
  const RUN_LENGTHS: nat := 8

  const PLAIN: nat := 0
  const CONSTANT: nat := 1
  const DICTIONARY: nat := 2
  const RUN_LENGTH: nat := 3

  const RAW: nat := 0
  const BIT_PACKED: nat := 1
  const FRAME_OF_REFERENCE: nat := 2
  const DELTA: nat := 3
  const DELTA_OF_DELTA: nat := 4
  const BYTE_STREAM_SPLIT: nat := 5
  const BOOLEAN_RLE: nat := 6

  const DISTINCT_VALUE_LIMIT: nat := 4096
  const DISTINCT_BYTE_LIMIT: nat := 0x10_0000

  /**
   * What reading a stored stream comes to: its bytes, a refusal before any byte is read, or
   * stored bytes that do not match their checksum.
   */
  datatype Content = Good(bytes: seq<byte>) | Refused(kind: ErrorKind) | Damaged(length: nat)

  /** One physical stream. */
  datatype Stream = Stream(kind: nat, transform: nat, count: nat, content: Content) {
    /** The stored bytes, or why they cannot be used. */
    function Bytes(): Result<seq<byte>> {
      match content
      case Good(bytes) => Ok(bytes)
      case Refused(kind) => Err(kind)
      case Damaged(_) => Err(Corruption)
    }

    /** Stored bytes are paid for before their checksum is known. */
    function ReadCharges(): seq<nat> {
      match content
      case Good(bytes) => [|bytes|]
      case Refused(_) => []
      case Damaged(length) => [length]
    }
  }

  datatype Encoding =
    | Raw | BitPacked | BooleanRle | FrameOfReference | Delta | DeltaOfDelta | ByteStreamSplit
    | Constant | Dictionary | RunLength

  datatype Encoded = Encoded(layout: nat, streams: seq<Stream>)

  predicate IsFloat(t: LogicalType) {
    t.Float32? || t.Float64?
  }

  /** Present values a column admits. */
  predicate Dense(column: Column, cells: seq<Cell>) {
    forall i :: 0 <= i < |cells| ==> !cells[i].Null? && Admits(column, cells[i])
  }

  // --------------------------------------------------------- cells and raw values

  predicate AllFlags(cells: seq<Cell>) {
    forall i :: 0 <= i < |cells| ==> cells[i].Flag?
  }

  predicate AllNumbers(cells: seq<Cell>) {
    forall i :: 0 <= i < |cells| ==> cells[i].Number?
  }

  predicate AllBlobs(cells: seq<Cell>) {
    forall i :: 0 <= i < |cells| ==> cells[i].Blob?
  }

  function FlagsOf(cells: seq<Cell>): (flags: seq<bool>)
    requires AllFlags(cells)
    ensures |flags| == |cells|
  {
    seq(|cells|, i requires 0 <= i < |cells| => cells[i].on)
  }

  function NumbersOf(cells: seq<Cell>): (numbers: seq<int>)
    requires AllNumbers(cells)
    ensures |numbers| == |cells|
    ensures forall i :: 0 <= i < |cells| ==> numbers[i] == cells[i].value
  {
    seq(|cells|, i requires 0 <= i < |cells| => cells[i].value)
  }

  function BlobsOf(cells: seq<Cell>): (blobs: seq<seq<byte>>)
    requires AllBlobs(cells)
    ensures |blobs| == |cells|
    ensures forall i :: 0 <= i < |cells| ==> blobs[i] == cells[i].bytes
  {
    seq(|cells|, i requires 0 <= i < |cells| => cells[i].bytes)
  }

  function FlagCells(flags: seq<bool>): (cells: seq<Cell>)
    ensures |cells| == |flags|
  {
    seq(|flags|, i requires 0 <= i < |flags| => Flag(flags[i]))
  }

  function NumberCells(numbers: seq<int>): (cells: seq<Cell>)
    ensures |cells| == |numbers|
  {
    seq(|numbers|, i requires 0 <= i < |numbers| => Number(numbers[i]))
  }

  function BlobCells(blobs: seq<seq<byte>>): (cells: seq<Cell>)
    ensures |cells| == |blobs|
  {
    seq(|blobs|, i requires 0 <= i < |blobs| => Blob(blobs[i]))
  }

  /** Dense cells have the shape their column's storage needs. */
  lemma DenseShape(column: Column, cells: seq<Cell>)
    requires Dense(column, cells)
    ensures
      match StorageOf(column.logicalType)
      case Bitmap => AllFlags(cells) && FlagCells(FlagsOf(cells)) == cells
      case Integer(width, signed) =>
        && AllNumbers(cells)
        && Integers.AllInRange(NumbersOf(cells), width, signed)
        && NumberCells(NumbersOf(cells)) == cells
      case FixedBytes(width) =>
        && AllBlobs(cells)
        && (forall i :: 0 <= i < |cells| ==> |BlobsOf(cells)[i]| == width)
        && BlobCells(BlobsOf(cells)) == cells
      case VariableBytes =>
        && AllBlobs(cells)
        && (forall i :: 0 <= i < |cells| ==> |BlobsOf(cells)[i]| < U32)
        && BlobCells(BlobsOf(cells)) == cells
  {
    hide ValidUtf8;
    var storage := StorageOf(column.logicalType);
    forall i | 0 <= i < |cells| ensures storage.Bitmap? <==> cells[i].Flag?
      ensures storage.Integer? <==> cells[i].Number?
      ensures storage.FixedBytes? || storage.VariableBytes? <==> cells[i].Blob?
    {
      assert Admits(column, cells[i]);
    }
  }

  /** The raw transform of dense values: bitmap, little-endian values, or concatenated bytes. */
  function RawBytes(column: Column, cells: seq<Cell>): seq<byte>
    requires Dense(column, cells)
  {
    DenseShape(column, cells);
    match StorageOf(column.logicalType)
    case Bitmap => PackBits(FlagsOf(cells))
    case Integer(width, _) => Integers.EncodeRaw(NumbersOf(cells), width)
    case FixedBytes(_) => Concat(BlobsOf(cells))
    case VariableBytes => Concat(BlobsOf(cells))
  }

  function LengthBytes(lengths: seq<nat>): (bytes: seq<byte>)
    ensures |bytes| == 4 * |lengths|
  {
    Integers.EncodeRaw(lengths, 4)
  }

  /** Values under the raw transform, with their lengths when the type is variable-width. */
  function RawStreams(column: Column, cells: seq<Cell>, valuesKind: nat, lengthsKind: nat): seq<Stream>
    requires Dense(column, cells)
  {
    DenseShape(column, cells);
    [Stream(valuesKind, RAW, |cells|, Good(RawBytes(column, cells)))]
    + if StorageOf(column.logicalType).VariableBytes?
      then [Stream(lengthsKind, RAW, |cells|, Good(LengthBytes(Lengths(BlobsOf(cells)))))]
      else []
  }

  // -------------------------------------------------------------------- encoding

  /** The transforms and layouts the writer offers for a type. */
  predicate Supports(t: LogicalType, e: Encoding) {
    match e
    case Raw => true
    case BooleanRle => t.Bool?
    case Constant => !t.Timestamp?
    case BitPacked => t.Bool? || (StorageOf(t).Integer? && !IsFloat(t) && !t.Timestamp?)
    case FrameOfReference => StorageOf(t).Integer? && !IsFloat(t)
    case Delta => StorageOf(t).Integer? && !IsFloat(t)
    case DeltaOfDelta => StorageOf(t).Integer? && !IsFloat(t)
    case ByteStreamSplit => IsFloat(t) || t.FixedBinary?
    case Dictionary => !t.Bool? && !t.Timestamp?
    case RunLength => !t.Bool? && !t.Timestamp?
  }

  function Packed(kind: nat, values: seq<nat>): Stream
    requires forall i :: 0 <= i < |values| ==> values[i] < U64
  {
    Integers.U64Widths(values);
    Stream(kind, BIT_PACKED, |values|, Good(Pack(MaxWidth(values), values)))
  }

  function One(transform: nat, count: nat, bytes: seq<byte>): Encoded {
    Encoded(PLAIN, [Stream(VALUES, transform, count, Good(bytes))])
  }

  function EncodeNumeric(column: Column, cells: seq<Cell>, e: Encoding): Result<Encoded>
    requires Dense(column, cells) && StorageOf(column.logicalType).Integer?
  {
    DenseShape(column, cells);
    var width := StorageOf(column.logicalType).width;
    var numbers := NumbersOf(cells);
    match e
    case BitPacked =>
      var bytes :- Integers.EncodePacked(numbers);
      Ok(One(BIT_PACKED, |cells|, bytes))
    case FrameOfReference =>
      var bytes :- Integers.EncodeFrameOfReference(numbers, width);
      Ok(One(FRAME_OF_REFERENCE, |cells|, bytes))
    case Delta =>
      var bytes :- Integers.EncodeDelta(numbers, width);
      Ok(One(DELTA, |cells|, bytes))
    case DeltaOfDelta =>
      var bytes :- Integers.EncodeDeltaOfDelta(numbers, width);
      Ok(One(DELTA_OF_DELTA, |cells|, bytes))
    case _ => Err(InvalidArgument)
  }

  function EncodeBoolean(column: Column, cells: seq<Cell>, e: Encoding): Result<Encoded>
    requires Dense(column, cells) && StorageOf(column.logicalType).Bitmap? && |cells| < U32
  {
    DenseShape(column, cells);
    if e.BitPacked? then Ok(One(BIT_PACKED, |cells|, Booleans.EncodePackedBooleans(FlagsOf(cells))))
    else
      var bytes :- Booleans.EncodeRle(FlagsOf(cells));
      Ok(One(BOOLEAN_RLE, |cells|, bytes))
  }

  function EncodeSplit(column: Column, cells: seq<Cell>): Result<Encoded>
    requires Dense(column, cells)
  {
    match StorageOf(column.logicalType)
    case Integer(width, _) =>
      RawLength(column, cells);
      Ok(One(BYTE_STREAM_SPLIT, |cells|, Booleans.Split(RawBytes(column, cells), |cells|, width)))
    case FixedBytes(width) =>
      RawLength(column, cells);
      Ok(One(BYTE_STREAM_SPLIT, |cells|, Booleans.Split(RawBytes(column, cells), |cells|, width)))
    case _ => Err(InvalidArgument)
  }

  /** Distinct values in order of appearance, abandoned past either cap. */
  function EncodeDictionary(column: Column, cells: seq<Cell>): Result<Encoded>
    requires Dense(column, cells) && |cells| < U32
  {
    DictionaryIsDense(column, cells);
    var d := DictionaryOf(cells);
    if |d.values| > DISTINCT_VALUE_LIMIT || |RawBytes(column, d.values)| > DISTINCT_BYTE_LIMIT then Err(InvalidArgument)
    else
      Ok(Encoded(DICTIONARY,
                 RawStreams(column, d.values, DICTIONARY_VALUES, DICTIONARY_LENGTHS) + [Packed(INDICES, d.indices)]))
  }

  function EncodeRuns(column: Column, cells: seq<Cell>): Encoded
    requires Dense(column, cells) && |cells| < U32
  {
    RunsAreDense(column, cells);
    RunsRoundTrip(cells);
    var runs := RunsOf(cells);
    Encoded(RUN_LENGTH, RawStreams(column, runs.values, RUN_VALUES, LENGTHS) + [Packed(RUN_LENGTHS, runs.lengths)])
  }

  /** The streams of one encoding of a column's dense values, or a refusal. */
  function EncodeDense(column: Column, cells: seq<Cell>, e: Encoding): Result<Encoded>
    requires Dense(column, cells) && 0 < |cells| < U32
  {
    if !Supports(column.logicalType, e) then Err(InvalidArgument)
    else
      match e
      case Raw => Ok(Encoded(PLAIN, RawStreams(column, cells, VALUES, LENGTHS)))
      case Constant =>
        if forall i :: 0 <= i < |cells| ==> cells[i] == cells[0]
        then Ok(Encoded(CONSTANT, RawStreams(column, cells[..1], VALUES, LENGTHS)))
        else Err(InvalidArgument)
      case ByteStreamSplit => EncodeSplit(column, cells)
      case Dictionary => EncodeDictionary(column, cells)
      case RunLength => Ok(EncodeRuns(column, cells))
      case _ =>
        if column.logicalType.Bool? then EncodeBoolean(column, cells, e) else EncodeNumeric(column, cells, e)
  }

  lemma DictionaryIsDense(column: Column, cells: seq<Cell>)
    requires Dense(column, cells) && |cells| < U32
    ensures
      var d := DictionaryOf(cells);
      Dense(column, d.values) && forall i :: 0 <= i < |d.indices| ==> d.indices[i] < U64
  {
    hide Admits;
    DictionaryRoundTrip(cells);
    DictionaryDraws(cells);
  }

  lemma {:induction false} DictionaryDraws<T>(values: seq<T>)
    ensures forall v :: v in DictionaryOf(values).values ==> v in values
  {
    if values != [] {
      DictionaryDraws(values[..|values| - 1]);
    }
  }

  lemma RunsAreDense(column: Column, cells: seq<Cell>)
    requires Dense(column, cells)
    ensures Dense(column, RunsOf(cells).values)
  {
    hide Admits, RunsOf;
    RunsDraw(cells);
    var values := RunsOf(cells).values;
    forall i | 0 <= i < |values| ensures !values[i].Null? && Admits(column, values[i]) {
      assert values[i] in cells;
    }
  }

  lemma {:induction false} RunsDraw<T>(values: seq<T>)
    ensures forall v :: v in RunsOf(values).values ==> v in values
  {
    if values != [] {
      RunsDraw(values[..|values| - 1]);
    }
  }

  lemma {:induction false} ConcatLength(blobs: seq<seq<byte>>, width: nat)
    requires forall i :: 0 <= i < |blobs| ==> |blobs[i]| == width
    ensures |Concat(blobs)| == |blobs| * width
  {
    if blobs != [] {
      ConcatLength(blobs[1..], width);
      assert width + (|blobs| - 1) * width == |blobs| * width;
    }
  }

  lemma RawLength(column: Column, cells: seq<Cell>)
    requires Dense(column, cells)
    ensures
      match StorageOf(column.logicalType)
      case Bitmap => |RawBytes(column, cells)| == ByteCount(|cells|)
      case Integer(width, _) => |RawBytes(column, cells)| == |cells| * width
      case FixedBytes(width) => |RawBytes(column, cells)| == |cells| * width
      case VariableBytes => true
  {
    DenseShape(column, cells);
    if StorageOf(column.logicalType).FixedBytes? {
      ConcatLength(BlobsOf(cells), StorageOf(column.logicalType).width);
    }
  }

  // -------------------------------------------------------------------- decoding

  /** The one stream of a kind; two of a kind are corruption. */
  function FindStream(streams: seq<Stream>, kind: nat): (r: Result<Option<Stream>>)
    ensures r.Ok? && r.value.Some? ==> r.value.value in streams && r.value.value.kind == kind
  {
    if streams == [] then Ok(None)
    else
      var later :- FindStream(streams[1..], kind);
      if streams[0].kind != kind then Ok(later)
      else if later.Some? then Err(Corruption)
      else Ok(Some(streams[0]))
  }

  function RequiredStream(streams: seq<Stream>, kind: nat): Result<Stream> {
    var found :- FindStream(streams, kind);
    match found case Some(s) => Ok(s) case None => Err(Corruption)
  }

  /** Fixed-width chunks of canonical bytes. */
  function Chunked(bytes: seq<byte>, count: nat, width: nat): (chunks: seq<seq<byte>>)
    requires |bytes| == count * width
    ensures |chunks| == count
    decreases count
  {
    if count == 0 then []
    else
      assert |bytes[width..]| == (count - 1) * width by { assert (count - 1) * width + width == count * width; }
      [bytes[..width]] + Chunked(bytes[width..], count - 1, width)
  }

  /** The canonical little-endian bytes of a fixed-width stream that is never read as numbers. */
  function CanonicalBytes(s: Stream, width: nat): (r: Result<seq<byte>>)
    ensures r.Ok? ==> |r.value| == s.count * width
  {
    var payload :- s.Bytes();
    var canonical :-
      if s.transform == RAW then Ok(payload)
      else if s.transform == BYTE_STREAM_SPLIT then Booleans.Join(payload, s.count, width)
      else Err(Corruption);
    if |canonical| == s.count * width then Ok(canonical) else Err(Corruption)
  }

  /** One stream of stored values in the column's own type. */
  function StoredValues(t: LogicalType, s: Stream): Result<seq<Cell>> {
    match StorageOf(t)
    case Bitmap =>
      var payload :- s.Bytes();
      var flags :- Booleans.Decode(payload, s.count, s.transform);
      Ok(FlagCells(flags))
    case Integer(width, signed) =>
      if IsFloat(t) then
        var bytes :- CanonicalBytes(s, width);
        Ok(NumberCells(Integers.Chunks(bytes, s.count, width, false)))
      else
        var payload :- s.Bytes();
        var numbers :- Integers.Decode(payload, s.count, width, signed, s.transform);
        Ok(NumberCells(numbers))
    case FixedBytes(width) =>
      var bytes :- CanonicalBytes(s, width);
      Ok(BlobCells(Chunked(bytes, s.count, width)))
    case VariableBytes => Err(UnsupportedFrame)
  }

  function AsLengths(numbers: seq<int>): seq<nat>
    requires Integers.AllInRange(numbers, 4, false)
  {
    numbers
  }

  function ReadLengths(streams: seq<Stream>, kind: nat, count: nat): Result<seq<nat>> {
    var s :- RequiredStream(streams, kind);
    if s.count != count then Err(Corruption)
    else
      var payload :- s.Bytes();
      var numbers :- Integers.Decode(payload, s.count, 4, false, s.transform);
      if Integers.AllInRange(numbers, 4, false) then Ok(AsLengths(numbers)) else Err(Corruption)
  }

  /** Read a values stream of `count` elements, with its lengths when the type needs them. */
  function ReadValues(column: Column, streams: seq<Stream>, valuesKind: nat, lengthsKind: nat, count: nat)
    : Result<seq<Cell>>
  {
    var s :- RequiredStream(streams, valuesKind);
    if s.count != count then Err(Corruption)
    else if !StorageOf(column.logicalType).VariableBytes? then StoredValues(column.logicalType, s)
    else if s.transform != RAW then Err(Corruption)
    else
      var lengths :- ReadLengths(streams, lengthsKind, count);
      var payload :- s.Bytes();
      var blobs :- SplitValues(payload, lengths);
      Ok(BlobCells(blobs))
  }

  /** Bit packing is the only representation of dictionary indices and run lengths. */
  function UnpackStream(s: Stream, count: nat): Result<seq<nat>> {
    if s.transform != BIT_PACKED then Err(UnsupportedFrame)
    else
      var payload :- s.Bytes();
      Unpack(payload, count)
  }

  function DecodeDictionary(column: Column, streams: seq<Stream>, count: nat): Result<seq<Cell>> {
    var indexStream :- RequiredStream(streams, INDICES);
    if indexStream.count != count then Err(Corruption)
    else
      var indices :- UnpackStream(indexStream, count);
      var s :- RequiredStream(streams, DICTIONARY_VALUES);
      if s.count == 0 then Err(Corruption)
      else
        var values :- ReadValues(column, streams, DICTIONARY_VALUES, DICTIONARY_LENGTHS, s.count);
        Lookup(values, indices)
  }

  function DecodeRuns(column: Column, streams: seq<Stream>, count: nat): Result<seq<Cell>> {
    var lengthStream :- RequiredStream(streams, RUN_LENGTHS);
    var lengths :- UnpackStream(lengthStream, lengthStream.count);
    if !RunLengthsFit(lengths, count) then Err(Corruption)
    else
      var values :- ReadValues(column, streams, RUN_VALUES, LENGTHS, |lengths|);
      ExpandRuns(values, lengths)
  }

  /** Rebuild `count` dense values from a layout. */
  function DecodeDense(column: Column, layout: nat, streams: seq<Stream>, count: nat): Result<seq<Cell>> {
    if layout == PLAIN then ReadValues(column, streams, VALUES, LENGTHS, count)
    else if layout == CONSTANT then
      var one :- ReadValues(column, streams, VALUES, LENGTHS, 1);
      Layouts.Constant(one, count)
    else if layout == DICTIONARY then DecodeDictionary(column, streams, count)
    else if layout == RUN_LENGTH then DecodeRuns(column, streams, count)
    else Err(UnsupportedFrame)
  }

  // ----------------------------------------------------------------- round trips

  lemma {:induction false} ChunkedRoundTrip(blobs: seq<seq<byte>>, width: nat)
    requires forall i :: 0 <= i < |blobs| ==> |blobs[i]| == width
    ensures |Concat(blobs)| == |blobs| * width
    ensures Chunked(Concat(blobs), |blobs|, width) == blobs
  {
    ConcatLength(blobs, width);
    if blobs != [] {
      ChunkedRoundTrip(blobs[1..], width);
      assert Concat(blobs)[..width] == blobs[0] && Concat(blobs)[width..] == Concat(blobs[1..]);
    }
  }

  lemma StorageIsCanonical(t: LogicalType)
    ensures StorageOf(t).Integer? ==> Integers.CanonicalWidth(StorageOf(t).width)
    ensures IsFloat(t) ==> StorageOf(t).Integer? && !StorageOf(t).signed
    ensures t.Bool? <==> StorageOf(t).Bitmap?
    ensures t.FixedBinary? <==> StorageOf(t).FixedBytes?
  {
  }

  lemma LengthsRoundTrip(blobs: seq<seq<byte>>)
    requires forall i :: 0 <= i < |blobs| ==> |blobs[i]| < U32
    ensures Integers.AllInRange(Lengths(blobs), 4, false)
    ensures Integers.Decode(LengthBytes(Lengths(blobs)), |blobs|, 4, false, RAW) == Ok(Lengths(blobs))
  {
    Ranges();
    Integers.RawRoundTrip(Lengths(blobs), 4, false);
  }

  /** A fixed-width stream under the raw transform restores its cells. */
  lemma StoredRoundTrip(column: Column, cells: seq<Cell>, kind: nat)
    requires Dense(column, cells) && !StorageOf(column.logicalType).VariableBytes?
    ensures StoredValues(column.logicalType, Stream(kind, RAW, |cells|, Good(RawBytes(column, cells)))) == Ok(cells)
  {
    hide Admits, Integers.EncodeRaw, Integers.Chunks, PackBits, Chunked, Concat;
    DenseShape(column, cells);
    RawLength(column, cells);
    StorageIsCanonical(column.logicalType);
    match StorageOf(column.logicalType)
    case Bitmap => RawBooleansRoundTrip(FlagsOf(cells));
    case Integer(width, signed) =>
      Integers.RawRoundTrip(NumbersOf(cells), width, signed);
      Integers.ChunksRoundTrip(NumbersOf(cells), width, signed);
    case FixedBytes(width) => ChunkedRoundTrip(BlobsOf(cells), width);
  }

  /** Streams among which the raw streams of `cells` are the only ones of their kinds. */
  ghost predicate Offers(streams: seq<Stream>, column: Column, cells: seq<Cell>, valuesKind: nat, lengthsKind: nat)
    requires Dense(column, cells)
  {
    var raw := RawStreams(column, cells, valuesKind, lengthsKind);
    && RequiredStream(streams, valuesKind) == Ok(raw[0])
    && (StorageOf(column.logicalType).VariableBytes? ==> RequiredStream(streams, lengthsKind) == Ok(raw[1]))
  }

  lemma ValuesRoundTrip(column: Column, cells: seq<Cell>, streams: seq<Stream>, valuesKind: nat, lengthsKind: nat)
    requires Dense(column, cells) && Offers(streams, column, cells, valuesKind, lengthsKind)
    ensures ReadValues(column, streams, valuesKind, lengthsKind, |cells|) == Ok(cells)
  {
    hide Admits, RequiredStream, Concat, LengthBytes;
    DenseShape(column, cells);
    if StorageOf(column.logicalType).VariableBytes? {
      LengthsRoundTrip(BlobsOf(cells));
      SplitRoundTrip(BlobsOf(cells));
    } else {
      StoredRoundTrip(column, cells, valuesKind);
    }
  }

  lemma {:induction false} FindNone(streams: seq<Stream>, kind: nat)
    requires forall j :: 0 <= j < |streams| ==> streams[j].kind != kind
    ensures FindStream(streams, kind) == Ok(None)
  {
    if streams != [] {
      FindNone(streams[1..], kind);
    }
  }

  /** A stream that is alone of its kind is the one found. */
  lemma {:induction false} FindUnique(streams: seq<Stream>, i: nat)
    requires i < |streams|
    requires forall j :: 0 <= j < |streams| && j != i ==> streams[j].kind != streams[i].kind
    ensures FindStream(streams, streams[i].kind) == Ok(Some(streams[i]))
    ensures RequiredStream(streams, streams[i].kind) == Ok(streams[i])
  {
    if i == 0 {
      FindNone(streams[1..], streams[0].kind);
    } else {
      FindUnique(streams[1..], i - 1);
    }
  }

  lemma SplitStreamRoundTrip(column: Column, cells: seq<Cell>)
    requires Dense(column, cells) && 0 < |cells| < U32 && Supports(column.logicalType, ByteStreamSplit)
    ensures EncodeSplit(column, cells).Ok?
    ensures DecodeDense(column, PLAIN, EncodeSplit(column, cells).value.streams, |cells|) == Ok(cells)
  {
    hide Admits, Integers.EncodeRaw, Integers.Chunks, Concat, Chunked, Booleans.Split, Booleans.Join;
    DenseShape(column, cells);
    RawLength(column, cells);
    StorageIsCanonical(column.logicalType);
    FindUnique(EncodeSplit(column, cells).value.streams, 0);
    match StorageOf(column.logicalType)
    case Integer(width, signed) =>
      Booleans.SplitRoundTrip(RawBytes(column, cells), |cells|, width);
      Integers.ChunksRoundTrip(NumbersOf(cells), width, signed);
    case FixedBytes(width) =>
      Booleans.SplitRoundTrip(RawBytes(column, cells), |cells|, width);
      ChunkedRoundTrip(BlobsOf(cells), width);
    case _ =>
  }

  lemma NumericRoundTrip(column: Column, cells: seq<Cell>, e: Encoding)
    requires Dense(column, cells) && 0 < |cells| < U32 && StorageOf(column.logicalType).Integer? && !IsFloat(column.logicalType)
    requires EncodeNumeric(column, cells, e).Ok?
    ensures
      var encoded := EncodeNumeric(column, cells, e).value;
      DecodeDense(column, encoded.layout, encoded.streams, |cells|) == Ok(cells)
  {
    hide Admits, Integers.EncodePacked, Integers.EncodeFrameOfReference, Integers.EncodeDelta,
         Integers.EncodeDeltaOfDelta, Integers.Decode;
    DenseShape(column, cells);
    StorageIsCanonical(column.logicalType);
    var width, signed := StorageOf(column.logicalType).width, StorageOf(column.logicalType).signed;
    FindUnique(EncodeNumeric(column, cells, e).value.streams, 0);
    if e.DeltaOfDelta? {
      Integers.DeltaOfDeltaNeedsTwo(NumbersOf(cells), width);
    }
    match e
    case BitPacked => Integers.PackedRoundTrip(NumbersOf(cells), width, signed);
    case FrameOfReference => Integers.FrameOfReferenceRoundTrip(NumbersOf(cells), width, signed);
    case Delta => Integers.DeltaRoundTrip(NumbersOf(cells), width, signed);
    case DeltaOfDelta => Integers.DeltaOfDeltaRoundTrip(NumbersOf(cells), width, signed);
    case _ =>
  }

  lemma BooleanRoundTrip(column: Column, cells: seq<Cell>, e: Encoding)
    requires Dense(column, cells) && 0 < |cells| < U32 && column.logicalType.Bool?
    requires EncodeBoolean(column, cells, e).Ok?
    ensures
      var encoded := EncodeBoolean(column, cells, e).value;
      DecodeDense(column, encoded.layout, encoded.streams, |cells|) == Ok(cells)
  {
    hide Admits, Booleans.EncodePackedBooleans, Booleans.EncodeRle, Booleans.DecodeRle, Booleans.PackedBooleans;
    DenseShape(column, cells);
    FindUnique(EncodeBoolean(column, cells, e).value.streams, 0);
    Booleans.PackedBooleansRoundTrip(FlagsOf(cells));
    Booleans.RleRoundTrip(FlagsOf(cells));
  }

  lemma PackedStreamRoundTrip(kind: nat, values: seq<nat>)
    requires forall i :: 0 <= i < |values| ==> values[i] < U64
    ensures UnpackStream(Packed(kind, values), |values|) == Ok(values)
  {
    hide Pack, Unpack, MaxWidth;
    Integers.U64Widths(values);
    PackRoundTrip(MaxWidth(values), values);
  }

  /** The raw streams of one kind pair, followed by one stream of a third kind. */
  lemma OffersWithExtra(column: Column, cells: seq<Cell>, valuesKind: nat, lengthsKind: nat, extra: Stream)
    requires Dense(column, cells)
    requires valuesKind != lengthsKind && extra.kind != valuesKind && extra.kind != lengthsKind
    ensures
      var streams := RawStreams(column, cells, valuesKind, lengthsKind) + [extra];
      && Offers(streams, column, cells, valuesKind, lengthsKind)
      && RequiredStream(streams, extra.kind) == Ok(extra)
  {
    hide Admits, RawBytes, LengthBytes, RequiredStream;
    var raw := RawStreams(column, cells, valuesKind, lengthsKind);
    var streams := raw + [extra];
    assert streams[|raw|] == extra && streams[0] == raw[0];
    FindUnique(streams, 0);
    FindUnique(streams, 1);
    FindUnique(streams, |raw|);
  }

  lemma OffersAlone(column: Column, cells: seq<Cell>, valuesKind: nat, lengthsKind: nat)
    requires Dense(column, cells) && valuesKind != lengthsKind
    ensures Offers(RawStreams(column, cells, valuesKind, lengthsKind), column, cells, valuesKind, lengthsKind)
  {
    hide Admits, RawBytes, LengthBytes, RequiredStream;
    var raw := RawStreams(column, cells, valuesKind, lengthsKind);
    FindUnique(raw, 0);
    if |raw| == 2 {
      FindUnique(raw, 1);
    }
  }

  lemma DictionaryColumnRoundTrip(column: Column, cells: seq<Cell>)
    requires Dense(column, cells) && 0 < |cells| < U32 && EncodeDictionary(column, cells).Ok?
    ensures DecodeDense(column, DICTIONARY, EncodeDictionary(column, cells).value.streams, |cells|) == Ok(cells)
  {
    hide Admits, RawBytes, RawStreams, RequiredStream, ReadValues, Packed, UnpackStream, DictionaryOf, Lookup;
    DictionaryIsDense(column, cells);
    DictionaryRoundTrip(cells);
    var d := DictionaryOf(cells);
    var extra := Packed(INDICES, d.indices);
    PackedStreamFacts(INDICES, d.indices);
    OffersWithExtra(column, d.values, DICTIONARY_VALUES, DICTIONARY_LENGTHS, extra);
    PackedStreamRoundTrip(INDICES, d.indices);
    var streams := RawStreams(column, d.values, DICTIONARY_VALUES, DICTIONARY_LENGTHS) + [extra];
    RawCount(column, d.values, DICTIONARY_VALUES, DICTIONARY_LENGTHS);
    ValuesRoundTrip(column, d.values, streams, DICTIONARY_VALUES, DICTIONARY_LENGTHS);
  }

  lemma PackedStreamFacts(kind: nat, values: seq<nat>)
    requires forall i :: 0 <= i < |values| ==> values[i] < U64
    ensures Packed(kind, values).kind == kind && Packed(kind, values).count == |values|
  {
  }

  lemma RawCount(column: Column, cells: seq<Cell>, valuesKind: nat, lengthsKind: nat)
    requires Dense(column, cells)
    ensures RawStreams(column, cells, valuesKind, lengthsKind) != []
    ensures RawStreams(column, cells, valuesKind, lengthsKind)[0].count == |cells|
  {
  }

  lemma RunsColumnRoundTrip(column: Column, cells: seq<Cell>)
    requires Dense(column, cells) && 0 < |cells| < U32
    ensures DecodeDense(column, RUN_LENGTH, EncodeRuns(column, cells).streams, |cells|) == Ok(cells)
  {
    hide Admits, RawBytes, RawStreams, RequiredStream, ReadValues, Packed, UnpackStream, RunsOf, Expand, Sum;
    RunsAreDense(column, cells);
    RunsRoundTrip(cells);
    var runs := RunsOf(cells);
    var extra := Packed(RUN_LENGTHS, runs.lengths);
    PackedStreamFacts(RUN_LENGTHS, runs.lengths);
    OffersWithExtra(column, runs.values, RUN_VALUES, LENGTHS, extra);
    PackedStreamRoundTrip(RUN_LENGTHS, runs.lengths);
    var streams := RawStreams(column, runs.values, RUN_VALUES, LENGTHS) + [extra];
    ValuesRoundTrip(column, runs.values, streams, RUN_VALUES, LENGTHS);
  }

  lemma ConstantColumnRoundTrip(column: Column, cells: seq<Cell>)
    requires Dense(column, cells) && cells != []
    requires forall i :: 0 <= i < |cells| ==> cells[i] == cells[0]
    ensures DecodeDense(column, CONSTANT, RawStreams(column, cells[..1], VALUES, LENGTHS), |cells|) == Ok(cells)
  {
    hide Admits, RawStreams, ReadValues;
    OffersAlone(column, cells[..1], VALUES, LENGTHS);
    ValuesRoundTrip(column, cells[..1], RawStreams(column, cells[..1], VALUES, LENGTHS), VALUES, LENGTHS);
    ConstantRoundTrip(cells);
  }

  /** Whichever encoding the writer picks for dense values, decoding its streams restores them. */
  lemma DenseRoundTrip(column: Column, cells: seq<Cell>, e: Encoding)
    requires Dense(column, cells) && 0 < |cells| < U32 && EncodeDense(column, cells, e).Ok?
    ensures
      var encoded := EncodeDense(column, cells, e).value;
      DecodeDense(column, encoded.layout, encoded.streams, |cells|) == Ok(cells)
  {
    hide Admits, RawStreams, ReadValues, DecodeDictionary, DecodeRuns, EncodeDictionary, EncodeRuns, EncodeSplit,
         EncodeBoolean, EncodeNumeric;
    StorageIsCanonical(column.logicalType);
    match e
    case Raw =>
      OffersAlone(column, cells, VALUES, LENGTHS);
      ValuesRoundTrip(column, cells, RawStreams(column, cells, VALUES, LENGTHS), VALUES, LENGTHS);
    case Constant => ConstantColumnRoundTrip(column, cells);
    case ByteStreamSplit =>
      SplitStreamRoundTrip(column, cells);
      SplitLayout(column, cells);
    case Dictionary =>
      DictionaryColumnRoundTrip(column, cells);
      DictionaryLayout(column, cells);
    case RunLength =>
      RunsColumnRoundTrip(column, cells);
      RunsLayout(column, cells);
    case _ =>
      if column.logicalType.Bool? {
        BooleanRoundTrip(column, cells, e);
      } else {
        NumericRoundTrip(column, cells, e);
      }
  }

  lemma SplitLayout(column: Column, cells: seq<Cell>)
    requires Dense(column, cells) && EncodeSplit(column, cells).Ok?
    ensures EncodeSplit(column, cells).value.layout == PLAIN
  {
  }

  lemma DictionaryLayout(column: Column, cells: seq<Cell>)
    requires Dense(column, cells) && |cells| < U32 && EncodeDictionary(column, cells).Ok?
    ensures EncodeDictionary(column, cells).value.layout == DICTIONARY
  {
  }

  lemma RunsLayout(column: Column, cells: seq<Cell>)
    requires Dense(column, cells) && |cells| < U32
    ensures EncodeRuns(column, cells).layout == RUN_LENGTH
  {
  }

  // --------------------------------------------------------- validity and columns

  /** What a column descriptor declares about its values. */
  datatype Shape = Shape(layout: nat, implicitValidity: bool, nullCount: nat, denseCount: nat)

  datatype EncodedColumn = EncodedColumn(shape: Shape, streams: seq<Stream>)

  predicate Admissible(column: Column, cells: seq<Cell>) {
    forall i :: 0 <= i < |cells| ==> Admits(column, cells[i])
  }

  function ValidityOf(cells: seq<Cell>): (bits: seq<bool>)
    ensures |bits| == |cells|
    ensures forall i :: 0 <= i < |cells| ==> bits[i] == !cells[i].Null?
  {
    seq(|cells|, i requires 0 <= i < |cells| => !cells[i].Null?)
  }

  /** The present values of a column, in row order. */
  function Present(cells: seq<Cell>): (dense: seq<Cell>)
    ensures |dense| <= |cells|
  {
    CountBound(ValidityOf(cells));
    Gather(cells, ValidityOf(cells))
  }

  lemma {:induction false} CountBound(bits: seq<bool>)
    ensures CountTrue(bits) <= |bits|
    ensures CountTrue(bits) == |bits| <==> forall i :: 0 <= i < |bits| ==> bits[i]
    ensures CountTrue(bits) == 0 <==> forall i :: 0 <= i < |bits| ==> !bits[i]
  {
    if bits != [] {
      var n := |bits| - 1;
      CountBound(bits[..n]);
      assert forall i :: 0 <= i < |bits| ==> bits[i] == if i < n then bits[..n][i] else bits[n];
    }
  }

  lemma {:induction false} GatherDraws(column: Column, cells: seq<Cell>, bits: seq<bool>)
    requires |bits| == |cells| && Admissible(column, cells)
    requires forall i :: 0 <= i < |cells| && bits[i] ==> !cells[i].Null?
    ensures Dense(column, Gather(cells, bits))
  {
    hide Admits;
    if bits != [] {
      var n := |bits| - 1;
      GatherDraws(column, cells[..n], bits[..n]);
      assert cells[n] == cells[|bits| - 1];
    }
  }

  lemma PresentIsDense(column: Column, cells: seq<Cell>)
    requires Admissible(column, cells)
    ensures Dense(column, Present(cells))
  {
    GatherDraws(column, cells, ValidityOf(cells));
  }

  function ValidityStream(bits: seq<bool>, rle: bool): Result<Stream>
    requires |bits| < U32
  {
    if rle then
      var bytes :- Booleans.EncodeRle(bits);
      Ok(Stream(VALIDITY, BOOLEAN_RLE, |bits|, Good(bytes)))
    else Ok(Stream(VALIDITY, RAW, |bits|, Good(PackBits(bits))))
  }

  /** One column of a block: a validity stream when neither all valid nor all null, then values. */
  function EncodeColumn(column: Column, cells: seq<Cell>, e: Encoding, rle: bool): Result<EncodedColumn>
    requires Admissible(column, cells) && |cells| < U32
  {
    PresentIsDense(column, cells);
    var dense := Present(cells);
    var nulls := |cells| - |dense|;
    if dense == [] then Ok(EncodedColumn(Shape(PLAIN, column.nullable, nulls, 0), []))
    else
      var encoded :- EncodeDense(column, dense, e);
      if nulls == 0 then Ok(EncodedColumn(Shape(encoded.layout, column.nullable, 0, |dense|), encoded.streams))
      else
        var validity :- ValidityStream(ValidityOf(cells), rle);
        Ok(EncodedColumn(Shape(encoded.layout, false, nulls, |dense|), [validity] + encoded.streams))
  }

  predicate KindAllowed(layout: nat, kind: nat) {
    || kind == VALIDITY
    || ((layout == PLAIN || layout == CONSTANT) && kind in {VALUES, LENGTHS})
    || (layout == DICTIONARY && kind in {DICTIONARY_VALUES, DICTIONARY_LENGTHS, INDICES})
    || (layout == RUN_LENGTH && kind in {RUN_VALUES, RUN_LENGTHS, LENGTHS})
  }

  predicate KindsFit(layout: nat, streams: seq<Stream>) {
    layout <= RUN_LENGTH && forall i :: 0 <= i < |streams| ==> KindAllowed(layout, streams[i].kind)
  }

  /** One validity bit per row, or None when every row is present. */
  function DecodeValidity(column: Column, shape: Shape, streams: seq<Stream>, rows: nat): Result<Option<seq<bool>>> {
    var found :- FindStream(streams, VALIDITY);
    if !column.nullable then
      if shape.nullCount != 0 || found.Some? then Err(Corruption) else Ok(None)
    else if shape.implicitValidity then
      if found.Some? then Err(Corruption)
      else if shape.nullCount == 0 then Ok(None)
      else if shape.nullCount != rows then Err(Corruption)
      else Ok(Some(Repeat(false, rows)))
    else
      match found
      case None => if shape.nullCount != 0 then Err(Corruption) else Ok(None)
      case Some(s) =>
        if s.count != rows then Err(Corruption)
        else
          var payload :- s.Bytes();
          var bits :- Booleans.Decode(payload, s.count, s.transform);
          if |bits| - CountTrue(bits) != shape.nullCount then Err(Corruption) else Ok(Some(bits))
  }

  function DecodePresent(column: Column, shape: Shape, streams: seq<Stream>): Result<seq<Cell>> {
    if shape.denseCount != 0 then DecodeDense(column, shape.layout, streams, shape.denseCount)
    else if shape.layout != PLAIN || exists i :: 0 <= i < |streams| && streams[i].kind != VALIDITY then Err(Corruption)
    else Ok([])
  }

  /** Text columns must hold well-formed UTF-8. */
  predicate TextFits(column: Column, dense: seq<Cell>) {
    IsText(column.logicalType) ==> forall i :: 0 <= i < |dense| ==> dense[i].Blob? && ValidUtf8(dense[i].bytes)
  }

  /** Rebuild a column's logical values, one per row. */
  function DecodeColumn(column: Column, shape: Shape, streams: seq<Stream>, rows: nat): Result<seq<Cell>> {
    if !KindsFit(shape.layout, streams) then Err(Corruption)
    else
      var validity :- DecodeValidity(column, shape, streams, rows);
      var dense :- DecodePresent(column, shape, streams);
      if !TextFits(column, dense) then Err(Corruption) else Scatter(dense, validity, rows, Null)
  }

  // ---------------------------------------------------------- column round trip

  lemma EncodedKinds(column: Column, cells: seq<Cell>, e: Encoding)
    requires Dense(column, cells) && 0 < |cells| < U32 && EncodeDense(column, cells, e).Ok?
    ensures
      var encoded := EncodeDense(column, cells, e).value;
      && KindsFit(encoded.layout, encoded.streams)
      && forall i :: 0 <= i < |encoded.streams| ==> encoded.streams[i].kind != VALIDITY
  {
    hide Admits, RawBytes, LengthBytes;
  }

  lemma FindSkips(first: Stream, streams: seq<Stream>, kind: nat)
    requires first.kind != kind
    ensures FindStream([first] + streams, kind) == FindStream(streams, kind)
    ensures RequiredStream([first] + streams, kind) == RequiredStream(streams, kind)
  {
    assert ([first] + streams)[1..] == streams;
  }

  /** A validity stream in front of the value streams changes nothing about the values. */
  lemma DenseIgnoresValidity(column: Column, layout: nat, v: Stream, streams: seq<Stream>, count: nat)
    requires v.kind == VALIDITY
    ensures DecodeDense(column, layout, [v] + streams, count) == DecodeDense(column, layout, streams, count)
  {
    hide RequiredStream, ReadValues, UnpackStream, Lookup, ExpandRuns, RunLengthsFit;
    FindSkips(v, streams, DICTIONARY_VALUES);
    FindSkips(v, streams, INDICES);
    FindSkips(v, streams, RUN_LENGTHS);
    ReadIgnoresValidity(column, v, streams, VALUES, LENGTHS);
    ReadIgnoresValidity(column, v, streams, DICTIONARY_VALUES, DICTIONARY_LENGTHS);
    ReadIgnoresValidity(column, v, streams, RUN_VALUES, LENGTHS);
  }

  lemma ReadIgnoresValidity(column: Column, v: Stream, streams: seq<Stream>, valuesKind: nat, lengthsKind: nat)
    requires v.kind == VALIDITY && valuesKind != VALIDITY && lengthsKind != VALIDITY
    ensures forall count :: ReadValues(column, [v] + streams, valuesKind, lengthsKind, count)
                         == ReadValues(column, streams, valuesKind, lengthsKind, count)
  {
    hide RequiredStream, StoredValues, SplitValues;
    FindSkips(v, streams, valuesKind);
    FindSkips(v, streams, lengthsKind);
  }

  lemma ValidityRoundTrip(bits: seq<bool>, rle: bool)
    requires |bits| < U32 && ValidityStream(bits, rle).Ok?
    ensures
      var s := ValidityStream(bits, rle).value;
      s.kind == VALIDITY && s.count == |bits| && s.content.Good?
      && Booleans.Decode(s.content.bytes, s.count, s.transform) == Ok(bits)
  {
    hide Booleans.EncodeRle, Booleans.DecodeRle, PackBits, RawBooleans;
    Booleans.RleRoundTrip(bits);
    RawBooleansRoundTrip(bits);
  }

  lemma DenseText(column: Column, cells: seq<Cell>)
    requires Dense(column, cells)
    ensures TextFits(column, cells)
  {
    hide ValidUtf8;
    DenseShape(column, cells);
    forall i | 0 <= i < |cells| && IsText(column.logicalType) ensures cells[i].Blob? && ValidUtf8(cells[i].bytes) {
      assert Admits(column, cells[i]);
    }
  }

  /** Scattering the present values of a column over its own validity restores it. */
  lemma ScatterRestores(cells: seq<Cell>)
    ensures Scatter(Present(cells), Some(ValidityOf(cells)), |cells|, Null) == Ok(cells)
    ensures |Present(cells)| == CountTrue(ValidityOf(cells))
    ensures |Present(cells)| == |cells| ==> Present(cells) == cells
    ensures Present(cells) == [] ==> ValidityOf(cells) == Repeat(false, |cells|)
  {
    PlaceGathered(cells, ValidityOf(cells), Null);
    CountBound(ValidityOf(cells));
    if |Present(cells)| == |cells| {
      GatherAll(cells, ValidityOf(cells));
    }
  }

  lemma {:induction false} GatherAll<T>(values: seq<T>, bits: seq<bool>)
    requires |values| == |bits| && forall i :: 0 <= i < |bits| ==> bits[i]
    ensures Gather(values, bits) == values
  {
    if bits != [] {
      var n := |bits| - 1;
      GatherAll(values[..n], bits[..n]);
      assert values[..n] + [values[n]] == values;
    }
  }

  lemma NullsNeedNullable(column: Column, cells: seq<Cell>)
    requires Admissible(column, cells) && !column.nullable
    ensures |Present(cells)| == |cells|
  {
    forall i | 0 <= i < |cells| ensures !cells[i].Null? {
      assert Admits(column, cells[i]);
    }
    CountBound(ValidityOf(cells));
  }

  /**
   * Every admissible column, under every encoding the writer may choose for its values and
   * for its validity, decodes to exactly the cells it was built from, nulls included.
   */
  lemma ColumnRoundTrip(column: Column, cells: seq<Cell>, e: Encoding, rle: bool)
    requires Admissible(column, cells) && 0 < |cells| < U32 && EncodeColumn(column, cells, e, rle).Ok?
    ensures
      var encoded := EncodeColumn(column, cells, e, rle).value;
      DecodeColumn(column, encoded.shape, encoded.streams, |cells|) == Ok(cells)
  {
    hide Admits, EncodeDense, DecodeDense, ValidityStream, Present, Booleans.Decode, TextFits, Place;
    PresentIsDense(column, cells);
    ScatterRestores(cells);
    var dense := Present(cells);
    DenseText(column, dense);
    if !column.nullable {
      NullsNeedNullable(column, cells);
    }
    var encoded := EncodeColumn(column, cells, e, rle).value;
    if dense != [] {
      DenseRoundTrip(column, dense, e);
      EncodedKinds(column, dense, e);
      var values := EncodeDense(column, dense, e).value;
      if |dense| == |cells| {
        FindNone(values.streams, VALIDITY);
      } else {
        ValidityRoundTrip(ValidityOf(cells), rle);
        var v := ValidityStream(ValidityOf(cells), rle).value;
        DenseIgnoresValidity(column, values.layout, v, values.streams, |dense|);
        FindUnique(encoded.streams, 0);
      }
    }
  }
}
