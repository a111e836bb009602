/** What decoding an encoded column will charge, known from its cells before anything is written. */
module Planned {
  import opened Core
  import opened Bytes
  import opened Schema
  import opened Rows
  import opened Layouts
  import opened Packing
  import opened ColumnCodec
  import opened Charges
  import Integers
  import Booleans

  /** Raw values, with their lengths when the type is variable-width: stored bytes, then decoded ones. */
  function ValuesCharge(column: Column, cells: seq<Cell>): nat
    requires Dense(column, cells)
  {
    var stored := |RawBytes(column, cells)|;
    match StorageOf(column.logicalType)
    case Bitmap => stored + |cells| * BOOLEAN_STREAM_BYTES
    case Integer(width, _) => stored + Elements(|cells|, width)
    case FixedBytes(width) => stored + Elements(|cells|, width + VALUE_HANDLE_BYTES)
    case VariableBytes => 2 * (|cells| * LENGTH_VALUE_BYTES) + 2 * stored + |cells| * VALUE_HANDLE_BYTES
  }

  /** One transformed stream of fixed-width values. */
  function TransformedCharge(column: Column, count: nat, stored: nat): nat {
    stored + if StorageOf(column.logicalType).Bitmap? then count * BOOLEAN_STREAM_BYTES else Elements(count, SlotBytes(column.logicalType))
  }

  /** A split stream is undone into a buffer of its own. */
  function SplitCharge(column: Column, cells: seq<Cell>): nat
    requires Dense(column, cells)
  {
    match StorageOf(column.logicalType)
    case Integer(width, _) => 3 * Elements(|cells|, width)
    case FixedBytes(width) => 2 * Elements(|cells|, width) + Elements(|cells|, width + VALUE_HANDLE_BYTES)
    case _ => 0
  }

  function PackedLength(values: seq<nat>): nat
    requires forall i :: 0 <= i < |values| ==> values[i] < U64
  {
    |Packed(INDICES, values).content.bytes|
  }

  function DictionaryCharge(column: Column, cells: seq<Cell>): nat
    requires Dense(column, cells) && |cells| < U32
  {
    DictionaryIsDense(column, cells);
    var d := DictionaryOf(cells);
    PackedLength(d.indices) + |cells| * UNPACKED_VALUE_BYTES + ValuesCharge(column, d.values)
    + Elements(|cells|, ValueBytes(column.logicalType, d.values))
  }

  function RunsCharge(column: Column, cells: seq<Cell>): nat
    requires Dense(column, cells) && |cells| < U32
  {
    RunsAreDense(column, cells);
    RunsRoundTrip(cells);
    var runs := RunsOf(cells);
    PackedLength(runs.lengths) + 2 * (|runs.lengths| * UNPACKED_VALUE_BYTES) + ValuesCharge(column, runs.values)
    + Elements(|cells|, ValueBytes(column.logicalType, runs.values))
  }

  /** The charge of dense values under an encoding that accepts them. */
  function DenseCharge(column: Column, cells: seq<Cell>, e: Encoding): nat
    requires Dense(column, cells) && 0 < |cells| < U32 && EncodeDense(column, cells, e).Ok?
  {
    match e
    case Raw => ValuesCharge(column, cells)
    case Constant =>
      ValuesCharge(column, cells[..1]) + Elements(|cells|, ValueBytes(column.logicalType, cells[..1]))
    case ByteStreamSplit => SplitCharge(column, cells)
    case Dictionary => DictionaryCharge(column, cells)
    case RunLength => RunsCharge(column, cells)
    case _ => TransformedCharge(column, |cells|, StreamLength(EncodeDense(column, cells, e).value.streams))
  }

  function StreamLength(streams: seq<Stream>): nat {
    if streams == [] || !streams[0].content.Good? then 0 else |streams[0].content.bytes|
  }

  function ValidityCharge(cells: seq<Cell>, rle: bool): nat
    requires |cells| < U32
  {
    var dense := Present(cells);
    if |dense| == |cells| then 0
    else if dense == [] then |cells| * BOOLEAN_VALUE_BYTES
    else
      var v := ValidityStream(ValidityOf(cells), rle);
      if v.Err? then 0 else StreamLength([v.value]) + |cells| * BOOLEAN_STREAM_BYTES
  }

  /** The whole charge of one column: its validity, its dense values, and scattering them. */
  function ColumnCharge(column: Column, cells: seq<Cell>, e: Encoding, rle: bool): nat
    requires Admissible(column, cells) && |cells| < U32 && EncodeColumn(column, cells, e, rle).Ok?
  {
    PresentIsDense(column, cells);
    var dense := Present(cells);
    ValidityCharge(cells, rle)
    + (if dense == [] then 0 else DenseCharge(column, dense, e))
    + if |dense| == |cells| && !IsText(column.logicalType) then 0 else Elements(|cells|, SlotBytes(column.logicalType))
  }

  // ------------------------------------------------------------ dense values, proved

  lemma SumTwo(a: nat, b: nat)
    ensures Sum([a, b]) == a + b && Sum([a] + [b]) == a + b
  {
    assert [a, b] == [a] + [b];
    SumConcat([a], [b]);
    SumOne(a);
    SumOne(b);
  }

  lemma SumRead(s: Stream, later: seq<nat>)
    requires s.content.Good?
    ensures Sum(ReadThen(s, later)) == |s.content.bytes| + Sum(later)
  {
    SumConcat(s.ReadCharges(), later);
    SumOne(|s.content.bytes|);
  }

  lemma StoredChargesSum(column: Column, cells: seq<Cell>, kind: nat)
    requires Dense(column, cells) && !StorageOf(column.logicalType).VariableBytes?
    ensures Sum(StoredCharges(column.logicalType, Stream(kind, RAW, |cells|, Good(RawBytes(column, cells)))))
         == ValuesCharge(column, cells)
  {
    hide RawBytes, Sum, Admits, Elements;
    RawLength(column, cells);
    var s := Stream(kind, RAW, |cells|, Good(RawBytes(column, cells)));
    var t := column.logicalType;
    match StorageOf(t)
    case Bitmap =>
      SumRead(s, [s.count * BOOLEAN_STREAM_BYTES]);
      SumOne(s.count * BOOLEAN_STREAM_BYTES);
    case Integer(width, _) =>
      SumRead(s, [Elements(s.count, width)]);
      SumOne(Elements(s.count, width));
      assert [] + [Elements(s.count, width)] == [Elements(s.count, width)];
    case FixedBytes(width) =>
      var each := width + VALUE_HANDLE_BYTES;
      SumRead(s, [Elements(s.count, each)]);
      SumOne(Elements(s.count, each));
      assert [] + [Elements(s.count, each)] == [Elements(s.count, each)];
  }

  lemma ValuesChargesSum(column: Column, cells: seq<Cell>, streams: seq<Stream>, valuesKind: nat, lengthsKind: nat)
    requires Dense(column, cells) && Offers(streams, column, cells, valuesKind, lengthsKind)
    ensures Sum(ValuesCharges(column, streams, valuesKind, lengthsKind, |cells|)) == ValuesCharge(column, cells)
  {
    hide RawBytes, Sum, Admits, RequiredStream, StoredCharges, Concat;
    DenseShape(column, cells);
    if StorageOf(column.logicalType).VariableBytes? {
      VariableChargesSum(column, cells, streams, valuesKind, lengthsKind);
    } else {
      StoredChargesSum(column, cells, valuesKind);
    }
  }

  lemma VariableChargesSum(column: Column, cells: seq<Cell>, streams: seq<Stream>, valuesKind: nat, lengthsKind: nat)
    requires Dense(column, cells) && Offers(streams, column, cells, valuesKind, lengthsKind)
    requires StorageOf(column.logicalType).VariableBytes?
    ensures Sum(ValuesCharges(column, streams, valuesKind, lengthsKind, |cells|)) == ValuesCharge(column, cells)
  {
    hide RawBytes, Sum, Admits, RequiredStream, LengthBytes;
    DenseShape(column, cells);
    var n := |cells|;
    LengthsRoundTrip(BlobsOf(cells));
    var raw := RawStreams(column, cells, valuesKind, lengthsKind);
    var lengths := LengthsCharges(streams, lengthsKind, n);
    SumRead(raw[1], [n * LENGTH_VALUE_BYTES]);
    SumOne(n * LENGTH_VALUE_BYTES);
    var stored := |RawBytes(column, cells)|;
    SumRead(raw[0], [stored, n * VALUE_HANDLE_BYTES]);
    SumTwo(stored, n * VALUE_HANDLE_BYTES);
    SumConcat(lengths, ReadThen(raw[0], [stored, n * VALUE_HANDLE_BYTES]));
  }

  lemma ConstantChargesSum(column: Column, cells: seq<Cell>)
    requires Dense(column, cells) && cells != []
    ensures Sum(DenseCharges(column, CONSTANT, RawStreams(column, cells[..1], VALUES, LENGTHS), |cells|))
         == ValuesCharge(column, cells[..1]) + Elements(|cells|, ValueBytes(column.logicalType, cells[..1]))
  {
    hide RawStreams, Sum, Admits, ValuesCharges, ReadValues, Elements, ValueBytes;
    var one := cells[..1];
    var streams := RawStreams(column, one, VALUES, LENGTHS);
    OffersAlone(column, one, VALUES, LENGTHS);
    ColumnCodec.ValuesRoundTrip(column, one, streams, VALUES, LENGTHS);
    ValuesChargesSum(column, one, streams, VALUES, LENGTHS);
    var last := Elements(|cells|, ValueBytes(column.logicalType, one));
    SumAppend(ValuesCharges(column, streams, VALUES, LENGTHS, 1), last);
  }

  lemma UnpackChargesSum(kind: nat, values: seq<nat>)
    requires forall i :: 0 <= i < |values| ==> values[i] < U64
    ensures Sum(UnpackCharges(Packed(kind, values), |values|)) == PackedLength(values) + |values| * UNPACKED_VALUE_BYTES
  {
    hide Sum, Pack, MaxWidth;
    SumRead(Packed(kind, values), [|values| * UNPACKED_VALUE_BYTES]);
    SumOne(|values| * UNPACKED_VALUE_BYTES);
  }

  lemma DictionaryChargesSum(column: Column, cells: seq<Cell>)
    requires Dense(column, cells) && 0 < |cells| < U32 && EncodeDictionary(column, cells).Ok?
    ensures Sum(DenseCharges(column, DICTIONARY, EncodeDictionary(column, cells).value.streams, |cells|))
         == DictionaryCharge(column, cells)
  {
    hide Admits, RawBytes, RawStreams, RequiredStream, ReadValues, Packed, UnpackStream, DictionaryOf, Lookup, Sum, UnpackCharges,
         ValuesCharges, Elements, ValueBytes, PackedLength;
    DictionaryIsDense(column, cells);
    DictionaryRoundTrip(cells);
    var d := DictionaryOf(cells);
    var extra := Packed(INDICES, d.indices);
    PackedStreamFacts(INDICES, d.indices);
    OffersWithExtra(column, d.values, DICTIONARY_VALUES, DICTIONARY_LENGTHS, extra);
    PackedStreamRoundTrip(INDICES, d.indices);
    var streams := RawStreams(column, d.values, DICTIONARY_VALUES, DICTIONARY_LENGTHS) + [extra];
    RawCount(column, d.values, DICTIONARY_VALUES, DICTIONARY_LENGTHS);
    ColumnCodec.ValuesRoundTrip(column, d.values, streams, DICTIONARY_VALUES, DICTIONARY_LENGTHS);
    ValuesChargesSum(column, d.values, streams, DICTIONARY_VALUES, DICTIONARY_LENGTHS);
    UnpackChargesSum(INDICES, d.indices);
    var last := Elements(|cells|, ValueBytes(column.logicalType, d.values));
    var values := ValuesCharges(column, streams, DICTIONARY_VALUES, DICTIONARY_LENGTHS, |d.values|);
    SumAppend(values, last);
    SumConcat(UnpackCharges(extra, |cells|), values + [last]);
  }

  lemma RunsChargesSum(column: Column, cells: seq<Cell>)
    requires Dense(column, cells) && 0 < |cells| < U32
    ensures Sum(DenseCharges(column, RUN_LENGTH, EncodeRuns(column, cells).streams, |cells|)) == RunsCharge(column, cells)
  {
    hide Admits, RawBytes, RawStreams, RequiredStream, ReadValues, Packed, UnpackStream, RunsOf, Expand, Sum, UnpackCharges,
         ValuesCharges, Elements, ValueBytes, PackedLength;
    RunsAreDense(column, cells);
    RunsRoundTrip(cells);
    var runs := RunsOf(cells);
    var r := |runs.lengths|;
    var extra := Packed(RUN_LENGTHS, runs.lengths);
    PackedStreamFacts(RUN_LENGTHS, runs.lengths);
    OffersWithExtra(column, runs.values, RUN_VALUES, LENGTHS, extra);
    PackedStreamRoundTrip(RUN_LENGTHS, runs.lengths);
    var streams := RawStreams(column, runs.values, RUN_VALUES, LENGTHS) + [extra];
    ColumnCodec.ValuesRoundTrip(column, runs.values, streams, RUN_VALUES, LENGTHS);
    ValuesChargesSum(column, runs.values, streams, RUN_VALUES, LENGTHS);
    UnpackChargesSum(RUN_LENGTHS, runs.lengths);
    var last := Elements(|cells|, ValueBytes(column.logicalType, runs.values));
    var values := ValuesCharges(column, streams, RUN_VALUES, LENGTHS, r);
    SumAppend(values, last);
    SumConcat([r * UNPACKED_VALUE_BYTES], values + [last]);
    SumOne(r * UNPACKED_VALUE_BYTES);
    SumConcat(UnpackCharges(extra, r), [r * UNPACKED_VALUE_BYTES] + (values + [last]));
  }

  /** One plain stream of `n` transformed values. */
  lemma TransformedChargesSum(column: Column, transform: nat, n: nat, bytes: seq<byte>)
    requires !IsByteValued(column.logicalType) && !IsFloat(column.logicalType)
    ensures Sum(DenseCharges(column, PLAIN, One(transform, n, bytes).streams, n)) == TransformedCharge(column, n, |bytes|)
  {
    hide Sum, Elements;
    var streams := One(transform, n, bytes).streams;
    FindUnique(streams, 0);
    if StorageOf(column.logicalType).Bitmap? {
      SumRead(streams[0], [n * BOOLEAN_STREAM_BYTES]);
      SumOne(n * BOOLEAN_STREAM_BYTES);
    } else {
      var width := StorageOf(column.logicalType).width;
      SumRead(streams[0], [Elements(n, width)]);
      SumOne(Elements(n, width));
    }
  }

  lemma ElementsFit(count: nat, width: nat)
    requires count < U32 && width < U32
    ensures Elements(count, width) < U64
  {
    ElementsGrow(count, U32, width);
  }

  lemma ElementsGrow(a: nat, b: nat, width: nat)
    requires a <= b
    ensures Elements(a, width) <= Elements(b, width)
  {
  }

  lemma SplitChargesSum(column: Column, cells: seq<Cell>)
    requires Dense(column, cells) && 0 < |cells| < U32 && Supports(column.logicalType, ByteStreamSplit)
    requires EncodeSplit(column, cells).Ok?
    ensures Sum(DenseCharges(column, PLAIN, EncodeSplit(column, cells).value.streams, |cells|)) == SplitCharge(column, cells)
  {
    hide Admits, RawBytes, Booleans.Split, Booleans.Join, Sum, Elements;
    StorageIsCanonical(column.logicalType);
    SplitBytes(column, cells);
    var s := EncodeSplit(column, cells).value.streams[0];
    FindUnique(EncodeSplit(column, cells).value.streams, 0);
    var n := |cells|;
    match StorageOf(column.logicalType)
    case Integer(width, _) =>
      ElementsFit(n, width);
      SumRead(s, [Elements(n, width)] + [Elements(n, width)]);
      SumTwo(Elements(n, width), Elements(n, width));
    case FixedBytes(width) =>
      ElementsFit(n, width);
      SumRead(s, [Elements(n, width)] + [Elements(n, width + VALUE_HANDLE_BYTES)]);
      SumTwo(Elements(n, width), Elements(n, width + VALUE_HANDLE_BYTES));
    case _ =>
  }

  /** A split stream is as long as the values it splits, and joins back. */
  lemma SplitBytes(column: Column, cells: seq<Cell>)
    requires Dense(column, cells) && EncodeSplit(column, cells).Ok?
    ensures
      var s := EncodeSplit(column, cells).value.streams[0];
      var storage := StorageOf(column.logicalType);
      && (storage.Integer? || storage.FixedBytes?)
      && s.kind == VALUES && s.count == |cells| && s.transform == BYTE_STREAM_SPLIT && s.content.Good?
      && |s.content.bytes| == Elements(|cells|, storage.width) && CanonicalBytes(s, storage.width).Ok?
  {
    hide Admits, RawBytes, Booleans.Split, Booleans.Join;
    RawLength(column, cells);
    var width := StorageOf(column.logicalType).width;
    Booleans.SplitRoundTrip(RawBytes(column, cells), |cells|, width);
  }

  /** The charges of dense values sum to what was planned, whichever encoding holds them. */
  lemma DenseChargesSum(column: Column, cells: seq<Cell>, e: Encoding)
    requires Dense(column, cells) && 0 < |cells| < U32 && EncodeDense(column, cells, e).Ok?
    ensures
      var encoded := EncodeDense(column, cells, e).value;
      Sum(DenseCharges(column, encoded.layout, encoded.streams, |cells|)) == DenseCharge(column, cells, e)
  {
    hide Admits, RawStreams, DenseCharges, EncodeDictionary, EncodeRuns, EncodeSplit, Sum, ValuesCharge,
         Integers.EncodePacked, Integers.EncodeFrameOfReference, Integers.EncodeDelta, Integers.EncodeDeltaOfDelta,
         Booleans.EncodeRle, Booleans.EncodePackedBooleans, DictionaryCharge, RunsCharge, SplitCharge, TransformedCharge;
    StorageIsCanonical(column.logicalType);
    match e
    case Raw => RawChargesSum(column, cells);
    case Constant => ConstantChargesSum(column, cells);
    case ByteStreamSplit =>
      SplitChargesSum(column, cells);
      SplitLayout(column, cells);
    case Dictionary =>
      DictionaryChargesSum(column, cells);
      DictionaryLayout(column, cells);
    case RunLength =>
      RunsChargesSum(column, cells);
      RunsLayout(column, cells);
    case _ =>
      var s := EncodeDense(column, cells, e).value.streams[0];
      TransformedChargesSum(column, s.transform, |cells|, s.content.bytes);
  }

  lemma RawChargesSum(column: Column, cells: seq<Cell>)
    requires Dense(column, cells)
    ensures Sum(DenseCharges(column, PLAIN, RawStreams(column, cells, VALUES, LENGTHS), |cells|)) == ValuesCharge(column, cells)
  {
    hide Admits, RawStreams, ValuesCharges, Sum;
    OffersAlone(column, cells, VALUES, LENGTHS);
    ValuesChargesSum(column, cells, RawStreams(column, cells, VALUES, LENGTHS), VALUES, LENGTHS);
  }

  // ----------------------------------------------------------------- whole columns

  lemma ValuesChargesIgnoreValidity(column: Column, v: Stream, streams: seq<Stream>, valuesKind: nat, lengthsKind: nat)
    requires v.kind == VALIDITY && valuesKind != VALIDITY && lengthsKind != VALIDITY
    ensures forall count :: ValuesCharges(column, [v] + streams, valuesKind, lengthsKind, count)
                         == ValuesCharges(column, streams, valuesKind, lengthsKind, count)
  {
    hide RequiredStream, StoredCharges;
    FindSkips(v, streams, valuesKind);
    FindSkips(v, streams, lengthsKind);
  }

  /** A validity stream in front of the value streams changes nothing about their charges. */
  lemma ChargesIgnoreValidity(column: Column, layout: nat, v: Stream, streams: seq<Stream>, count: nat)
    requires v.kind == VALIDITY
    ensures DenseCharges(column, layout, [v] + streams, count) == DenseCharges(column, layout, streams, count)
  {
    hide RequiredStream, ReadValues, UnpackStream, UnpackCharges, ValuesCharges, RunLengthsFit, Elements, ValueBytes;
    FindSkips(v, streams, DICTIONARY_VALUES);
    FindSkips(v, streams, INDICES);
    FindSkips(v, streams, RUN_LENGTHS);
    ReadIgnoresValidity(column, v, streams, VALUES, LENGTHS);
    ReadIgnoresValidity(column, v, streams, DICTIONARY_VALUES, DICTIONARY_LENGTHS);
    ReadIgnoresValidity(column, v, streams, RUN_VALUES, LENGTHS);
    ValuesChargesIgnoreValidity(column, v, streams, VALUES, LENGTHS);
    ValuesChargesIgnoreValidity(column, v, streams, DICTIONARY_VALUES, DICTIONARY_LENGTHS);
    ValuesChargesIgnoreValidity(column, v, streams, RUN_VALUES, LENGTHS);
  }

  lemma SumParts(validity: seq<nat>, dense: seq<nat>, scatter: seq<nat>)
    ensures Sum(validity + (dense + scatter)) == Sum(validity) + Sum(dense) + Sum(scatter)
  {
    SumConcat(dense, scatter);
    SumConcat(validity, dense + scatter);
  }

  /** Everything known about decoding an encoded column: it succeeds, in three parts. */
  ghost predicate Parts(column: Column, cells: seq<Cell>, encoded: EncodedColumn, validity: Option<seq<bool>>) {
    && KindsFit(encoded.shape.layout, encoded.streams)
    && DecodeValidity(column, encoded.shape, encoded.streams, |cells|) == Ok(validity)
    && DecodePresent(column, encoded.shape, encoded.streams).Ok?
    && (validity.None? <==> |Present(cells)| == |cells|)
  }

  lemma ColumnParts(column: Column, cells: seq<Cell>, e: Encoding, rle: bool) returns (validity: Option<seq<bool>>)
    requires Admissible(column, cells) && 0 < |cells| < U32 && EncodeColumn(column, cells, e, rle).Ok?
    ensures Parts(column, cells, EncodeColumn(column, cells, e, rle).value, validity)
  {
    hide Admits, EncodeDense, DecodeDense, ValidityStream, Present, Booleans.Decode, TextFits, Place;
    PresentIsDense(column, cells);
    ScatterRestores(cells);
    var dense := Present(cells);
    if !column.nullable {
      NullsNeedNullable(column, cells);
    }
    var encoded := EncodeColumn(column, cells, e, rle).value;
    validity := if |dense| == |cells| then None else Some(ValidityOf(cells));
    if dense != [] {
      DenseRoundTrip(column, dense, e);
      EncodedKinds(column, dense, e);
      var values := EncodeDense(column, dense, e).value;
      if |dense| == |cells| {
        FindNone(values.streams, VALIDITY);
      } else {
        ValidityRoundTrip(ValidityOf(cells), rle);
        var v := ValidityStream(ValidityOf(cells), rle).value;
        DenseIgnoresValidity(column, values.layout, v, values.streams, |dense|);
        FindUnique(encoded.streams, 0);
      }
    }
  }

  lemma ValiditySum(column: Column, cells: seq<Cell>, e: Encoding, rle: bool)
    requires Admissible(column, cells) && 0 < |cells| < U32 && EncodeColumn(column, cells, e, rle).Ok?
    ensures
      var encoded := EncodeColumn(column, cells, e, rle).value;
      Sum(ValidityCharges(column, encoded.shape, encoded.streams, |cells|)) == ValidityCharge(cells, rle)
  {
    hide Admits, EncodeDense, ValidityStream, Present, Sum;
    PresentIsDense(column, cells);
    var dense := Present(cells);
    var encoded := EncodeColumn(column, cells, e, rle).value;
    SumOne(|cells| * BOOLEAN_VALUE_BYTES);
    if !column.nullable {
      NullsNeedNullable(column, cells);
    }
    if dense != [] {
      EncodedKinds(column, dense, e);
      var values := EncodeDense(column, dense, e).value;
      if |dense| == |cells| {
        FindNone(values.streams, VALIDITY);
      } else {
        ValidityRoundTrip(ValidityOf(cells), rle);
        var v := ValidityStream(ValidityOf(cells), rle).value;
        FindUnique(encoded.streams, 0);
        SumRead(v, [|cells| * BOOLEAN_STREAM_BYTES]);
        SumOne(|cells| * BOOLEAN_STREAM_BYTES);
      }
    }
  }

  lemma PresentSum(column: Column, cells: seq<Cell>, e: Encoding, rle: bool)
    requires Admissible(column, cells) && 0 < |cells| < U32 && EncodeColumn(column, cells, e, rle).Ok?
    ensures Dense(column, Present(cells))
    ensures
      var encoded := EncodeColumn(column, cells, e, rle).value;
      Sum(PresentCharges(column, encoded.shape, encoded.streams))
      == if Present(cells) == [] then 0 else DenseCharge(column, Present(cells), e)
  {
    hide Admits, EncodeDense, ValidityStream, Present, Sum, DenseCharges, DenseCharge;
    PresentIsDense(column, cells);
    var dense := Present(cells);
    SumOne(0);
    if dense != [] {
      DenseChargesSum(column, dense, e);
      var values := EncodeDense(column, dense, e).value;
      if |dense| < |cells| {
        ValidityRoundTrip(ValidityOf(cells), rle);
        ChargesIgnoreValidity(column, values.layout, ValidityStream(ValidityOf(cells), rle).value, values.streams, |dense|);
      }
    }
  }

  /** Decoding an encoded column charges exactly what was planned for it. */
  lemma ColumnChargesSum(column: Column, cells: seq<Cell>, e: Encoding, rle: bool)
    requires Admissible(column, cells) && 0 < |cells| < U32 && EncodeColumn(column, cells, e, rle).Ok?
    ensures
      var encoded := EncodeColumn(column, cells, e, rle).value;
      Sum(ColumnCharges(column, encoded.shape, encoded.streams, |cells|)) == ColumnCharge(column, cells, e, rle)
  {
    hide Admits, EncodeColumn, Present, Sum, DenseCharge, ValidityCharges, PresentCharges, ValidityCharge, Elements,
         DecodeValidity, DecodePresent, KindsFit;
    var encoded := EncodeColumn(column, cells, e, rle).value;
    var validity := ColumnParts(column, cells, e, rle);
    ValiditySum(column, cells, e, rle);
    PresentSum(column, cells, e, rle);
    var scatter := ScatterCharges(column, validity, |cells|);
    SumOne(Elements(|cells|, SlotBytes(column.logicalType)));
    SumParts(ValidityCharges(column, encoded.shape, encoded.streams, |cells|),
             PresentCharges(column, encoded.shape, encoded.streams), scatter);
  }
}
