/**
 * What decoding a column charges against its memory allowances, in the order the charges are
 * made.  A decode that fails has made the charges up to its failure, so a list of charges ends
 * where the decode ends.
 */
module Charges {
  import opened Core
  import opened Bytes
  import opened Schema
  import opened Rows
  import opened Layouts
  import opened Packing
  import opened ColumnCodec
  import Integers
  import Booleans

  const BOOLEAN_VALUE_BYTES: nat := 1
  const UNPACKED_VALUE_BYTES: nat := 8
  const LENGTH_VALUE_BYTES: nat := 4
  const VALUE_HANDLE_BYTES: nat := 24

  /** Boolean streams may be run-length coded, which unpacks run lengths before expanding them. */
  const BOOLEAN_STREAM_BYTES: nat := BOOLEAN_VALUE_BYTES + UNPACKED_VALUE_BYTES

  predicate IsByteValued(t: LogicalType) {
    StorageOf(t).FixedBytes? || StorageOf(t).VariableBytes?
  }

  /** What one logical position costs when a value is moved into it. */
  function SlotBytes(t: LogicalType): nat {
    match StorageOf(t)
    case Bitmap => BOOLEAN_VALUE_BYTES
    case Integer(width, _) => width
    case FixedBytes(_) => VALUE_HANDLE_BYTES
    case VariableBytes => VALUE_HANDLE_BYTES
  }

  function BlobLength(cell: Cell): nat {
    match cell
    case Blob(bytes) => |bytes|
    case _ => 0
  }

  function LongestOf(cells: seq<Cell>): (n: nat)
    ensures forall i :: 0 <= i < |cells| ==> BlobLength(cells[i]) <= n
  {
    if cells == [] then 0
    else
      var m := LongestOf(cells[..|cells| - 1]);
      var last := BlobLength(cells[|cells| - 1]);
      if last > m then last else m
  }

  /** The most one value can cost when it is copied, as every layout expansion copies it. */
  function ValueBytes(t: LogicalType, cells: seq<Cell>): nat {
    if IsByteValued(t) then LongestOf(cells) + VALUE_HANDLE_BYTES else SlotBytes(t)
  }

  /** Whether an array takes the dense vector as it stands. */
  predicate MovesIntoPlace(column: Column, validity: Option<seq<bool>>) {
    validity.None? && !IsText(column.logicalType)
  }

  // ------------------------------------------------------------- charges of a decode

  /** The bytes of `count` elements of `width` bytes each. */
  function Elements(count: nat, width: nat): nat {
    count * width
  }

  /** Read a stream, then pay for what it decodes into. */
  function ReadThen(s: Stream, later: seq<nat>): seq<nat> {
    s.ReadCharges() + if s.content.Good? then later else []
  }

  function ValidityCharges(column: Column, shape: Shape, streams: seq<Stream>, rows: nat): seq<nat> {
    var found := FindStream(streams, VALIDITY);
    if found.Err? || !column.nullable then []
    else if shape.implicitValidity then
      if found.value.None? && shape.nullCount != 0 && shape.nullCount == rows then [rows * BOOLEAN_VALUE_BYTES] else []
    else if found.value.None? || found.value.value.count != rows then []
    else ReadThen(found.value.value, [rows * BOOLEAN_STREAM_BYTES])
  }

  /**
   * A fixed-width stream that is never read as numbers: undoing a split costs its own buffer,
   * unless its size is not even a 64-bit number, which is corruption.
   */
  function CanonicalCharges(s: Stream, width: nat, each: nat): seq<nat> {
    ReadThen(s, (if s.transform == BYTE_STREAM_SPLIT && Elements(s.count, width) < U64 then [Elements(s.count, width)] else [])
                + if CanonicalBytes(s, width).Ok? then [Elements(s.count, each)] else [])
  }

  function StoredCharges(t: LogicalType, s: Stream): seq<nat> {
    match StorageOf(t)
    case Bitmap => ReadThen(s, [s.count * BOOLEAN_STREAM_BYTES])
    case Integer(width, _) => if IsFloat(t) then CanonicalCharges(s, width, width) else ReadThen(s, [Elements(s.count, width)])
    case FixedBytes(width) => CanonicalCharges(s, width, width + VALUE_HANDLE_BYTES)
    case VariableBytes => []
  }

  function LengthsCharges(streams: seq<Stream>, kind: nat, count: nat): seq<nat> {
    var found := RequiredStream(streams, kind);
    if found.Err? || found.value.count != count then [] else ReadThen(found.value, [count * LENGTH_VALUE_BYTES])
  }

  function ValuesCharges(column: Column, streams: seq<Stream>, valuesKind: nat, lengthsKind: nat, count: nat): seq<nat> {
    var found := RequiredStream(streams, valuesKind);
    if found.Err? || found.value.count != count then []
    else
      var s := found.value;
      if !StorageOf(column.logicalType).VariableBytes? then StoredCharges(column.logicalType, s)
      else if s.transform != RAW then []
      else
        LengthsCharges(streams, lengthsKind, count)
        + if ReadLengths(streams, lengthsKind, count).Err? then []
          else ReadThen(s, match s.content case Good(bytes) => [|bytes|, count * VALUE_HANDLE_BYTES] case _ => [])
  }

  function UnpackCharges(s: Stream, count: nat): seq<nat> {
    if s.transform != BIT_PACKED then [] else ReadThen(s, [count * UNPACKED_VALUE_BYTES])
  }

  function ConstantCharges(column: Column, streams: seq<Stream>, count: nat): seq<nat> {
    var stored := ReadValues(column, streams, VALUES, LENGTHS, 1);
    ValuesCharges(column, streams, VALUES, LENGTHS, 1)
    + if stored.Ok? then [Elements(count, ValueBytes(column.logicalType, stored.value))] else []
  }

  function DictionaryValuesCharges(column: Column, streams: seq<Stream>, indices: seq<nat>): seq<nat> {
    var found := RequiredStream(streams, DICTIONARY_VALUES);
    if found.Err? || found.value.count == 0 then []
    else
      var values := ReadValues(column, streams, DICTIONARY_VALUES, DICTIONARY_LENGTHS, found.value.count);
      ValuesCharges(column, streams, DICTIONARY_VALUES, DICTIONARY_LENGTHS, found.value.count)
      + if values.Ok? then [Elements(|indices|, ValueBytes(column.logicalType, values.value))] else []
  }

  function DictionaryCharges(column: Column, streams: seq<Stream>, count: nat): seq<nat> {
    var found := RequiredStream(streams, INDICES);
    if found.Err? || found.value.count != count then []
    else
      var indices := UnpackStream(found.value, count);
      UnpackCharges(found.value, count)
      + if indices.Ok? then DictionaryValuesCharges(column, streams, indices.value) else []
  }

  function RunValuesCharges(column: Column, streams: seq<Stream>, lengths: seq<nat>, count: nat): seq<nat> {
    if !RunLengthsFit(lengths, count) then []
    else
      var values := ReadValues(column, streams, RUN_VALUES, LENGTHS, |lengths|);
      ValuesCharges(column, streams, RUN_VALUES, LENGTHS, |lengths|)
      + if values.Ok? then [Elements(count, ValueBytes(column.logicalType, values.value))] else []
  }

  /** Run lengths are unpacked, then copied to machine words, before they are checked. */
  function RunCharges(column: Column, streams: seq<Stream>, count: nat): seq<nat> {
    var found := RequiredStream(streams, RUN_LENGTHS);
    if found.Err? then []
    else
      var lengths := UnpackStream(found.value, found.value.count);
      UnpackCharges(found.value, found.value.count)
      + if lengths.Ok? then
          [found.value.count * UNPACKED_VALUE_BYTES] + RunValuesCharges(column, streams, lengths.value, count)
        else []
  }

  function DenseCharges(column: Column, layout: nat, streams: seq<Stream>, count: nat): seq<nat> {
    if layout == PLAIN then ValuesCharges(column, streams, VALUES, LENGTHS, count)
    else if layout == CONSTANT then ConstantCharges(column, streams, count)
    else if layout == DICTIONARY then DictionaryCharges(column, streams, count)
    else if layout == RUN_LENGTH then RunCharges(column, streams, count)
    else []
  }

  function PresentCharges(column: Column, shape: Shape, streams: seq<Stream>): seq<nat> {
    if shape.denseCount != 0 then DenseCharges(column, shape.layout, streams, shape.denseCount) else []
  }

  function ScatterCharges(column: Column, validity: Option<seq<bool>>, rows: nat): seq<nat> {
    if MovesIntoPlace(column, validity) then [] else [Elements(rows, SlotBytes(column.logicalType))]
  }

  /** Every charge decoding a column makes before it ends or fails. */
  function ColumnCharges(column: Column, shape: Shape, streams: seq<Stream>, rows: nat): seq<nat> {
    if !KindsFit(shape.layout, streams) then []
    else
      var validity := DecodeValidity(column, shape, streams, rows);
      ValidityCharges(column, shape, streams, rows)
      + if validity.Err? then []
        else
          PresentCharges(column, shape, streams)
          + if DecodePresent(column, shape, streams).Err? then [] else ScatterCharges(column, validity.value, rows)
  }

  // ------------------------------------------------------------------ allowances

  lemma SumAppend(charges: seq<nat>, charge: nat)
    ensures Sum(charges + [charge]) == Sum(charges) + charge
  {
    assert (charges + [charge])[..|charges|] == charges;
  }

  lemma {:induction false} SumConcat(a: seq<nat>, b: seq<nat>)
    ensures Sum(a + b) == Sum(a) + Sum(b)
    decreases |b|
  {
    if b == [] {
      assert a + b == a;
    } else {
      var n := |b| - 1;
      assert (a + b)[..|a| + n] == a + b[..n];
      SumConcat(a, b[..n]);
    }
  }

  lemma SumOne(charge: nat)
    ensures Sum([charge]) == charge && Sum([]) == 0
  {
    assert [charge][..0] == [];
  }

  /** The charges made before the first one an allowance does not cover. */
  function Made(charges: seq<nat>, room: nat): (made: seq<nat>)
    ensures made <= charges
  {
    if charges == [] || charges[0] > room then [] else [charges[0]] + Made(charges[1..], room - charges[0])
  }

  lemma SumFirst(charges: seq<nat>)
    requires charges != []
    ensures Sum(charges) == charges[0] + Sum(charges[1..])
  {
    SumConcat([charges[0]], charges[1..]);
    SumOne(charges[0]);
    assert [charges[0]] + charges[1..] == charges;
  }

  /** All charges are made exactly when their sum fits; what is made always fits. */
  lemma {:induction false} MadeAll(charges: seq<nat>, room: nat)
    ensures Made(charges, room) == charges <==> Sum(charges) <= room
    ensures Sum(Made(charges, room)) <= room
  {
    hide Sum;
    SumOne(0);
    if charges != [] {
      SumFirst(charges);
      if charges[0] <= room {
        MadeAll(charges[1..], room - charges[0]);
        var made := Made(charges, room);
        SumFirst(made);
        assert made[1..] == Made(charges[1..], room - charges[0]);
        assert charges == [charges[0]] + charges[1..];
      }
    }
  }

  /** Paying one list and then another is paying their concatenation. */
  lemma {:induction false} MadeConcat(a: seq<nat>, b: seq<nat>, room: nat)
    ensures Sum(a) <= room ==> Made(a + b, room) == a + Made(b, room - Sum(a))
    ensures Sum(a) > room ==> Made(a + b, room) == Made(a, room)
    decreases |a|
  {
    hide Sum;
    SumOne(0);
    if a == [] {
      assert a + b == b;
    } else {
      SumFirst(a);
      assert (a + b)[1..] == a[1..] + b && (a + b)[0] == a[0];
      if a[0] <= room {
        MadeConcat(a[1..], b, room - a[0]);
        assert a == [a[0]] + a[1..];
      }
    }
  }
}
