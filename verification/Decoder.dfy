/** One block decode in progress: every buffer is paid for before it is filled. */
module Decoder {
  import opened Core
  import opened Bytes
  import opened Limits
  import opened Schema
  import opened Rows
  import opened Layouts
  import opened Packing
  import opened ColumnCodec
  import opened Charges
  import opened Tables
  import opened StreamRanges
  import opened Extrema
  import opened Blocks
  import opened Budgets
  import Integers
  import Booleans
  import Transforms

  // ------------------------------------------------------------------- streams

  /** The stored bytes of a stream, paid for before their checksum is known. */
  method StreamBytes(s: Stream, budget: Budget) returns (r: Result<seq<byte>>)
    requires budget.Valid()
    modifies budget`remaining, budget`charges, budget.Shared()`remainingBytes, budget.Shared()`byteCharges
    ensures budget.Valid() && Paid(old(budget.Now()), budget.Now(), s.ReadCharges(), r, s.Bytes())
  {
    hide Paid;
    ghost var l0 := budget.Now();
    match s.content {
      case Refused(kind) =>
        r := Err(kind);
        PaidNothing(l0, r);
      case Damaged(length) =>
        var charged := budget.Charge(length);
        r := if charged.Err? then Err(charged.kind) else Err(Corruption);
        PaidMaps(l0, budget.Now(), [length], charged, Ok(()), r, s.Bytes());
      case Good(bytes) =>
        var charged := budget.Charge(|bytes|);
        r := if charged.Err? then Err(charged.kind) else Ok(bytes);
        PaidMaps(l0, budget.Now(), [|bytes|], charged, Ok(()), r, s.Bytes());
    }
  }

  /** The stored bytes, once what they decode into is paid for too. */
  method Payload(s: Stream, decoded: nat, budget: Budget) returns (r: Result<seq<byte>>)
    requires budget.Valid()
    modifies budget`remaining, budget`charges, budget.Shared()`remainingBytes, budget.Shared()`byteCharges
    ensures budget.Valid() && Paid(old(budget.Now()), budget.Now(), ReadThen(s, [decoded]), r, s.Bytes())
  {
    hide Paid;
    ghost var l0 := budget.Now();
    r := StreamBytes(s, budget);
    ghost var l1, read := budget.Now(), r;
    if r.Err? {
      PaidFails(l0, l1, s.ReadCharges(), r, s.Bytes(), if s.content.Good? then [decoded] else [], s.Bytes());
      return;
    }
    PaidIsDue(l0, l1, s.ReadCharges(), r, s.Bytes());
    var charged := budget.Charge(decoded);
    r := if charged.Err? then Err(charged.kind) else r;
    PaidMaps(l1, budget.Now(), [decoded], charged, Ok(()), r, s.Bytes());
    PaidThen(l0, l1, budget.Now(), s.ReadCharges(), read, s.Bytes(), [decoded], r, s.Bytes());
  }

  /** A step that succeeded did so with its own outcome. */
  lemma PaidIsDue<T>(l0: Ledger, l1: Ledger, due: seq<nat>, r: Result<T>, outcome: Result<T>)
    requires Paid(l0, l1, due, r, outcome) && r.Ok?
    ensures outcome == r
  {
  }

  method Lengths(streams: seq<Stream>, kind: nat, count: nat, budget: Budget) returns (r: Result<seq<nat>>)
    requires budget.Valid()
    modifies budget`remaining, budget`charges, budget.Shared()`remainingBytes, budget.Shared()`byteCharges
    ensures budget.Valid()
    ensures Paid(old(budget.Now()), budget.Now(), LengthsCharges(streams, kind, count), r, ReadLengths(streams, kind, count))
  {
    hide Paid, Integers.Decode, ReadThen;
    ghost var l0 := budget.Now();
    var found := RequiredStream(streams, kind);
    if found.Err? || found.value.count != count {
      r := Err(if found.Err? then found.kind else Corruption);
      PaidNothing(l0, r);
      return;
    }
    var s := found.value;
    var payload := Payload(s, count * LENGTH_VALUE_BYTES, budget);
    if payload.Err? {
      r := Err(payload.kind);
    } else {
      var numbers := Integers.Decode(payload.value, s.count, 4, false, s.transform);
      r := if numbers.Err? then Err(numbers.kind)
           else if Integers.AllInRange(numbers.value, 4, false) then Ok(AsLengths(numbers.value)) else Err(Corruption);
      PaidIsDue(l0, budget.Now(), ReadThen(s, [count * LENGTH_VALUE_BYTES]), payload, s.Bytes());
    }
    PaidMaps(l0, budget.Now(), ReadThen(s, [count * LENGTH_VALUE_BYTES]), payload, s.Bytes(), r, ReadLengths(streams, kind, count));
  }

  /** Dictionary indices and run lengths. */
  method Unpacked(s: Stream, count: nat, budget: Budget) returns (r: Result<seq<nat>>)
    requires budget.Valid()
    modifies budget`remaining, budget`charges, budget.Shared()`remainingBytes, budget.Shared()`byteCharges
    ensures budget.Valid() && Paid(old(budget.Now()), budget.Now(), UnpackCharges(s, count), r, UnpackStream(s, count))
  {
    hide Paid, Unpack, ReadThen;
    ghost var l0 := budget.Now();
    if s.transform != BIT_PACKED {
      r := Err(UnsupportedFrame);
      PaidNothing(l0, r);
      return;
    }
    var payload := Payload(s, count * UNPACKED_VALUE_BYTES, budget);
    if payload.Err? {
      r := Err(payload.kind);
    } else {
      r := Transforms.BitUnpack(payload.value, count);
      PaidIsDue(l0, budget.Now(), ReadThen(s, [count * UNPACKED_VALUE_BYTES]), payload, s.Bytes());
    }
    PaidMaps(l0, budget.Now(), ReadThen(s, [count * UNPACKED_VALUE_BYTES]), payload, s.Bytes(), r, UnpackStream(s, count));
  }

  /** Canonical bytes from stored ones: only a split needs a buffer of its own. */
  method Canonical(s: Stream, payload: seq<byte>, width: nat, budget: Budget) returns (r: Result<seq<byte>>)
    requires budget.Valid() && s.content == Good(payload)
    modifies budget`remaining, budget`charges, budget.Shared()`remainingBytes, budget.Shared()`byteCharges
    ensures budget.Valid()
    ensures Paid(old(budget.Now()), budget.Now(), SplitDue(s, width), r, CanonicalBytes(s, width))
  {
    hide Paid, Booleans.Join, Elements;
    ghost var l0 := budget.Now();
    if s.transform != BYTE_STREAM_SPLIT {
      r := if s.transform == RAW && |payload| == s.count * width then Ok(payload) else Err(Corruption);
      PaidNothing(l0, r);
      return;
    }
    var charged: Result<()> := Ok(());
    if Elements(s.count, width) < U64 {
      charged := budget.Charge(Elements(s.count, width));
    } else {
      PaidNothing<()>(l0, Ok(()));
    }
    if charged.Err? {
      r := Err(charged.kind);
    } else {
      var restored := Transforms.ByteStreamSplit(payload, s.count, width);
      r := if restored.Err? then Err(restored.kind)
           else if restored.value.Length == s.count * width then Ok(restored.value[..]) else Err(Corruption);
    }
    PaidMaps(l0, budget.Now(), SplitDue(s, width), charged, Ok(()), r, CanonicalBytes(s, width));
  }

  function SplitDue(s: Stream, width: nat): seq<nat> {
    if s.transform == BYTE_STREAM_SPLIT && Elements(s.count, width) < U64 then [Elements(s.count, width)] else []
  }

  /** Canonical bytes, with the values they become paid for. */
  method CanonicalPayload(s: Stream, width: nat, each: nat, budget: Budget) returns (r: Result<seq<byte>>)
    requires budget.Valid()
    modifies budget`remaining, budget`charges, budget.Shared()`remainingBytes, budget.Shared()`byteCharges
    ensures budget.Valid()
    ensures Paid(old(budget.Now()), budget.Now(), CanonicalCharges(s, width, each), r, CanonicalBytes(s, width))
  {
    hide Paid, Booleans.Join, Elements, CanonicalBytes, SplitDue;
    ghost var l0, canonical := budget.Now(), CanonicalBytes(s, width);
    ghost var last := if canonical.Ok? then [Elements(s.count, each)] else [];
    CanonicalParts(s, width, each);
    var payload := StreamBytes(s, budget);
    ghost var l1 := budget.Now();
    if payload.Err? {
      PaidFails(l0, l1, s.ReadCharges(), payload, s.Bytes(), if s.content.Good? then SplitDue(s, width) + last else [], canonical);
      return Err(payload.kind);
    }
    PaidIsDue(l0, l1, s.ReadCharges(), payload, s.Bytes());
    r := Canonical(s, payload.value, width, budget);
    ghost var l2, bytes := budget.Now(), r;
    if r.Err? {
      PaidFails(l1, l2, SplitDue(s, width), r, canonical, last, canonical);
    } else {
      PaidIsDue(l1, l2, SplitDue(s, width), r, canonical);
      var charged := budget.Charge(Elements(s.count, each));
      r := if charged.Err? then Err(charged.kind) else r;
      PaidMaps(l2, budget.Now(), last, charged, Ok(()), r, canonical);
      PaidThen(l1, l2, budget.Now(), SplitDue(s, width), bytes, canonical, last, r, canonical);
    }
    PaidThen(l0, l1, budget.Now(), s.ReadCharges(), payload, s.Bytes(), SplitDue(s, width) + last, r, canonical);
  }

  lemma CanonicalParts(s: Stream, width: nat, each: nat)
    ensures CanonicalCharges(s, width, each)
         == s.ReadCharges()
            + if s.content.Good? then SplitDue(s, width) + if CanonicalBytes(s, width).Ok? then [Elements(s.count, each)] else []
              else []
    ensures !s.content.Good? ==> CanonicalBytes(s, width) == Err(s.Bytes().kind)
  {
  }

  /** One stream of stored values in the column's own type. */
  method Stored(t: LogicalType, s: Stream, budget: Budget) returns (r: Result<seq<Cell>>)
    requires budget.Valid()
    modifies budget`remaining, budget`charges, budget.Shared()`remainingBytes, budget.Shared()`byteCharges
    ensures budget.Valid() && Paid(old(budget.Now()), budget.Now(), StoredCharges(t, s), r, StoredValues(t, s))
  {
    hide Paid, Elements, CanonicalBytes, CanonicalCharges, ReadThen, Integers.Decode, Booleans.Decode, Integers.Chunks, Chunked;
    ghost var l0 := budget.Now();
    match StorageOf(t) {
      case Bitmap =>
        var payload := Payload(s, s.count * BOOLEAN_STREAM_BYTES, budget);
        if payload.Err? {
          r := Err(payload.kind);
        } else {
          PaidIsDue(l0, budget.Now(), StoredCharges(t, s), payload, s.Bytes());
          var flags := Booleans.Decode(payload.value, s.count, s.transform);
          r := if flags.Err? then Err(flags.kind) else Ok(FlagCells(flags.value));
        }
        PaidMaps(l0, budget.Now(), StoredCharges(t, s), payload, s.Bytes(), r, StoredValues(t, s));
      case Integer(width, signed) =>
        if IsFloat(t) {
          var bytes := CanonicalPayload(s, width, width, budget);
          if bytes.Ok? {
            PaidIsDue(l0, budget.Now(), StoredCharges(t, s), bytes, CanonicalBytes(s, width));
          }
          r := if bytes.Err? then Err(bytes.kind) else Ok(NumberCells(Integers.Chunks(bytes.value, s.count, width, false)));
          PaidMaps(l0, budget.Now(), StoredCharges(t, s), bytes, CanonicalBytes(s, width), r, StoredValues(t, s));
        } else {
          var payload := Payload(s, Elements(s.count, width), budget);
          if payload.Err? {
            r := Err(payload.kind);
          } else {
            PaidIsDue(l0, budget.Now(), StoredCharges(t, s), payload, s.Bytes());
            var numbers := Integers.Decode(payload.value, s.count, width, signed, s.transform);
            r := if numbers.Err? then Err(numbers.kind) else Ok(NumberCells(numbers.value));
          }
          PaidMaps(l0, budget.Now(), StoredCharges(t, s), payload, s.Bytes(), r, StoredValues(t, s));
        }
      case FixedBytes(width) =>
        var bytes := CanonicalPayload(s, width, width + VALUE_HANDLE_BYTES, budget);
        if bytes.Ok? {
          PaidIsDue(l0, budget.Now(), StoredCharges(t, s), bytes, CanonicalBytes(s, width));
        }
        r := if bytes.Err? then Err(bytes.kind) else Ok(BlobCells(Chunked(bytes.value, s.count, width)));
        PaidMaps(l0, budget.Now(), StoredCharges(t, s), bytes, CanonicalBytes(s, width), r, StoredValues(t, s));
      case VariableBytes =>
        r := Err(UnsupportedFrame);
        PaidNothing(l0, r);
    }
  }

  /** Variable-width values: their lengths, their bytes, then a handle each. */
  method ByteValues(streams: seq<Stream>, s: Stream, lengthsKind: nat, count: nat, budget: Budget)
      returns (r: Result<seq<Cell>>)
    requires budget.Valid()
    modifies budget`remaining, budget`charges, budget.Shared()`remainingBytes, budget.Shared()`byteCharges
    ensures budget.Valid()
    ensures Paid(old(budget.Now()), budget.Now(), ByteDue(streams, s, lengthsKind, count), r, ByteCells(streams, s, lengthsKind, count))
  {
    hide Paid, SplitValues, LengthsCharges, ReadLengths;
    ghost var l0, outcome := budget.Now(), ByteCells(streams, s, lengthsKind, count);
    ghost var first := LengthsCharges(streams, lengthsKind, count);
    ghost var later := if ReadLengths(streams, lengthsKind, count).Err? then [] else HandlesDue(s, count);
    var lengths := Lengths(streams, lengthsKind, count, budget);
    ghost var l1 := budget.Now();
    if lengths.Err? {
      PaidFails(l0, l1, first, lengths, ReadLengths(streams, lengthsKind, count), later, outcome);
      return Err(lengths.kind);
    }
    PaidIsDue(l0, l1, first, lengths, ReadLengths(streams, lengthsKind, count));
    r := Handles(s, lengths.value, count, budget);
    PaidThen(l0, l1, budget.Now(), first, lengths, ReadLengths(streams, lengthsKind, count), later, r, outcome);
  }

  function HandlesDue(s: Stream, count: nat): seq<nat> {
    ReadThen(s, match s.content case Good(bytes) => [|bytes|, count * VALUE_HANDLE_BYTES] case _ => [])
  }

  function ByteDue(streams: seq<Stream>, s: Stream, lengthsKind: nat, count: nat): seq<nat> {
    LengthsCharges(streams, lengthsKind, count) + if ReadLengths(streams, lengthsKind, count).Err? then [] else HandlesDue(s, count)
  }

  function BlobsFrom(s: Stream, lengths: seq<nat>): Result<seq<Cell>> {
    var payload :- s.Bytes();
    var blobs :- SplitValues(payload, lengths);
    Ok(BlobCells(blobs))
  }

  function ByteCells(streams: seq<Stream>, s: Stream, lengthsKind: nat, count: nat): Result<seq<Cell>> {
    var lengths :- ReadLengths(streams, lengthsKind, count);
    BlobsFrom(s, lengths)
  }

  /** Cut the bytes into values once a copy of them and a handle each are paid for. */
  method Handles(s: Stream, lengths: seq<nat>, count: nat, budget: Budget) returns (r: Result<seq<Cell>>)
    requires budget.Valid()
    modifies budget`remaining, budget`charges, budget.Shared()`remainingBytes, budget.Shared()`byteCharges
    ensures budget.Valid() && Paid(old(budget.Now()), budget.Now(), HandlesDue(s, count), r, BlobsFrom(s, lengths))
  {
    hide Paid, SplitValues;
    ghost var l0, outcome := budget.Now(), BlobsFrom(s, lengths);
    ghost var read := s.ReadCharges();
    ghost var copy := match s.content case Good(bytes) => [|bytes|] case _ => [];
    ghost var handles := if s.content.Good? then [count * VALUE_HANDLE_BYTES] else [];
    assert HandlesDue(s, count) == read + (copy + handles);
    var payload := StreamBytes(s, budget);
    ghost var l1 := budget.Now();
    if payload.Err? {
      PaidFails(l0, l1, read, payload, s.Bytes(), copy + handles, outcome);
      return Err(payload.kind);
    }
    PaidIsDue(l0, l1, read, payload, s.Bytes());
    var copied := budget.Charge(|payload.value|);
    ghost var l2 := budget.Now();
    if copied.Err? {
      r := Err(copied.kind);
      PaidFails(l1, l2, copy, copied, Ok(()), handles, outcome);
    } else {
      var charged := budget.Charge(count * VALUE_HANDLE_BYTES);
      if charged.Err? {
        r := Err(charged.kind);
      } else {
        var blobs := Transforms.SplitLoop(payload.value, lengths);
        r := if blobs.Err? then Err(blobs.kind) else Ok(BlobCells(blobs.value));
      }
      PaidMaps(l2, budget.Now(), handles, charged, Ok(()), r, outcome);
      PaidThen(l1, l2, budget.Now(), copy, copied, Ok(()), handles, r, outcome);
    }
    PaidThen(l0, l1, budget.Now(), read, payload, s.Bytes(), copy + handles, r, outcome);
  }

  /** A values stream of `count` elements, with its lengths when the type needs them. */
  method Values(column: Column, streams: seq<Stream>, valuesKind: nat, lengthsKind: nat, count: nat, budget: Budget)
      returns (r: Result<seq<Cell>>)
    requires budget.Valid()
    modifies budget`remaining, budget`charges, budget.Shared()`remainingBytes, budget.Shared()`byteCharges
    ensures budget.Valid()
    ensures Paid(old(budget.Now()), budget.Now(), ValuesCharges(column, streams, valuesKind, lengthsKind, count), r,
                 ReadValues(column, streams, valuesKind, lengthsKind, count))
  {
    hide Paid, SplitValues, LengthsCharges, ReadLengths, StoredCharges, StoredValues;
    ghost var l0 := budget.Now();
    var found := RequiredStream(streams, valuesKind);
    if found.Err? || found.value.count != count {
      r := Err(if found.Err? then found.kind else Corruption);
      PaidNothing(l0, r);
    } else if !StorageOf(column.logicalType).VariableBytes? {
      r := Stored(column.logicalType, found.value, budget);
    } else if found.value.transform != RAW {
      r := Err(Corruption);
      PaidNothing(l0, r);
    } else {
      r := ByteValues(streams, found.value, lengthsKind, count, budget);
    }
  }

  // ------------------------------------------------------------------- layouts

  /** Constant layout: one stored value, repeated. */
  method ConstantLayout(column: Column, streams: seq<Stream>, count: nat, budget: Budget) returns (r: Result<seq<Cell>>)
    requires budget.Valid()
    modifies budget`remaining, budget`charges, budget.Shared()`remainingBytes, budget.Shared()`byteCharges
    ensures budget.Valid()
    ensures Paid(old(budget.Now()), budget.Now(), DenseCharges(column, CONSTANT, streams, count), r,
                 DecodeDense(column, CONSTANT, streams, count))
  {
    hide Paid, ValuesCharges, ReadValues, Elements, ValueBytes;
    ghost var l0, outcome := budget.Now(), DecodeDense(column, CONSTANT, streams, count);
    ghost var stored := ReadValues(column, streams, VALUES, LENGTHS, 1);
    ghost var first := ValuesCharges(column, streams, VALUES, LENGTHS, 1);
    ghost var later := if stored.Ok? then [Elements(count, ValueBytes(column.logicalType, stored.value))] else [];
    var values := Values(column, streams, VALUES, LENGTHS, 1, budget);
    ghost var l1 := budget.Now();
    if values.Err? {
      PaidFails(l0, l1, first, values, stored, later, outcome);
      return Err(values.kind);
    }
    PaidIsDue(l0, l1, first, values, stored);
    r := ExpandConstant(column.logicalType, values.value, count, budget);
    PaidThen(l0, l1, budget.Now(), first, values, stored, later, r, outcome);
  }

  /** The dictionary itself, then the values its indices select. */
  method DictionaryValues(column: Column, streams: seq<Stream>, indices: seq<nat>, budget: Budget) returns (r: Result<seq<Cell>>)
    requires budget.Valid()
    modifies budget`remaining, budget`charges, budget.Shared()`remainingBytes, budget.Shared()`byteCharges
    ensures budget.Valid()
    ensures Paid(old(budget.Now()), budget.Now(), DictionaryValuesCharges(column, streams, indices), r,
                 Selected(column, streams, indices))
  {
    hide Paid, ValuesCharges, ReadValues, Elements, ValueBytes, Lookup;
    ghost var l0, outcome := budget.Now(), Selected(column, streams, indices);
    var found := RequiredStream(streams, DICTIONARY_VALUES);
    if found.Err? || found.value.count == 0 {
      r := Err(if found.Err? then found.kind else Corruption);
      PaidNothing(l0, r);
      return;
    }
    var n := found.value.count;
    ghost var stored := ReadValues(column, streams, DICTIONARY_VALUES, DICTIONARY_LENGTHS, n);
    ghost var first := ValuesCharges(column, streams, DICTIONARY_VALUES, DICTIONARY_LENGTHS, n);
    ghost var later := if stored.Ok? then [Elements(|indices|, ValueBytes(column.logicalType, stored.value))] else [];
    var values := Values(column, streams, DICTIONARY_VALUES, DICTIONARY_LENGTHS, n, budget);
    ghost var l1 := budget.Now();
    if values.Err? {
      PaidFails(l0, l1, first, values, stored, later, outcome);
      return Err(values.kind);
    }
    PaidIsDue(l0, l1, first, values, stored);
    r := ExpandDictionary(column.logicalType, values.value, indices, budget);
    PaidThen(l0, l1, budget.Now(), first, values, stored, later, r, outcome);
  }

  function Selected(column: Column, streams: seq<Stream>, indices: seq<nat>): Result<seq<Cell>> {
    var s :- RequiredStream(streams, DICTIONARY_VALUES);
    if s.count == 0 then Err(Corruption)
    else
      var values :- ReadValues(column, streams, DICTIONARY_VALUES, DICTIONARY_LENGTHS, s.count);
      Lookup(values, indices)
  }

  /** Dictionary layout: indices first, then the values they select. */
  method DictionaryLayout(column: Column, streams: seq<Stream>, count: nat, budget: Budget) returns (r: Result<seq<Cell>>)
    requires budget.Valid()
    modifies budget`remaining, budget`charges, budget.Shared()`remainingBytes, budget.Shared()`byteCharges
    ensures budget.Valid()
    ensures Paid(old(budget.Now()), budget.Now(), DenseCharges(column, DICTIONARY, streams, count), r,
                 DecodeDense(column, DICTIONARY, streams, count))
  {
    hide Paid, DictionaryValuesCharges, ReadValues, UnpackCharges, UnpackStream, Lookup;
    ghost var l0, outcome := budget.Now(), DecodeDense(column, DICTIONARY, streams, count);
    var found := RequiredStream(streams, INDICES);
    if found.Err? || found.value.count != count {
      r := Err(if found.Err? then found.kind else Corruption);
      PaidNothing(l0, r);
      return;
    }
    ghost var unpacked, first := UnpackStream(found.value, count), UnpackCharges(found.value, count);
    ghost var later := if unpacked.Ok? then DictionaryValuesCharges(column, streams, unpacked.value) else [];
    var indices := Unpacked(found.value, count, budget);
    ghost var l1 := budget.Now();
    if indices.Err? {
      PaidFails(l0, l1, first, indices, unpacked, later, outcome);
      return Err(indices.kind);
    }
    PaidIsDue(l0, l1, first, indices, unpacked);
    r := DictionaryValues(column, streams, indices.value, budget);
    PaidThen(l0, l1, budget.Now(), first, indices, unpacked, later, r, outcome);
  }

  /** Run values, once their lengths are known to fit. */
  method RunValues(column: Column, streams: seq<Stream>, lengths: seq<nat>, count: nat, budget: Budget) returns (r: Result<seq<Cell>>)
    requires budget.Valid()
    modifies budget`remaining, budget`charges, budget.Shared()`remainingBytes, budget.Shared()`byteCharges
    ensures budget.Valid()
    ensures Paid(old(budget.Now()), budget.Now(), RunValuesCharges(column, streams, lengths, count), r,
                 RunCells(column, streams, lengths, count))
  {
    hide Paid, ValuesCharges, ReadValues, Elements, ValueBytes, Layouts.ExpandRuns, RunLengthsFit;
    ghost var l0, outcome := budget.Now(), RunCells(column, streams, lengths, count);
    var fit := CheckRunLengths(lengths, count);
    if !fit {
      r := Err(Corruption);
      PaidNothing(l0, r);
      return;
    }
    ghost var stored := ReadValues(column, streams, RUN_VALUES, LENGTHS, |lengths|);
    ghost var first := ValuesCharges(column, streams, RUN_VALUES, LENGTHS, |lengths|);
    ghost var later := if stored.Ok? then [Elements(count, ValueBytes(column.logicalType, stored.value))] else [];
    var values := Values(column, streams, RUN_VALUES, LENGTHS, |lengths|, budget);
    ghost var l1 := budget.Now();
    if values.Err? {
      PaidFails(l0, l1, first, values, stored, later, outcome);
      return Err(values.kind);
    }
    PaidIsDue(l0, l1, first, values, stored);
    r := Budgets.ExpandRuns(column.logicalType, values.value, lengths, count, budget);
    PaidThen(l0, l1, budget.Now(), first, values, stored, later, r, outcome);
  }

  function RunCells(column: Column, streams: seq<Stream>, lengths: seq<nat>, count: nat): Result<seq<Cell>> {
    if !RunLengthsFit(lengths, count) then Err(Corruption)
    else
      var values :- ReadValues(column, streams, RUN_VALUES, LENGTHS, |lengths|);
      Layouts.ExpandRuns(values, lengths)
  }

  /** Every run length is positive, no running total passes the dense count, and the last meets it. */
  method CheckRunLengths(lengths: seq<nat>, count: nat) returns (fit: bool)
    ensures fit == RunLengthsFit(lengths, count)
  {
    hide Sum;
    var total, k := 0, 0;
    SumOne(0);
    while k < |lengths|
      invariant 0 <= k <= |lengths| && total == Sum(lengths[..k]) <= count
      invariant forall i :: 0 <= i < k ==> lengths[i] > 0
    {
      assert lengths[..k + 1] == lengths[..k] + [lengths[k]];
      SumAppend(lengths[..k], lengths[k]);
      SumConcat(lengths[..k + 1], lengths[k + 1..]);
      assert lengths[..k + 1] + lengths[k + 1..] == lengths;
      if lengths[k] == 0 || total + lengths[k] > count {
        return false;
      }
      total := total + lengths[k];
      k := k + 1;
    }
    assert lengths[..k] == lengths;
    fit := total == count;
  }

  /** Run-length layout: lengths first, then the values they repeat. */
  method RunLayout(column: Column, streams: seq<Stream>, count: nat, budget: Budget) returns (r: Result<seq<Cell>>)
    requires budget.Valid()
    modifies budget`remaining, budget`charges, budget.Shared()`remainingBytes, budget.Shared()`byteCharges
    ensures budget.Valid()
    ensures Paid(old(budget.Now()), budget.Now(), DenseCharges(column, RUN_LENGTH, streams, count), r,
                 DecodeDense(column, RUN_LENGTH, streams, count))
  {
    hide Paid, RunValuesCharges, ReadValues, UnpackCharges, UnpackStream, RunLengthsFit, Layouts.ExpandRuns;
    ghost var l0, outcome := budget.Now(), DecodeDense(column, RUN_LENGTH, streams, count);
    var found := RequiredStream(streams, RUN_LENGTHS);
    if found.Err? {
      r := Err(found.kind);
      PaidNothing(l0, r);
      return;
    }
    var n := found.value.count;
    ghost var unpacked, first := UnpackStream(found.value, n), UnpackCharges(found.value, n);
    ghost var words := [n * UNPACKED_VALUE_BYTES];
    ghost var last := if unpacked.Ok? then RunValuesCharges(column, streams, unpacked.value, count) else [];
    ghost var later := if unpacked.Ok? then words + last else [];
    var lengths := Unpacked(found.value, n, budget);
    ghost var l1 := budget.Now();
    if lengths.Err? {
      PaidFails(l0, l1, first, lengths, unpacked, later, outcome);
      return Err(lengths.kind);
    }
    PaidIsDue(l0, l1, first, lengths, unpacked);
    var charged := budget.Charge(n * UNPACKED_VALUE_BYTES);
    ghost var l2 := budget.Now();
    if charged.Err? {
      r := Err(charged.kind);
      PaidFails(l1, l2, words, charged, Ok(()), last, outcome);
    } else {
      r := RunValues(column, streams, lengths.value, count, budget);
      PaidThen(l1, l2, budget.Now(), words, charged, Ok(()), last, r, outcome);
    }
    PaidThen(l0, l1, budget.Now(), first, lengths, unpacked, later, r, outcome);
  }

  /** The dense values of a column, under whichever layout it declares. */
  method Present(column: Column, shape: Shape, streams: seq<Stream>, budget: Budget) returns (r: Result<seq<Cell>>)
    requires budget.Valid()
    modifies budget`remaining, budget`charges, budget.Shared()`remainingBytes, budget.Shared()`byteCharges
    ensures budget.Valid()
    ensures Paid(old(budget.Now()), budget.Now(), PresentCharges(column, shape, streams), r, DecodePresent(column, shape, streams))
  {
    hide Paid, ValuesCharges, ReadValues, ConstantCharges, DictionaryCharges, RunCharges, DecodeDictionary, DecodeRuns;
    if shape.denseCount == 0 {
      r := if shape.layout != PLAIN || exists i :: 0 <= i < |streams| && streams[i].kind != VALIDITY then Err(Corruption) else Ok([]);
      PaidNothing(budget.Now(), r);
    } else if shape.layout == PLAIN {
      r := Values(column, streams, VALUES, LENGTHS, shape.denseCount, budget);
    } else if shape.layout == CONSTANT {
      r := ConstantLayout(column, streams, shape.denseCount, budget);
    } else if shape.layout == DICTIONARY {
      r := DictionaryLayout(column, streams, shape.denseCount, budget);
    } else if shape.layout == RUN_LENGTH {
      r := RunLayout(column, streams, shape.denseCount, budget);
    } else {
      r := Err(UnsupportedFrame);
      PaidNothing(budget.Now(), r);
    }
  }

  // ------------------------------------------------------------------- columns

  /** One validity bit per row, or None when every row is present. */
  method Validity(column: Column, shape: Shape, streams: seq<Stream>, rows: nat, budget: Budget) returns (r: Result<Option<seq<bool>>>)
    requires budget.Valid()
    modifies budget`remaining, budget`charges, budget.Shared()`remainingBytes, budget.Shared()`byteCharges
    ensures budget.Valid()
    ensures Paid(old(budget.Now()), budget.Now(), ValidityCharges(column, shape, streams, rows), r,
                 DecodeValidity(column, shape, streams, rows))
  {
    hide Paid, FindStream, CountTrue, Booleans.Decode, ReadThen;
    ghost var l0, outcome := budget.Now(), DecodeValidity(column, shape, streams, rows);
    var found := FindStream(streams, VALIDITY);
    if found.Err? {
      r := Err(found.kind);
      PaidNothing(l0, r);
    } else if !column.nullable {
      r := if shape.nullCount != 0 || found.value.Some? then Err(Corruption) else Ok(None);
      PaidNothing(l0, r);
    } else if shape.implicitValidity {
      if found.value.Some? {
        r := Err(Corruption);
        PaidNothing(l0, r);
      } else if shape.nullCount == 0 || shape.nullCount != rows {
        r := if shape.nullCount == 0 then Ok(None) else Err(Corruption);
        PaidNothing(l0, r);
      } else {
        var charged := budget.Charge(rows * BOOLEAN_VALUE_BYTES);
        r := if charged.Err? then Err(charged.kind) else Ok(Some(Repeat(false, rows)));
        PaidMaps(l0, budget.Now(), [rows * BOOLEAN_VALUE_BYTES], charged, Ok(()), r, outcome);
      }
    } else if found.value.None? {
      r := if shape.nullCount != 0 then Err(Corruption) else Ok(None);
      PaidNothing(l0, r);
    } else if found.value.value.count != rows {
      r := Err(Corruption);
      PaidNothing(l0, r);
    } else {
      r := StoredValidity(shape, found.value.value, rows, budget);
    }
  }

  method StoredValidity(shape: Shape, s: Stream, rows: nat, budget: Budget) returns (r: Result<Option<seq<bool>>>)
    requires budget.Valid()
    modifies budget`remaining, budget`charges, budget.Shared()`remainingBytes, budget.Shared()`byteCharges
    ensures budget.Valid()
    ensures Paid(old(budget.Now()), budget.Now(), ReadThen(s, [rows * BOOLEAN_STREAM_BYTES]), r, ValidityFrom(shape, s))
  {
    hide Paid, CountTrue, Booleans.Decode, ReadThen;
    ghost var l0, due := budget.Now(), ReadThen(s, [rows * BOOLEAN_STREAM_BYTES]);
    var payload := Payload(s, rows * BOOLEAN_STREAM_BYTES, budget);
    if payload.Err? {
      r := Err(payload.kind);
    } else {
      PaidIsDue(l0, budget.Now(), due, payload, s.Bytes());
      var bits := Booleans.Decode(payload.value, s.count, s.transform);
      if bits.Err? {
        r := Err(bits.kind);
      } else {
        var present := Transforms.CountPresent(bits.value);
        r := if |bits.value| - present != shape.nullCount then Err(Corruption) else Ok(Some(bits.value));
      }
    }
    PaidMaps(l0, budget.Now(), due, payload, s.Bytes(), r, ValidityFrom(shape, s));
  }

  function ValidityFrom(shape: Shape, s: Stream): Result<Option<seq<bool>>> {
    var payload :- s.Bytes();
    var bits :- Booleans.Decode(payload, s.count, s.transform);
    if |bits| - CountTrue(bits) != shape.nullCount then Err(Corruption) else Ok(Some(bits))
  }

  /** Dense values checked as text where they are text, and scattered over the rows. */
  method IntoRows(column: Column, dense: seq<Cell>, validity: Option<seq<bool>>, rows: nat, budget: Budget) returns (r: Result<seq<Cell>>)
    requires budget.Valid()
    modifies budget`remaining, budget`charges, budget.Shared()`remainingBytes, budget.Shared()`byteCharges
    ensures budget.Valid()
    ensures Paid(old(budget.Now()), budget.Now(), ScatterCharges(column, validity, rows), r,
                 if !TextFits(column, dense) then Err(Corruption) else Scatter(dense, validity, rows, Null))
  {
    hide Paid, Place, TextFits, ScatterCharges;
    ghost var l0, due := budget.Now(), ScatterCharges(column, validity, rows);
    ghost var outcome := if !TextFits(column, dense) then Err(Corruption) else Scatter(dense, validity, rows, Null);
    var scattered := ScatterRows(column, dense, validity, rows, budget);
    r := if scattered.Ok? && !TextFits(column, dense) then Err(Corruption) else scattered;
    if scattered.Ok? {
      PaidIsDue(l0, budget.Now(), due, scattered, Scatter(dense, validity, rows, Null));
    }
    PaidMaps(l0, budget.Now(), due, scattered, Scatter(dense, validity, rows, Null), r, outcome);
  }

  /** What follows a column's validity. */
  function AfterValidity(column: Column, shape: Shape, streams: seq<Stream>, rows: nat, validity: Option<seq<bool>>): Result<seq<Cell>> {
    var dense :- DecodePresent(column, shape, streams);
    if !TextFits(column, dense) then Err(Corruption) else Scatter(dense, validity, rows, Null)
  }

  function AfterValidityDue(column: Column, shape: Shape, streams: seq<Stream>, rows: nat, validity: Option<seq<bool>>): seq<nat> {
    PresentCharges(column, shape, streams)
    + if DecodePresent(column, shape, streams).Err? then [] else ScatterCharges(column, validity, rows)
  }

  method PresentRows(column: Column, shape: Shape, streams: seq<Stream>, rows: nat, validity: Option<seq<bool>>, budget: Budget)
      returns (r: Result<seq<Cell>>)
    requires budget.Valid()
    modifies budget`remaining, budget`charges, budget.Shared()`remainingBytes, budget.Shared()`byteCharges
    ensures budget.Valid()
    ensures Paid(old(budget.Now()), budget.Now(), AfterValidityDue(column, shape, streams, rows, validity), r,
                 AfterValidity(column, shape, streams, rows, validity))
  {
    hide Paid, TextFits, Scatter, DecodePresent, PresentCharges, ScatterCharges;
    ghost var l0, outcome := budget.Now(), AfterValidity(column, shape, streams, rows, validity);
    ghost var stored, first := DecodePresent(column, shape, streams), PresentCharges(column, shape, streams);
    ghost var last := if stored.Err? then [] else ScatterCharges(column, validity, rows);
    var dense := Present(column, shape, streams, budget);
    ghost var l1 := budget.Now();
    if dense.Err? {
      PaidFails(l0, l1, first, dense, stored, last, outcome);
      return Err(dense.kind);
    }
    PaidIsDue(l0, l1, first, dense, stored);
    r := IntoRows(column, dense.value, validity, rows, budget);
    PaidThen(l0, l1, budget.Now(), first, dense, stored, last, r, outcome);
  }

  /** One column, paid for step by step. */
  method ColumnRows(column: Column, shape: Shape, streams: seq<Stream>, rows: nat, budget: Budget) returns (r: Result<seq<Cell>>)
    requires budget.Valid()
    modifies budget`remaining, budget`charges, budget.Shared()`remainingBytes, budget.Shared()`byteCharges
    ensures budget.Valid()
    ensures Paid(old(budget.Now()), budget.Now(), ColumnCharges(column, shape, streams, rows), r,
                 DecodeColumn(column, shape, streams, rows))
  {
    hide Paid, TextFits, Scatter, DecodePresent, DecodeValidity, PresentCharges, ScatterCharges, ValidityCharges, KindsFit;
    ghost var l0, outcome := budget.Now(), DecodeColumn(column, shape, streams, rows);
    if !KindsFit(shape.layout, streams) {
      r := Err(Corruption);
      PaidNothing(l0, r);
      return;
    }
    ghost var stored, first := DecodeValidity(column, shape, streams, rows), ValidityCharges(column, shape, streams, rows);
    ghost var later := if stored.Err? then [] else AfterValidityDue(column, shape, streams, rows, stored.value);
    var validity := Validity(column, shape, streams, rows, budget);
    ghost var l1 := budget.Now();
    if validity.Err? {
      PaidFails(l0, l1, first, validity, stored, later, outcome);
      return Err(validity.kind);
    }
    PaidIsDue(l0, l1, first, validity, stored);
    r := PresentRows(column, shape, streams, rows, validity.value, budget);
    PaidThen(l0, l1, budget.Now(), first, validity, stored, later, r, outcome);
  }

  // -------------------------------------------------------------------- blocks

  method OneColumn(layout: BlockLayout, block: Block, column: Column, limits: Limits, budget: Budget) returns (r: Result<seq<Cell>>)
    requires budget.Valid()
    modifies budget`remaining, budget`charges, budget.Shared()`remainingBytes, budget.Shared()`byteCharges
    ensures budget.Valid()
    ensures Paid(old(budget.Now()), budget.Now(), OneCharges(layout, block, column, limits), r,
                 DecodeOne(layout, block, column, limits))
  {
    hide Paid, Locate, DecodeColumn, ColumnCharges, VerifyClaim;
    ghost var l0, outcome := budget.Now(), DecodeOne(layout, block, column, limits);
    var located := Locate(layout, block, column, limits);
    if located.None? {
      r := Err(Corruption);
      PaidNothing(budget.Now(), r);
      return;
    }
    var stored, rows := located.value, layout.info.rowCount;
    var cells := ColumnRows(column, stored.shape, stored.streams, rows, budget);
    ghost var due, decoded := ColumnCharges(column, stored.shape, stored.streams, rows), DecodeColumn(column, stored.shape, stored.streams, rows);
    if cells.Err? {
      r := Err(cells.kind);
    } else {
      PaidIsDue(l0, budget.Now(), due, cells, decoded);
      var confirmed := CheckClaim(column.logicalType, stored.claim, cells.value);
      r := if confirmed.Err? then Err(confirmed.kind) else cells;
    }
    PaidMaps(l0, budget.Now(), due, cells, decoded, r, outcome);
  }

  /** The selected columns in turn, up to the first that fails. */
  method SelectedColumns(
      layout: BlockLayout, block: Block, columns: seq<Column>, limits: Limits, selected: seq<nat>, budget: Budget)
      returns (r: Result<seq<seq<Cell>>>)
    requires budget.Valid() && InSchema(columns, selected)
    modifies budget`remaining, budget`charges, budget.Shared()`remainingBytes, budget.Shared()`byteCharges
    ensures budget.Valid()
    ensures Paid(old(budget.Now()), budget.Now(), SomeCharges(layout, block, columns, limits, selected), r,
                 DecodeSome(layout, block, columns, limits, selected))
  {
    hide Paid, DecodeOne, OneCharges, DecodeSome, SomeCharges;
    ghost var l0 := budget.Now();
    var arrays: seq<seq<Cell>>, k := [], 0;
    NoneSelected(layout, block, columns, limits);
    PaidNothing(l0, Ok(arrays));
    while k < |selected|
      invariant 0 <= k <= |selected| && budget.Valid() && InSchema(columns, selected[..k])
      invariant Paid(l0, budget.Now(), SomeCharges(layout, block, columns, limits, selected[..k]), Ok(arrays),
                     DecodeSome(layout, block, columns, limits, selected[..k]))
    {
      ghost var l1, before := budget.Now(), DecodeSome(layout, block, columns, limits, selected[..k]);
      ghost var first := SomeCharges(layout, block, columns, limits, selected[..k]);
      ghost var next := OneCharges(layout, block, columns[selected[k]], limits);
      PaidIsDue(l0, l1, first, Ok(arrays), before);
      OneMoreSelected(layout, block, columns, limits, selected, k);
      var cells := OneColumn(layout, block, columns[selected[k]], limits, budget);
      ghost var one := DecodeOne(layout, block, columns[selected[k]], limits);
      ghost var grown := DecodeSome(layout, block, columns, limits, selected[..k + 1]);
      if cells.Err? {
        r := Err(cells.kind);
        PaidMaps(l1, budget.Now(), next, cells, one, r, grown);
        PaidThen(l0, l1, budget.Now(), first, Ok(arrays), before, next, r, grown);
        StoppedSelecting(layout, block, columns, limits, selected, k + 1, l0, budget.Now(), r);
        return;
      }
      PaidIsDue(l1, budget.Now(), next, cells, one);
      PaidMaps(l1, budget.Now(), next, cells, one, Ok(arrays + [cells.value]), grown);
      PaidThen(l0, l1, budget.Now(), first, Ok(arrays), before, next, Ok(arrays + [cells.value]), grown);
      arrays := arrays + [cells.value];
      k := k + 1;
    }
    assert selected[..k] == selected;
    r := Ok(arrays);
  }

  lemma NoneSelected(layout: BlockLayout, block: Block, columns: seq<Column>, limits: Limits)
    ensures DecodeSome(layout, block, columns, limits, []) == Ok([]) && SomeCharges(layout, block, columns, limits, []) == []
  {
  }

  lemma OneMoreSelected(
      layout: BlockLayout, block: Block, columns: seq<Column>, limits: Limits, selected: seq<nat>, k: nat)
    requires InSchema(columns, selected) && k < |selected|
    ensures InSchema(columns, selected[..k]) && InSchema(columns, selected[..k + 1])
    ensures
      var before := DecodeSome(layout, block, columns, limits, selected[..k]);
      var one := DecodeOne(layout, block, columns[selected[k]], limits);
      && DecodeSome(layout, block, columns, limits, selected[..k + 1])
         == (if before.Err? then before else if one.Err? then Err(one.kind) else Ok(before.value + [one.value]))
      && SomeCharges(layout, block, columns, limits, selected[..k + 1])
         == SomeCharges(layout, block, columns, limits, selected[..k])
            + (if before.Ok? then OneCharges(layout, block, columns[selected[k]], limits) else [])
  {
    hide DecodeOne, OneCharges;
    assert selected[..k + 1][..k] == selected[..k] && selected[..k + 1][k] == selected[k];
  }

  /** A failure among the first columns is the failure of them all. */
  lemma {:induction false} StoppedSelecting(
      layout: BlockLayout, block: Block, columns: seq<Column>, limits: Limits, selected: seq<nat>, k: nat, l0: Ledger,
      l1: Ledger, r: Result<seq<seq<Cell>>>)
    requires InSchema(columns, selected) && k <= |selected| && r.Err?
    requires Paid(l0, l1, SomeCharges(layout, block, columns, limits, selected[..k]), r,
                  DecodeSome(layout, block, columns, limits, selected[..k]))
    ensures Paid(l0, l1, SomeCharges(layout, block, columns, limits, selected), r,
                 DecodeSome(layout, block, columns, limits, selected))
    decreases |selected| - k
  {
    hide Paid, DecodeOne, OneCharges, DecodeSome, SomeCharges;
    if k == |selected| {
      assert selected[..k] == selected;
    } else {
      var before := DecodeSome(layout, block, columns, limits, selected[..k]);
      OneMoreSelected(layout, block, columns, limits, selected, k);
      PaidFails(l0, l1, SomeCharges(layout, block, columns, limits, selected[..k]), r, before,
                if before.Ok? then OneCharges(layout, block, columns[selected[k]], limits) else [],
                DecodeSome(layout, block, columns, limits, selected[..k + 1]));
      StoppedSelecting(layout, block, columns, limits, selected, k + 1, l0, l1, r);
    }
  }

  /** The primary column, when it was not decoded already, and its verified values. */
  method PrimaryValues(
      layout: BlockLayout, block: Block, columns: seq<Column>, limits: Limits, selected: seq<nat>, arrays: seq<seq<Cell>>,
      primary: nat, budget: Budget)
      returns (r: Result<seq<int>>)
    requires budget.Valid() && InSchema(columns, selected) && primary < |columns|
    requires DecodeSome(layout, block, columns, limits, selected) == Ok(arrays)
    modifies budget`remaining, budget`charges, budget.Shared()`remainingBytes, budget.Shared()`byteCharges
    ensures budget.Valid()
    ensures Paid(old(budget.Now()), budget.Now(), PrimaryCharges(layout, block, columns, limits, selected, Some(primary)), r,
                 PrimaryFrom(layout, block, columns[primary], limits))
  {
    hide Paid, DecodeOne, OneCharges, DecodeSome, VerifyPrimary;
    ghost var l0, outcome := budget.Now(), PrimaryFrom(layout, block, columns[primary], limits);
    ghost var one := DecodeOne(layout, block, columns[primary], limits);
    ghost var first := if Has(selected, primary) then [] else OneCharges(layout, block, columns[primary], limits);
    ghost var last := if one.Ok? then [layout.info.rowCount * PRIMARY_VALUE_BYTES] else [];
    var found := IndexIn(selected, primary);
    var cells: Result<seq<Cell>>;
    if found < |selected| {
      SelectedOne(layout, block, columns, limits, selected, found);
      cells := Ok(arrays[found]);
      PaidNothing(l0, cells);
    } else {
      cells := OneColumn(layout, block, columns[primary], limits, budget);
    }
    ghost var l1 := budget.Now();
    if cells.Err? {
      PaidFails(l0, l1, first, cells, one, last, outcome);
      return Err(cells.kind);
    }
    PaidIsDue(l0, l1, first, cells, one);
    var charged := budget.Charge(layout.info.rowCount * PRIMARY_VALUE_BYTES);
    r := if charged.Err? then Err(charged.kind) else VerifyPrimary(cells.value, layout.info);
    PaidMaps(l1, budget.Now(), last, charged, Ok(()), r, outcome);
    PaidThen(l0, l1, budget.Now(), first, cells, one, last, r, outcome);
  }

  function PrimaryFrom(layout: BlockLayout, block: Block, column: Column, limits: Limits): Result<seq<int>> {
    var cells :- DecodeOne(layout, block, column, limits);
    VerifyPrimary(cells, layout.info)
  }

  method IndexIn(selected: seq<nat>, index: nat) returns (k: nat)
    ensures k <= |selected| && (k < |selected| ==> selected[k] == index) && (k < |selected| <==> Has(selected, index))
  {
    k := 0;
    while k < |selected| && selected[k] != index
      invariant 0 <= k <= |selected| && forall j :: 0 <= j < k ==> selected[j] != index
    {
      k := k + 1;
    }
  }

  /** Each selected column decodes alone as it does among the others. */
  lemma {:induction false} SelectedOne(
      layout: BlockLayout, block: Block, columns: seq<Column>, limits: Limits, selected: seq<nat>, k: nat)
    requires InSchema(columns, selected) && k < |selected| && DecodeSome(layout, block, columns, limits, selected).Ok?
    ensures DecodeOne(layout, block, columns[selected[k]], limits)
         == Ok(DecodeSome(layout, block, columns, limits, selected).value[k])
  {
    hide DecodeOne;
    var n := |selected| - 1;
    if k < n {
      SelectedOne(layout, block, columns, limits, selected[..n], k);
    }
  }

  /** Rebuild selected columns and, when asked, the verified primary values, paying step by step. */
  method Rebuilt(
      layout: BlockLayout, block: Block, columns: seq<Column>, limits: Limits, selected: seq<nat>, primary: Option<nat>,
      budget: Budget)
      returns (r: Result<Decoded>)
    requires budget.Valid() && InSchema(columns, selected) && (primary.Some? ==> primary.value < |columns|)
    modifies budget`remaining, budget`charges, budget.Shared()`remainingBytes, budget.Shared()`byteCharges
    ensures budget.Valid()
    ensures Paid(old(budget.Now()), budget.Now(), SelectedCharges(layout, block, columns, limits, selected, primary), r,
                 Rebuild(layout, block, columns, limits, selected, primary))
  {
    hide Paid, DecodeOne, DecodeSome, SomeCharges, PrimaryCharges, VerifyPrimary, Transpose;
    ghost var l0, outcome := budget.Now(), Rebuild(layout, block, columns, limits, selected, primary);
    ghost var some, first := DecodeSome(layout, block, columns, limits, selected), SomeCharges(layout, block, columns, limits, selected);
    ghost var later := if some.Ok? then PrimaryCharges(layout, block, columns, limits, selected, primary) else [];
    var arrays := SelectedColumns(layout, block, columns, limits, selected, budget);
    ghost var l1 := budget.Now();
    if arrays.Err? {
      PaidFails(l0, l1, first, arrays, some, later, outcome);
      return Err(arrays.kind);
    }
    PaidIsDue(l0, l1, first, arrays, some);
    if primary.None? {
      NoPrimary(layout, block, columns, limits, selected);
      var rows := Transpose(arrays.value, layout.info.rowCount);
      r := if rows.Err? then Err(rows.kind) else Ok(Decoded(rows.value, None, false));
      PaidNothing(l1, r);
    } else {
      var values := PrimaryValues(layout, block, columns, limits, selected, arrays.value, primary.value, budget);
      if values.Err? {
        r := Err(values.kind);
      } else {
        PaidIsDue(l1, budget.Now(), later, values, PrimaryFrom(layout, block, columns[primary.value], limits));
        var rows := Transpose(arrays.value, layout.info.rowCount);
        r := if rows.Err? then Err(rows.kind) else Ok(Decoded(rows.value, Some(values.value), layout.info.sorted));
      }
      PaidMaps(l1, budget.Now(), later, values, PrimaryFrom(layout, block, columns[primary.value], limits), r, outcome);
    }
    PaidThen(l0, l1, budget.Now(), first, arrays, some, later, r, outcome);
  }

  lemma NoPrimary(layout: BlockLayout, block: Block, columns: seq<Column>, limits: Limits, selected: seq<nat>)
    ensures PrimaryCharges(layout, block, columns, limits, selected, None) == []
  {
  }

  /** What a block decode owes: nothing when its tables are refused. */
  function BlockCharges(
      block: Block, schema: Schema, rowIds: bool, expected: Option<nat>, limits: Limits, selected: seq<nat>, primary: Option<nat>)
      : seq<nat>
    requires InSchema(schema.columns, selected) && (primary.Some? ==> primary.value < |schema.columns|)
  {
    match DecodableLayout(block, schema, rowIds, expected, limits)
    case Err(_) => []
    case Ok(layout) => SelectedCharges(layout, block, schema.columns, limits, selected, primary)
  }

  /** The lesser of what a block and its scan may still spend. */
  function RoomFor(limits: Limits, scanLeft: nat): nat {
    if scanLeft < limits.maxDecodedBlockBytes then scanLeft else limits.maxDecodedBlockBytes
  }

  /**
   * Decode selected columns of a block for a scan.  What is charged to the scan is exactly what
   * the block owes, as far as the lesser allowance goes; the decode is the unmetered one when
   * the scan can pay, and a refusal when it cannot.
   */
  method DecodeForScan(
      block: Block, schema: Schema, rowIds: bool, expected: Option<nat>, limits: Limits, selected: seq<nat>, primary: Option<nat>,
      scan: ScanBudget)
      returns (r: Result<Decoded>)
    requires scan.Valid() && InSchema(schema.columns, selected) && (primary.Some? ==> primary.value < |schema.columns|)
    modifies scan`remainingBytes, scan`byteCharges
    ensures scan.Valid()
    ensures
      var due := BlockCharges(block, schema, rowIds, expected, limits, selected, primary);
      && scan.byteCharges == old(scan.byteCharges) + Made(due, RoomFor(limits, old(scan.remainingBytes)))
      && r == if Sum(due) <= old(scan.remainingBytes)
              then DecodeSelected(block, schema, rowIds, expected, limits, selected, primary) else Err(ResourceLimit)
  {
    hide Rebuild, SelectedCharges, DecodableLayout, Sum, Made;
    ghost var due := BlockCharges(block, schema, rowIds, expected, limits, selected, primary);
    SumOne(0);
    MadeAll([], RoomFor(limits, scan.remainingBytes));
    var layout := DecodableLayout(block, schema, rowIds, expected, limits);
    if layout.Err? {
      assert scan.byteCharges + [] == scan.byteCharges;
      return Err(layout.kind);
    }
    var budget := new Budget(limits.maxDecodedBlockBytes, scan);
    r := Rebuilt(layout.value, block, schema.columns, limits, selected, primary, budget);
    assert [] + Made(due, RoomFor(limits, old(scan.remainingBytes))) == Made(due, RoomFor(limits, old(scan.remainingBytes)));
  }

  /** Decode a whole block under its own allowance alone. */
  method DecodeWhole(block: Block, schema: Schema, rowIds: bool, expected: Option<nat>, limits: Limits) returns (r: Result<seq<Row>>)
    ensures r == DecodeBlock(block, schema, rowIds, expected, limits)
  {
    hide Rebuild, SelectedCharges, DecodableLayout, Sum, Made, PrimaryIndex;
    var layout := DecodableLayout(block, schema, rowIds, expected, limits);
    if layout.Err? {
      return Err(layout.kind);
    }
    var budget := new Budget(limits.maxDecodedBlockBytes, null);
    var decoded := Rebuilt(layout.value, block, schema.columns, limits, Indices(|schema.columns|), PrimaryIndex(schema), budget);
    r := if decoded.Err? then Err(decoded.kind) else Ok(decoded.value.rows);
  }
}
