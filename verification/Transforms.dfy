/** The decoder loops, each proved to compute its stream's meaning. */
module Transforms {
  import opened Core
  import opened Bytes
  import opened Bits
  import opened Packing
  import opened Rows
  import opened Layouts
  import Integers
  import Booleans

  lemma {:induction false} FromBitsAppend(bits: seq<bool>, x: bool)
    ensures FromBits(bits + [x]) == FromBits(bits) + if x then Pow2(|bits|) else 0
  {
    if bits != [] {
      assert (bits + [x])[1..] == bits[1..] + [x];
      FromBitsAppend(bits[1..], x);
    }
  }

  lemma NoBits()
    ensures FromBits([]) == 0
  {
  }

  /** An LSB-first reader over a bit-packed stream. */
  class BitUnpacker {
    const data: seq<byte>
    const width: nat
    var position: nat
    var remaining: nat
    /** The values still to come. */
    ghost var pending: seq<nat>

    ghost predicate Valid()
      reads this
    {
      && width <= 64
      && position + remaining * width <= 8 * |data|
      && pending == ValuesOf(BitsOf(data, position + remaining * width)[position..], width, remaining)
    }

    constructor (data: seq<byte>, width: nat, count: nat)
      requires width <= 64 && |data| == ByteCount(count * width)
      ensures Valid() && remaining == count && pending == ValuesOf(BitsOf(data, count * width), width, count)
    {
      this.data, this.width := data, width;
      position, remaining := 0, count;
      pending := ValuesOf(BitsOf(data, count * width), width, count);
      new;
      assert BitsOf(data, count * width)[0..] == BitsOf(data, count * width);
    }

    /** The next value; reading it never leaves the payload. */
    method Next() returns (r: Option<nat>)
      requires Valid()
      modifies this`position, this`remaining, this`pending
      ensures Valid()
      ensures old(pending) == [] ==> r == None && pending == []
      ensures old(pending) != [] ==> r == Some(old(pending)[0]) && pending == old(pending)[1..]
    {
      if remaining == 0 {
        return None;
      }
      ghost var end := position + remaining * width;
      ghost var bits := BitsOf(data, end)[position..];
      assert (remaining - 1) * width + width == remaining * width;
      var value := ReadValue(end);
      assert bits[..width] == BitsOf(data, end)[position..position + width];
      assert bits[width..] == BitsOf(data, end)[position + width..];
      remaining := remaining - 1;
      position := position + width;
      pending := pending[1..];
      r := Some(value);
    }

    method ReadValue(ghost end: nat) returns (value: nat)
      requires position + width <= end <= 8 * |data|
      ensures value == FromBits(BitsOf(data, end)[position..position + width])
    {
      hide FromBits, Bit;
      ghost var bits := BitsOf(data, end);
      value := 0;
      NoBits();
      var bit, place := 0, 1;
      assert bits[position..position] == [];
      while bit < width
        invariant 0 <= bit <= width && place == Pow2(bit)
        invariant value == FromBits(bits[position..position + bit])
      {
        var source := position + bit;
        FromBitsAppend(bits[position..source], bits[source]);
        assert bits[position..source + 1] == bits[position..source] + [bits[source]];
        if Bit(data[source / 8], source % 8) {
          value := value + place;
        }
        place := 2 * place;
        bit := bit + 1;
      }
    }
  }

  /** Settle the width, the stored length and the zero padding before anything is read. */
  method NewUnpacker(payload: seq<byte>, count: nat) returns (r: Result<BitUnpacker>)
    ensures r.Err? ==> r.kind == Corruption && Unpack(payload, count) == Err(Corruption)
    ensures r.Ok? ==> fresh(r.value) && r.value.Valid() && r.value.remaining == count && Unpack(payload, count) == Ok(r.value.pending)
  {
    hide BitsOf, ValuesOf;
    if payload == [] || payload[0] > 64 {
      return Err(Corruption);
    }
    var width, data := payload[0], payload[1..];
    if |data| != ByteCount(count * width) || !PaddingIsZero(data, count * width) {
      return Err(Corruption);
    }
    var unpacker := new BitUnpacker(data, width, count);
    r := Ok(unpacker);
  }

  /** All packed values at once. */
  method BitUnpack(payload: seq<byte>, count: nat) returns (r: Result<seq<nat>>)
    ensures r == Unpack(payload, count)
  {
    hide Unpack, ValuesOf, BitsOf;
    var made := NewUnpacker(payload, count);
    if made.Err? {
      return Err(Corruption);
    }
    var unpacker, values := made.value, [];
    ghost var all := unpacker.pending;
    var next := unpacker.Next();
    while next.Some?
      invariant unpacker.Valid()
      invariant next.Some? ==> all == values + [next.value] + unpacker.pending
      invariant next.None? ==> all == values
      decreases unpacker.pending, next.Some?
    {
      values := values + [next.value];
      next := unpacker.Next();
    }
    r := Ok(values);
  }

  // -------------------------------------------------------------------- integers

  lemma NarrowFails(values: seq<int>, i: nat, width: nat, signed: bool)
    requires i < |values| && !InRange(values[i], width, signed)
    ensures Integers.Narrow(values, width, signed) == Err(Corruption)
  {
  }

  /** Zigzag differences accumulated on the first value, narrowing each sum as it is made. */
  method DeltaValues(payload: seq<byte>, count: nat, width: nat, signed: bool) returns (r: Result<seq<int>>)
    ensures r == Integers.Delta(payload, count, width, signed)
  {
    hide Unpack, ValuesOf, BitsOf, InRange, Integers.ReadInteger;
    if count == 0 {
      return if payload == [] then Ok([]) else Err(Corruption);
    }
    if |payload| < width {
      return Err(Corruption);
    }
    var first := Integers.ReadInteger(payload[..width], signed);
    if !InRange(first, width, signed) {
      FirstFails(first, width, signed);
      UnpackKind(payload[width..], count - 1);
      return Err(Corruption);
    }
    var values := [first];
    if count == 1 {
      return if |payload| == width then Ok(values) else Err(Corruption);
    }
    var made := NewUnpacker(payload[width..], count - 1);
    if made.Err? {
      return Err(Corruption);
    }
    var unpacker := made.value;
    ghost var full := [first] + Integers.Sums(first, unpacker.pending);
    var current := first;
    while unpacker.remaining > 0
      invariant unpacker.Valid() && unpacker.remaining == |unpacker.pending|
      invariant full == values + Integers.Sums(current, unpacker.pending)
      invariant Integers.AllInRange(values, width, signed)
      decreases |unpacker.pending|
    {
      var encoded := unpacker.Next();
      current := current + Integers.Unzigzag(encoded.value);
      assert full == values + [current] + Integers.Sums(current, unpacker.pending);
      if !InRange(current, width, signed) {
        NarrowFails(full, |values|, width, signed);
        return Err(Corruption);
      }
      values := values + [current];
    }
    assert unpacker.pending == [] && full == values;
    r := Ok(values);
  }

  lemma UnpackKind(payload: seq<byte>, count: nat)
    ensures Unpack(payload, count).Err? ==> Unpack(payload, count).kind == Corruption
  {
    hide ValuesOf, BitsOf;
  }

  /** What the loop over second differences still owes: the values made so far, then the rest. */
  ghost predicate Owes(full: Result<seq<int>>, values: seq<int>, rest: Result<seq<int>>) {
    match rest
    case Ok(later) => full == Ok(values + later)
    case Err(_) => full == Err(Corruption)
  }

  lemma {:induction false} DoubleSumsKind(current: int, delta: int, encoded: seq<nat>)
    ensures Integers.DoubleSums(current, delta, encoded).Err? ==>
              Integers.DoubleSums(current, delta, encoded).kind == Corruption
    decreases |encoded|
  {
    if encoded != [] {
      DoubleSumsKind(current + delta + Integers.Unzigzag(encoded[0]), delta + Integers.Unzigzag(encoded[0]), encoded[1..]);
    }
  }

  /** The reconstructed stream before narrowing. */
  function Doubled(first: int, delta: int, encoded: seq<nat>): Result<seq<int>> {
    var rest :- Integers.DoubleSums(first + delta, delta, encoded);
    Ok([first, first + delta] + rest)
  }

  lemma NarrowDoubled(first: int, delta: int, encoded: seq<nat>, width: nat, signed: bool)
    requires !InRange(first, width, signed) || !InRange(first + delta, width, signed)
    ensures Doubled(first, delta, encoded).Err? || Integers.Narrow(Doubled(first, delta, encoded).value, width, signed) == Err(Corruption)
  {
    hide InRange, Integers.DoubleSums;
    var all := Doubled(first, delta, encoded);
    if all.Ok? {
      assert all.value[0] == first && all.value[1] == first + delta;
    }
  }

  /** Second differences accumulated twice; every first difference must fit a signed 64-bit word. */
  method DeltaOfDeltaValues(payload: seq<byte>, count: nat, width: nat, signed: bool) returns (r: Result<seq<int>>)
    ensures r == Integers.DeltaOfDelta(payload, count, width, signed)
  {
    hide Unpack, ValuesOf, BitsOf, InRange, Integers.ReadInteger, Integers.DoubleSums;
    if count < 2 || |payload| < width + 8 {
      return Err(Corruption);
    }
    var first := Integers.ReadInteger(payload[..width], signed);
    var delta := Integers.ReadInteger(payload[width..width + 8], true);
    var made := NewUnpacker(payload[width + 8..], count - 2);
    if made.Err? {
      return Err(Corruption);
    }
    var unpacker := made.value;
    ghost var full := Doubled(first, delta, unpacker.pending);
    DoubleSumsKind(first + delta, delta, unpacker.pending);
    if !InRange(first, width, signed) || !InRange(first + delta, width, signed) {
      NarrowDoubled(first, delta, unpacker.pending, width, signed);
      return Err(Corruption);
    }
    r := Accumulate(unpacker, [first, first + delta], first + delta, delta, width, signed);
  }

  /** The accumulation loop itself. */
  method Accumulate(unpacker: BitUnpacker, start: seq<int>, from: int, step: int, width: nat, signed: bool)
      returns (r: Result<seq<int>>)
    requires unpacker.Valid() && unpacker.remaining == |unpacker.pending| && Integers.AllInRange(start, width, signed)
    modifies unpacker
    ensures
      r == match Integers.DoubleSums(from, step, old(unpacker.pending))
           case Ok(rest) => Integers.Narrow(start + rest, width, signed)
           case Err(_) => Err(Corruption)
  {
    hide InRange, ValuesOf, BitsOf;
    var values, current, delta := start, from, step;
    ghost var full := match Integers.DoubleSums(from, step, unpacker.pending)
      case Ok(rest) => Ok(start + rest)
      case Err(_) => Err(Corruption);
    while unpacker.remaining > 0
      invariant unpacker.Valid() && unpacker.remaining == |unpacker.pending|
      invariant Owes(full, values, Integers.DoubleSums(current, delta, unpacker.pending))
      invariant Integers.AllInRange(values, width, signed)
      decreases |unpacker.pending|
    {
      var encoded := unpacker.Next();
      delta := delta + Integers.Unzigzag(encoded.value);
      if !(-I64 <= delta < I64) {
        return Err(Corruption);
      }
      current := current + delta;
      ghost var rest := Integers.DoubleSums(current, delta, unpacker.pending);
      assert rest.Ok? ==> values + ([current] + rest.value) == values + [current] + rest.value;
      if !InRange(current, width, signed) {
        if full.Ok? {
          NarrowFails(full.value, |values|, width, signed);
        }
        return Err(Corruption);
      }
      values := values + [current];
    }
    assert values + [] == values;
    r := Ok(values);
  }

  lemma FirstFails(first: int, width: nat, signed: bool)
    requires !InRange(first, width, signed)
    ensures forall rest: seq<int> :: Integers.Narrow([first] + rest, width, signed) == Err(Corruption)
    ensures Integers.Narrow([first], width, signed) == Err(Corruption)
  {
    hide InRange;
    forall rest: seq<int> ensures Integers.Narrow([first] + rest, width, signed) == Err(Corruption) {
      assert ([first] + rest)[0] == first;
    }
    assert [first][0] == first;
  }

  // ---------------------------------------------------------------- boolean runs

  lemma {:induction false} SumGrows(lengths: seq<nat>, k: nat)
    requires k <= |lengths|
    ensures Sum(lengths[..k]) <= Sum(lengths)
    decreases |lengths|
  {
    if k < |lengths| {
      SumGrows(lengths[..|lengths| - 1], k);
      assert lengths[..|lengths| - 1][..k] == lengths[..k];
    } else {
      assert lengths[..k] == lengths;
    }
  }

  lemma ExpandStep<T>(values: seq<T>, lengths: seq<nat>, k: nat)
    requires k < |values| == |lengths|
    ensures Expand(values[..k + 1], lengths[..k + 1]) == Expand(values[..k], lengths[..k]) + Repeat(values[k], lengths[k])
    ensures Sum(lengths[..k + 1]) == Sum(lengths[..k]) + lengths[k]
  {
    assert values[..k + 1][..k] == values[..k] && lengths[..k + 1][..k] == lengths[..k];
  }

  /** Run values repeated for their lengths, which must be positive and sum to the count. */
  method ExpandRunsLoop<T(==)>(values: seq<T>, lengths: seq<nat>, count: nat) returns (r: Result<seq<T>>)
    requires |values| == |lengths|
    ensures r == if RunLengthsFit(lengths, count) then Ok(Expand(values, lengths)) else Err(Corruption)
  {
    hide Expand, Sum;
    var expanded: seq<T>, total, k := [], 0, 0;
    Nothing(values, lengths);
    while k < |lengths|
      invariant 0 <= k <= |lengths| && total == Sum(lengths[..k]) <= count
      invariant expanded == Expand(values[..k], lengths[..k])
      invariant forall i :: 0 <= i < k ==> lengths[i] > 0
    {
      if lengths[k] == 0 {
        return Err(Corruption);
      }
      ExpandStep(values, lengths, k);
      SumGrows(lengths, k + 1);
      if total + lengths[k] > count {
        return Err(Corruption);
      }
      total := total + lengths[k];
      expanded := expanded + Repeat(values[k], lengths[k]);
      k := k + 1;
    }
    assert lengths[..k] == lengths && values[..k] == values;
    r := if total != count then Err(Corruption) else Ok(expanded);
  }

  lemma Nothing<T>(values: seq<T>, lengths: seq<nat>)
    requires |values| == |lengths|
    ensures Expand(values[..0], lengths[..0]) == [] && Sum(lengths[..0]) == 0
  {
  }

  // ---------------------------------------------------------- byte-stream split

  /** Restore canonical bytes in place, one value at a time. */
  method ByteStreamSplit(payload: seq<byte>, count: nat, width: nat) returns (r: Result<array<byte>>)
    ensures r.Err? ==> r.kind == Corruption && Booleans.Join(payload, count, width) == Err(Corruption)
    ensures r.Ok? ==> fresh(r.value) && Booleans.Join(payload, count, width) == Ok(r.value[..])
  {
    hide Booleans.Join;
    JoinShape(payload, count, width);
    if |payload| != count * width {
      return Err(Corruption);
    }
    ghost var joined := Booleans.Join(payload, count, width).value;
    var restored := new byte[|payload|](_ => 0);
    var value := 0;
    while value < count
      invariant 0 <= value <= count && restored.Length == |payload| && value * width <= |payload|
      invariant forall p :: 0 <= p < value * width ==> restored[p] == joined[p]
    {
      Booleans.Scales(value + 1, count, width);
      Booleans.Scales(value, count, width);
      RestoreValue(payload, count, width, restored, value, joined);
      value := value + 1;
    }
    assert restored[..] == joined;
    r := Ok(restored);
  }

  lemma JoinShape(payload: seq<byte>, count: nat, width: nat)
    ensures Booleans.Join(payload, count, width).Ok? <==> |payload| == count * width
    ensures Booleans.Join(payload, count, width).Ok? ==> |Booleans.Join(payload, count, width).value| == |payload|
    ensures Booleans.Join(payload, count, width).Err? ==> Booleans.Join(payload, count, width).kind == Corruption
  {
  }

  lemma JoinedAt(payload: seq<byte>, count: nat, width: nat, value: nat, b: nat)
    requires |payload| == count * width && value < count && b < width
    ensures b * count + value < |payload| && value * width + b < |payload|
    ensures
      var joined := Booleans.Join(payload, count, width);
      joined.Ok? && |joined.value| == |payload| && joined.value[value * width + b] == payload[b * count + value]
  {
    Booleans.InGrid(value, count, b, width);
    Booleans.Position(value, width, b);
  }

  method RestoreValue(payload: seq<byte>, count: nat, width: nat, restored: array<byte>, value: nat, ghost joined: seq<byte>)
    requires |payload| == count * width == restored.Length && value < count
    requires value * width + width == (value + 1) * width <= |payload|
    requires Booleans.Join(payload, count, width) == Ok(joined) && |joined| == |payload|
    requires forall p :: 0 <= p < value * width ==> restored[p] == joined[p]
    modifies restored
    ensures forall p :: 0 <= p < (value + 1) * width ==> restored[p] == joined[p]
  {
    hide Booleans.Join;
    var b := 0;
    while b < width
      invariant 0 <= b <= width
      invariant forall p :: 0 <= p < value * width + b ==> restored[p] == joined[p]
    {
      JoinedAt(payload, count, width, value, b);
      restored[value * width + b] := payload[b * count + value];
      b := b + 1;
    }
  }

  // ---------------------------------------------------- scattering and splitting

  lemma {:induction false} CountGrows(bits: seq<bool>, n: nat)
    requires n <= |bits|
    ensures CountTrue(bits[..n]) <= CountTrue(bits)
    ensures n < |bits| ==> CountTrue(bits[..n + 1]) == CountTrue(bits[..n]) + if bits[n] then 1 else 0
    decreases |bits|
  {
    if n < |bits| {
      assert bits[..n + 1][..n] == bits[..n];
      if n + 1 < |bits| {
        var m := |bits| - 1;
        CountGrows(bits[..m], n);
        assert bits[..m][..n] == bits[..n] && bits[..m][..n + 1] == bits[..n + 1];
      } else {
        assert bits[..n + 1] == bits;
      }
    } else {
      assert bits[..n] == bits;
    }
  }

  lemma PlaceStep<T>(dense: seq<T>, bits: seq<bool>, default: T, row: nat)
    requires row < |bits| && |dense| == CountTrue(bits)
    ensures CountTrue(bits[..row]) <= CountTrue(bits[..row + 1]) <= |dense|
    ensures
      var k, k' := CountTrue(bits[..row]), CountTrue(bits[..row + 1]);
      && (bits[row] ==> k < |dense|)
      && Place(dense[..k'], bits[..row + 1], default)
         == Place(dense[..k], bits[..row], default) + [if bits[row] then dense[k] else default]
  {
    hide CountTrue, Place;
    CountGrows(bits, row);
    CountGrows(bits, row + 1);
    assert bits[..row + 1] == bits[..row] + [bits[row]];
    var k := CountTrue(bits[..row]);
    if bits[row] {
      assert dense[..k + 1] == dense[..k] + [dense[k]];
      PlaceValid(dense[..k], dense[k], bits[..row], default);
    } else {
      PlaceNull(dense[..k], bits[..row], default);
    }
  }

  lemma PlaceValid<T>(dense: seq<T>, value: T, bits: seq<bool>, default: T)
    requires |dense| == CountTrue(bits)
    ensures CountTrue(bits + [true]) == |dense| + 1
    ensures Place(dense + [value], bits + [true], default) == Place(dense, bits, default) + [value]
  {
    assert (bits + [true])[..|bits|] == bits && (dense + [value])[..|dense|] == dense;
  }

  lemma PlaceNull<T>(dense: seq<T>, bits: seq<bool>, default: T)
    requires |dense| == CountTrue(bits)
    ensures CountTrue(bits + [false]) == |dense|
    ensures Place(dense, bits + [false], default) == Place(dense, bits, default) + [default]
  {
    assert (bits + [false])[..|bits|] == bits;
  }

  /** Spread dense values over the valid rows of an array that starts out all default. */
  method PlaceInto<T>(dense: seq<T>, bits: seq<bool>, default: T) returns (r: Result<array<T>>)
    ensures r.Ok? <==> |dense| == CountTrue(bits)
    ensures r.Ok? ==> fresh(r.value) && r.value[..] == Place(dense, bits, default)
  {
    hide Place, CountTrue;
    var present := CountPresent(bits);
    if |dense| != present {
      return Err(Corruption);
    }
    var values := new T[|bits|](_ => default);
    var row, next := 0, 0;
    NoRows(dense, bits, default);
    while row < |bits|
      invariant 0 <= row <= |bits| && next == CountTrue(bits[..row]) <= |dense| && values.Length == |bits|
      invariant values[..row] == Place(dense[..next], bits[..row], default)
      invariant forall k :: row <= k < |bits| ==> values[k] == default
    {
      PlaceStep(dense, bits, default, row);
      CountGrows(bits, row);
      if bits[row] {
        values[row] := dense[next];
        next := next + 1;
      }
      row := row + 1;
    }
    assert bits[..row] == bits && dense[..next] == dense && values[..row] == values[..];
    r := Ok(values);
  }

  lemma NoRows<T>(dense: seq<T>, bits: seq<bool>, default: T)
    ensures CountTrue(bits[..0]) == 0 && Place(dense[..0], bits[..0], default) == []
  {
  }

  method CountPresent(bits: seq<bool>) returns (n: nat)
    ensures n == CountTrue(bits)
  {
    n := 0;
    var i := 0;
    while i < |bits|
      invariant 0 <= i <= |bits| && n == CountTrue(bits[..i])
    {
      CountGrows(bits, i);
      if bits[i] {
        n := n + 1;
      }
      i := i + 1;
    }
    assert bits[..i] == bits;
  }

  /** Cut a concatenation into values of the given lengths, which must consume it exactly. */
  method SplitLoop(payload: seq<byte>, lengths: seq<nat>) returns (r: Result<seq<seq<byte>>>)
    ensures r == SplitValues(payload, lengths)
  {
    hide SplitValues;
    var values: seq<seq<byte>>, offset, i := [], 0, 0;
    ghost var full := SplitValues(payload, lengths);
    assert payload[0..] == payload && lengths[0..] == lengths;
    assert full.Ok? ==> [] + full.value == full.value;
    while i < |lengths|
      invariant 0 <= i <= |lengths| && offset <= |payload|
      invariant Remains(full, values, SplitValues(payload[offset..], lengths[i..]))
    {
      SplitTurn(payload, lengths, offset, i);
      var end := offset + lengths[i];
      if end > |payload| {
        return Err(Corruption);
      }
      ghost var rest := SplitValues(payload[end..], lengths[i + 1..]);
      assert rest.Ok? ==> values + ([payload[offset..end]] + rest.value) == values + [payload[offset..end]] + rest.value;
      values := values + [payload[offset..end]];
      offset, i := end, i + 1;
    }
    SplitEnd(payload[offset..]);
    assert lengths[i..] == [] && values + [] == values;
    r := if offset != |payload| then Err(Corruption) else Ok(values);
  }

  /** The split so far, then the split of the rest. */
  ghost predicate Remains(full: Result<seq<seq<byte>>>, values: seq<seq<byte>>, rest: Result<seq<seq<byte>>>) {
    match rest
    case Ok(later) => full == Ok(values + later)
    case Err(kind) => full == Err(kind)
  }

  lemma SplitTurn(payload: seq<byte>, lengths: seq<nat>, offset: nat, i: nat)
    requires offset <= |payload| && i < |lengths|
    ensures
      var end := offset + lengths[i];
      SplitValues(payload[offset..], lengths[i..])
      == if end > |payload| then Err(Corruption)
         else match SplitValues(payload[end..], lengths[i + 1..])
              case Ok(rest) => Ok([payload[offset..end]] + rest)
              case Err(kind) => Err(kind)
  {
    var end := offset + lengths[i];
    assert lengths[i..][1..] == lengths[i + 1..];
    if end <= |payload| {
      assert payload[offset..][..lengths[i]] == payload[offset..end] && payload[offset..][lengths[i]..] == payload[end..];
    }
  }

  lemma SplitEnd(payload: seq<byte>)
    ensures SplitValues(payload, []) == if payload == [] then Ok([]) else Err(Corruption)
  {
  }
}
