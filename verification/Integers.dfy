/** The integer stream transforms: their encoders, their decoders, and why these invert. */
module Integers {
  import opened Core
  import opened Bytes
  import opened Bits
  import opened Packing
  import opened Rows

  predicate CanonicalWidth(width: nat) {
    width in {1, 2, 4, 8}
  }

  // ------------------------------------------------------------ stored integers

  /** One little-endian integer, sign-extended from its stored width when signed. */
  function ReadInteger(bytes: seq<byte>, signed: bool): int {
    var raw := FromLe(bytes);
    if signed && 2 * raw >= Range(|bytes|) then raw - Range(|bytes|) else raw
  }

  function WriteInteger(value: int, width: nat): (bytes: seq<byte>)
    requires -value <= Range(width)
    ensures |bytes| == width
  {
    Le(if value < 0 then value + Range(width) else value, width)
  }

  lemma IntegerRoundTrip(value: int, width: nat, signed: bool)
    requires InRange(value, width, signed)
    ensures ReadInteger(WriteInteger(value, width), signed) == value
  {
    LeRoundTrip(if value < 0 then value + Range(width) else value, width);
  }

  // -------------------------------------------------------------------- zigzag

  /** `(v << 1) ^ (v >> 63)` on 64-bit words: shift the bits up, complement them if negative. */
  function Zigzag(v: i64): u64 {
    var bits := if v < 0 then v + U64 else v;
    var shifted := 2 * bits % U64;
    if v < 0 then U64 - 1 - shifted else shifted
  }

  function Unzigzag(e: nat): int {
    if e % 2 == 0 then e / 2 else -(e / 2) - 1
  }

  lemma ZigzagRoundTrip(v: i64)
    ensures Unzigzag(Zigzag(v)) == v
  {
  }

  lemma UnzigzagRoundTrip(e: u64)
    ensures -I64 <= Unzigzag(e) < I64 && Zigzag(Unzigzag(e)) == e
  {
  }

  // ------------------------------------------------------------------ decoders

  predicate AllInRange(values: seq<int>, width: nat, signed: bool) {
    forall i :: 0 <= i < |values| ==> InRange(values[i], width, signed)
  }

  /** Narrow reconstructed values to the column's type. */
  function Narrow(values: seq<int>, width: nat, signed: bool): Result<seq<int>> {
    if AllInRange(values, width, signed) then Ok(values) else Err(Corruption)
  }

  function Chunks(payload: seq<byte>, count: nat, width: nat, signed: bool): (values: seq<int>)
    requires |payload| == count * width
    ensures |values| == count
    decreases count
  {
    if count == 0 then []
    else
      assert width + (count - 1) * width == count * width;
      [ReadInteger(payload[..width], signed)] + Chunks(payload[width..], count - 1, width, signed)
  }

  function RawIntegers(payload: seq<byte>, count: nat, width: nat, signed: bool): Result<seq<int>> {
    if |payload| != count * width then Err(Corruption) else Narrow(Chunks(payload, count, width, signed), width, signed)
  }

  function PackedIntegers(payload: seq<byte>, count: nat, width: nat, signed: bool): Result<seq<int>> {
    var values :- Unpack(payload, count);
    Narrow(values, width, signed)
  }

  function AddBase(base: int, offsets: seq<nat>): (values: seq<int>)
    ensures |values| == |offsets|
  {
    seq(|offsets|, i requires 0 <= i < |offsets| => base + offsets[i])
  }

  /** One canonical-width minimum, then packed differences from it. */
  function FrameOfReference(payload: seq<byte>, count: nat, width: nat, signed: bool): Result<seq<int>> {
    if count == 0 then (if payload == [] then Ok([]) else Err(Corruption))
    else if |payload| < width then Err(Corruption)
    else
      var offsets :- Unpack(payload[width..], count);
      Narrow(AddBase(ReadInteger(payload[..width], signed), offsets), width, signed)
  }

  /** The running sums of zigzag-coded differences. */
  function Sums(current: int, encoded: seq<nat>): (values: seq<int>)
    ensures |values| == |encoded|
    decreases |encoded|
  {
    if encoded == [] then []
    else
      var next := current + Unzigzag(encoded[0]);
      [next] + Sums(next, encoded[1..])
  }

  /** The first value, then packed zigzag differences. */
  function Delta(payload: seq<byte>, count: nat, width: nat, signed: bool): Result<seq<int>> {
    if count == 0 then (if payload == [] then Ok([]) else Err(Corruption))
    else if |payload| < width then Err(Corruption)
    else
      var first := ReadInteger(payload[..width], signed);
      if count == 1 then (if |payload| == width then Narrow([first], width, signed) else Err(Corruption))
      else
        var encoded :- Unpack(payload[width..], count - 1);
        Narrow([first] + Sums(first, encoded), width, signed)
  }

  /** The running double sums; every intermediate difference must fit a signed 64-bit word. */
  function DoubleSums(current: int, delta: int, encoded: seq<nat>): (r: Result<seq<int>>)
    ensures r.Ok? ==> |r.value| == |encoded|
    decreases |encoded|
  {
    if encoded == [] then Ok([])
    else
      var next := delta + Unzigzag(encoded[0]);
      if !(-I64 <= next < I64) then Err(Corruption)
      else
        var rest :- DoubleSums(current + next, next, encoded[1..]);
        Ok([current + next] + rest)
  }

  /** The first value, the first difference, then packed zigzag differences of differences. */
  function DeltaOfDelta(payload: seq<byte>, count: nat, width: nat, signed: bool): Result<seq<int>> {
    if count < 2 || |payload| < width + 8 then Err(Corruption)
    else
      var first := ReadInteger(payload[..width], signed);
      var delta := ReadInteger(payload[width..width + 8], true);
      var encoded :- Unpack(payload[width + 8..], count - 2);
      var rest :- DoubleSums(first + delta, delta, encoded);
      Narrow([first, first + delta] + rest, width, signed)
  }

  /** Decode a fixed-width integer stream under its transform ID. */
  function Decode(payload: seq<byte>, count: nat, width: nat, signed: bool, transform: nat): Result<seq<int>> {
    if !CanonicalWidth(width) then Err(Corruption)
    else
      match transform
      case 0 => RawIntegers(payload, count, width, signed)
      case 1 => PackedIntegers(payload, count, width, signed)
      case 2 => FrameOfReference(payload, count, width, signed)
      case 3 => Delta(payload, count, width, signed)
      case 4 => DeltaOfDelta(payload, count, width, signed)
      case _ => Err(Corruption)
  }

  // ------------------------------------------------------------------ encoders

  function EncodeRaw(values: seq<int>, width: nat): (payload: seq<byte>)
    requires forall i :: 0 <= i < |values| ==> -values[i] <= Range(width)
    ensures |payload| == |values| * width
  {
    if values == [] then []
    else
      assert width + (|values| - 1) * width == |values| * width;
      WriteInteger(values[0], width) + EncodeRaw(values[1..], width)
  }

  function EncodePacked(values: seq<int>): Result<seq<byte>> {
    if exists i :: 0 <= i < |values| && !(0 <= values[i] < U64) then Err(InvalidArgument)
    else
      var naturals: seq<nat> := values;
      U64Widths(naturals);
      Ok(Pack(MaxWidth(naturals), naturals))
  }

  function Minimum(values: seq<int>): (m: int)
    requires values != []
    ensures m in values
    ensures forall i :: 0 <= i < |values| ==> m <= values[i]
  {
    if |values| == 1 then values[0]
    else
      var rest := Minimum(values[1..]);
      assert forall i :: 1 <= i < |values| ==> values[i] == values[1..][i - 1];
      if values[0] <= rest then values[0] else rest
  }

  function Offsets(values: seq<int>, base: int): (offsets: seq<nat>)
    requires forall i :: 0 <= i < |values| ==> base <= values[i]
    ensures |offsets| == |values|
  {
    seq(|values|, i requires 0 <= i < |values| => values[i] - base)
  }

  /** Refused only for an empty stream or a span no 64-bit offset can cover. */
  function EncodeFrameOfReference(values: seq<int>, width: nat): Result<seq<byte>>
    requires forall i :: 0 <= i < |values| ==> -values[i] <= Range(width)
  {
    if values == [] then Err(InvalidArgument)
    else
      var base := Minimum(values);
      var offsets := Offsets(values, base);
      if exists i :: 0 <= i < |offsets| && offsets[i] >= U64 then Err(InvalidArgument)
      else
        U64Widths(offsets);
        Ok(WriteInteger(base, width) + Pack(MaxWidth(offsets), offsets))
  }

  function Differences(values: seq<int>): (deltas: seq<int>)
    ensures |deltas| == if values == [] then 0 else |values| - 1
  {
    if |values| < 2 then [] else [values[1] - values[0]] + Differences(values[1..])
  }

  predicate AllI64(values: seq<int>) {
    forall i :: 0 <= i < |values| ==> -I64 <= values[i] < I64
  }

  function Zigzags(deltas: seq<int>): (encoded: seq<nat>)
    requires AllI64(deltas)
    ensures |encoded| == |deltas|
    ensures forall i :: 0 <= i < |encoded| ==> encoded[i] == Zigzag(deltas[i])
  {
    seq(|deltas|, i requires 0 <= i < |deltas| => Zigzag(deltas[i]))
  }

  function PackZigzags(deltas: seq<int>): seq<byte>
    requires AllI64(deltas)
  {
    U64Widths(Zigzags(deltas));
    Pack(MaxWidth(Zigzags(deltas)), Zigzags(deltas))
  }

  /** Refused when a difference between neighbours leaves the signed 64-bit range. */
  function EncodeDelta(values: seq<int>, width: nat): Result<seq<byte>>
    requires forall i :: 0 <= i < |values| ==> -values[i] <= Range(width)
  {
    if values == [] || !AllI64(Differences(values)) then Err(InvalidArgument)
    else Ok(WriteInteger(values[0], width) + if |values| > 1 then PackZigzags(Differences(values)) else [])
  }

  /** Refused when a difference, or a difference of differences, leaves the signed 64-bit range. */
  function EncodeDeltaOfDelta(values: seq<int>, width: nat): Result<seq<byte>>
    requires forall i :: 0 <= i < |values| ==> -values[i] <= Range(width)
  {
    var deltas := Differences(values);
    if |values| < 2 || !AllI64(deltas) || !AllI64(Differences(deltas)) then Err(InvalidArgument)
    else
      Ranges();
      Ok(WriteInteger(values[0], width) + WriteInteger(deltas[0], 8) + PackZigzags(Differences(deltas)))
  }

  lemma Pow2Of64()
    ensures Pow2(64) == U64
  {
    Pow2Sum(8, 8);
    Pow2Sum(16, 16);
    Pow2Sum(32, 32);
    Pow2Of8();
  }

  lemma {:induction false} Pow2Sum(m: nat, n: nat)
    ensures Pow2(m + n) == Pow2(m) * Pow2(n)
  {
    if m > 0 {
      Pow2Sum(m - 1, n);
      assert Pow2(m) * Pow2(n) == 2 * (Pow2(m - 1) * Pow2(n));
    }
  }

  lemma U64Widths(values: seq<nat>)
    requires forall i :: 0 <= i < |values| ==> values[i] < U64
    ensures MaxWidth(values) <= 64 && FitWidth(values, MaxWidth(values))
  {
    hide MaxWidth;
    Pow2Of64();
    MaxWidthFits(values, 64);
  }

  // --------------------------------------------------------------- round trips

  lemma {:induction false} ChunksRoundTrip(values: seq<int>, width: nat, signed: bool)
    requires AllInRange(values, width, signed)
    ensures Chunks(EncodeRaw(values, width), |values|, width, signed) == values
  {
    if values != [] {
      var payload := EncodeRaw(values, width);
      assert payload[..width] == WriteInteger(values[0], width) && payload[width..] == EncodeRaw(values[1..], width);
      IntegerRoundTrip(values[0], width, signed);
      ChunksRoundTrip(values[1..], width, signed);
    }
  }

  lemma RawRoundTrip(values: seq<int>, width: nat, signed: bool)
    requires CanonicalWidth(width) && AllInRange(values, width, signed)
    ensures Decode(EncodeRaw(values, width), |values|, width, signed, 0) == Ok(values)
  {
    ChunksRoundTrip(values, width, signed);
  }

  /** Bit packing restores every stream it admits, and it admits exactly nonnegative streams. */
  lemma PackedRoundTrip(values: seq<int>, width: nat, signed: bool)
    requires CanonicalWidth(width) && AllInRange(values, width, signed)
    ensures EncodePacked(values).Ok? <==> forall i :: 0 <= i < |values| ==> values[i] >= 0
    ensures EncodePacked(values).Ok? ==> Decode(EncodePacked(values).value, |values|, width, signed, 1) == Ok(values)
  {
    WidthsAreBounded(width);
    if EncodePacked(values).Ok? {
      var naturals: seq<nat> := values;
      U64Widths(naturals);
      PackRoundTrip(MaxWidth(naturals), naturals);
    }
  }

  lemma WidthsAreBounded(width: nat)
    requires CanonicalWidth(width)
    ensures Range(width) <= U64
  {
    Ranges();
  }

  /** A value as the 64-bit word a two's-complement register holds. */
  function Word(x: int): int {
    x % U64
  }

  /**
   * Offsets computed on wrapping 64-bit words are the exact offsets, up to and including the
   * extremes of the signed and unsigned ranges.
   */
  lemma WrappedOffsetsAreExact(values: seq<int>, width: nat, signed: bool)
    requires CanonicalWidth(width) && AllInRange(values, width, signed) && values != []
    ensures
      var base := Minimum(values);
      forall i :: 0 <= i < |values| ==> Word(Word(values[i]) - Word(base)) == Offsets(values, base)[i]
  {
    hide Minimum, Word, Range;
    WidthsAreBounded(width);
    var base := Minimum(values);
    forall i | 0 <= i < |values| ensures Word(Word(values[i]) - Word(base)) == Offsets(values, base)[i] {
      WordsSubtract(values[i], base);
    }
  }

  lemma WordsSubtract(x: int, base: int)
    requires -I64 <= base <= x < U64 && x - base < U64
    ensures Word(Word(x) - Word(base)) == x - base
  {
    assert Word(x) == if x < 0 then x + U64 else x;
    assert Word(base) == if base < 0 then base + U64 else base;
    assert Word(x) - Word(base) == x - base || Word(x) - Word(base) == x - base - U64;
  }

  /** Frame of reference restores every nonempty stream, extremes of the widest types included. */
  lemma FrameOfReferenceRoundTrip(values: seq<int>, width: nat, signed: bool)
    requires CanonicalWidth(width) && AllInRange(values, width, signed) && values != []
    ensures EncodeFrameOfReference(values, width).Ok?
    ensures Decode(EncodeFrameOfReference(values, width).value, |values|, width, signed, 2) == Ok(values)
  {
    hide Pack, Unpack, MaxWidth, ReadInteger, WriteInteger, Minimum;
    WidthsAreBounded(width);
    var base := Minimum(values);
    var offsets := Offsets(values, base);
    assert InRange(base, width, signed);
    U64Widths(offsets);
    var packed := Pack(MaxWidth(offsets), offsets);
    var payload := WriteInteger(base, width) + packed;
    assert payload[..width] == WriteInteger(base, width) && payload[width..] == packed;
    IntegerRoundTrip(base, width, signed);
    PackRoundTrip(MaxWidth(offsets), offsets);
    assert AddBase(base, offsets) == values;
  }

  lemma {:induction false} SumsRestore(values: seq<int>)
    requires values != [] && AllI64(Differences(values))
    ensures Sums(values[0], Zigzags(Differences(values))) == values[1..]
  {
    if |values| > 1 {
      var deltas := Differences(values);
      assert deltas[1..] == Differences(values[1..]);
      ZigzagRoundTrip(deltas[0]);
      assert Zigzags(deltas)[1..] == Zigzags(deltas[1..]);
      SumsRestore(values[1..]);
    }
  }

  lemma ZigzagsUnpack(deltas: seq<int>)
    requires AllI64(deltas)
    ensures Unpack(PackZigzags(deltas), |deltas|) == Ok(Zigzags(deltas))
  {
    hide Unpack, Pack;
    U64Widths(Zigzags(deltas));
    PackRoundTrip(MaxWidth(Zigzags(deltas)), Zigzags(deltas));
  }

  /** Delta coding restores every stream it admits: those whose neighbours differ by a signed 64-bit word. */
  lemma DeltaRoundTrip(values: seq<int>, width: nat, signed: bool)
    requires CanonicalWidth(width) && AllInRange(values, width, signed) && values != []
    ensures EncodeDelta(values, width).Ok? <==> AllI64(Differences(values))
    ensures EncodeDelta(values, width).Ok? ==> Decode(EncodeDelta(values, width).value, |values|, width, signed, 3) == Ok(values)
  {
    hide Unpack, ReadInteger, Differences, Sums, Zigzags, PackZigzags, WriteInteger, Range;
    if EncodeDelta(values, width).Ok? {
      var payload := EncodeDelta(values, width).value;
      assert payload[..width] == WriteInteger(values[0], width);
      IntegerRoundTrip(values[0], width, signed);
      if |values| > 1 {
        assert payload[width..] == PackZigzags(Differences(values));
        ZigzagsUnpack(Differences(values));
        SumsRestore(values);
        assert [values[0]] + values[1..] == values;
      } else {
        assert [values[0]] == values;
      }
    }
  }

  lemma {:induction false} DoubleSumsRestore(values: seq<int>)
    requires |values| >= 2 && AllI64(Differences(values)) && AllI64(Differences(Differences(values)))
    ensures
      DoubleSums(values[1], values[1] - values[0], Zigzags(Differences(Differences(values)))) == Ok(values[2..])
  {
    if |values| > 2 {
      var deltas := Differences(values);
      var seconds := Differences(deltas);
      assert deltas[1..] == Differences(values[1..]);
      assert Differences(values[1..])[0] == values[2] - values[1];
      assert seconds[1..] == Differences(deltas[1..]);
      ZigzagRoundTrip(seconds[0]);
      assert Zigzags(seconds)[1..] == Zigzags(seconds[1..]);
      assert -I64 <= deltas[1] < I64;
      DoubleSumsRestore(values[1..]);
      assert values[1..][2..] == values[3..];
      assert [values[2]] + values[3..] == values[2..];
    }
  }

  lemma DeltaOfDeltaParts(values: seq<int>, width: nat)
    requires forall i :: 0 <= i < |values| ==> -values[i] <= Range(width)
    requires EncodeDeltaOfDelta(values, width).Ok?
    ensures
      var payload := EncodeDeltaOfDelta(values, width).value;
      var deltas := Differences(values);
      && -deltas[0] <= Range(8) && deltas[0] == values[1] - values[0]
      && InRange(deltas[0], 8, true)
      && |payload| >= width + 8
      && payload[..width] == WriteInteger(values[0], width)
      && payload[width..width + 8] == WriteInteger(deltas[0], 8)
      && payload[width + 8..] == PackZigzags(Differences(deltas))
  {
    hide PackZigzags, WriteInteger;
    Ranges();
  }

  lemma DeltaOfDeltaDecodes(values: seq<int>, width: nat, signed: bool)
    requires AllInRange(values, width, signed) && EncodeDeltaOfDelta(values, width).Ok?
    ensures DeltaOfDelta(EncodeDeltaOfDelta(values, width).value, |values|, width, signed) == Ok(values)
  {
    hide Unpack, ReadInteger, PackZigzags, WriteInteger, Zigzags, DoubleSums;
    DeltaOfDeltaParts(values, width);
    IntegerRoundTrip(values[0], width, signed);
    IntegerRoundTrip(Differences(values)[0], 8, true);
    ZigzagsUnpack(Differences(Differences(values)));
    DoubleSumsRestore(values);
    assert [values[0], values[1]] + values[2..] == values;
  }

  lemma DeltaOfDeltaNeedsTwo(values: seq<int>, width: nat)
    requires forall i :: 0 <= i < |values| ==> -values[i] <= Range(width)
    requires EncodeDeltaOfDelta(values, width).Ok?
    ensures |values| >= 2
  {
  }

  /** Delta-of-delta coding restores every stream it admits. */
  lemma DeltaOfDeltaRoundTrip(values: seq<int>, width: nat, signed: bool)
    requires CanonicalWidth(width) && AllInRange(values, width, signed) && |values| >= 2
    ensures
      EncodeDeltaOfDelta(values, width).Ok?
      <==> AllI64(Differences(values)) && AllI64(Differences(Differences(values)))
    ensures
      EncodeDeltaOfDelta(values, width).Ok? ==>
        Decode(EncodeDeltaOfDelta(values, width).value, |values|, width, signed, 4) == Ok(values)
  {
    hide DeltaOfDelta;
    if EncodeDeltaOfDelta(values, width).Ok? {
      DeltaOfDeltaDecodes(values, width, signed);
    }
  }
}
