/** Boolean streams and byte-stream split. */
module Booleans {
  import opened Core
  import opened Bytes
  import opened Bits
  import opened Packing
  import opened Layouts
  import Integers

  // --------------------------------------------------------------- boolean RLE

  /** A run count, LSB-first run value bits, then packed positive run lengths. */
  function EncodeRle(values: seq<bool>): Result<seq<byte>>
    requires |values| < U64
  {
    var runs := RunsOf(values);
    if |runs.values| >= U32 then Err(ResourceLimit)
    else if runs.values == [] then Ok(Le(0, 4))
    else
      RleWidths(values);
      Ok(Le(|runs.values|, 4) + PackBits(runs.values) + Pack(MaxWidth(runs.lengths), runs.lengths))
  }

  lemma RleWidths(values: seq<bool>)
    requires |values| < U64
    ensures
      var lengths := RunsOf(values).lengths;
      MaxWidth(lengths) <= 64 && FitWidth(lengths, MaxWidth(lengths))
  {
    RunsRoundTrip(values);
    Integers.U64Widths(RunsOf(values).lengths);
  }

  function DecodeRle(payload: seq<byte>, count: nat): Result<seq<bool>> {
    if |payload| < 4 then Err(Corruption)
    else
      var runCount := FromLe(payload[..4]);
      if runCount > count then Err(Corruption)
      else if runCount == 0 then (if count == 0 && |payload| == 4 then Ok([]) else Err(Corruption))
      else
        var valueEnd := 4 + ByteCount(runCount);
        if |payload| < valueEnd then Err(Corruption)
        else
          var lengths :- Unpack(payload[valueEnd..], runCount);
          if |lengths| == runCount && RunLengthsFit(lengths, count) then
            Ok(Expand(BitsOf(payload[4..valueEnd], runCount), lengths))
          else Err(Corruption)
  }

  /** Run-length coding restores every boolean stream whose runs it can count. */
  lemma RleRoundTrip(values: seq<bool>)
    requires |values| < U64
    ensures EncodeRle(values).Ok? <==> |RunsOf(values).values| < U32
    ensures EncodeRle(values).Ok? ==> DecodeRle(EncodeRle(values).value, |values|) == Ok(values)
  {
    hide Pack, Unpack, PackBits, RunsOf, Expand;
    Ranges();
    var runs := RunsOf(values);
    RunsRoundTrip(values);
    if EncodeRle(values).Ok? {
      var payload := EncodeRle(values).value;
      var n := |runs.values|;
      LeRoundTrip(n, 4);
      assert payload[..4] == Le(n, 4);
      if n > 0 {
        RleWidths(values);
        var valueEnd := 4 + ByteCount(n);
        var lengths := Pack(MaxWidth(runs.lengths), runs.lengths);
        assert payload[4..valueEnd] == PackBits(runs.values) && payload[valueEnd..] == lengths;
        PackRoundTrip(MaxWidth(runs.lengths), runs.lengths);
        BitsRoundTrip(runs.values);
      }
    }
  }

  /** Bit-packed booleans may only hold zeros and ones. */
  function PackedBooleans(payload: seq<byte>, count: nat): Result<seq<bool>> {
    var values :- Unpack(payload, count);
    if forall i :: 0 <= i < |values| ==> values[i] <= 1 then
      Ok(seq(|values|, i requires 0 <= i < |values| => values[i] == 1))
    else Err(Corruption)
  }

  /** Decode a boolean stream under its transform ID. */
  function Decode(payload: seq<byte>, count: nat, transform: nat): Result<seq<bool>> {
    match transform
    case 0 => RawBooleans(payload, count)
    case 1 => PackedBooleans(payload, count)
    case 6 => DecodeRle(payload, count)
    case _ => Err(Corruption)
  }

  function BitValues(values: seq<bool>): (numbers: seq<nat>)
    ensures |numbers| == |values|
  {
    seq(|values|, i requires 0 <= i < |values| => if values[i] then 1 else 0)
  }

  /** The width of a packed boolean stream comes from its values: zero when all are false. */
  function EncodePackedBooleans(values: seq<bool>): seq<byte> {
    Pack(if true in values then 1 else 0, BitValues(values))
  }

  lemma PackedBooleansRoundTrip(values: seq<bool>)
    ensures Decode(EncodePackedBooleans(values), |values|, 1) == Ok(values)
  {
    var width := if true in values then 1 else 0;
    assert Pow2(1) == 2 && Pow2(0) == 1;
    PackRoundTrip(width, BitValues(values));
    var numbers := BitValues(values);
    assert seq(|numbers|, i requires 0 <= i < |numbers| => numbers[i] == 1) == values;
  }

  // --------------------------------------------------------- byte-stream split

  lemma Scales(a: nat, b: nat, width: nat)
    ensures a <= b ==> a * width <= b * width
    ensures (a + 1) * width == a * width + width
  {
  }

  lemma Position(value: nat, width: nat, b: nat)
    requires b < width
    ensures (value * width + b) / width == value && (value * width + b) % width == b
  {
    var p := value * width + b;
    var q, r := p / width, p % width;
    assert p == q * width + r;
    Scales(q + 1, value, width);
    Scales(value + 1, q, width);
    Scales(q, value, width);
    Scales(value, q, width);
  }

  lemma InGrid(value: nat, count: nat, b: nat, width: nat)
    requires value < count && b < width
    ensures value * width + b < count * width
    ensures b * count + value < width * count
  {
    Scales(value + 1, count, width);
    Scales(value, count, width);
    Scales(b + 1, width, count);
    Scales(b, width, count);
  }

  lemma GridCell(p: nat, count: nat, width: nat)
    requires p < count * width
    ensures width > 0 && p / width < count && p % width < width && p == p / width * width + p % width
  {
    assert width > 0;
    Scales(count, p / width, width);
  }

  /** The transpose of `count` values of `width` bytes each: all byte zeros, then all byte ones. */
  function Split(bytes: seq<byte>, count: nat, width: nat): (payload: seq<byte>)
    requires |bytes| == count * width
    ensures |payload| == |bytes|
  {
    seq(|bytes|, p requires 0 <= p < |bytes| =>
      GridCell(p, width, count); InGrid(p % count, count, p / count, width); bytes[p % count * width + p / count])
  }

  /** The canonical bytes of a split payload. */
  function Join(payload: seq<byte>, count: nat, width: nat): Result<seq<byte>> {
    if |payload| != count * width then Err(Corruption)
    else
      Ok(seq(|payload|, p requires 0 <= p < |payload| =>
        GridCell(p, count, width); InGrid(p / width, count, p % width, width); payload[p % width * count + p / width]))
  }

  lemma SplitAt(bytes: seq<byte>, count: nat, width: nat, value: nat, b: nat)
    requires |bytes| == count * width && value < count && b < width
    ensures b * count + value < |bytes| && value * width + b < |bytes|
    ensures Split(bytes, count, width)[b * count + value] == bytes[value * width + b]
  {
    InGrid(value, count, b, width);
    Position(b, count, value);
  }

  /** Joining a split stream restores it, for every count and width. */
  lemma SplitRoundTrip(bytes: seq<byte>, count: nat, width: nat)
    requires |bytes| == count * width
    ensures Join(Split(bytes, count, width), count, width) == Ok(bytes)
  {
    hide Split;
    var joined := Join(Split(bytes, count, width), count, width).value;
    forall p | 0 <= p < |bytes| ensures joined[p] == bytes[p] {
      GridCell(p, count, width);
      SplitAt(bytes, count, width, p / width, p % width);
    }
    assert joined == bytes;
  }
}
