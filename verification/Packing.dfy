/** LSB-first bit packing of booleans and of fixed-width unsigned values. */
module Packing {
  import opened Core
  import opened Bytes
  import opened Bits

  // ----------------------------------------------------------- bits of a payload

  /** Bit `p` of a byte string, counting from the low bit of its first byte. */
  predicate BitAt(data: seq<byte>, p: nat)
    requires p / 8 < |data|
  {
    Bit(data[p / 8], p % 8)
  }

  function ByteCount(bits: nat): nat {
    (bits + 7) / 8
  }

  lemma Pow2Of8()
    ensures Pow2(8) == 256
  {
    assert Pow2(4) == 16;
  }

  function ByteOf(bits: seq<bool>): (b: byte)
    requires |bits| <= 8
  {
    FromBitsBound(bits);
    Pow2Of8();
    Pow2Grows(|bits|, 8);
    FromBits(bits)
  }

  lemma {:induction false} Pow2Grows(m: nat, n: nat)
    requires m <= n
    ensures Pow2(m) <= Pow2(n)
    decreases n
  {
    if m < n {
      Pow2Grows(m, n - 1);
    }
  }

  /** Bits packed eight to a byte, the last byte padded with zero bits. */
  function PackBits(bits: seq<bool>): (data: seq<byte>)
    ensures |data| == ByteCount(|bits|)
  {
    if |bits| <= 8 then (if bits == [] then [] else [ByteOf(bits)])
    else [ByteOf(bits[..8])] + PackBits(bits[8..])
  }

  /** The first `n` bits of a byte string. */
  function BitsOf(data: seq<byte>, n: nat): (bits: seq<bool>)
    requires n <= 8 * |data|
    ensures |bits| == n
    ensures forall p :: 0 <= p < n ==> bits[p] == BitAt(data, p)
  {
    seq(n, p requires 0 <= p < n => BitAt(data, p))
  }

  /** The padding of the last byte is zero. */
  predicate PaddingIsZero(data: seq<byte>, n: nat)
    requires |data| == ByteCount(n)
  {
    n % 8 != 0 ==> data[|data| - 1] < Pow2(n % 8)
  }

  lemma {:induction false} HighBitsOfSmall(v: nat, n: nat, k: nat)
    requires v < Pow2(n) && n <= k
    ensures !Bit(v, k)
    decreases k
  {
    if n == 0 {
      if k > 0 {
        HighBitsOfSmall(v / 2, 0, k - 1);
      }
    } else {
      HighBitsOfSmall(v / 2, n - 1, k - 1);
    }
  }

  lemma {:induction false} SmallFromHighBits(v: nat, n: nat, top: nat)
    requires v < Pow2(top) && n <= top
    requires forall k :: n <= k < top ==> !Bit(v, k)
    ensures v < Pow2(n)
    decreases top
  {
    if top > n {
      if top == 1 {
        assert !Bit(v, 0);
      } else if n > 0 {
        forall k | n - 1 <= k < top - 1 ensures !Bit(v / 2, k) {
          assert !Bit(v, k + 1);
        }
        SmallFromHighBits(v / 2, n - 1, top - 1);
      } else {
        assert !Bit(v, 0);
        forall k | 0 <= k < top - 1 ensures !Bit(v / 2, k) {
          assert !Bit(v, k + 1);
        }
        SmallFromHighBits(v / 2, 0, top - 1);
      }
    }
  }

  lemma ByteOfBit(bits: seq<bool>, k: nat)
    requires |bits| <= 8 && k < 8
    ensures Bit(ByteOf(bits), k) == (k < |bits| && bits[k])
  {
    FromBitsBound(bits);
    if k < |bits| {
      BitOfFromBits(bits, k);
    } else {
      HighBitsOfSmall(FromBits(bits), |bits|, k);
    }
  }

  /** Packed bits read back in place, and every padding bit is zero. */
  lemma {:induction false} PackedBitAt(bits: seq<bool>, p: nat)
    requires p / 8 < ByteCount(|bits|)
    ensures BitAt(PackBits(bits), p) == (p < |bits| && bits[p])
    decreases |bits|
  {
    hide ByteOf;
    if |bits| <= 8 {
      ByteOfBit(bits, p);
    } else if p < 8 {
      ByteOfBit(bits[..8], p);
    } else {
      PackedBitAt(bits[8..], p - 8);
      assert PackBits(bits)[p / 8] == PackBits(bits[8..])[(p - 8) / 8];
    }
  }

  /** Byte strings with the same bits are the same. */
  lemma SameBits(a: seq<byte>, b: seq<byte>)
    requires |a| == |b|
    requires forall p :: 0 <= p < 8 * |a| ==> BitAt(a, p) == BitAt(b, p)
    ensures a == b
  {
    Pow2Of8();
    forall i | 0 <= i < |a| ensures a[i] == b[i] {
      forall k | 0 <= k < 8 ensures Bit(a[i], k) == Bit(b[i], k) {
        assert BitAt(a, 8 * i + k) == BitAt(b, 8 * i + k);
      }
      BitsInjective(a[i], b[i], 8);
    }
  }

  lemma PackPadding(bits: seq<bool>)
    ensures PaddingIsZero(PackBits(bits), |bits|)
  {
    hide PackBits, Bit, Pow2;
    var n := |bits|;
    if n % 8 != 0 {
      var data := PackBits(bits);
      var last := data[|data| - 1];
      Pow2Of8();
      forall k | n % 8 <= k < 8 ensures !Bit(last, k) {
        PackedBitAt(bits, 8 * (|data| - 1) + k);
      }
      SmallFromHighBits(last, n % 8, 8);
    }
  }

  /** Unpacking what was packed gives it back. */
  lemma BitsRoundTrip(bits: seq<bool>)
    ensures BitsOf(PackBits(bits), |bits|) == bits
  {
    forall p | 0 <= p < |bits| ensures BitAt(PackBits(bits), p) == bits[p] {
      PackedBitAt(bits, p);
    }
  }

  /** Packing what was unpacked gives the same bytes, when the padding is zero. */
  lemma BytesRoundTrip(data: seq<byte>, n: nat)
    requires |data| == ByteCount(n) && PaddingIsZero(data, n)
    ensures PackBits(BitsOf(data, n)) == data
  {
    var bits := BitsOf(data, n);
    var packed := PackBits(bits);
    forall p | 0 <= p < 8 * |data| ensures BitAt(packed, p) == BitAt(data, p) {
      PackedBitAt(bits, p);
      if p >= n {
        HighBitsOfSmall(data[p / 8], n % 8, p % 8);
      }
    }
    SameBits(packed, data);
  }

  // ------------------------------------------------------------- packed booleans

  /** Raw boolean data: LSB-first bits without a width byte. */
  function RawBooleans(payload: seq<byte>, count: nat): Result<seq<bool>> {
    if |payload| != ByteCount(count) || !PaddingIsZero(payload, count) then Err(Corruption)
    else Ok(BitsOf(payload, count))
  }

  lemma RawBooleansRoundTrip(values: seq<bool>)
    ensures RawBooleans(PackBits(values), |values|) == Ok(values)
  {
    PackPadding(values);
    BitsRoundTrip(values);
  }

  lemma RawBooleansExact(payload: seq<byte>, count: nat)
    requires RawBooleans(payload, count).Ok?
    ensures PackBits(RawBooleans(payload, count).value) == payload
  {
    BytesRoundTrip(payload, count);
  }

  // --------------------------------------------------------------- packed values

  /** The bits of values laid end to end, each in `width` bits. */
  function ValueBits(values: seq<nat>, width: nat): (bits: seq<bool>)
    ensures |bits| == |values| * width
  {
    if values == [] then [] else ToBits(values[0], width) + ValueBits(values[1..], width)
  }

  /** Values cut out of a bit string, `width` bits each. */
  function ValuesOf(bits: seq<bool>, width: nat, count: nat): (values: seq<nat>)
    requires |bits| == count * width
    ensures |values| == count
    decreases count
  {
    if count == 0 then []
    else
      assert width + (count - 1) * width == count * width;
      [FromBits(bits[..width])] + ValuesOf(bits[width..], width, count - 1)
  }

  /** One width byte, then the values LSB-first. */
  function Pack(width: byte, values: seq<nat>): (payload: seq<byte>) {
    [width] + PackBits(ValueBits(values, width))
  }

  ghost predicate FitWidth(values: seq<nat>, width: nat) {
    forall i :: 0 <= i < |values| ==> values[i] < Pow2(width)
  }

  /** Read `count` packed values; the width byte measures the whole stream before it is read. */
  function Unpack(payload: seq<byte>, count: nat): Result<seq<nat>> {
    if payload == [] || payload[0] > 64 then Err(Corruption)
    else
      var width := payload[0];
      var data := payload[1..];
      if |data| != ByteCount(count * width) || !PaddingIsZero(data, count * width) then Err(Corruption)
      else Ok(ValuesOf(BitsOf(data, count * width), width, count))
  }

  lemma {:induction false} ValuesRoundTrip(values: seq<nat>, width: nat)
    requires FitWidth(values, width)
    ensures ValuesOf(ValueBits(values, width), width, |values|) == values
  {
    if values != [] {
      var bits := ValueBits(values, width);
      assert bits[..width] == ToBits(values[0], width) && bits[width..] == ValueBits(values[1..], width);
      ToFromBits(values[0], width);
      ValuesRoundTrip(values[1..], width);
    }
  }

  lemma {:induction false} ValueBitsRoundTrip(bits: seq<bool>, width: nat, count: nat)
    requires |bits| == count * width
    ensures ValueBits(ValuesOf(bits, width, count), width) == bits
    ensures FitWidth(ValuesOf(bits, width, count), width)
    decreases count
  {
    if count > 0 {
      assert width + (count - 1) * width == count * width;
      var values := ValuesOf(bits, width, count);
      var first := bits[..width];
      FromBitsBound(first);
      forall k | 0 <= k < width ensures Bit(FromBits(first), k) == first[k] {
        BitOfFromBits(first, k);
      }
      assert ToBits(FromBits(first), width) == first;
      ValueBitsRoundTrip(bits[width..], width, count - 1);
      assert values[1..] == ValuesOf(bits[width..], width, count - 1);
    }
  }

  /** Unpacking a packed sequence gives it back. */
  lemma PackRoundTrip(width: byte, values: seq<nat>)
    requires width <= 64 && FitWidth(values, width)
    ensures Unpack(Pack(width, values), |values|) == Ok(values)
  {
    var bits := ValueBits(values, width);
    assert Pack(width, values)[1..] == PackBits(bits);
    PackPadding(bits);
    BitsRoundTrip(bits);
    ValuesRoundTrip(values, width);
  }

  /** Repacking any accepted payload at its own width gives the same bytes. */
  lemma UnpackExact(payload: seq<byte>, count: nat)
    requires Unpack(payload, count).Ok?
    ensures
      var values := Unpack(payload, count).value;
      Pack(payload[0], values) == payload && FitWidth(values, payload[0]) && |values| == count
  {
    var width := payload[0];
    var data := payload[1..];
    var bits := BitsOf(data, count * width);
    ValueBitsRoundTrip(bits, width, count);
    BytesRoundTrip(data, count * width);
  }

  // ---------------------------------------------------------------- bit widths

  /** The bits needed to write a value. */
  function BitWidth(v: nat): nat {
    if v == 0 then 0 else 1 + BitWidth(v / 2)
  }

  lemma {:induction false} BitWidthFits(v: nat)
    ensures v < Pow2(BitWidth(v))
  {
    if v > 0 {
      BitWidthFits(v / 2);
    }
  }

  lemma {:induction false} BitWidthBound(v: nat, n: nat)
    requires v < Pow2(n)
    ensures BitWidth(v) <= n
  {
    if v > 0 {
      BitWidthBound(v / 2, n - 1);
    }
  }

  /** The width of the widest value. */
  function MaxWidth(values: seq<nat>): nat {
    if values == [] then 0
    else
      var rest := MaxWidth(values[1..]);
      if BitWidth(values[0]) > rest then BitWidth(values[0]) else rest
  }

  lemma {:induction false} MaxWidthFits(values: seq<nat>, n: nat)
    requires FitWidth(values, n)
    ensures FitWidth(values, MaxWidth(values)) && MaxWidth(values) <= n
  {
    if values != [] {
      MaxWidthFits(values[1..], n);
      BitWidthFits(values[0]);
      BitWidthBound(values[0], n);
      Pow2Grows(BitWidth(values[0]), MaxWidth(values));
      Pow2Grows(MaxWidth(values[1..]), MaxWidth(values));
      forall i | 0 <= i < |values| ensures values[i] < Pow2(MaxWidth(values)) {
        assert i > 0 ==> values[i] == values[1..][i - 1];
      }
    }
  }
}
