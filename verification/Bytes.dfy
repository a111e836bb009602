/** Bytes, machine-word ranges and the little-endian fields of the wire format. */
module Bytes {
  type byte = x: int | 0 <= x < 256

  const U16: int := 0x1_0000
  const U32: int := 0x1_0000_0000
  const U64: int := 0x1_0000_0000_0000_0000
  const I64: int := 0x8000_0000_0000_0000

  type u16 = x: int | 0 <= x < U16
  type u32 = x: int | 0 <= x < U32
  type u64 = x: int | 0 <= x < U64
  type i64 = x: int | -I64 <= x < I64

  /** 256 to the power `width`: one more than the largest `width`-byte value. */
  function Range(width: nat): (r: nat)
    ensures r >= 1
  {
    if width == 0 then 1 else 256 * Range(width - 1)
  }

  lemma Ranges()
    ensures Range(1) == 256 && Range(2) == U16 && Range(4) == U32 && Range(8) == U64
  {
    assert Range(3) == 256 * Range(2);
    assert Range(5) == 256 * Range(4);
    assert Range(7) == 256 * Range(6);
  }

  /** The `width` low bytes of `n`, least significant first. */
  function Le(n: nat, width: nat): (bytes: seq<byte>)
    ensures |bytes| == width
  {
    if width == 0 then [] else [n % 256] + Le(n / 256, width - 1)
  }

  /** The value of little-endian `bytes`. */
  function FromLe(bytes: seq<byte>): (n: nat) {
    if bytes == [] then 0 else bytes[0] + 256 * FromLe(bytes[1..])
  }

  /** The value of the `width`-byte little-endian field that starts at `offset`. */
  function Field(bytes: seq<byte>, offset: nat, width: nat): (n: nat)
    requires offset + width <= |bytes|
  {
    FromLe(bytes[offset..offset + width])
  }

  function U16At(bytes: seq<byte>, offset: nat): (n: u16)
    requires offset + 2 <= |bytes|
  {
    FieldBound(bytes, offset, 2);
    Field(bytes, offset, 2)
  }

  function U32At(bytes: seq<byte>, offset: nat): (n: u32)
    requires offset + 4 <= |bytes|
  {
    FieldBound(bytes, offset, 4);
    Field(bytes, offset, 4)
  }

  function U64At(bytes: seq<byte>, offset: nat): (n: u64)
    requires offset + 8 <= |bytes|
  {
    FieldBound(bytes, offset, 8);
    Field(bytes, offset, 8)
  }

  lemma FieldBound(bytes: seq<byte>, offset: nat, width: nat)
    requires offset + width <= |bytes|
    ensures Field(bytes, offset, width) < Range(width)
    ensures Range(2) == U16 && Range(4) == U32 && Range(8) == U64
  {
    FromLeBound(bytes[offset..offset + width]);
    Ranges();
  }

  lemma {:induction false} FromLeBound(bytes: seq<byte>)
    ensures FromLe(bytes) < Range(|bytes|)
  {
    if bytes != [] {
      FromLeBound(bytes[1..]);
    }
  }

  /** Reading back what was written gives the same number, for numbers that fit. */
  lemma {:induction false} LeRoundTrip(n: nat, width: nat)
    requires n < Range(width)
    ensures FromLe(Le(n, width)) == n
  {
    if width > 0 {
      assert Le(n, width)[1..] == Le(n / 256, width - 1);
      LeRoundTrip(n / 256, width - 1);
    }
  }

  /** Writing back what was read gives the same bytes. */
  lemma {:induction false} FromLeRoundTrip(bytes: seq<byte>)
    ensures Le(FromLe(bytes), |bytes|) == bytes
  {
    if bytes != [] {
      FromLeRoundTrip(bytes[1..]);
    }
  }

  lemma FromLeInjective(a: seq<byte>, b: seq<byte>)
    requires |a| == |b| && FromLe(a) == FromLe(b)
    ensures a == b
  {
    FromLeRoundTrip(a);
    FromLeRoundTrip(b);
  }

  /** A run of `count` zero bytes. */
  function Zeros(count: nat): (bytes: seq<byte>)
    ensures |bytes| == count
  {
    seq(count, _ => 0)
  }

  /** `n` rounded up to a multiple of eight. */
  function Align8(n: nat): (r: nat)
    ensures r % 8 == 0 && n <= r < n + 8
  {
    (n + 7) / 8 * 8
  }

  /** Files that agree up to `end` agree on every slice before it. */
  lemma SharedSlice(f: seq<byte>, g: seq<byte>, end: nat, a: nat, b: nat)
    requires a <= b <= end <= |f| && end <= |g| && f[..end] == g[..end]
    ensures f[a..b] == g[a..b]
  {
    assert f[a..b] == f[..end][a..b];
    assert g[a..b] == g[..end][a..b];
  }

  lemma SliceAfter(before: seq<byte>, frame: seq<byte>, a: nat, b: nat)
    requires a <= b <= |frame|
    ensures (before + frame)[|before| + a..|before| + b] == frame[a..b]
  {
  }

  lemma SliceBefore(first: seq<byte>, rest: seq<byte>, a: nat, b: nat)
    requires a <= b <= |first|
    ensures (first + rest)[a..b] == first[a..b]
  {
  }

  /** The last piece of a concatenation that begins `h`, and what is left before it. */
  lemma Peel(h: seq<byte>, x: seq<byte>, f: seq<byte>)
    requires |x| + |f| <= |h| && h[..|x| + |f|] == x + f
    ensures h[..|x|] == x && h[|x|..|x| + |f|] == f
  {
    var all := x + f;
    assert h[..|x|] == all[..|x|];
    assert h[|x|..|x| + |f|] == all[|x|..];
  }
}
