/** The bits of natural numbers, least significant first. */
module Bits {

  function Pow2(n: nat): (r: nat)
    ensures r >= 1
  {
    if n == 0 then 1 else 2 * Pow2(n - 1)
  }

  predicate Bit(v: nat, k: nat)
    decreases k
  {
    if k == 0 then v % 2 == 1 else Bit(v / 2, k - 1)
  }

  /** The number whose bits are `bits`. */
  function FromBits(bits: seq<bool>): (v: nat) {
    if bits == [] then 0 else (if bits[0] then 1 else 0) + 2 * FromBits(bits[1..])
  }

  /** The low `n` bits of `v`. */
  function ToBits(v: nat, n: nat): (bits: seq<bool>)
    ensures |bits| == n
    ensures forall k :: 0 <= k < n ==> bits[k] == Bit(v, k)
  {
    seq(n, k requires 0 <= k < n => Bit(v, k))
  }

  lemma {:induction false} FromBitsBound(bits: seq<bool>)
    ensures FromBits(bits) < Pow2(|bits|)
  {
    if bits != [] {
      FromBitsBound(bits[1..]);
    }
  }

  lemma {:induction false} BitOfFromBits(bits: seq<bool>, k: nat)
    requires k < |bits|
    ensures Bit(FromBits(bits), k) == bits[k]
  {
    var rest := FromBits(bits[1..]);
    assert FromBits(bits) / 2 == rest;
    if k > 0 {
      BitOfFromBits(bits[1..], k - 1);
    }
  }

  /** Numbers below a power of two are determined by their low bits. */
  lemma {:induction false} BitsInjective(a: nat, b: nat, n: nat)
    requires a < Pow2(n) && b < Pow2(n)
    requires forall k :: 0 <= k < n ==> Bit(a, k) == Bit(b, k)
    ensures a == b
  {
    if n > 0 {
      assert Bit(a, 0) == Bit(b, 0);
      forall k | 0 <= k < n - 1 ensures Bit(a / 2, k) == Bit(b / 2, k) {
        assert Bit(a, k + 1) == Bit(b, k + 1);
      }
      BitsInjective(a / 2, b / 2, n - 1);
    }
  }

  lemma ToFromBits(v: nat, n: nat)
    requires v < Pow2(n)
    ensures FromBits(ToBits(v, n)) == v
  {
    var bits := ToBits(v, n);
    FromBitsBound(bits);
    forall k | 0 <= k < n ensures Bit(FromBits(bits), k) == Bit(v, k) {
      BitOfFromBits(bits, k);
    }
    BitsInjective(FromBits(bits), v, n);
  }
}
