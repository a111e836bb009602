/**
 * CRC32C (Castagnoli), as the bit-reflected byte fold of section 12.1 of RFC 3720:
 * the register starts at all ones, absorbs one byte at a time and is complemented at
 * the end.
 */
module Crc32c {
  import opened Bytes
  import opened Bits

  const POLY: bv32 := 0x82F6_3B78
  const ONES: bv32 := 0xFFFF_FFFF

  function Shift(s: bv32): bv32 {
    if s & 1 == 1 then (s >> 1) ^ POLY else s >> 1
  }

  function Mix(s: bv32): bv32 {
    Shift(Shift(Shift(Shift(Shift(Shift(Shift(Shift(s))))))))
  }

  function Pick(on: bool, mask: bv32): bv32 {
    if on then mask else 0
  }

  function Join(b0: bool, b1: bool, b2: bool, b3: bool, b4: bool, b5: bool, b6: bool, b7: bool): bv32 {
    Pick(b0, 1) | Pick(b1, 2) | Pick(b2, 4) | Pick(b3, 8)
    | Pick(b4, 16) | Pick(b5, 32) | Pick(b6, 64) | Pick(b7, 128)
  }

  /** A byte as the low bits of a register. */
  function Word(b: byte): bv32 {
    Join(Bit(b, 0), Bit(b, 1), Bit(b, 2), Bit(b, 3), Bit(b, 4), Bit(b, 5), Bit(b, 6), Bit(b, 7))
  }

  /** Absorb one byte. */
  function Absorb(s: bv32, b: byte): bv32 {
    Mix(s ^ Word(b))
  }

  /** Absorb a run of bytes. */
  function Fold(s: bv32, bytes: seq<byte>): bv32
    decreases |bytes|
  {
    if bytes == [] then s else Fold(Absorb(s, bytes[0]), bytes[1..])
  }

  /** A register as the 32-bit value the file stores. */
  function Value(s: bv32): (crc: u32) {
    s as int
  }

  /** The final complement. */
  function Finish(s: bv32): (crc: u32) {
    Value(s ^ ONES)
  }

  /** The checksum of `bytes`. */
  function Checksum(bytes: seq<byte>): (crc: u32) {
    Finish(Fold(ONES, bytes))
  }

  lemma ShiftInjective(a: bv32, b: bv32)
    requires Shift(a) == Shift(b)
    ensures a == b
  {
  }

  lemma FourShiftsInjective(a: bv32, b: bv32)
    requires Shift(Shift(Shift(Shift(a)))) == Shift(Shift(Shift(Shift(b))))
    ensures a == b
  {
    ShiftInjective(Shift(Shift(Shift(a))), Shift(Shift(Shift(b))));
    ShiftInjective(Shift(Shift(a)), Shift(Shift(b)));
    ShiftInjective(Shift(a), Shift(b));
    ShiftInjective(a, b);
  }

  lemma MixInjective(a: bv32, b: bv32)
    requires Mix(a) == Mix(b)
    ensures a == b
  {
    FourShiftsInjective(Shift(Shift(Shift(Shift(a)))), Shift(Shift(Shift(Shift(b)))));
    FourShiftsInjective(a, b);
  }

  lemma JoinInjective(
      a0: bool, a1: bool, a2: bool, a3: bool, a4: bool, a5: bool, a6: bool, a7: bool,
      b0: bool, b1: bool, b2: bool, b3: bool, b4: bool, b5: bool, b6: bool, b7: bool)
    requires Join(a0, a1, a2, a3, a4, a5, a6, a7) == Join(b0, b1, b2, b3, b4, b5, b6, b7)
    ensures a0 == b0 && a1 == b1 && a2 == b2 && a3 == b3
    ensures a4 == b4 && a5 == b5 && a6 == b6 && a7 == b7
  {
  }

  lemma WordDeterminesBits(a: byte, b: byte)
    requires Word(a) == Word(b)
    ensures Bit(a, 0) == Bit(b, 0) && Bit(a, 1) == Bit(b, 1) && Bit(a, 2) == Bit(b, 2) && Bit(a, 3) == Bit(b, 3)
    ensures Bit(a, 4) == Bit(b, 4) && Bit(a, 5) == Bit(b, 5) && Bit(a, 6) == Bit(b, 6) && Bit(a, 7) == Bit(b, 7)
  {
    hide Bit, Join;
    JoinInjective(
      Bit(a, 0), Bit(a, 1), Bit(a, 2), Bit(a, 3), Bit(a, 4), Bit(a, 5), Bit(a, 6), Bit(a, 7),
      Bit(b, 0), Bit(b, 1), Bit(b, 2), Bit(b, 3), Bit(b, 4), Bit(b, 5), Bit(b, 6), Bit(b, 7));
  }

  lemma WordInjective(a: byte, b: byte)
    requires Word(a) == Word(b)
    ensures a == b
  {
    hide Bit, Word, Join;
    WordDeterminesBits(a, b);
    assert Pow2(8) == 256 by {
      assert Pow2(4) == 16;
    }
    BitsInjective(a, b, 8);
  }

  /** Absorbing loses nothing about the register. */
  lemma AbsorbInjectiveInState(s: bv32, t: bv32, b: byte)
    requires Absorb(s, b) == Absorb(t, b)
    ensures s == t
  {
    MixInjective(s ^ Word(b), t ^ Word(b));
  }

  /** Absorbing loses nothing about the byte. */
  lemma AbsorbInjectiveInByte(s: bv32, a: byte, b: byte)
    requires Absorb(s, a) == Absorb(s, b)
    ensures a == b
  {
    MixInjective(s ^ Word(a), s ^ Word(b));
    WordInjective(a, b);
  }

  lemma {:induction false} FoldInjectiveInState(s: bv32, t: bv32, bytes: seq<byte>)
    requires Fold(s, bytes) == Fold(t, bytes)
    ensures s == t
    decreases |bytes|
  {
    if bytes != [] {
      FoldInjectiveInState(Absorb(s, bytes[0]), Absorb(t, bytes[0]), bytes[1..]);
      AbsorbInjectiveInState(s, t, bytes[0]);
    }
  }

  /** The streaming law: feeding chunks one after another is feeding their concatenation. */
  lemma {:induction false} FoldConcat(s: bv32, a: seq<byte>, b: seq<byte>)
    ensures Fold(s, a + b) == Fold(Fold(s, a), b)
    decreases |a|
  {
    if a == [] {
      assert a + b == b;
    } else {
      assert (a + b)[1..] == a[1..] + b;
      FoldConcat(Absorb(s, a[0]), a[1..], b);
    }
  }

  lemma ValueInjective(s: bv32, t: bv32)
    requires Value(s) == Value(t)
    ensures s == t
  {
    assert (s as int) as bv32 == s;
  }

  lemma FinishInjective(s: bv32, t: bv32)
    requires Finish(s) == Finish(t)
    ensures s == t
  {
    hide Value;
    ValueInjective(s ^ ONES, t ^ ONES);
  }

  /** Changing exactly one byte always changes the checksum. */
  lemma SingleByteDetected(bytes: seq<byte>, i: nat, x: byte)
    requires i < |bytes| && bytes[i] != x
    ensures Checksum(bytes) != Checksum(bytes[i := x])
  {
    hide Absorb, Finish;
    var changed := bytes[i := x];
    var s := Fold(ONES, bytes[..i]);
    var rest := bytes[i + 1..];
    assert bytes == bytes[..i] + ([bytes[i]] + rest);
    assert changed == bytes[..i] + ([x] + rest);
    FoldConcat(ONES, bytes[..i], [bytes[i]] + rest);
    FoldConcat(ONES, bytes[..i], [x] + rest);
    assert ([bytes[i]] + rest)[1..] == rest && ([x] + rest)[1..] == rest;
    var a, b := Absorb(s, bytes[i]), Absorb(s, x);
    assert Fold(ONES, bytes) == Fold(a, rest) && Fold(ONES, changed) == Fold(b, rest);
    if Checksum(bytes) == Checksum(changed) {
      FinishInjective(Fold(ONES, bytes), Fold(ONES, changed));
      FoldInjectiveInState(a, b, rest);
      AbsorbInjectiveInByte(s, bytes[i], x);
    }
  }

  /** The decimal digits as registers, from their bits: all share the high nibble 0011. */
  lemma DigitWord(d: byte)
    requires 49 <= d <= 57
    ensures Word(d) == Join(Bit(d, 0), Bit(d, 1), Bit(d, 2), d >= 56, true, true, false, false)
  {
    hide Join;
  }

  lemma DigitWords()
    ensures Word(49) == 49 && Word(50) == 50 && Word(51) == 51
    ensures Word(52) == 52 && Word(53) == 53 && Word(54) == 54
    ensures Word(55) == 55 && Word(56) == 56 && Word(57) == 57
  {
    hide Word;
    DigitWord(49); DigitWord(50); DigitWord(51);
    DigitWord(52); DigitWord(53); DigitWord(54);
    DigitWord(55); DigitWord(56); DigitWord(57);
  }

  /** The register trace of the standard check string, three absorbed digits at a time. */
  lemma FirstDigits()
    ensures Absorb(Absorb(Absorb(0xFFFF_FFFF, 49), 50), 51) == 0xEF84_D04D
  {
    hide Word;
    DigitWords();
    assert Mix(0xFFFF_FFFF ^ 49) == 0x6F0A_661C;
    assert Mix(0x6F0A_661C ^ 50) == 0x8CAA_3B9F;
    assert Mix(0x8CAA_3B9F ^ 51) == 0xEF84_D04D;
  }

  lemma MiddleDigits()
    ensures Absorb(Absorb(Absorb(0xEF84_D04D, 52), 53), 54) == 0xBECA_8E79
  {
    hide Word;
    DigitWords();
    assert Mix(0xEF84_D04D ^ 52) == 0x09C5_0B11;
    assert Mix(0x09C5_0B11 ^ 53) == 0xE72E_DCCA;
    assert Mix(0xE72E_DCCA ^ 54) == 0xBECA_8E79;
  }

  lemma LastDigits()
    ensures Absorb(Absorb(Absorb(0xBECA_8E79, 55), 56), 57) == 0x1CF9_6D7C
  {
    hide Word;
    DigitWords();
    assert Mix(0xBECA_8E79 ^ 55) == 0xEDBD_6815;
    assert Mix(0xEDBD_6815 ^ 56) == 0x9F78_7F65;
    assert Mix(0x9F78_7F65 ^ 57) == 0x1CF9_6D7C;
  }

  /** The standard check value: the digits "123456789" sum to 0xE3069283. */
  lemma CheckValue()
    ensures Checksum([49, 50, 51, 52, 53, 54, 55, 56, 57]) == 0xE306_9283
  {
    FirstDigits();
    MiddleDigits();
    LastDigits();
    hide Absorb;
    var digits: seq<byte> := [49, 50, 51, 52, 53, 54, 55, 56, 57];
    FoldThree(ONES, digits[..3]);
    FoldConcat(ONES, digits[..3], digits[3..]);
    var s := Fold(ONES, digits[..3]);
    FoldThree(s, digits[3..6]);
    FoldConcat(s, digits[3..6], digits[6..]);
    FoldThree(Fold(s, digits[3..6]), digits[6..]);
    assert digits == digits[..3] + digits[3..] && digits[3..] == digits[3..6] + digits[6..];
  }

  lemma FoldThree(s: bv32, bytes: seq<byte>)
    requires |bytes| == 3
    ensures Fold(s, bytes) == Absorb(Absorb(Absorb(s, bytes[0]), bytes[1]), bytes[2])
  {
    hide Absorb, Fold;
    FoldFirst(s, bytes);
    FoldFirst(Absorb(s, bytes[0]), bytes[1..]);
    FoldFirst(Absorb(Absorb(s, bytes[0]), bytes[1]), bytes[2..]);
    assert bytes[1..][1..] == bytes[2..] && bytes[2..][1..] == [];
    FoldNothing(Absorb(Absorb(Absorb(s, bytes[0]), bytes[1]), bytes[2]));
  }

  lemma FoldFirst(s: bv32, bytes: seq<byte>)
    requires bytes != []
    ensures Fold(s, bytes) == Fold(Absorb(s, bytes[0]), bytes[1..])
  {
    hide Absorb;
  }

  lemma FoldNothing(s: bv32)
    ensures Fold(s, []) == s
  {
  }

  /**
   * The streaming accumulator behind every checksum the file format verifies.  `fed` is
   * everything it has been given, in order.
   */
  class Accumulator {
    var checksum: bv32
    ghost var fed: seq<byte>

    ghost predicate Valid()
      reads this
    {
      checksum == Fold(ONES, fed) ^ ONES
    }

    constructor ()
      ensures Valid() && fed == []
    {
      checksum := 0;
      fed := [];
    }

    method Update(bytes: seq<byte>)
      requires Valid()
      modifies this
      ensures Valid() && fed == old(fed) + bytes
    {
      hide Absorb;
      var register := checksum ^ ONES;
      assert register == Fold(ONES, fed);
      var i := 0;
      while i < |bytes|
        invariant 0 <= i <= |bytes| && fed == old(fed)
        invariant register == Fold(Fold(ONES, old(fed)), bytes[..i])
      {
        FoldConcat(Fold(ONES, old(fed)), bytes[..i], [bytes[i]]);
        assert bytes[..i + 1] == bytes[..i] + [bytes[i]];
        register := Absorb(register, bytes[i]);
        i := i + 1;
      }
      assert bytes[..i] == bytes;
      FoldConcat(ONES, fed, bytes);
      checksum := register ^ ONES;
      fed := fed + bytes;
    }

    method Total() returns (crc: u32)
      requires Valid()
      ensures crc == Checksum(fed)
    {
      crc := Value(checksum);
    }
  }
}
