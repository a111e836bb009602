/** The 64-byte file prologue. */
module Prologue {
  import opened Core
  import opened Bytes
  import opened Crc32c
  import Frame

  const FILE_MAGIC: seq<byte> := [65, 67, 84, 65, 13, 10, 26, 10]
  const PROLOGUE_SIZE: nat := 64
  const FORMAT_MAJOR: u16 := 0
  const FORMAT_MINOR: u16 := 2
  const ROW_IDS_FEATURE: u64 := 1

  /** The parts of a validated prologue the rest of a file's readers need. */
  datatype Prologue = Prologue(major: nat, minor: nat, featureFlags: nat, fileId: seq<byte>) {
    /** Bit zero is the only feature bit the format assigns. */
    predicate RowIds() {
      featureFlags % 2 == 1
    }
  }

  function Covered(featureFlags: u64): (bytes: seq<byte>)
    ensures |bytes| == 60
  {
    FILE_MAGIC + Le(FORMAT_MAJOR, 2) + Le(FORMAT_MINOR, 2) + Le(PROLOGUE_SIZE, 4)
    + Le(featureFlags, 8) + Zeros(16) + Le(PROLOGUE_SIZE, 8) + Zeros(12)
  }

  /** The prologue a new file starts with; its identity is the fixed zero ID. */
  function Build(featureFlags: u64): (bytes: seq<byte>)
    ensures |bytes| == PROLOGUE_SIZE
  {
    Covered(featureFlags) + Le(Checksum(Covered(featureFlags)), 4)
  }

  predicate Intact(bytes: seq<byte>)
    requires |bytes| == PROLOGUE_SIZE
  {
    bytes[..8] == FILE_MAGIC && Field(bytes, 60, 4) == Checksum(bytes[..60])
  }

  /** The ordered checks: the checksum is settled before any field is interpreted. */
  function Parse(bytes: seq<byte>): Result<Prologue>
    requires |bytes| == PROLOGUE_SIZE
  {
    var _ :- Check(Intact(bytes), Corruption);
    var _ :- Check(Field(bytes, 8, 2) == FORMAT_MAJOR && Field(bytes, 10, 2) == FORMAT_MINOR, UnsupportedVersion);
    var _ :- Check(Field(bytes, 12, 4) == PROLOGUE_SIZE, Corruption);
    var _ :- Check(Field(bytes, 16, 8) <= ROW_IDS_FEATURE, UnsupportedFeature);
    var _ :- Check(Field(bytes, 40, 8) == PROLOGUE_SIZE, Corruption);
    Ok(Prologue(FORMAT_MAJOR, FORMAT_MINOR, Field(bytes, 16, 8), bytes[24..40]))
  }

  /** The prologue of a whole file. */
  function Read(file: seq<byte>): Result<Prologue> {
    if |file| < PROLOGUE_SIZE then Err(Corruption) else Parse(file[..PROLOGUE_SIZE])
  }

  lemma BuiltFields(featureFlags: u64)
    ensures
      var b := Build(featureFlags);
      && Intact(b) && Field(b, 8, 2) == 0 && Field(b, 10, 2) == 2 && Field(b, 12, 4) == 64
      && Field(b, 16, 8) == featureFlags && b[24..40] == Zeros(16) && Field(b, 40, 8) == 64
  {
    hide Checksum, Le, FromLe, Zeros, Range;
    var b := Build(featureFlags);
    var c := Covered(featureFlags);
    Ranges();
    assert b[..64] == b == c + Le(Checksum(c), 4);
    Peel(b, c, Le(Checksum(c), 4));
    var x1 := FILE_MAGIC;
    var x2 := x1 + Le(0, 2);
    var x3 := x2 + Le(2, 2);
    var x4 := x3 + Le(64, 4);
    var x5 := x4 + Le(featureFlags, 8);
    var x6 := x5 + Zeros(16);
    var x7 := x6 + Le(64, 8);
    assert c == x7 + Zeros(12);
    Peel(b, x7, Zeros(12));
    Peel(b, x6, Le(64, 8));
    Peel(b, x5, Zeros(16));
    Peel(b, x4, Le(featureFlags, 8));
    Peel(b, x3, Le(64, 4));
    Peel(b, x2, Le(2, 2));
    Peel(b, x1, Le(0, 2));
    LeRoundTrip(0, 2);
    LeRoundTrip(2, 2);
    LeRoundTrip(64, 4);
    LeRoundTrip(64, 8);
    LeRoundTrip(featureFlags, 8);
    LeRoundTrip(Checksum(c), 4);
  }

  lemma RoundTrip(featureFlags: u64)
    requires featureFlags <= ROW_IDS_FEATURE
    ensures Parse(Build(featureFlags)) == Ok(Prologue(FORMAT_MAJOR, FORMAT_MINOR, featureFlags, Zeros(16)))
  {
    hide Intact, Build, Field, Zeros;
    BuiltFields(featureFlags);
  }

  /** Any one-byte change to an intact prologue is corruption, whatever the field means. */
  lemma DamageIsCorruption(bytes: seq<byte>, i: nat, x: byte)
    requires |bytes| == PROLOGUE_SIZE && Parse(bytes).Ok? && i < PROLOGUE_SIZE && bytes[i] != x
    ensures Parse(bytes[i := x]) == Err(Corruption)
  {
    hide Checksum, FromLe;
    var changed := bytes[i := x];
    if i < 60 {
      SingleByteDetected(bytes[..60], i, x);
      assert changed[..60] == bytes[..60][i := x] && changed[60..64] == bytes[60..64];
    } else {
      Frame.FieldChange(bytes, changed, i, 60, 4);
      assert changed[..60] == bytes[..60];
    }
  }
}
