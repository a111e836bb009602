/**
 * The self-delimiting frame: a 48-byte prefix, a header, a payload and a 32-byte commit
 * trailer.  Every byte of it is covered by one of its four checksums.
 */
module Frame {
  import opened Core
  import opened Bytes
  import opened Crc32c
  import opened Limits

  const FRAME_MAGIC: seq<byte> := [65, 67, 84, 65, 70, 82, 77, 10]
  const COMMIT_MAGIC: seq<byte> := [65, 67, 84, 65, 69, 78, 68, 10]

  const PREFIX_SIZE: nat := 48
  const TRAILER_SIZE: nat := 32
  const SCHEMA_FRAME_TYPE: u16 := 1
  const DATA_FRAME_TYPE: u16 := 2
  const CHECKPOINT_FRAME_TYPE: u16 := 3
  const SCHEMA_FRAME_HEADER_SIZE: nat := 24
  const DATA_BLOCK_HEADER_SIZE: nat := 64

  // ------------------------------------------------------------------ writing

  /** The 44 prefix bytes that the prefix checksum covers. */
  function PrefixCovered(frameType: u16, sequence: u64, headerLength: nat, payloadLength: nat, headerCrc: u32)
    : (bytes: seq<byte>)
    ensures |bytes| == 44
  {
    FRAME_MAGIC + Le(frameType, 2) + Le(0, 2) + Le(0, 4) + Le(headerLength, 4) + Zeros(4)
    + Le(payloadLength, 8) + Le(sequence, 8) + Le(headerCrc, 4)
  }

  function Prefix(frameType: u16, sequence: u64, header: seq<byte>, payload: seq<byte>): (bytes: seq<byte>)
    ensures |bytes| == PREFIX_SIZE
  {
    var covered := PrefixCovered(frameType, sequence, |header|, |payload|, Checksum(header));
    covered + Le(Checksum(covered), 4)
  }

  /** A commit trailer over its total length, sequence number and body checksum. */
  function Trailer(totalLength: nat, sequence: u64, bodyCrc: u32): (bytes: seq<byte>)
    ensures |bytes| == TRAILER_SIZE
  {
    var head := Le(totalLength, 8) + Le(sequence, 8) + Le(bodyCrc, 4);
    head + Le(Checksum(head + COMMIT_MAGIC), 4) + COMMIT_MAGIC
  }

  /** Everything before the trailer. */
  function Body(frameType: u16, sequence: u64, header: seq<byte>, payload: seq<byte>): (bytes: seq<byte>)
    ensures |bytes| == PREFIX_SIZE + |header| + |payload|
  {
    Prefix(frameType, sequence, header, payload) + header + payload
  }

  function FrameLength(headerLength: nat, payloadLength: nat): nat {
    PREFIX_SIZE + headerLength + payloadLength + TRAILER_SIZE
  }

  /** The bytes of one frame. */
  function FrameBytes(frameType: u16, sequence: u64, header: seq<byte>, payload: seq<byte>): (bytes: seq<byte>)
    ensures |bytes| == FrameLength(|header|, |payload|)
  {
    var body := Body(frameType, sequence, header, payload);
    body + Trailer(FrameLength(|header|, |payload|), sequence, Checksum(body))
  }

  // ------------------------------------------------------------------ reading

  /** What a validated frame prefix declares. */
  datatype FramePrefix = FramePrefix(
    frameType: nat,
    headerLength: nat,
    payloadLength: nat,
    headerCrc: nat,
    sequence: nat)
  {
    function TotalLength(): nat {
      FrameLength(headerLength, payloadLength)
    }
  }

  /** A frame whose prefix, header, payload, trailer and checksums have all been validated. */
  datatype FrameMetadata = FrameMetadata(
    frameType: nat,
    sequence: nat,
    frameOffset: nat,
    headerLength: nat,
    payloadLength: nat)
  {
    function HeaderOffset(): nat {
      frameOffset + PREFIX_SIZE
    }

    function TotalLength(): nat {
      FrameLength(headerLength, payloadLength)
    }

    function End(): nat {
      frameOffset + TotalLength()
    }
  }

  datatype FrameRead = Complete(frame: FrameMetadata) | IncompleteTail

  /** The magic and the prefix checksum, settled before any declared length is trusted. */
  predicate PrefixIntact(bytes: seq<byte>)
    requires |bytes| == PREFIX_SIZE
  {
    bytes[..8] == FRAME_MAGIC && Field(bytes, 44, 4) == Checksum(bytes[..44])
  }

  function PrefixFields(bytes: seq<byte>): FramePrefix
    requires |bytes| == PREFIX_SIZE
  {
    FramePrefix(Field(bytes, 8, 2), Field(bytes, 16, 4), Field(bytes, 24, 8), Field(bytes, 40, 4), Field(bytes, 32, 8))
  }

  /** Sequence zero belongs to the schema frame and every later one to a data frame. */
  function ExpectedFrameType(sequence: nat): u16 {
    if sequence == 0 then SCHEMA_FRAME_TYPE else DATA_FRAME_TYPE
  }

  function CheckFrameType(frameType: nat, expectedSequence: nat): Result<()> {
    if frameType == ExpectedFrameType(expectedSequence) then Ok(())
    else if frameType == CHECKPOINT_FRAME_TYPE then Err(UnsupportedFrame)
    else Err(Corruption)
  }

  predicate HeaderLengthFits(frameType: nat, headerLength: nat) {
    && headerLength % 8 == 0
    && (frameType == SCHEMA_FRAME_TYPE ==> headerLength == SCHEMA_FRAME_HEADER_SIZE)
    && (frameType == DATA_FRAME_TYPE ==> headerLength >= DATA_BLOCK_HEADER_SIZE)
  }

  /** The field checks that follow prefix integrity, in the order they are made. */
  function CheckPrefixFields(bytes: seq<byte>, expectedSequence: nat, limits: Limits): Result<FramePrefix>
    requires |bytes| == PREFIX_SIZE
  {
    var fields := PrefixFields(bytes);
    var _ :- Check(Field(bytes, 10, 2) == 0, UnsupportedFrame);
    var _ :- Check(Field(bytes, 12, 4) == 0, UnsupportedFrame);
    var _ :- CheckFrameType(fields.frameType, expectedSequence);
    var _ :- Check(fields.sequence == expectedSequence, Corruption);
    var _ :- Check(HeaderLengthFits(fields.frameType, fields.headerLength), Corruption);
    var _ :- Check(fields.payloadLength % 8 == 0, Corruption);
    var _ :- Check(fields.headerLength <= limits.maxFrameHeaderLength, ResourceLimit);
    var _ :- Check(fields.payloadLength <= limits.maxFramePayloadLength, ResourceLimit);
    var _ :- Check(fields.TotalLength() < U64, Corruption);
    Ok(fields)
  }

  function ParsePrefix(bytes: seq<byte>, expectedSequence: nat, limits: Limits): Result<FramePrefix>
    requires |bytes| == PREFIX_SIZE
  {
    if PrefixIntact(bytes) then CheckPrefixFields(bytes, expectedSequence, limits) else Err(Corruption)
  }

  /** Whether a trailer commits the frame `prefix` declares; every failure is corruption. */
  predicate TrailerIntact(bytes: seq<byte>, prefix: FramePrefix)
    requires |bytes| == TRAILER_SIZE
  {
    && Field(bytes, 0, 8) == prefix.TotalLength()
    && Field(bytes, 8, 8) == prefix.sequence
    && bytes[24..] == COMMIT_MAGIC
    && Field(bytes, 20, 4) == Checksum(bytes[..20] + bytes[24..])
  }

  /** Whether the body of a complete frame matches both of its checksums. */
  predicate BodyIntact(rest: seq<byte>, prefix: FramePrefix)
    requires prefix.TotalLength() <= |rest|
  {
    var end := prefix.TotalLength() - TRAILER_SIZE;
    && TrailerIntact(rest[end..prefix.TotalLength()], prefix)
    && Checksum(rest[PREFIX_SIZE..PREFIX_SIZE + prefix.headerLength]) == prefix.headerCrc
    && Checksum(rest[..end]) == Field(rest, end + 16, 4)
  }

  /** Read and fully validate the frame that begins `rest`. */
  function ReadFrameIn(rest: seq<byte>, expectedSequence: nat, limits: Limits): Result<Option<FramePrefix>> {
    if |rest| < PREFIX_SIZE then Ok(None)
    else
      var prefix :- ParsePrefix(rest[..PREFIX_SIZE], expectedSequence, limits);
      if prefix.TotalLength() > |rest| then Ok(None)
      else if BodyIntact(rest, prefix) then Ok(Some(prefix))
      else Err(Corruption)
  }

  /** The frame at `offset` of a file; a frame the file ends inside is an interrupted append. */
  function ReadFrame(file: seq<byte>, offset: nat, expectedSequence: nat, limits: Limits): Result<FrameRead> {
    if offset > |file| then Err(Corruption)
    else
      var read :- ReadFrameIn(file[offset..], expectedSequence, limits);
      match read
      case None => Ok(FrameRead.IncompleteTail)
      case Some(prefix) =>
        Ok(Complete(FrameMetadata(prefix.frameType, prefix.sequence, offset, prefix.headerLength, prefix.payloadLength)))
  }

  // -------------------------------------------------------------- writing, read

  lemma PrefixFieldsRoundTrip(frameType: u16, sequence: u64, header: seq<byte>, payload: seq<byte>)
    requires |header| < U32 && |payload| < U64
    ensures
      var p := Prefix(frameType, sequence, header, payload);
      && PrefixIntact(p)
      && PrefixFields(p) == FramePrefix(frameType, |header|, |payload|, Checksum(header), sequence)
      && Field(p, 10, 2) == 0 && Field(p, 12, 4) == 0
  {
    hide Checksum, Le, FromLe, Zeros;
    var p := Prefix(frameType, sequence, header, payload);
    var c := PrefixCovered(frameType, sequence, |header|, |payload|, Checksum(header));
    Ranges();
    assert p[..48] == p == c + Le(Checksum(c), 4);
    Peel(p, c, Le(Checksum(c), 4));
    var x1 := FRAME_MAGIC;
    var x2 := x1 + Le(frameType, 2);
    var x3 := x2 + Le(0, 2);
    var x4 := x3 + Le(0, 4);
    var x5 := x4 + Le(|header|, 4);
    var x6 := x5 + Zeros(4);
    var x7 := x6 + Le(|payload|, 8);
    var x8 := x7 + Le(sequence, 8);
    assert c == x8 + Le(Checksum(header), 4);
    Peel(p, x8, Le(Checksum(header), 4));
    Peel(p, x7, Le(sequence, 8));
    Peel(p, x6, Le(|payload|, 8));
    Peel(p, x5, Zeros(4));
    Peel(p, x4, Le(|header|, 4));
    Peel(p, x3, Le(0, 4));
    Peel(p, x2, Le(0, 2));
    Peel(p, x1, Le(frameType, 2));
    LeRoundTrip(frameType, 2);
    LeRoundTrip(0, 2);
    LeRoundTrip(0, 4);
    LeRoundTrip(|header|, 4);
    LeRoundTrip(|payload|, 8);
    LeRoundTrip(sequence, 8);
    LeRoundTrip(Checksum(header), 4);
    LeRoundTrip(Checksum(c), 4);
  }

  lemma TrailerRoundTrip(prefix: FramePrefix, bodyCrc: u32)
    requires prefix.TotalLength() < U64 && prefix.sequence < U64
    ensures
      var t := Trailer(prefix.TotalLength(), prefix.sequence, bodyCrc);
      TrailerIntact(t, prefix) && Field(t, 16, 4) == bodyCrc
  {
    hide Checksum, Le, FromLe;
    var t := Trailer(prefix.TotalLength(), prefix.sequence, bodyCrc);
    var head := Le(prefix.TotalLength(), 8) + Le(prefix.sequence, 8) + Le(bodyCrc, 4);
    Ranges();
    var sealed := head + Le(Checksum(head + COMMIT_MAGIC), 4);
    assert t[..32] == t == sealed + COMMIT_MAGIC;
    Peel(t, sealed, COMMIT_MAGIC);
    assert t[24..] == t[24..32];
    Peel(t, head, Le(Checksum(head + COMMIT_MAGIC), 4));
    Peel(t, Le(prefix.TotalLength(), 8) + Le(prefix.sequence, 8), Le(bodyCrc, 4));
    Peel(t, Le(prefix.TotalLength(), 8), Le(prefix.sequence, 8));
    LeRoundTrip(prefix.TotalLength(), 8);
    LeRoundTrip(prefix.sequence, 8);
    LeRoundTrip(bodyCrc, 4);
    LeRoundTrip(Checksum(head + COMMIT_MAGIC), 4);
  }

  /** Frames a reader with `limits` accepts at sequence `sequence`. */
  predicate Readable(sequence: nat, header: seq<byte>, payload: seq<byte>, limits: Limits) {
    && sequence < U64
    && HeaderLengthFits(ExpectedFrameType(sequence), |header|)
    && |header| < U32 && |header| <= limits.maxFrameHeaderLength
    && |payload| % 8 == 0 && |payload| <= limits.maxFramePayloadLength
    && FrameLength(|header|, |payload|) < U64
  }

  function PrefixOf(sequence: u64, header: seq<byte>, payload: seq<byte>): FramePrefix {
    FramePrefix(ExpectedFrameType(sequence), |header|, |payload|, Checksum(header), sequence)
  }

  /** A frame the writer builds reads back whole, whatever follows it. */
  lemma FrameRoundTrip(sequence: u64, header: seq<byte>, payload: seq<byte>, limits: Limits, suffix: seq<byte>)
    requires Readable(sequence, header, payload, limits)
    ensures
      ReadFrameIn(FrameBytes(ExpectedFrameType(sequence), sequence, header, payload) + suffix, sequence, limits)
      == Ok(Some(PrefixOf(sequence, header, payload)))
  {
    hide Checksum, Le, FromLe, Prefix, Trailer, TrailerIntact;
    var frameType := ExpectedFrameType(sequence);
    var prefix := PrefixOf(sequence, header, payload);
    var body := Body(frameType, sequence, header, payload);
    var trailer := Trailer(prefix.TotalLength(), sequence, Checksum(body));
    var rest := FrameBytes(frameType, sequence, header, payload) + suffix;
    PrefixFieldsRoundTrip(frameType, sequence, header, payload);
    TrailerRoundTrip(prefix, Checksum(body));
    var end := prefix.TotalLength() - TRAILER_SIZE;
    var first := Prefix(frameType, sequence, header, payload);
    assert rest[..prefix.TotalLength()] == body + trailer;
    Peel(rest, body, trailer);
    Peel(rest, first + header, payload);
    Peel(rest, first, header);
    assert ParsePrefix(rest[..PREFIX_SIZE], sequence, limits) == Ok(prefix);
    assert rest[end + 16..end + 20] == rest[end..prefix.TotalLength()][16..20];
  }

  /** A frame torn at any byte before its end reads as an interrupted append, never as damage. */
  lemma TornFrameIsIncomplete(sequence: u64, header: seq<byte>, payload: seq<byte>, limits: Limits, kept: nat)
    requires Readable(sequence, header, payload, limits)
    requires kept < FrameLength(|header|, |payload|)
    ensures
      ReadFrameIn(FrameBytes(ExpectedFrameType(sequence), sequence, header, payload)[..kept], sequence, limits)
      == Ok(None)
  {
    hide Checksum, Le, FromLe, Prefix, Trailer;
    var frameType := ExpectedFrameType(sequence);
    var torn := FrameBytes(frameType, sequence, header, payload)[..kept];
    if kept >= PREFIX_SIZE {
      PrefixFieldsRoundTrip(frameType, sequence, header, payload);
      assert torn[..PREFIX_SIZE] == Prefix(frameType, sequence, header, payload);
      assert ParsePrefix(torn[..PREFIX_SIZE], sequence, limits) == Ok(PrefixOf(sequence, header, payload));
    }
  }

  // ------------------------------------------------------------------ locality

  /** A complete frame is decided by its own bytes: what follows it never matters. */
  lemma FrameIsLocal(a: seq<byte>, b: seq<byte>, expectedSequence: nat, limits: Limits)
    requires ReadFrameIn(a, expectedSequence, limits).Ok?
    requires ReadFrameIn(a, expectedSequence, limits).value.Some?
    requires
      var total := ReadFrameIn(a, expectedSequence, limits).value.value.TotalLength();
      total <= |a| && total <= |b| && a[..total] == b[..total]
    ensures ReadFrameIn(b, expectedSequence, limits) == ReadFrameIn(a, expectedSequence, limits)
  {
    hide Checksum, FromLe, TrailerIntact, CheckPrefixFields, PrefixIntact;
    var prefix := ReadFrameIn(a, expectedSequence, limits).value.value;
    var total := prefix.TotalLength();
    var end := total - TRAILER_SIZE;
    SharedSlice(a, b, total, 0, PREFIX_SIZE);
    SharedSlice(a, b, total, end, total);
    SharedSlice(a, b, total, 0, end);
    SharedSlice(a, b, total, PREFIX_SIZE, PREFIX_SIZE + prefix.headerLength);
    SharedSlice(a, b, total, end + 16, end + 20);
    assert a[..PREFIX_SIZE] == a[0..PREFIX_SIZE] && b[..PREFIX_SIZE] == b[0..PREFIX_SIZE];
    assert a[..end] == a[0..end] && b[..end] == b[0..end];
  }

  // --------------------------------------------------------- damage detection

  lemma FieldChange(bytes: seq<byte>, changed: seq<byte>, i: nat, offset: nat, width: nat)
    requires |changed| == |bytes| && offset <= i < offset + width <= |bytes|
    requires bytes[i] != changed[i]
    ensures Field(bytes, offset, width) != Field(changed, offset, width)
  {
    assert bytes[offset..offset + width][i - offset] != changed[offset..offset + width][i - offset];
    if Field(bytes, offset, width) == Field(changed, offset, width) {
      FromLeInjective(bytes[offset..offset + width], changed[offset..offset + width]);
    }
  }

  lemma PrefixDamage(bytes: seq<byte>, i: nat, x: byte)
    requires |bytes| == PREFIX_SIZE && PrefixIntact(bytes) && i < PREFIX_SIZE && bytes[i] != x
    ensures !PrefixIntact(bytes[i := x])
  {
    hide Checksum, FromLe;
    var changed := bytes[i := x];
    if i < 44 {
      SingleByteDetected(bytes[..44], i, x);
      assert changed[..44] == bytes[..44][i := x] && changed[44..48] == bytes[44..48];
    } else {
      FieldChange(bytes, changed, i, 44, 4);
      assert changed[..44] == bytes[..44];
    }
  }

  lemma TrailerDamage(bytes: seq<byte>, prefix: FramePrefix, i: nat, x: byte)
    requires |bytes| == TRAILER_SIZE && TrailerIntact(bytes, prefix) && i < TRAILER_SIZE && bytes[i] != x
    ensures !TrailerIntact(bytes[i := x], prefix)
  {
    hide Checksum, FromLe;
    var changed := bytes[i := x];
    var covered := bytes[..20] + bytes[24..];
    if 20 <= i < 24 {
      FieldChange(bytes, changed, i, 20, 4);
      assert changed[..20] + changed[24..] == covered;
    } else {
      var at := if i < 20 then i else i - 4;
      SingleByteDetected(covered, at, x);
      assert changed[..20] + changed[24..] == covered[at := x];
      assert changed[20..24] == bytes[20..24];
    }
  }

  lemma BodyDamage(rest: seq<byte>, prefix: FramePrefix, i: nat, x: byte)
    requires prefix.TotalLength() <= |rest| && BodyIntact(rest, prefix)
    requires i < prefix.TotalLength() && rest[i] != x
    ensures !BodyIntact(rest[i := x], prefix)
  {
    hide Checksum, FromLe, TrailerIntact;
    var changed := rest[i := x];
    var total := prefix.TotalLength();
    var end := total - TRAILER_SIZE;
    if i < end {
      SingleByteDetected(rest[..end], i, x);
      assert changed[..end] == rest[..end][i := x];
      assert changed[end + 16..end + 20] == rest[end + 16..end + 20];
    } else {
      TrailerDamage(rest[end..total], prefix, i - end, x);
      assert changed[end..total] == rest[end..total][i - end := x];
    }
  }

  /**
   * Changing any one byte of a complete frame makes it corruption: never another accepted
   * frame and never an interrupted append, because the lengths are trusted only after the
   * prefix checksum.
   */
  lemma FrameDamageIsCorruption(rest: seq<byte>, expectedSequence: nat, limits: Limits, i: nat, x: byte)
    requires ReadFrameIn(rest, expectedSequence, limits).Ok?
    requires ReadFrameIn(rest, expectedSequence, limits).value.Some?
    requires i < ReadFrameIn(rest, expectedSequence, limits).value.value.TotalLength() <= |rest|
    requires rest[i] != x
    ensures ReadFrameIn(rest[i := x], expectedSequence, limits) == Err(Corruption)
  {
    hide Checksum, FromLe, BodyIntact, CheckPrefixFields, PrefixIntact;
    var prefix := ReadFrameIn(rest, expectedSequence, limits).value.value;
    var changed := rest[i := x];
    if i < PREFIX_SIZE {
      assert changed[..PREFIX_SIZE] == rest[..PREFIX_SIZE][i := x];
      PrefixDamage(rest[..PREFIX_SIZE], i, x);
    } else {
      assert changed[..PREFIX_SIZE] == rest[..PREFIX_SIZE];
      BodyDamage(rest, prefix, i, x);
    }
  }
}
