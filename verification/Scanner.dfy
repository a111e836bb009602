/** The loops behind discovery: chunked checksums of a frame, and the walk itself. */
module Scanner {
  import opened Core
  import opened Bytes
  import opened Limits
  import opened Crc32c
  import opened Frame
  import opened DataFrame
  import opened Walk

  const CHUNK_SIZE: nat := 16 * 1024

  /** Streams file regions of any size through one fixed buffer. */
  class RegionReader {
    const buffer: array<byte>

    constructor ()
      ensures fresh(buffer) && buffer.Length == CHUNK_SIZE
    {
      buffer := new byte[CHUNK_SIZE](_ => 0);
    }

    method Fill(file: seq<byte>, offset: nat, length: nat)
      requires length <= buffer.Length && offset + length <= |file|
      modifies buffer
      ensures buffer[..length] == file[offset..offset + length]
    {
      var i := 0;
      while i < length
        invariant 0 <= i <= length
        invariant forall k :: 0 <= k < i ==> buffer[k] == file[offset + k]
      {
        buffer[i] := file[offset + i];
        i := i + 1;
      }
    }

    /** Feed a region to the body accumulator, and to the header accumulator when it covers the header. */
    method Feed(file: seq<byte>, offset: nat, length: nat, body: Accumulator, header: Accumulator, both: bool)
      requires buffer.Length == CHUNK_SIZE && offset + length <= |file|
      requires body.Valid() && header.Valid() && body != header
      modifies buffer, body, header
      ensures body.Valid() && header.Valid()
      ensures body.fed == old(body.fed) + file[offset..offset + length]
      ensures header.fed == old(header.fed) + if both then file[offset..offset + length] else []
    {
      hide Fold;
      var position, remaining := offset, length;
      assert file[offset..offset] == [];
      while remaining != 0
        invariant 0 <= remaining <= length && position == offset + length - remaining
        invariant body.Valid() && header.Valid()
        invariant body.fed == old(body.fed) + file[offset..position]
        invariant header.fed == old(header.fed) + if both then file[offset..position] else []
        decreases remaining
      {
        var chunk := if remaining < buffer.Length then remaining else buffer.Length;
        Fill(file, position, chunk);
        body.Update(buffer[..chunk]);
        if both {
          header.Update(buffer[..chunk]);
        }
        assert file[offset..position] + file[position..position + chunk] == file[offset..position + chunk];
        position, remaining := position + chunk, remaining - chunk;
      }
    }
  }

  lemma RegionsJoin(file: seq<byte>, offset: nat, header: nat, payload: nat)
    requires offset + FrameLength(header, payload) <= |file|
    ensures
      var rest := file[offset..];
      var h := offset + PREFIX_SIZE;
      var p := h + header;
      && [] + file[h..p] + [] == rest[PREFIX_SIZE..PREFIX_SIZE + header]
      && [] + file[offset..h] + file[h..p] + file[p..p + payload] == rest[..PREFIX_SIZE + header + payload]
  {
  }

  /** The header and body checksums of a complete frame, in one pass over it. */
  method ChecksumFrame(file: seq<byte>, offset: nat, prefix: FramePrefix) returns (headerCrc: u32, bodyCrc: u32)
    requires offset + prefix.TotalLength() <= |file|
    ensures
      var rest := file[offset..];
      && headerCrc == Checksum(rest[PREFIX_SIZE..PREFIX_SIZE + prefix.headerLength])
      && bodyCrc == Checksum(rest[..prefix.TotalLength() - TRAILER_SIZE])
  {
    hide Fold, Checksum;
    var header := new Accumulator();
    var body := new Accumulator();
    body.Update(file[offset..offset + PREFIX_SIZE]);
    var reader := new RegionReader();
    var h := offset + PREFIX_SIZE;
    var p := h + prefix.headerLength;
    reader.Feed(file, h, prefix.headerLength, body, header, true);
    reader.Feed(file, p, prefix.payloadLength, body, header, false);
    RegionsJoin(file, offset, prefix.headerLength, prefix.payloadLength);
    headerCrc := header.Total();
    bodyCrc := body.Total();
  }

  /** Verify a complete frame's trailer, then both checksums. */
  method VerifyBody(file: seq<byte>, offset: nat, prefix: FramePrefix) returns (r: Result<()>)
    requires offset + prefix.TotalLength() <= |file|
    ensures r == if BodyIntact(file[offset..], prefix) then Ok(()) else Err(Corruption)
  {
    hide TrailerIntact, Checksum;
    var rest := file[offset..];
    var end := prefix.TotalLength() - TRAILER_SIZE;
    if !TrailerIntact(rest[end..prefix.TotalLength()], prefix) {
      return Err(Corruption);
    }
    var headerCrc, bodyCrc := ChecksumFrame(file, offset, prefix);
    if headerCrc != prefix.headerCrc || bodyCrc != Field(rest, end + 16, 4) {
      return Err(Corruption);
    }
    r := Ok(());
  }

  /** Read one frame of a file. */
  method ReadFrameAt(file: seq<byte>, offset: nat, sequence: nat, limits: Limits) returns (r: Result<FrameRead>)
    ensures r == ReadFrame(file, offset, sequence, limits)
  {
    hide ParsePrefix, BodyIntact;
    if offset > |file| {
      return Err(Corruption);
    }
    if |file| - offset < PREFIX_SIZE {
      return Ok(FrameRead.IncompleteTail);
    }
    assert file[offset..][..PREFIX_SIZE] == file[offset..offset + PREFIX_SIZE];
    var parsed := ParsePrefix(file[offset..offset + PREFIX_SIZE], sequence, limits);
    if parsed.Err? {
      return Err(parsed.kind);
    }
    var prefix := parsed.value;
    if prefix.TotalLength() > |file| - offset {
      return Ok(FrameRead.IncompleteTail);
    }
    var verified := VerifyBody(file, offset, prefix);
    if verified.Err? {
      return Err(verified.kind);
    }
    r := Ok(Complete(FrameMetadata(prefix.frameType, prefix.sequence, offset, prefix.headerLength, prefix.payloadLength)));
  }

  lemma FrameReadIs(file: seq<byte>, ctx: Context, c: Cursor)
    requires c.offset < |file|
    ensures
      match ReadFrame(file, c.offset, c.sequence, ctx.limits)
      case Err(kind) => Step(file, ctx, c) == Err(kind)
      case Ok(IncompleteTail) => Step(file, ctx, c) == Ok(None)
      case Ok(Complete(frame)) =>
        if frame.frameType != DATA_FRAME_TYPE then Step(file, ctx, c) == Err(Corruption)
        else
        && frame.HeaderOffset() + 64 <= |file|
        && var parsed := ParseBlock(file[frame.HeaderOffset()..frame.HeaderOffset() + 64], frame.headerLength, ctx.schema,
                                    ctx.prologue.RowIds(), c.nextRowId);
        Step(file, ctx, c) == (match parsed
                               case Err(kind) => Err(kind)
                               case Ok(info) =>
                                 match Advance(c, frame, info, ctx.limits)
                                 case Err(kind) => Err(kind)
                                 case Ok(next) => Ok(Some(next)))
  {
    hide ReadFrameIn, ParseBlock;
    CompleteFrameShape(file[c.offset..], c.sequence, ctx.limits);
  }

  /** The walk as a loop over offset, sequence, frame count, row ID and bytes scanned. */
  method WalkDataFrames(file: seq<byte>, ctx: Context, start: Cursor) returns (r: Result<Walk>)
    ensures r == WalkFrom(file, ctx, start)
  {
    hide ReadFrame, ParseBlock, Step;
    var c := start;
    while c.offset < |file|
      invariant WalkFrom(file, ctx, start) == WalkFrom(file, ctx, c)
      decreases |file| - c.offset
    {
      FrameReadIs(file, ctx, c);
      var read := ReadFrameAt(file, c.offset, c.sequence, ctx.limits);
      if read.Err? {
        return Err(read.kind);
      }
      if read.value.IncompleteTail? {
        return Ok(Walk(c, true));
      }
      var frame := read.value.frame;
      if frame.frameType != DATA_FRAME_TYPE {
        return Err(Corruption);
      }
      var header := frame.HeaderOffset();
      var parsed := ParseBlock(file[header..header + 64], frame.headerLength, ctx.schema, ctx.prologue.RowIds(), c.nextRowId);
      if parsed.Err? {
        return Err(parsed.kind);
      }
      var next := Advance(c, frame, parsed.value, ctx.limits);
      if next.Err? {
        return Err(next.kind);
      }
      c := next.value;
    }
    r := Ok(Walk(c, false));
  }
}
