/** What discovery accepts under some limits it accepts, with the same result, under wider ones. */
module Widening {
  import opened Core
  import opened Bytes
  import opened Limits
  import opened Schema
  import opened Frame
  import opened DataFrame
  import opened Walk
  import opened WalkTheorems
  import Prologue
  import SchemaFrame

  function Larger(a: u64, b: u64): u64 {
    if a < b then b else a
  }

  /** These limits, raised where the defaults are higher: enough for every frame a writer may produce. */
  function Widen(limits: Limits): (wide: Limits)
    ensures Generous(wide) && Within(limits, wide)
  {
    limits.(maxFrameHeaderLength := Larger(limits.maxFrameHeaderLength, DEFAULT.maxFrameHeaderLength),
            maxFramePayloadLength := Larger(limits.maxFramePayloadLength, DEFAULT.maxFramePayloadLength),
            maxRowsPerBlock := Larger(limits.maxRowsPerBlock, DEFAULT.maxRowsPerBlock),
            maxSchemaColumns := Larger(limits.maxSchemaColumns, DEFAULT.maxSchemaColumns),
            maxSchemaFieldLength := Larger(limits.maxSchemaFieldLength, DEFAULT.maxSchemaFieldLength))
  }

  predicate Within(limits: Limits, wide: Limits) {
    && limits.maxFrameHeaderLength <= wide.maxFrameHeaderLength
    && limits.maxFramePayloadLength <= wide.maxFramePayloadLength
    && limits.maxSchemaColumns <= wide.maxSchemaColumns
    && limits.maxSchemaFieldLength <= wide.maxSchemaFieldLength
  }

  lemma FrameWidens(rest: seq<byte>, sequence: nat, limits: Limits, wide: Limits)
    requires Within(limits, wide) && ReadFrameIn(rest, sequence, limits).Ok? && ReadFrameIn(rest, sequence, limits).value.Some?
    ensures ReadFrameIn(rest, sequence, wide) == ReadFrameIn(rest, sequence, limits)
  {
    hide BodyIntact, PrefixIntact, PrefixFields;
  }

  lemma DescriptorWidens(rest: seq<byte>, limits: Limits, wide: Limits)
    requires Within(limits, wide) && SchemaFrame.ParseDescriptor(rest, limits).Ok?
    ensures SchemaFrame.ParseDescriptor(rest, wide) == SchemaFrame.ParseDescriptor(rest, limits)
  {
    hide SchemaFrame.ParseType, ValidUtf8;
  }

  lemma {:induction false} ColumnsWiden(
      payload: seq<byte>, position: nat, count: nat, columns: seq<Column>, limits: Limits, wide: Limits)
    requires Within(limits, wide) && position <= |payload|
    requires SchemaFrame.ReadColumns(payload, position, count, columns, limits).Ok?
    ensures SchemaFrame.ReadColumns(payload, position, count, columns, wide)
         == SchemaFrame.ReadColumns(payload, position, count, columns, limits)
    decreases count
  {
    hide SchemaFrame.ParseDescriptor, SchemaFrame.Joins;
    if count > 0 {
      DescriptorWidens(payload[position..], limits, wide);
      var found := SchemaFrame.ParseDescriptor(payload[position..], limits).value;
      ColumnsWiden(payload, position + found.1, count - 1, columns + [found.0], limits, wide);
    }
  }

  lemma SchemaWidens(header: seq<byte>, payload: seq<byte>, limits: Limits, wide: Limits)
    requires Within(limits, wide) && SchemaFrame.Parse(header, payload, limits).Ok?
    ensures SchemaFrame.Parse(header, payload, wide) == SchemaFrame.Parse(header, payload, limits)
  {
    hide SchemaFrame.ReadColumns, FromLe;
    ColumnsWiden(payload, 0, Field(header, 8, 4), [], limits, wide);
  }

  function Wider(scan: FileScan, wide: Limits): FileScan {
    FileScan(scan.ctx.(limits := wide), scan.first)
  }

  lemma ScanWidens(file: seq<byte>, limits: Limits, wide: Limits)
    requires Within(limits, wide) && OpenScan(file, limits).Ok?
    ensures OpenScan(file, wide) == Ok(Wider(OpenScan(file, limits).value, wide))
  {
    hide ReadFrameIn, Prologue.Parse, SchemaFrame.Parse;
    var start := Prologue.PROLOGUE_SIZE;
    FrameWidens(file[start..], 0, limits, wide);
    CompleteFrameShape(file[start..], 0, limits);
    var prefix := ReadFrameIn(file[start..], 0, limits).value.value;
    var header := start + PREFIX_SIZE;
    var payload := header + prefix.headerLength;
    SchemaWidens(file[header..payload], file[payload..payload + prefix.payloadLength], limits, wide);
  }

  lemma StepWidens(file: seq<byte>, ctx: Context, c: Cursor, wide: Limits)
    requires Within(ctx.limits, wide) && c.visitor == Discard
    requires c.offset < |file| && Step(file, ctx, c).Ok? && Step(file, ctx, c).value.Some?
    ensures Step(file, ctx.(limits := wide), c) == Step(file, ctx, c)
    ensures Step(file, ctx, c).value.value.visitor == Discard
  {
    hide ReadFrameIn, ParseBlock;
    FrameWidens(file[c.offset..], c.sequence, ctx.limits, wide);
  }

  lemma {:induction false} WalkFromWidens(file: seq<byte>, ctx: Context, c: Cursor, wide: Limits)
    requires Within(ctx.limits, wide) && c.visitor == Discard
    requires WalkFrom(file, ctx, c).Ok? && !WalkFrom(file, ctx, c).value.incompleteTail
    ensures WalkFrom(file, ctx.(limits := wide), c) == WalkFrom(file, ctx, c)
    decreases |file| - c.offset
  {
    hide Step;
    if c.offset < |file| {
      StepWidens(file, ctx, c, wide);
      WalkFromWidens(file, ctx, Step(file, ctx, c).value.value, wide);
    }
  }

  /** A complete file walks to the same end under wider limits. */
  lemma WalkWidens(file: seq<byte>, limits: Limits, wide: Limits, scan: FileScan, end: Cursor)
    requires Within(limits, wide) && WalkFile(file, limits, Discard) == Ok((scan, Walk(end, false)))
    ensures WalkFile(file, wide, Discard) == Ok((Wider(scan, wide), Walk(end, false)))
  {
    hide OpenScan, WalkFrom;
    ScanWidens(file, limits, wide);
    ScanContext(file, limits);
    WalkFromWidens(file, scan.ctx, StartCursor(scan, Discard), wide);
  }
}
