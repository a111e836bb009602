/** A newly created file: a prologue and one schema frame. */
module Creation {
  import opened Core
  import opened Bytes
  import opened Limits
  import opened Schema
  import opened Frame
  import opened Walk
  import Prologue
  import SchemaFrame

  function Features(rowIds: bool): u64 {
    if rowIds then Prologue.ROW_IDS_FEATURE else 0
  }

  /** The bytes `create` writes, if the schema can be serialized. */
  function CreatedFile(schema: Schema, rowIds: bool): Result<seq<byte>> {
    var printed :- SchemaFrame.Print(schema);
    Ok(Prologue.Build(Features(rowIds)) + FrameBytes(SCHEMA_FRAME_TYPE, 0, printed.0, printed.1))
  }

  function CreatedScan(schema: Schema, rowIds: bool, limits: Limits, length: nat): FileScan {
    FileScan(
      Context(Prologue.Prologue(Prologue.FORMAT_MAJOR, Prologue.FORMAT_MINOR, Features(rowIds), Zeros(16)), schema, limits), length)
  }

  lemma {:induction false} DescriptorsAligned(columns: seq<Column>)
    requires SchemaFrame.Descriptors(columns).Ok?
    ensures |SchemaFrame.Descriptors(columns).value| % 8 == 0
  {
    hide SchemaFrame.Descriptor;
    if columns != [] {
      DescriptorAligned(columns[0]);
      DescriptorsAligned(columns[1..]);
    }
  }

  lemma DescriptorAligned(column: Column)
    requires SchemaFrame.Descriptor(column).Ok?
    ensures |SchemaFrame.Descriptor(column).value| % 8 == 0
  {
    hide SchemaFrame.TypeParameters;
  }

  lemma SchemaFrameReadable(schema: Schema, limits: Limits)
    requires SchemaFrame.Print(schema).Ok? && Generous(limits)
    ensures
      var printed := SchemaFrame.Print(schema).value;
      Readable(0, printed.0, printed.1, limits)
  {
    DescriptorsAligned(schema.columns);
  }

  /** A created file opens under any generous limits, with the schema and row-ID feature it was given. */
  lemma CreatedFileOpens(schema: Schema, rowIds: bool, limits: Limits)
    requires SchemaFrame.Valid(schema) && CreatedFile(schema, rowIds).Ok? && Generous(limits)
    ensures
      var file := CreatedFile(schema, rowIds).value;
      && OpenScan(file, limits) == Ok(CreatedScan(schema, rowIds, limits, |file|))
      && CreatedScan(schema, rowIds, limits, |file|).ctx.prologue.RowIds() == rowIds
  {
    hide ReadFrameIn, Prologue.Parse, SchemaFrame.Parse, SchemaFrame.Valid, FrameBytes, Prologue.Build, SchemaFrame.Print;
    var file := CreatedFile(schema, rowIds).value;
    var printed := SchemaFrame.Print(schema).value;
    var header, payload := printed.0, printed.1;
    var frame := FrameBytes(SCHEMA_FRAME_TYPE, 0, header, payload);
    var start := Prologue.PROLOGUE_SIZE;
    assert file[..start] == Prologue.Build(Features(rowIds)) && file[start..] == frame == frame + [];
    Prologue.RoundTrip(Features(rowIds));
    SchemaFrameReadable(schema, limits);
    FrameRoundTrip(0, header, payload, limits, []);
    SchemaFrame.SchemaRoundTrip(schema, limits);
    BodyOfFrame(0, header, payload);
    var h := start + PREFIX_SIZE;
    var p := h + |header|;
    assert file[h..p] == frame[PREFIX_SIZE..PREFIX_SIZE + |header|];
    assert file[p..p + |payload|] == frame[PREFIX_SIZE + |header|..PREFIX_SIZE + |header| + |payload|];
  }

  lemma BodyOfFrame(sequence: u64, header: seq<byte>, payload: seq<byte>)
    ensures
      var frame := FrameBytes(SCHEMA_FRAME_TYPE, sequence, header, payload);
      && |frame| == FrameLength(|header|, |payload|)
      && frame[PREFIX_SIZE..PREFIX_SIZE + |header|] == header
      && frame[PREFIX_SIZE + |header|..PREFIX_SIZE + |header| + |payload|] == payload
  {
    hide Prefix, Trailer;
  }

  /** A created file holds no data frames and no tail. */
  lemma CreatedFileWalks(schema: Schema, rowIds: bool, limits: Limits, visitor: Visitor)
    requires SchemaFrame.Valid(schema) && CreatedFile(schema, rowIds).Ok? && Generous(limits)
    ensures
      var file := CreatedFile(schema, rowIds).value;
      var scan := CreatedScan(schema, rowIds, limits, |file|);
      WalkFile(file, limits, visitor) == Ok((scan, Walk(StartCursor(scan, visitor), false)))
  {
    hide OpenScan, SchemaFrame.Valid;
    CreatedFileOpens(schema, rowIds, limits);
  }
}
