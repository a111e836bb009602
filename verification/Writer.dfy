/** The append engine: buffering, publishing and accounting over one file. */
module Writer {
  import opened Core
  import opened Bytes
  import opened Limits
  import opened Schema
  import opened Rows
  import opened Frame
  import opened DataFrame
  import opened Walk
  import opened WalkTheorems
  import opened Pricing
  import opened Assembler
  import opened Blocks
  import opened BlockSizes
  import opened Buffer
  import opened Contents
  import opened ColumnCodec
  import opened Creation
  import opened Sessions
  import opened CrashSafety
  import opened Books
  import opened Widening
  import SchemaFrame
  import BlockTheorems

  /** The file under the writer.  Every operation may fail, and a write may stop at any byte. */
  class Sink {
    var bytes: seq<byte>

    constructor (bytes: seq<byte>)
      ensures this.bytes == bytes
    {
      this.bytes := bytes;
    }

    method WriteAll(data: seq<byte>) returns (ok: bool, ghost kept: nat)
      modifies this
      ensures kept <= |data| && bytes == old(bytes) + data[..kept]
      ensures ok ==> kept == |data|
    {
      var stop: nat :| stop <= |data|;
      kept := stop;
      bytes := bytes + data[..stop];
      ok := *;
      ok := ok && stop == |data|;
    }

    method Flush() returns (ok: bool) {
      ok := *;
    }

    method Sync() returns (ok: bool) {
      ok := *;
    }
  }

  class Writer {
    const options: Options
    const sink: Sink
    const buffer: BlockBuffer
    var state: AppendState
    var publishedRows: nat
    var publishedBytes: nat
    var durableRows: nat
    var durableBytes: nat
    var blocksWritten: nat
    var poisoned: bool
    ghost var book: Book

    /** Enter the append engine at the end of a complete file. */
    constructor (sink: Sink, options: Options, state: AppendState, ghost limits: Limits, ghost scan: FileScan, ghost end: Cursor)
      requires options.cfg.Valid() && SchemaFrame.Valid(options.cfg.schema) && Generous(limits)
      requires scan.ctx.schema == options.cfg.schema && scan.ctx.prologue.RowIds() == options.rowIds
      requires WalkFile(sink.bytes, limits, Discard) == Ok((scan, Walk(end, false)))
      requires state == StateAt(sink.bytes, end)
      requires state.fileLength < U64 && 1 <= state.nextSequence < U64 && state.nextRowId < U64
      ensures Valid() && !poisoned && buffer.Contents() == [] && fresh(buffer)
      ensures this.sink == sink && this.options == options && this.state == state
      ensures book == StartBook(limits, scan, sink.bytes, end, state)
      ensures publishedRows == publishedBytes == durableRows == durableBytes == blocksWritten == 0
    {
      hide WalkFile, Keeps, FileRows;
      this.options, this.sink, this.state := options, sink, state;
      buffer := new BlockBuffer(options.cfg.schema, options.cfg.statistics);
      publishedRows, publishedBytes, durableRows, durableBytes, blocksWritten, poisoned := 0, 0, 0, 0, 0, false;
      book := StartBook(limits, scan, sink.bytes, end, state);
      new;
      KeepsStart(options, limits, scan, sink.bytes, end, state);
    }

    function Tally(): Figures
      reads this
    {
      Figures(state, publishedRows, publishedBytes, blocksWritten, durableRows, durableBytes, poisoned)
    }

    ghost predicate Valid()
      reads this, sink, buffer
    {
      && options.cfg.Valid() && buffer.Valid() && buffer.schema == options.cfg.schema && buffer.statistics == options.cfg.statistics
      && Holdable(options.cfg, buffer.Contents())
      && Keeps(options, Tally(), book, sink.bytes)
    }

    /** Every row this session has accepted, in order. */
    ghost function Accepted(): seq<Row>
      reads this, buffer
    {
      Flatten(book.published) + book.lost + buffer.Contents()
    }

    /** The row ID the next frame carries. */
    function BaseRowId(): Option<nat>
      reads this
    {
      if options.rowIds then Some(state.nextRowId) else None
    }

    predicate CanCount(frameLength: nat, rawBytes: nat, rowCount: nat)
      reads this
    {
      Countable(state, options.rowIds, publishedRows, publishedBytes, blocksWritten, frameLength, rawBytes, rowCount)
    }

    /** Advance the accounting for a frame already on disk, or poison the writer. */
    method Commit(frameLength: nat, rawBytes: nat, rowCount: nat) returns (r: Result<()>)
      modifies this`state, this`publishedRows, this`publishedBytes, this`blocksWritten, this`poisoned
      ensures old(CanCount(frameLength, rawBytes, rowCount)) ==>
                && r == Ok(()) && poisoned == old(poisoned)
                && state == Advanced(old(state), options.rowIds, frameLength, rowCount)
                && publishedRows == old(publishedRows) + rowCount && publishedBytes == old(publishedBytes) + rawBytes
                && blocksWritten == old(blocksWritten) + 1
      ensures !old(CanCount(frameLength, rawBytes, rowCount)) ==>
                && r == Err(ResourceLimit) && poisoned
                && state == old(state) && publishedRows == old(publishedRows) && publishedBytes == old(publishedBytes)
                && blocksWritten == old(blocksWritten)
    {
      if !CanCount(frameLength, rawBytes, rowCount) {
        poisoned := true;
        return Err(ResourceLimit);
      }
      state := Advanced(state, options.rowIds, frameLength, rowCount);
      publishedRows, publishedBytes, blocksWritten := publishedRows + rowCount, publishedBytes + rawBytes, blocksWritten + 1;
      r := Ok(());
    }

    /** The encodings the policy settles on; a cost model may prefer any. */
    method SelectEncodings() returns (choices: seq<Choice>)
      ensures options.encoding.Allows(options.cfg.schema, choices)
    {
      var all := match options.encoding
        case FixedPolicy(encoding) => Choice(encoding, false)
        case _ => Choice(Encoding.Raw, false);
      choices := seq(|options.cfg.schema.columns|, _ => all);
      if options.encoding.AdaptivePolicy? {
        var i := 0;
        while i < |choices|
          invariant |choices| == |options.cfg.schema.columns|
        {
          var choice: Choice := *;
          choices := choices[i := choice];
          i := i + 1;
        }
      }
    }

    /**
     * Write the buffered rows as one data frame.  On success they are the newest published
     * block.  An encoder's refusal changes nothing and poisons nothing, and the raw policy
     * never meets one.  Any other failure poisons the writer, keeps the committed frames, and
     * still holds every row.
     */
    method PublishBuffer() returns (r: Result<()>)
      requires Valid() && !poisoned
      modifies this, sink, buffer
      ensures Valid() && Accepted() == old(Accepted()) && book.Continues(old(book))
      ensures durableRows == old(durableRows) && durableBytes == old(durableBytes)
      ensures r.Ok? ==>
                && !poisoned && buffer.Contents() == []
                && book.published == old(book.published) + if old(buffer.Contents()) == [] then [] else [old(buffer.Contents())]
      ensures r.Err? ==> book.published == old(book.published) && book.committed == old(book.committed)
      ensures r.Err? && !poisoned ==>
                !options.encoding.IsRaw() && sink.bytes == old(sink.bytes) && buffer.Contents() == old(buffer.Contents())
    {
      hide Keeps, EncodeBlock, SchemaFrame.Valid, ValidRows, DataFrameBytes, Price, Flatten, Footprints, Countable, Writable;
      KeepsFacts(options, Tally(), book, sink.bytes);
      ghost var rows := buffer.Contents();
      if buffer.rowCount == 0 {
        assert book.published + [] == book.published;
        return Ok(());
      }
      var choices := SelectEncodings();
      var plan := Plan(options.cfg.schema, choices, options.cfg.statistics);
      if options.encoding.IsRaw() {
        assert choices == RawPlan(options.cfg.schema, options.cfg.statistics).choices;
        WritableIsEncoded(options.cfg, rows, BaseRowId());
      }
      var encoded := EncodeBlock(plan, buffer.Contents(), BaseRowId());
      if encoded.Err? {
        return Err(encoded.kind);
      }
      var block := encoded.value;
      var frame := DataFrameBytes(state.nextSequence, block.header, block.payload);
      r := WriteFrame(frame, plan);
    }

    /** Write one encoded frame, and clear the buffer only once its bytes have reached the sink. */
    method WriteFrame(frame: seq<byte>, ghost plan: Plan) returns (r: Result<()>)
      requires Valid() && !poisoned && Writes(options, Tally(), plan, buffer.Contents(), frame)
      modifies this, sink, buffer
      ensures Valid() && Accepted() == old(Accepted()) && book.Continues(old(book))
      ensures durableRows == old(durableRows) && durableBytes == old(durableBytes)
      ensures r.Ok? ==> !poisoned && buffer.Contents() == [] && book.published == old(book.published) + [old(buffer.Contents())]
      ensures r.Err? ==> poisoned && book.published == old(book.published) && book.committed == old(book.committed)
      ensures r.Err? && old(buffer.Contents()) != buffer.Contents() ==> r == Err(ResourceLimit)
    {
      hide Keeps, EncodeBlock, DataFrameBytes, SchemaFrame.Valid, ValidRows, Price, Flatten, Footprints, Countable, Writable;
      ghost var rows, before, file := buffer.Contents(), Tally(), sink.bytes;
      var rawBytes, rowCount := buffer.size.frame, buffer.rowCount;
      KeepsFacts(options, before, book, file);
      EmptyEnds(book.published, rows);
      var ok, kept := sink.WriteAll(frame);
      if !ok {
        book := KeepsTorn(options, before, book, file, plan, rows, frame, kept);
        poisoned := true;
        return Err(Io);
      }
      assert frame[..kept] == frame;
      buffer.Clear();
      if CanCount(|frame|, rawBytes, rowCount) {
        book := KeepsCounted(options, before, book, file, plan, rows, frame);
      } else {
        book := KeepsUncounted(options, before, book, file, plan, rows, frame);
      }
      r := Commit(|frame|, rawBytes, rowCount);
    }

    /** Publish the buffer once it has reached either target. */
    method PublishIfComplete() returns (r: Result<()>)
      requires Valid() && !poisoned && buffer.Contents() != []
      modifies this, sink, buffer
      ensures Valid() && Accepted() == old(Accepted()) && book.Continues(old(book))
      ensures durableRows == old(durableRows) && durableBytes == old(durableBytes)
      ensures r.Ok? ==> !poisoned
      ensures r.Ok? && old(Reached(options.cfg, buffer.Contents())) ==>
                buffer.Contents() == [] && book.published == old(book.published) + [old(buffer.Contents())]
      ensures r.Ok? && !old(Reached(options.cfg, buffer.Contents())) ==>
                buffer.Contents() == old(buffer.Contents()) && book.published == old(book.published)
      ensures r.Err? ==> book.published == old(book.published)
      ensures r.Err? && !poisoned ==> !options.encoding.IsRaw() && buffer.Contents() == old(buffer.Contents())
    {
      hide Keeps, SchemaFrame.Valid, ValidRows, Price, Flatten, Footprints, Writable;
      if buffer.rowCount >= options.cfg.rowTarget || buffer.size.frame >= options.cfg.byteTarget {
        r := PublishBuffer();
      } else {
        r := Ok(());
      }
    }

    /** The buffer takes rows the assembler has priced. */
    method Take(rows: seq<Row>)
      requires Valid() && !poisoned && ValidRows(options.cfg.schema, rows) && rows != []
      requires Publishable(options.cfg, buffer.Contents() + rows)
      modifies buffer
      ensures Valid() && buffer.Contents() == old(buffer.Contents()) + rows
      ensures Accepted() == old(Accepted()) + rows
    {
      hide Keeps, SchemaFrame.Valid, ValidRows, Price, Flatten, Footprints, Writable;
      buffer.Push(rows);
      assert Flatten(book.published) + book.lost + (old(buffer.Contents()) + rows) == Flatten(book.published) + book.lost + old(buffer.Contents()) + rows;
    }

    /** A refusal before anything is buffered. */
    predicate Rejects(batchSchema: Schema, batch: seq<Row>)
      reads this
    {
      poisoned || batchSchema != options.cfg.schema || batch == [] || !ValidRows(options.cfg.schema, batch)
    }

    /** The published blocks and the buffer are those of the greedy assembly. */
    ghost predicate Follows(before: seq<seq<Row>>, a: Assembly)
      reads this, buffer
    {
      book.published == before + a.blocks && buffer.Contents() == a.rest
    }

    /**
     * Append one batch.  On success the blocks published and the rows left buffered are
     * exactly those of the greedy assembly, and the buffer is below both targets.  Otherwise
     * the rows accepted are the earlier ones followed by a prefix of the batch.
     */
    method Append(batchSchema: Schema, batch: seq<Row>) returns (r: Result<()>, ghost consumed: nat)
      requires Valid()
      modifies this, sink, buffer
      ensures Valid() && consumed <= |batch| && Accepted() == old(Accepted()) + batch[..consumed] && book.Continues(old(book))
      ensures old(Rejects(batchSchema, batch)) ==>
                && r == Err(if old(poisoned) then Poisoned else InvalidArgument) && consumed == 0
                && book.published == old(book.published) && poisoned == old(poisoned) && sink.bytes == old(sink.bytes)
      ensures !old(Rejects(batchSchema, batch)) ==>
                var a := Assemble(options.cfg, old(buffer.Contents()), batch);
                && (r.Ok? ==> !poisoned && a.ok && consumed == |batch| && Follows(old(book.published), a))
                && (r.Ok? ==> Below(options.cfg, buffer.Contents()))
                && (r.Err? && !poisoned && options.encoding.IsRaw() ==> !a.ok && Follows(old(book.published), a))
    {
      hide Keeps, SchemaFrame.Valid, ValidRows, Price, Flatten, Footprints, Writable, Assemble, FittingPrefix, Reached;
      consumed := 0;
      assert batch[..0] == [] && Accepted() + [] == Accepted();
      if poisoned {
        return Err(Poisoned), 0;
      }
      if batchSchema != options.cfg.schema || batch == [] || !ValidRows(options.cfg.schema, batch) {
        return Err(InvalidArgument), 0;
      }
      ghost var held := buffer.Contents();
      BlocksAreBounded(options.cfg, held, batch);
      Assembled(options.cfg, held, batch, [], held, 0);
      ProgressFacts(options.cfg, held, batch, [], held, 0);
      assert batch[0..] == batch && batch[0..|batch|] == batch[..|batch|] == batch;
      var whole := FittingRows(options.cfg, buffer, batch, 0);
      if whole.Err? {
        return Err(whole.kind), 0;
      }
      if whole.value == |batch| {
        Take(batch);
        ghost var reached := Reached(options.cfg, held + batch);
        r := PublishIfComplete();
        consumed := |batch|;
        Finished(options.cfg, held, batch, if reached then [held + batch] else [], if reached then [] else held + batch);
      } else {
        r, consumed := AppendSlices(batch);
      }
    }

    /** Take the batch slice by slice, publishing whenever the buffer fills. */
    method AppendSlices(batch: seq<Row>) returns (r: Result<()>, ghost taken: nat)
      requires Valid() && !poisoned && ValidRows(options.cfg.schema, batch)
      modifies this, sink, buffer
      ensures Valid() && taken <= |batch| && Accepted() == old(Accepted()) + batch[..taken] && book.Continues(old(book))
      ensures
        var a := Assemble(options.cfg, old(buffer.Contents()), batch);
        && (r.Ok? ==> !poisoned && a.ok && taken == |batch| && Follows(old(book.published), a))
        && (r.Err? && !poisoned && options.encoding.IsRaw() ==> !a.ok && Follows(old(book.published), a))
    {
      hide Keeps, SchemaFrame.Valid, ValidRows, Price, Flatten, Footprints, Writable, Assemble, FittingPrefix, Reached, Publishable;
      ghost var held := buffer.Contents();
      ghost var done: seq<seq<Row>> := [];
      var consumed := 0;
      assert batch[..0] == [] && Accepted() + [] == Accepted() && book.published + [] == book.published;
      Assembled(options.cfg, held, batch, done, held, 0);
      while consumed < |batch|
        invariant Valid() && !poisoned && 0 <= consumed <= |batch|
        invariant book.published == old(book.published) + done && book.Continues(old(book))
        invariant Progress(options.cfg, held, batch, done, buffer.Contents(), consumed)
        invariant Accepted() == old(Accepted()) + batch[..consumed]
        decreases |batch| - consumed, |buffer.Contents()|
      {
        ghost var now := buffer.Contents();
        taken := consumed;
        var prefix := FittingRows(options.cfg, buffer, batch, consumed);
        ProgressFacts(options.cfg, held, batch, done, now, consumed);
        if prefix.Err? {
          return Err(prefix.kind), consumed;
        }
        var take := prefix.value;
        if take == 0 {
          r := PublishBuffer();
          if r.Err? {
            return;
          }
          done := done + [now];
        } else {
          ghost var block: seq<seq<Row>>;
          r, block := TakeSlice(batch, consumed, take);
          assert batch[..consumed] + batch[consumed..consumed + take] == batch[..consumed + take];
          consumed := consumed + take;
          taken := consumed;
          if r.Err? {
            return;
          }
          done := done + block;
        }
      }
      Finished(options.cfg, held, batch, done, buffer.Contents());
      taken := consumed;
      r := Ok(());
    }

    /** Buffer one slice and publish if that reached a target. */
    method TakeSlice(batch: seq<Row>, start: nat, take: nat) returns (r: Result<()>, ghost block: seq<seq<Row>>)
      requires Valid() && !poisoned && ValidRows(options.cfg.schema, batch) && 0 < take && start + take <= |batch|
      requires Publishable(options.cfg, buffer.Contents() + batch[start..start + take])
      modifies this, sink, buffer
      ensures Valid() && book.Continues(old(book))
      ensures old(Accepted()) + batch[start..start + take] == Accepted()
      ensures
        var grown := old(buffer.Contents()) + batch[start..start + take];
        && (r.Ok? && Reached(options.cfg, grown) ==> buffer.Contents() == [] && block == [grown])
        && (r.Ok? && !Reached(options.cfg, grown) ==> buffer.Contents() == grown && block == [])
      ensures r.Ok? ==> !poisoned && book.published == old(book.published) + block
      ensures r.Err? && !poisoned ==> !options.encoding.IsRaw()
    {
      hide Keeps, SchemaFrame.Valid, ValidRows, Price, Flatten, Footprints, Writable, Reached, Publishable;
      SliceIsValid(options.cfg.schema, batch, start, start + take);
      Take(batch[start..start + take]);
      ghost var grown := buffer.Contents();
      block := if Reached(options.cfg, grown) then [grown] else [];
      r := PublishIfComplete();
      assert old(book.published) + [] == old(book.published);
    }

    /** An operation on the file failed: the writer refuses further work. */
    method Poison()
      requires Valid() && !poisoned
      modifies this`poisoned, this`book
      ensures Valid() && poisoned && book.Continues(old(book)) && Accepted() == old(Accepted())
    {
      hide Keeps, Flatten;
      book := KeepsFailed(options, Tally(), book, sink.bytes);
      poisoned := true;
    }

    /** Publish buffered rows and flush the file handle. */
    method Flush() returns (r: Result<()>)
      requires Valid()
      modifies this, sink, buffer
      ensures Valid() && Accepted() == old(Accepted()) && book.Continues(old(book))
      ensures durableRows == old(durableRows) && durableBytes == old(durableBytes)
      ensures r.Ok? ==> !old(poisoned) && !poisoned && buffer.Contents() == []
      ensures old(poisoned) ==> r == Err(Poisoned) && sink.bytes == old(sink.bytes)
    {
      hide Keeps, SchemaFrame.Valid, ValidRows, Price, Flatten, Footprints, Writable;
      if poisoned {
        return Err(Poisoned);
      }
      r := PublishBuffer();
      if r.Ok? {
        var flushed := sink.Flush();
        if !flushed {
          Poison();
          return Err(Io);
        }
      }
    }

    /** Flush and make everything published durable. */
    method Sync() returns (r: Result<()>)
      requires Valid()
      modifies this, sink, buffer
      ensures Valid() && Accepted() == old(Accepted()) && book.Continues(old(book))
      ensures r.Ok? ==> !poisoned && buffer.Contents() == [] && durableRows == publishedRows && durableBytes == publishedBytes
      ensures r.Err? ==> durableRows == old(durableRows) && durableBytes == old(durableBytes)
    {
      hide Keeps, SchemaFrame.Valid, ValidRows, Price, Flatten, Footprints, Writable;
      r := Flush();
      if r.Ok? {
        var ok := sink.Sync();
        if !ok {
          Poison();
          return Err(Io);
        }
        KeepsSynced(options, Tally(), book, sink.bytes);
        durableRows, durableBytes := publishedRows, publishedBytes;
        book := book.(synced := |book.published|);
      }
    }

    /**
     * End the session.  After success the file is complete, and a full read of it yields what
     * it held at the start followed by every row this session accepted, in order, if and only
     * if the reader can afford every block this session wrote.
     */
    method Finish() returns (r: Result<WriteSummary>)
      requires Valid()
      modifies this, sink, buffer
      ensures Valid() && Accepted() == old(Accepted()) && book.Continues(old(book))
      ensures r.Ok? ==>
                && WalkFile(sink.bytes, book.limits, Discard) == Ok((book.scan, Walk(book.end, false)))
                && AllValid(book.written) && RowsWritten(book.written) == old(Accepted())
                && FileRows(sink.bytes, book.limits)
                   == (if book.initial.Err? then book.initial
                       else if AllAffordable(book.written, book.limits) then Ok(book.initial.value + old(Accepted()))
                       else Err(ResourceLimit))
                && r.value == WriteSummary(
                     |old(Accepted())|, |book.published|, |sink.bytes|, if |book.published| > 0 then Some(book.end.sequence - 1) else None)
    {
      hide Keeps, SchemaFrame.Valid, ValidRows, Price, Flatten, Footprints, Writable, WalkFile, FileRows, Affordable, ReadBack, RowsWritten;
      var done := Sync();
      if done.Err? {
        return Err(done.kind);
      }
      assert Flatten(book.published) + [] + [] == Flatten(book.published);
      KeepsRead(options, Tally(), book, sink.bytes);
      KeepsFacts(options, Tally(), book, sink.bytes);
      r := Ok(WriteSummary(publishedRows, blocksWritten, state.fileLength,
                           if blocksWritten != 0 then Some(state.nextSequence - 1) else None));
    }

    /** The running totals, in rows and in priced bytes. */
    method Accounting() returns (a: WriteAccounting)
      requires Valid()
      ensures a.bufferedRows == |buffer.Contents()|
      ensures a.bufferedBytes == if buffer.Contents() == [] then 0 else PricedBytes(options.cfg, buffer.Contents())
      ensures a.publishedRows == |Flatten(book.published)| && a.publishedBytes == FrameSum(options.cfg, book.published)
      ensures a.durableRows == |Flatten(book.published[..book.synced])|
      ensures a.durableBytes == FrameSum(options.cfg, book.published[..book.synced])
      ensures a.totalRows == Saturate(a.publishedRows + a.bufferedRows) && a.totalBytes == Saturate(a.publishedBytes + a.bufferedBytes)
      ensures book.lost == [] ==> a.totalRows == Saturate(|Accepted()|)
    {
      hide Keeps, SchemaFrame.Valid, ValidRows, Price, Flatten, Footprints, Writable;
      KeepsTotals(options, Tally(), book, sink.bytes);
      a := WriteAccounting(
        buffer.rowCount, buffer.size.frame, publishedRows, publishedBytes, durableRows, durableBytes,
        Saturate(publishedRows + buffer.rowCount), Saturate(publishedBytes + buffer.size.frame));
    }
  }

  datatype WriteSummary = WriteSummary(rowsWritten: nat, blocksWritten: nat, bytesWritten: nat, lastSequence: Option<nat>)

  datatype WriteAccounting = WriteAccounting(
    bufferedRows: nat, bufferedBytes: nat, publishedRows: nat, publishedBytes: nat, durableRows: nat, durableBytes: nat,
    totalRows: nat, totalBytes: nat)

  // ----------------------------------------------------------- opening and creating

  /** Writer options before the schema is known. */
  datatype Request = Request(rowTarget: nat, byteTarget: nat, statistics: Policy, rowIds: bool, encoding: EncodingPolicy) {
    function With(schema: Schema): Options {
      Options(Config(schema, rowTarget, byteTarget, statistics), rowIds, encoding)
    }

    /** The option checks, in their own order. */
    function Check(): (r: Result<()>)
      ensures r.Ok? <==> 0 < rowTarget <= DEFAULT.maxRowsPerBlock && 0 < byteTarget <= DEFAULT.maxFramePayloadLength
    {
      if rowTarget == 0 then Err(InvalidArgument)
      else if rowTarget > DEFAULT.maxRowsPerBlock then Err(ResourceLimit)
      else if byteTarget == 0 then Err(InvalidArgument)
      else if byteTarget > DEFAULT.maxFramePayloadLength then Err(ResourceLimit)
      else Ok(())
    }
  }

  /** Why a file cannot be opened for append, if it cannot. */
  function OpenRefusal(file: seq<byte>, request: Request, expected: Option<Schema>, limits: Limits): Option<ErrorKind> {
    match OpenScan(file, limits)
    case Err(kind) => Some(kind)
    case Ok(scan) =>
      if expected.Some? && expected.value != scan.ctx.schema then Some(SchemaMismatch)
      else if !SchemaFrame.Valid(scan.ctx.schema) then Some(InvalidArgument)
      else if !request.encoding.Offered(scan.ctx.schema) then Some(InvalidArgument)
      else if scan.ctx.prologue.RowIds() != request.rowIds then Some(InvalidArgument)
      else
        match WalkFrom(file, scan.ctx, StartCursor(scan, Discard))
        case Err(kind) => Some(kind)
        case Ok(walk) => if walk.incompleteTail then Some(ErrorKind.IncompleteTail) else None
  }

  /**
   * Open a complete file for append, under any limits.  It is refused exactly for a bad
   * option, a file those limits refuse, damage or an incomplete tail, a schema that is not the
   * expected one, or a transform or row-ID option the file does not admit; no byte is written
   * either way.
   */
  method Open(sink: Sink, request: Request, expected: Option<Schema>, limits: Limits) returns (r: Result<Writer>)
    requires |sink.bytes| < U64
    ensures r.Err? <==> request.Check().Err? || OpenRefusal(sink.bytes, request, expected, limits).Some?
    ensures request.Check().Err? ==> r == Err(request.Check().kind)
    ensures request.Check().Ok? && r.Err? ==> OpenRefusal(sink.bytes, request, expected, limits) == Some(r.kind)
    ensures r.Ok? ==>
              && fresh(r.value) && fresh(r.value.buffer) && r.value.sink == sink && r.value.Valid() && !r.value.poisoned
              && r.value.book.limits == Widen(limits) && r.value.book.initial == FileRows(sink.bytes, Widen(limits))
              && r.value.Accepted() == [] && r.value.book.events == []
              && var walk := WalkFile(sink.bytes, limits, Discard);
              walk.Ok? && r.value.state == StateAt(sink.bytes, walk.value.1.end)
  {
    hide OpenScan, Step, SchemaFrame.Valid;
    var checked := request.Check();
    if checked.Err? {
      return Err(checked.kind);
    }
    var refusal := OpenRefusal(sink.bytes, request, expected, limits);
    if refusal.Some? {
      return Err(refusal.value);
    }
    var scan := OpenScan(sink.bytes, limits).value;
    var walk := WalkFrom(sink.bytes, scan.ctx, StartCursor(scan, Discard)).value;
    CountersFit(sink.bytes, scan.ctx, StartCursor(scan, Discard));
    EndFacts(sink.bytes, limits, scan, walk.end);
    WalkWidens(sink.bytes, limits, Widen(limits), scan, walk.end);
    var writer := new Writer(
      sink, request.With(scan.ctx.schema), StateAt(sink.bytes, walk.end), Widen(limits), Wider(scan, Widen(limits)), walk.end);
    r := Ok(writer);
  }

  /**
   * Create a file.  Success leaves exactly a prologue and a schema frame, ready for data
   * frames; failure leaves nothing behind.
   */
  method Create(sink: Sink, schema: Schema, request: Request) returns (r: Result<Writer>)
    requires sink.bytes == []
    modifies sink
    ensures r.Ok? ==>
              && SchemaFrame.Valid(schema) && request.Check().Ok? && request.encoding.Offered(schema)
              && CreatedFile(schema, request.rowIds) == Ok(sink.bytes)
              && fresh(r.value) && fresh(r.value.buffer) && r.value.sink == sink && r.value.Valid() && !r.value.poisoned
              && r.value.book.initial == Ok([]) && r.value.Accepted() == [] && r.value.book.events == []
    ensures r.Err? ==> sink.bytes == []
    ensures (!SchemaFrame.Valid(schema) || request.Check().Err? || !request.encoding.Offered(schema)
             || CreatedFile(schema, request.rowIds).Err?) ==>
              r.Err? && r.kind != Io
  {
    hide SchemaFrame.Valid, CreatedFile, WalkFile;
    if !SchemaFrame.Valid(schema) {
      return Err(InvalidArgument);
    }
    var checked := request.Check();
    if checked.Err? {
      return Err(checked.kind);
    }
    if !request.encoding.Offered(schema) {
      return Err(InvalidArgument);
    }
    var initial := CreatedFile(schema, request.rowIds);
    if initial.Err? {
      CreationKind(schema, request.rowIds);
      return Err(initial.kind);
    }
    if |initial.value| >= U64 {
      return Err(ResourceLimit);
    }
    var written, kept := sink.WriteAll(initial.value);
    if !written {
      sink.bytes := [];
      return Err(Io);
    }
    assert sink.bytes == initial.value;
    ghost var scan := CreatedScan(schema, request.rowIds, DEFAULT, |initial.value|);
    CreatedFileOpens(schema, request.rowIds, DEFAULT);
    CreatedFileWalks(schema, request.rowIds, DEFAULT, Discard);
    CreatedRows(sink.bytes, DEFAULT, scan);
    var writer := new Writer(
      sink, request.With(schema), AppendState(|initial.value|, FIRST_DATA_FRAME_SEQUENCE, 0), DEFAULT, scan,
      StartCursor(scan, Discard));
    r := Ok(writer);
  }

  lemma CreationKind(schema: Schema, rowIds: bool)
    ensures CreatedFile(schema, rowIds).Err? ==> CreatedFile(schema, rowIds).kind != Io
  {
    hide SchemaFrame.Descriptor;
    DescriptorsKind(schema.columns);
  }

  lemma {:induction false} DescriptorsKind(columns: seq<Column>)
    ensures SchemaFrame.Descriptors(columns).Err? ==> SchemaFrame.Descriptors(columns).kind != Io
  {
    if columns != [] {
      DescriptorsKind(columns[1..]);
    }
  }

  lemma SliceIsValid(schema: Schema, rows: seq<Row>, a: nat, b: nat)
    requires ValidRows(schema, rows) && a <= b <= |rows|
    ensures ValidRows(schema, rows[a..b])
  {
    hide ValidRow;
  }

  lemma Finished(cfg: Config, held: seq<Row>, batch: seq<Row>, done: seq<seq<Row>>, now: seq<Row>)
    ensures Progress(cfg, held, batch, done, now, |batch|) ==>
              var full := Assemble(cfg, held, batch);
              full.ok && full.blocks == done && full.rest == now
    ensures batch[..|batch|] == batch
  {
    assert batch[|batch|..] == [];
    assert done + [] == done;
  }

  /** The rest of the assembly, after some blocks are out and some rows consumed. */
  ghost predicate Progress(
      cfg: Config, held: seq<Row>, batch: seq<Row>, done: seq<seq<Row>>, now: seq<Row>, consumed: nat)
  {
    && consumed <= |batch| && Inputs(cfg, held, batch) && Inputs(cfg, now, batch[consumed..])
    && var full, later := Assemble(cfg, held, batch), Assemble(cfg, now, batch[consumed..]);
    && full.blocks == done + later.blocks && full.rest == later.rest && full.ok == later.ok
  }

  lemma Assembled(cfg: Config, held: seq<Row>, batch: seq<Row>, done: seq<seq<Row>>, now: seq<Row>, consumed: nat)
    requires Inputs(cfg, held, batch) && done == [] && now == held && consumed == 0
    ensures Progress(cfg, held, batch, done, now, consumed)
  {
    assert batch[0..] == batch;
  }

  /** What each turn of the append loop does to the rest of the assembly. */
  lemma ProgressFacts(cfg: Config, held: seq<Row>, batch: seq<Row>, done: seq<seq<Row>>, now: seq<Row>, consumed: nat)
    requires Progress(cfg, held, batch, done, now, consumed) && consumed < |batch|
    ensures
      var rest := batch[consumed..];
      var full := Assemble(cfg, held, batch);
      match FittingPrefix(cfg, now, rest)
      case Err(_) => !full.ok && full.blocks == done && full.rest == now
      case Ok(take) =>
        && take <= |rest|
        && (take == 0 ==> now != [] && Progress(cfg, held, batch, done + [now], [], consumed))
        && (take > 0 ==>
              var grown := now + batch[consumed..consumed + take];
              && Publishable(cfg, grown)
              && (Reached(cfg, grown) ==> Progress(cfg, held, batch, done + [grown], [], consumed + take))
              && (!Reached(cfg, grown) ==> Progress(cfg, held, batch, done, grown, consumed + take)))
  {
    hide Price, FittingPrefix, Reached, Assemble;
    var rest := batch[consumed..];
    AssembleTurn(cfg, now, rest);
    if FittingPrefix(cfg, now, rest).Ok? {
      var take := FittingPrefix(cfg, now, rest).value;
      if take == 0 {
        var next := Assemble(cfg, [], rest);
        assert done + ([now] + next.blocks) == done + [now] + next.blocks;
      } else {
        GrownIsPublishable(cfg, now, rest);
        assert rest[..take] == batch[consumed..consumed + take];
        assert rest[take..] == batch[consumed + take..];
        var grown := now + rest[..take];
        var next := Assemble(cfg, if Reached(cfg, grown) then [] else grown, rest[take..]);
        assert done + ([grown] + next.blocks) == done + [grown] + next.blocks;
      }
    } else {
      assert done + [] == done;
    }
  }

  lemma WritableIsEncoded(cfg: Config, rows: seq<Row>, base: Option<nat>)
    requires SchemaFrame.Valid(cfg.schema) && Publishable(cfg, rows)
    ensures EncodeBlock(RawPlan(cfg.schema, cfg.statistics), rows, base).Ok?
  {
    hide EncodeBlock, SchemaFrame.Valid, Price;
    RawBlockIsPriced(cfg.schema, rows, cfg.statistics, base);
  }

  lemma EmptyEnds(published: seq<seq<Row>>, rows: seq<Row>)
    ensures Flatten(published) + [] + rows == Flatten(published) + rows
    ensures Flatten(published) + rows + [] == Flatten(published) + rows
    ensures Flatten(published + [rows]) + [] + [] == Flatten(published) + rows
  {
    FlattenAppend(published, rows);
  }


}
