/** A reader that refreshes in place, and a tail that follows a file through it. */
module Tails {
  import opened Core
  import opened Bytes
  import opened Limits
  import opened Schema
  import opened Rows
  import opened Frame
  import opened Walk
  import opened WalkTheorems
  import opened Reader
  import opened Scanner
  import opened Contents
  import opened Charges
  import opened Layouts
  import opened Budgets
  import opened Decoder
  import opened Scans
  import opened Scanning

  // ----------------------------------------------------------- refreshing in place

  /** The live reader: a snapshot whose blocks and metadata a refresh replaces. */
  class LiveReader {
    const limits: Limits
    const identity: int
    const schema: Schema
    var blocks: seq<BlockMetadata>
    var metadata: FileMetadata

    function View(): Snapshot
      reads this
    {
      Snapshot(limits, identity, schema, metadata, blocks)
    }

    constructor (snapshot: Snapshot)
      ensures View() == snapshot
    {
      limits, identity, schema := snapshot.limits, snapshot.identity, snapshot.schema;
      blocks, metadata := snapshot.blocks, snapshot.metadata;
    }

    /**
     * Extend the snapshot with the frames committed since.  New blocks are staged and only
     * then adopted, so every failure leaves the reader exactly as it was.
     */
    method Refresh(view: PathView) returns (r: Result<RefreshReport>)
      modifies this
      ensures
        match Reader.Refresh(old(View()), view)
        case Ok((newer, report)) => r == Ok(report) && View() == newer
        case Err(kind) => r == Err(kind) && View() == old(View())
    {
      hide WalkFrom, OpenScan;
      if view.Missing? {
        return Err(Io);
      }
      var bytes := view.bytes;
      if view.identity != identity {
        return Err(FileReplaced);
      }
      if |bytes| < metadata.lastGoodOffset {
        return Err(FileTruncated);
      }
      var anchor := ReadCommitTrailer(bytes, metadata.lastGoodOffset);
      if anchor.Err? {
        return Err(anchor.kind);
      }
      if anchor.value != metadata.commitAnchor {
        return Err(FileReplaced);
      }
      if |bytes| == metadata.lastGoodOffset {
        var previous := metadata.fileSize;
        metadata := metadata.(fileSize := |bytes|, incompleteTail := false);
        return Ok(RefreshReport(0, 0, previous, |bytes|, false, 0));
      }
      var scan := OpenScan(bytes, limits);
      if scan.Err? {
        return Err(scan.kind);
      }
      if scan.value.ctx.prologue != metadata.prologue || scan.value.ctx.schema != schema {
        return Err(FileReplaced);
      }
      var walked := WalkDataFrames(bytes, scan.value.ctx, ResumePoint(View()));
      if walked.Err? {
        return Err(walked.kind);
      }
      var walk := walked.value;
      var newAnchor := ReadCommitTrailer(bytes, walk.end.offset);
      if newAnchor.Err? {
        return Err(newAnchor.kind);
      }
      var (newer, report) := Extend(View(), scan.value, bytes, walk, newAnchor.value);
      blocks := newer.blocks;
      metadata := newer.metadata;
      r := Ok(report);
    }
  }

  // --------------------------------------------------------- how snapshots may grow

  lemma {:induction false} CountingBound(file: seq<byte>, ctx: Context, c: Cursor)
    requires c.visitor.Counting? && WalkFrom(file, ctx, c).Ok?
    ensures
      var end := WalkFrom(file, ctx, c).value.end;
      && end.visitor.Counting? && |end.blocks| >= |c.blocks|
      && end.visitor.count == c.visitor.count + |end.blocks| - |c.blocks|
      && end.visitor.rows >= c.visitor.rows
      && (end.visitor.count > c.visitor.count ==> end.visitor.count <= ctx.limits.maxBlocks)
    decreases |file| - c.offset
  {
    hide Step;
    if c.offset < |file| && Step(file, ctx, c).value.Some? {
      StepFacts(file, ctx, c);
      StepCounts(file, ctx, c);
      CountingBound(file, ctx, Step(file, ctx, c).value.value);
    }
  }

  lemma StepCounts(file: seq<byte>, ctx: Context, c: Cursor)
    requires c.visitor.Counting? && c.offset < |file| && Step(file, ctx, c).Ok? && Step(file, ctx, c).value.Some?
    ensures c.visitor.count < ctx.limits.maxBlocks
  {
    hide ReadFrameIn, FromLe;
  }

  /** A snapshot whose counters describe its blocks. */
  ghost predicate CountsBlocks(s: Snapshot) {
    s.metadata.blockCount == |s.blocks|
  }

  /** A refresh only ever appends blocks, reports how many, and never passes the block limit. */
  lemma RefreshGrows(s: Snapshot, view: PathView)
    requires CountsBlocks(s) && Reader.Refresh(s, view).Ok?
    ensures
      var newer := Reader.Refresh(s, view).value.0;
      var report := Reader.Refresh(s, view).value.1;
      && CountsBlocks(newer) && newer.limits == s.limits && newer.identity == s.identity && newer.schema == s.schema
      && newer.metadata.prologue == s.metadata.prologue
      && |newer.blocks| == |s.blocks| + report.blocksAdded && newer.blocks[..|s.blocks|] == s.blocks
      && (report.blocksAdded > 0 ==> |newer.blocks| <= s.limits.maxBlocks)
  {
    hide WalkFrom, OpenScan;
    var m := s.metadata;
    if |view.bytes| != m.lastGoodOffset {
      var scan := OpenScan(view.bytes, s.limits).value;
      ScanContext(view.bytes, s.limits);
      CountingBound(view.bytes, scan.ctx, ResumePoint(s));
    }
  }

  // ------------------------------------------------------------------------ tailing

  /** What the file system shows at some moment; it may change between any two looks. */
  class Path {
    method Observe() returns (view: PathView) {
      view := *;
    }

    /** The bytes behind a handle opened earlier. */
    method Reread() returns (bytes: seq<byte>) {
      bytes := *;
    }
  }

  /**
   * One consumed block: which one, the bytes it was read from unless its file could not be
   * opened, the accounts before and after, and what came of it.
   */
  datatype Delivery = Delivery(
    index: nat, looked: Option<seq<byte>>, before: Account, after: Account, outcome: Result<Option<seq<Row>>>)

  /** The block was consumed exactly as a scan consumes one. */
  ghost predicate Entered(d: Delivery, ctx: Context, plan: ScanPlan, b: BlockMetadata)
    requires plan.Valid(ctx.schema)
  {
    var s := Source(d.looked, ctx, plan);
    Consumed(s, b, d.before, d.after, RowsMade(s, b, d.before), BytesMade(s, b, d.before), d.outcome)
  }

  /** Entry `k` is block `start + k`, and a file once opened stays open. */
  ghost predicate Logged(log: seq<Delivery>, start: nat, ctx: Context, plan: ScanPlan, blocks: seq<BlockMetadata>)
    requires plan.Valid(ctx.schema) && start + |log| <= |blocks|
  {
    && (forall k :: 0 <= k < |log| ==> log[k].index == start + k && Entered(log[k], ctx, plan, blocks[start + k]))
    && (forall j, k :: 0 <= j < k < |log| && log[j].looked.Some? ==> log[k].looked.Some?)
  }

  /** Only the bytes a refresh scans are counted between two blocks. */
  predicate SameFunds(a: Account, a': Account) {
    a' == a.(metrics := a.metrics.(bytesScanned := a'.metrics.bytesScanned))
  }

  /** One allowance runs through the whole log, from the first block to what is left now. */
  ghost predicate Funded(log: seq<Delivery>, first: Account, now: Account) {
    if log == [] then SameFunds(first, now)
    else
      var n := |log| - 1;
      Funded(log[..n], first, log[n].before) && SameFunds(log[n].after, now)
  }

  lemma FundsPass(log: seq<Delivery>, first: Account, now: Account, later: Account)
    requires Funded(log, first, now) && SameFunds(now, later)
    ensures Funded(log, first, later)
  {
  }

  lemma FundsMore(log: seq<Delivery>, d: Delivery, first: Account)
    requires Funded(log, first, d.before)
    ensures Funded(log + [d], first, d.after)
  {
    assert (log + [d])[..|log|] == log;
  }

  lemma EnteredBy(d: Delivery, ctx: Context, plan: ScanPlan, b: BlockMetadata, rowsMade: seq<nat>, bytesMade: seq<nat>)
    requires plan.Valid(ctx.schema)
    requires Consumed(Source(d.looked, ctx, plan), b, d.before, d.after, rowsMade, bytesMade, d.outcome)
    ensures Entered(d, ctx, plan, b)
  {
    hide Outcome, RowsMade, BytesMade, Scanning.Counted, Sum;
  }

  function Opened(log: seq<Delivery>): bool {
    log != [] && log[|log| - 1].looked.Some?
  }

  lemma LogMore(log: seq<Delivery>, d: Delivery, start: nat, ctx: Context, plan: ScanPlan, blocks: seq<BlockMetadata>)
    requires plan.Valid(ctx.schema) && start + |log| < |blocks| && Logged(log, start, ctx, plan, blocks)
    requires d.index == start + |log| && Entered(d, ctx, plan, blocks[d.index]) && (Opened(log) ==> d.looked.Some?)
    ensures Logged(log + [d], start, ctx, plan, blocks)
  {
    hide Entered;
  }

  lemma LogKept(log: seq<Delivery>, start: nat, ctx: Context, plan: ScanPlan, blocks: seq<BlockMetadata>, more: seq<BlockMetadata>)
    requires plan.Valid(ctx.schema) && start + |log| <= |blocks| <= |more| && more[..|blocks|] == blocks
    requires Logged(log, start, ctx, plan, blocks)
    ensures Logged(log, start, ctx, plan, more)
  {
    hide Entered;
    assert forall k :: 0 <= k < |blocks| ==> more[k] == more[..|blocks|][k];
  }

  class Tail {
    const path: Path
    const reader: LiveReader
    const plan: ScanPlan
    const budget: ScanBudget
    const start: nat
    var nextBlock: nat
    var isOpen: bool
    /** Every block this tail has consumed, in order. */
    ghost var log: seq<Delivery>

    ghost predicate Valid()
      reads this, reader, budget
    {
      && CountsBlocks(reader.View()) && plan.Valid(reader.schema) && budget.Valid()
      && start <= nextBlock <= |reader.blocks| && |log| == nextBlock - start
      && Logged(log, start, Ctx(), plan, reader.blocks) && isOpen == Opened(log)
      && Funded(log, First(), AccountOf(budget))
    }

    function Ctx(): Context
      reads this, reader
    {
      Context(reader.metadata.prologue, reader.schema, reader.limits)
    }

    function First(): Account {
      Account(reader.limits.maxRowsPerScan, reader.limits.maxDecodedScanBytes, Metrics(0, 0, 0, 0))
    }

    /** Start after the blocks the snapshot already holds. */
    constructor (path: Path, reader: LiveReader, plan: ScanPlan)
      requires CountsBlocks(reader.View()) && plan.Valid(reader.schema)
      ensures Valid() && this.path == path && this.reader == reader && this.plan == plan
      ensures start == nextBlock == |reader.blocks| && log == [] && fresh(budget)
    {
      this.path, this.reader, this.plan, isOpen := path, reader, plan, false;
      start, nextBlock := |reader.blocks|, |reader.blocks|;
      budget := new ScanBudget(reader.limits.maxRowsPerScan, reader.limits.maxDecodedScanBytes);
      log := [];
    }

    /**
     * Consume exactly the next block, whatever comes of it.  Its entry is what a scan of the
     * bytes seen makes of it, error or not, with what is left of the tail's allowances.
     */
    method DecodeNext() returns (r: Result<Option<seq<Row>>>)
      requires Valid() && nextBlock < |reader.blocks|
      modifies this`nextBlock, this`isOpen, this`log, budget
      ensures Valid() && |log| == |old(log)| + 1 && log[..|old(log)|] == old(log) && log[|old(log)|].outcome == r
      ensures log[|old(log)|].before == old(AccountOf(budget)) && log[|old(log)|].after == AccountOf(budget)
    {
      hide ScanBlock, Consumed, Entered, Logged, Funded, Reader.Refresh, RowsMade, BytesMade;
      var index := nextBlock;
      nextBlock := nextBlock + 1;
      var b := reader.blocks[index];
      var looked: Option<seq<byte>> := if isOpen then Some([]) else None;
      if !plan.Prunes(b.bounds) && budget.metrics.blocksConsidered + 1 < U64 {
        if isOpen {
          var bytes := path.Reread();
          looked := Some(bytes);
        } else {
          var view := path.Observe();
          looked := if view.Missing? then None else Some(view.bytes);
        }
      }
      ghost var before := AccountOf(budget);
      ghost var rowsMade, bytesMade;
      r, rowsMade, bytesMade := Consume(Source(looked, Ctx(), plan), b, budget);
      ghost var d := Delivery(index, looked, before, AccountOf(budget), r);
      EnteredBy(d, Ctx(), plan, b, rowsMade, bytesMade);
      FundsMore(log, d, First());
      LogMore(log, d, start, Ctx(), plan, reader.blocks);
      assert (log + [d])[..|log|] == log;
      log := log + [d];
      isOpen := looked.Some?;
    }

    /** The entries since `before` all yielded nothing. */
    ghost predicate Quiet(before: nat, after: nat)
      reads this
    {
      before <= after <= |log| && forall k :: before <= k < after ==> log[k].outcome == Ok(None)
    }

    /** The newest entry is what the poll returns, and those before it yielded nothing. */
    ghost predicate Delivers(before: nat, r: Result<Option<seq<Row>>>)
      reads this
    {
      before < |log| && r != Ok(None) && log[|log| - 1].outcome == r && Quiet(before, |log| - 1)
    }

    /**
     * Every block of `held` is consumed and yielded nothing since `before`; then a refresh of
     * `held` against `view` failed and changed nothing, or added no block, or read more bytes
     * than can be counted.
     */
    ghost predicate Rests(before: nat, held: Snapshot, view: PathView, r: Result<Option<seq<Row>>>)
      reads this, reader, budget
    {
      && Quiet(before, |log|) && nextBlock == |held.blocks|
      && match Reader.Refresh(held, view)
         case Err(kind) => r == Err(kind) && reader.View() == held
         case Ok((newer, report)) =>
           && reader.View() == newer
           && (|| (r == Ok(None) && report.blocksAdded == 0)
               || (r == Err(ResourceLimit) && budget.metrics.bytesScanned + report.frameBytesScanned >= U64))
    }

    /**
     * Deliver the next newly committed matching block.  Blocks are consumed one by one in
     * order, each exactly once, whatever happened to the file between polls; those passed
     * over yielded nothing.  The poll returns the newest consumed block's rows or error, and
     * nothing it consumed is lost; or it has consumed every block and returns what the last
     * refresh came to.  Each poll ends because every further round adds at least one block and
     * a snapshot holds no more than the block limit.
     */
    method PollNext() returns (r: Result<Option<seq<Row>>>, ghost held: Snapshot, ghost view: PathView)
      requires Valid()
      modifies this`nextBlock, this`isOpen, this`log, budget, reader
      ensures Valid() && |old(log)| <= |log| && log[..|old(log)|] == old(log)
      ensures Delivers(|old(log)|, r) || Rests(|old(log)|, held, view, r)
      ensures |old(reader.blocks)| <= |reader.blocks| && reader.blocks[..|old(reader.blocks)|] == old(reader.blocks)
      ensures r == Ok(None) ==> nextBlock == |reader.blocks|
    {
      hide ScanBlock, Reader.Refresh, Logged, Funded;
      held, view := reader.View(), Missing;
      var polling := true;
      while polling
        invariant Valid() && |old(log)| <= |log| && log[..|old(log)|] == old(log)
        invariant Quiet(|old(log)|, |log|)
        invariant |old(reader.blocks)| <= |reader.blocks| && reader.blocks[..|old(reader.blocks)|] == old(reader.blocks)
        invariant !polling ==> nextBlock == |reader.blocks| && Rests(|old(log)|, held, view, Ok(None))
        decreases Unfilled(reader.limits.maxBlocks, |reader.blocks|), polling
      {
        ghost var before := log;
        r := Drain();
        assert forall k :: 0 <= k < |before| ==> log[k] == before[k];
        if r != Ok(None) {
          return;
        }
        var added: Result<nat>;
        added, held, view := Advance();
        if added.Err? {
          return Err(added.kind), held, view;
        }
        polling := added.value != 0;
      }
      r := Ok(None);
    }

    /** Refresh the reader against what the path shows now. */
    method Advance() returns (r: Result<nat>, ghost held: Snapshot, ghost view: PathView)
      requires Valid()
      modifies reader, budget
      ensures Valid() && held == old(reader.View())
      ensures |held.blocks| <= |reader.blocks| && reader.blocks[..|held.blocks|] == held.blocks
      ensures
        match Reader.Refresh(held, view)
        case Err(kind) => r == Err(kind) && reader.View() == held
        case Ok((newer, report)) =>
          && reader.View() == newer && |newer.blocks| == |held.blocks| + report.blocksAdded
          && (report.blocksAdded > 0 ==> |newer.blocks| <= reader.limits.maxBlocks)
          && (r == Ok(report.blocksAdded)
              || (r == Err(ResourceLimit) && budget.metrics.bytesScanned + report.frameBytesScanned >= U64))
    {
      hide ScanBlock, Reader.Refresh, Logged, Funded;
      held := reader.View();
      var seen := path.Observe();
      view := seen;
      if Reader.Refresh(held, view).Ok? {
        RefreshGrows(held, view);
      }
      ghost var before := AccountOf(budget);
      var report := reader.Refresh(seen);
      LogKept(log, start, Ctx(), plan, held.blocks, reader.blocks);
      if report.Err? {
        return Err(report.kind), held, view;
      }
      var counted := budget.RecordBytesScanned(report.value.frameBytesScanned);
      FundsPass(log, First(), before, AccountOf(budget));
      r := if counted.Err? then Err(ResourceLimit) else Ok(report.value.blocksAdded);
    }

    /** Consume undispatched blocks until one yields something or fails. */
    method Drain() returns (r: Result<Option<seq<Row>>>)
      requires Valid()
      modifies this`nextBlock, this`isOpen, this`log, budget
      ensures Valid() && |old(log)| <= |log| && log[..|old(log)|] == old(log)
      ensures r == Ok(None) ==> nextBlock == |reader.blocks| && Quiet(|old(log)|, |log|)
      ensures r != Ok(None) ==> Delivers(|old(log)|, r)
    {
      hide ScanBlock, Reader.Refresh, Logged, Funded;
      while nextBlock < |reader.blocks|
        invariant Valid() && |old(log)| <= |log| && log[..|old(log)|] == old(log)
        invariant Quiet(|old(log)|, |log|)
        decreases |reader.blocks| - nextBlock
      {
        ghost var before := log;
        r := DecodeNext();
        assert forall k :: 0 <= k < |before| ==> log[k] == before[k];
        if r != Ok(None) {
          return;
        }
      }
      r := Ok(None);
    }
  }

  // ------------------------------------------------------------- tails against scans

  /** The look that consumed a block saw the committed bytes up to `end`, or did not need to. */
  ghost predicate SawThrough(d: Delivery, plan: ScanPlan, b: BlockMetadata, file: seq<byte>, end: nat) {
    || plan.Prunes(b.bounds)
    || (d.looked.Some? && end <= |d.looked.value| && end <= |file| && d.looked.value[..end] == file[..end])
  }

  /** The same, of a block that ends by `end` in that file. */
  ghost predicate SawBlock(d: Delivery, ctx: Context, plan: ScanPlan, b: BlockMetadata, file: seq<byte>, end: nat) {
    Framed(file, ctx, b) && b.fileOffset + b.totalLength <= end && SawThrough(d, plan, b, file, end)
  }

  /** What a block yields and owes depends only on the bytes up to its end. */
  lemma BlockIsLocal(f: seq<byte>, g: seq<byte>, ctx: Context, plan: ScanPlan, b: BlockMetadata, end: nat)
    requires plan.Valid(ctx.schema) && Framed(f, ctx, b)
    requires b.fileOffset + b.totalLength <= end <= |f| && end <= |g| && f[..end] == g[..end]
    ensures
      var s, t := Source(Some(f), ctx, plan), Source(Some(g), ctx, plan);
      Item(t, b) == Item(s, b) && RowsDue(t, b) == RowsDue(s, b) && BytesDue(t, b) == BytesDue(s, b)
  {
    hide BlockAt, Blocks.DecodeSelected, BlockCharges, Framed, FilterBatch;
    BlockAtIsLocal(f, g, ctx, b, end);
  }

  /**
   * What a tail delivers is what a scan with the same plan yields, errors included: as long as
   * the look that consumed a block saw its committed bytes, the outcome is a scan's, with the
   * account the tail had left, in any file that keeps those bytes.
   */
  lemma TailIsScan(
      log: seq<Delivery>, start: nat, ctx: Context, plan: ScanPlan, blocks: seq<BlockMetadata>, file: seq<byte>, k: nat, end: nat)
    requires plan.Valid(ctx.schema) && start + |log| <= |blocks| && Logged(log, start, ctx, plan, blocks)
    requires k < |log| && SawBlock(log[k], ctx, plan, blocks[start + k], file, end)
    ensures log[k].index == start + k
    ensures log[k].outcome == Outcome(Source(Some(file), ctx, plan), blocks[start + k], log[k].before)
  {
    hide ScanBlock, Framed, Item, RowsDue, BytesDue, RowsMade, BytesMade, Counted, Sum;
    var b, s := blocks[start + k], Source(Some(file), ctx, plan);
    var t := Source(log[k].looked, ctx, plan);
    WhatConsumed(t, b, log[k].before, log[k].after, RowsMade(t, b, log[k].before), BytesMade(t, b, log[k].before), log[k].outcome);
    if plan.Prunes(b.bounds) {
      Unread(s, b);
      Unread(t, b);
    } else {
      BlockIsLocal(file, log[k].looked.value, ctx, plan, b, end);
    }
  }

  /** Every row a log delivered, in order. */
  function Delivered(log: seq<Delivery>): seq<Row> {
    if log == [] then []
    else
      var last := log[|log| - 1].outcome;
      Delivered(log[..|log| - 1]) + if last.Ok? then Yielded(last.value) else []
  }

  lemma OneLonger(blocks: seq<BlockMetadata>, start: nat, n: nat)
    requires start + n < |blocks|
    ensures blocks[start..start + n] + [blocks[start + n]] == blocks[start..start + n + 1]
  {
  }

  lemma RowsOfNone(s: Source)
    requires s.Valid()
    ensures RowsOf(s, []) == Ok([])
  {
  }

  lemma OutcomeIsItem(s: Source, b: BlockMetadata, a: Account)
    requires s.Valid() && Outcome(s, b, a).Ok?
    ensures Item(s, b) == Outcome(s, b, a)
  {
  }

  /** A tail that met no error has delivered exactly the scan of the blocks it consumed: none lost, none twice. */
  lemma {:induction false} TailRowsAreScanRows(
      log: seq<Delivery>, start: nat, ctx: Context, plan: ScanPlan, blocks: seq<BlockMetadata>, file: seq<byte>, ends: seq<nat>)
    requires plan.Valid(ctx.schema) && start + |log| <= |blocks| && Logged(log, start, ctx, plan, blocks) && |ends| == |log|
    requires forall k :: 0 <= k < |log| ==> log[k].outcome.Ok? && SawBlock(log[k], ctx, plan, blocks[start + k], file, ends[k])
    ensures ScanRows(Some(file), ctx, plan, blocks[start..start + |log|]) == Ok(Delivered(log))
    decreases |log|
  {
    hide ScanBlock, ScanRows, Entered, SawBlock, Outcome, Item;
    var s := Source(Some(file), ctx, plan);
    if log == [] {
      assert blocks[start..start] == [];
      RowsOfNone(s);
    } else {
      var n := |log| - 1;
      TailRowsAreScanRows(log[..n], start, ctx, plan, blocks, file, ends[..n]);
      TailIsScan(log, start, ctx, plan, blocks, file, n, ends[n]);
      OutcomeIsItem(s, blocks[start + n], log[n].before);
      OneLonger(blocks, start, n);
      RowsGrow(s, blocks[start..start + n], blocks[start + n]);
    }
  }

  /** Blocks a snapshot may still gain. */
  function Unfilled(limit: nat, held: nat): nat {
    if held <= limit then limit - held + 1 else 0
  }
}
