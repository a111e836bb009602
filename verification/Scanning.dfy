/** The lazy scan iterator and the allowances it spends, block by block. */
module Scanning {
  import opened Core
  import opened Bytes
  import opened Limits
  import opened Schema
  import opened Rows
  import opened DataFrame
  import opened Walk
  import opened Layouts
  import opened Blocks
  import opened Contents
  import opened Charges
  import opened Budgets
  import opened Decoder
  import opened Scans

  /** What a scan may still spend, and what it has counted. */
  datatype Account = Account(rows: nat, bytes: nat, metrics: Metrics)

  /** Where blocks are read from, and what is asked of them. */
  datatype Source = Source(file: Option<seq<byte>>, ctx: Context, plan: ScanPlan) {
    predicate Valid() {
      plan.Valid(ctx.schema)
    }
  }

  /** What a block yields with every allowance at hand. */
  function Item(s: Source, b: BlockMetadata): Result<Option<seq<Row>>>
    requires s.Valid()
  {
    ScanBlock(s.file, s.ctx, s.plan, b)
  }

  /** The rows a block is charged for: its declared row count, unless it is pruned or never reached. */
  function RowsDue(s: Source, b: BlockMetadata): seq<nat> {
    if s.plan.Prunes(b.bounds) || s.file.None? then [] else [b.rowCount]
  }

  /** The decoded bytes it is charged for. */
  function BytesDue(s: Source, b: BlockMetadata): seq<nat>
    requires s.Valid()
  {
    if s.plan.Prunes(b.bounds) || s.file.None? then []
    else
      match BlockAt(s.file.value, s.ctx, b.fileOffset, b.sequence)
      case Err(_) => []
      case Ok(block) =>
        BlockCharges(block, s.ctx.schema, s.ctx.prologue.RowIds(), b.baseRowId, s.ctx.limits, s.plan.projection, s.plan.Primary(s.ctx.schema))
  }

  predicate Counts(s: Source, b: BlockMetadata, a: Account) {
    a.metrics.blocksConsidered + 1 < U64 && (s.plan.Prunes(b.bounds) ==> a.metrics.blocksPruned + 1 < U64)
  }

  /** No allowance and no counter stands in the way of this block. */
  predicate Affords(s: Source, b: BlockMetadata, a: Account)
    requires s.Valid()
  {
    && Counts(s, b, a)
    && Sum(RowsDue(s, b)) <= a.rows && Sum(BytesDue(s, b)) <= a.bytes
    && (Item(s, b).Ok? && Item(s, b).value.Some? ==> a.metrics.rowsReturned + |Item(s, b).value.value| < U64)
  }

  /** What a scan yields for the block: its own item, or a refusal to pay. */
  function Outcome(s: Source, b: BlockMetadata, a: Account): Result<Option<seq<Row>>>
    requires s.Valid()
  {
    if Affords(s, b, a) then Item(s, b) else Err(ResourceLimit)
  }

  function RowsMade(s: Source, b: BlockMetadata, a: Account): seq<nat> {
    if Counts(s, b, a) then Made(RowsDue(s, b), a.rows) else []
  }

  function BytesMade(s: Source, b: BlockMetadata, a: Account): seq<nat>
    requires s.Valid()
  {
    if Counts(s, b, a) && Sum(RowsDue(s, b)) <= a.rows then Made(BytesDue(s, b), RoomFor(s.ctx.limits, a.bytes)) else []
  }

  /** The counters after the block. */
  function Counted(s: Source, b: BlockMetadata, a: Account): Metrics
    requires s.Valid()
  {
    var outcome := Outcome(s, b, a);
    Metrics(
      a.metrics.blocksConsidered + (if a.metrics.blocksConsidered + 1 < U64 then 1 else 0),
      a.metrics.blocksPruned + (if Counts(s, b, a) && s.plan.Prunes(b.bounds) then 1 else 0),
      a.metrics.bytesScanned,
      a.metrics.rowsReturned + (if outcome.Ok? then |Yielded(outcome.value)| else 0))
  }

  /** The block was consumed from `a`, leaving `a'` and the charges it made. */
  ghost predicate Consumed(
      s: Source, b: BlockMetadata, a: Account, a': Account, rowsMade: seq<nat>, bytesMade: seq<nat>, r: Result<Option<seq<Row>>>)
    requires s.Valid()
  {
    && r == Outcome(s, b, a) && rowsMade == RowsMade(s, b, a) && bytesMade == BytesMade(s, b, a) && a'.metrics == Counted(s, b, a)
    && a'.rows + Sum(rowsMade) == a.rows && a'.bytes + Sum(bytesMade) == a.bytes
  }

  function AccountOf(budget: ScanBudget): Account
    reads budget
  {
    Account(budget.remainingRows, budget.remainingBytes, budget.metrics)
  }

  /** Read, decode and filter a block whose rows are already paid for. */
  method Read(s: Source, b: BlockMetadata, budget: ScanBudget) returns (r: Result<Option<seq<Row>>>)
    requires s.Valid() && budget.Valid() && !s.plan.Prunes(b.bounds) && s.file.Some?
    modifies budget`remainingBytes, budget`byteCharges
    ensures budget.Valid()
    ensures budget.byteCharges == old(budget.byteCharges) + Made(BytesDue(s, b), RoomFor(s.ctx.limits, old(budget.remainingBytes)))
    ensures r == if Sum(BytesDue(s, b)) <= old(budget.remainingBytes) then Item(s, b) else Err(ResourceLimit)
  {
    hide BlockAt, DecodeSelected, FilterBatch, BlockCharges, Sum, Made, PrimaryIndex;
    var block := BlockAt(s.file.value, s.ctx, b.fileOffset, b.sequence);
    if block.Err? {
      NothingDue(RoomFor(s.ctx.limits, budget.remainingBytes));
      assert budget.byteCharges + [] == budget.byteCharges;
      return Err(block.kind);
    }
    var decoded := DecodeForScan(
      block.value, s.ctx.schema, s.ctx.prologue.RowIds(), b.baseRowId, s.ctx.limits, s.plan.projection,
      s.plan.Primary(s.ctx.schema), budget);
    if decoded.Err? {
      return Err(decoded.kind);
    }
    match s.plan.range {
      case None => r := Ok(Some(decoded.value.rows));
      case Some(range) =>
        if decoded.value.primary.None? || |decoded.value.primary.value| != |decoded.value.rows| {
          r := Err(Internal);
        } else {
          r := Ok(FilterBatch(decoded.value.sorted, decoded.value.rows, decoded.value.primary.value, range));
        }
    }
  }

  lemma NothingDue(room: nat)
    ensures Made([], room) == [] && Sum([]) == 0
  {
  }

  /** A block that is pruned or cannot be opened owes nothing. */
  lemma Unread(s: Source, b: BlockMetadata)
    requires s.Valid() && (s.plan.Prunes(b.bounds) || s.file.None?)
    ensures RowsDue(s, b) == [] && BytesDue(s, b) == []
    ensures Item(s, b) == if s.plan.Prunes(b.bounds) then Ok(None) else Err(Io)
  {
  }

  /** Count, charge, read, decode and filter one block. */
  method Consume(s: Source, b: BlockMetadata, budget: ScanBudget)
      returns (r: Result<Option<seq<Row>>>, ghost rowsMade: seq<nat>, ghost bytesMade: seq<nat>)
    requires s.Valid() && budget.Valid()
    modifies budget
    ensures budget.Valid()
    ensures budget.rowCharges == old(budget.rowCharges) + rowsMade && budget.byteCharges == old(budget.byteCharges) + bytesMade
    ensures Consumed(s, b, old(AccountOf(budget)), AccountOf(budget), rowsMade, bytesMade, r)
  {
    hide BlockAt, ScanBlock, BlockCharges, Sum, Made, FilterBatch, PrimaryIndex;
    ghost var a := AccountOf(budget);
    rowsMade, bytesMade := RowsMade(s, b, a), BytesMade(s, b, a);
    NothingDue(a.rows);
    NothingDue(RoomFor(s.ctx.limits, a.bytes));
    OneDue(b.rowCount, a.rows);
    var pruned := s.plan.Prunes(b.bounds);
    if pruned || s.file.None? {
      Unread(s, b);
    }
    var recorded := budget.RecordBlock(pruned);
    if recorded.Err? {
      return Err(ResourceLimit), rowsMade, bytesMade;
    }
    if pruned {
      return Ok(None), rowsMade, bytesMade;
    }
    if s.file.None? {
      return Err(Io), rowsMade, bytesMade;
    }
    var charged := budget.ChargeRows(b.rowCount);
    if charged.Err? {
      return Err(ResourceLimit), rowsMade, bytesMade;
    }
    r := Read(s, b, budget);
    SumConcat(old(budget.byteCharges), bytesMade);
    SumConcat(old(budget.rowCharges), rowsMade);
    if r.Ok? && r.value.Some? {
      var counted := budget.RecordRows(|r.value.value|);
      if counted.Err? {
        r := Err(ResourceLimit);
      }
    }
  }

  // --------------------------------------------------------------- runs of blocks

  function AllRowsDue(s: Source, blocks: seq<BlockMetadata>): seq<nat> {
    if blocks == [] then [] else AllRowsDue(s, blocks[..|blocks| - 1]) + RowsDue(s, blocks[|blocks| - 1])
  }

  function AllBytesDue(s: Source, blocks: seq<BlockMetadata>): seq<nat>
    requires s.Valid()
  {
    if blocks == [] then [] else AllBytesDue(s, blocks[..|blocks| - 1]) + BytesDue(s, blocks[|blocks| - 1])
  }

  function PrunedAmong(s: Source, blocks: seq<BlockMetadata>): nat {
    if blocks == [] then 0
    else PrunedAmong(s, blocks[..|blocks| - 1]) + if s.plan.Prunes(blocks[|blocks| - 1].bounds) then 1 else 0
  }

  function RowsIn(item: Result<Option<seq<Row>>>): nat {
    if item.Ok? then |Yielded(item.value)| else 0
  }

  function RowsAmong(s: Source, blocks: seq<BlockMetadata>): nat
    requires s.Valid()
  {
    if blocks == [] then 0 else RowsAmong(s, blocks[..|blocks| - 1]) + RowsIn(Item(s, blocks[|blocks| - 1]))
  }

  /** What a run of blocks comes to. */
  datatype Bill = Bill(rows: nat, bytes: nat, considered: nat, pruned: nat, returned: nat) {
    function Plus(other: Bill): Bill {
      Bill(rows + other.rows, bytes + other.bytes, considered + other.considered, pruned + other.pruned, returned + other.returned)
    }

    /** Whether an account can meet it. */
    predicate Within(a: Account) {
      && rows <= a.rows && bytes <= a.bytes
      && a.metrics.blocksConsidered + considered < U64 && a.metrics.blocksPruned + pruned < U64
      && a.metrics.rowsReturned + returned < U64
    }
  }

  function BillOf(s: Source, blocks: seq<BlockMetadata>): Bill
    requires s.Valid()
  {
    Bill(Sum(AllRowsDue(s, blocks)), Sum(AllBytesDue(s, blocks)), |blocks|, PrunedAmong(s, blocks), RowsAmong(s, blocks))
  }

  function BillFor(s: Source, b: BlockMetadata): Bill
    requires s.Valid()
  {
    Bill(Sum(RowsDue(s, b)), Sum(BytesDue(s, b)), 1, if s.plan.Prunes(b.bounds) then 1 else 0, RowsIn(Item(s, b)))
  }

  /** Every block of a run gave its item and was paid for in full. */
  ghost predicate Passed(s: Source, blocks: seq<BlockMetadata>, a: Account, a': Account)
    requires s.Valid()
  {
    var bill := BillOf(s, blocks);
    && (forall i :: 0 <= i < |blocks| ==> Item(s, blocks[i]).Ok?)
    && a'.rows + bill.rows == a.rows && a'.bytes + bill.bytes == a.bytes
    && a'.metrics == Metrics(
         a.metrics.blocksConsidered + bill.considered, a.metrics.blocksPruned + bill.pruned, a.metrics.bytesScanned,
         a.metrics.rowsReturned + bill.returned)
  }

  /** A decode that succeeded stayed within the block's own allowance too. */
  lemma ItemIsAffordable(s: Source, b: BlockMetadata)
    requires s.Valid() && Item(s, b).Ok?
    ensures Sum(BytesDue(s, b)) <= s.ctx.limits.maxDecodedBlockBytes
  {
    hide BlockAt, DecodableLayout, FilterBatch, SelectedCharges, Rebuild, Sum, PrimaryIndex;
    NothingDue(0);
  }

  /** An account affords a block exactly when it can meet its bill. */
  lemma AffordsExactly(s: Source, b: BlockMetadata, a: Account)
    requires s.Valid() && a.metrics.Fits()
    ensures Affords(s, b, a) <==> BillFor(s, b).Within(a)
  {
    hide ScanBlock, BlockCharges, Sum;
  }

  /** A block that gives its item pays exactly what it owes. */
  lemma PaidInFull(s: Source, b: BlockMetadata, a: Account)
    requires s.Valid() && Outcome(s, b, a).Ok?
    ensures RowsMade(s, b, a) == RowsDue(s, b) && BytesMade(s, b, a) == BytesDue(s, b)
  {
    hide ScanBlock, BlockCharges, Sum, Made, PrimaryIndex;
    ItemIsAffordable(s, b);
    MadeAll(RowsDue(s, b), a.rows);
    MadeAll(BytesDue(s, b), RoomFor(s.ctx.limits, a.bytes));
  }

  lemma BillGrows(s: Source, blocks: seq<BlockMetadata>, b: BlockMetadata)
    requires s.Valid()
    ensures BillOf(s, blocks + [b]) == BillOf(s, blocks).Plus(BillFor(s, b))
    ensures AllRowsDue(s, blocks + [b]) == AllRowsDue(s, blocks) + RowsDue(s, b)
    ensures AllBytesDue(s, blocks + [b]) == AllBytesDue(s, blocks) + BytesDue(s, b)
  {
    hide Sum, Item, BytesDue, RowsDue;
    assert (blocks + [b])[..|blocks|] == blocks;
    SumConcat(AllRowsDue(s, blocks), RowsDue(s, b));
    SumConcat(AllBytesDue(s, blocks), BytesDue(s, b));
  }

  lemma NothingBilled(s: Source)
    requires s.Valid()
    ensures BillOf(s, []) == Bill(0, 0, 0, 0, 0) && AllRowsDue(s, []) == [] && AllBytesDue(s, []) == []
  {
    NothingDue(0);
  }

  /** What a run of blocks owes: to each allowance, and altogether. */
  ghost predicate Adds(s: Source, whole: seq<BlockMetadata>, first: seq<BlockMetadata>, second: seq<BlockMetadata>)
    requires s.Valid()
  {
    && BillOf(s, whole) == BillOf(s, first).Plus(BillOf(s, second))
    && AllRowsDue(s, whole) == AllRowsDue(s, first) + AllRowsDue(s, second)
    && AllBytesDue(s, whole) == AllBytesDue(s, first) + AllBytesDue(s, second)
  }

  lemma AddsNothing(s: Source, blocks: seq<BlockMetadata>)
    requires s.Valid()
    ensures Adds(s, blocks, blocks, [])
  {
    hide BillOf, AllRowsDue, AllBytesDue;
    NothingBilled(s);
    assert AllRowsDue(s, blocks) + [] == AllRowsDue(s, blocks) && AllBytesDue(s, blocks) + [] == AllBytesDue(s, blocks);
  }

  lemma AddsOne(s: Source, whole: seq<BlockMetadata>, first: seq<BlockMetadata>, second: seq<BlockMetadata>, b: BlockMetadata)
    requires s.Valid() && Adds(s, whole, first, second)
    ensures Adds(s, whole + [b], first, second + [b])
  {
    hide BillOf, BillFor, AllRowsDue, AllBytesDue, RowsDue, BytesDue;
    BillGrows(s, whole, b);
    BillGrows(s, second, b);
  }

  /** What a run of blocks owes is the sum of what its parts owe. */
  lemma {:induction false} BillConcat(s: Source, first: seq<BlockMetadata>, second: seq<BlockMetadata>)
    requires s.Valid()
    ensures Adds(s, first + second, first, second)
    decreases |second|
  {
    hide Adds;
    if second == [] {
      assert first + second == first;
      AddsNothing(s, first);
    } else {
      var n := |second| - 1;
      BillConcat(s, first, second[..n]);
      AddsOne(s, first + second[..n], first, second[..n], second[n]);
      assert second[..n] + [second[n]] == second && first + second[..n] + [second[n]] == first + second;
    }
  }

  lemma PassedNothing(s: Source, a: Account)
    requires s.Valid()
    ensures Passed(s, [], a, a)
  {
  }

  lemma PassedMore(
      s: Source, blocks: seq<BlockMetadata>, b: BlockMetadata, a: Account, at: Account, a': Account, rowsMade: seq<nat>,
      bytesMade: seq<nat>, r: Result<Option<seq<Row>>>)
    requires s.Valid() && Passed(s, blocks, a, at) && Consumed(s, b, at, a', rowsMade, bytesMade, r) && r.Ok?
    requires a.metrics.Fits() && at.metrics.Fits()
    ensures Passed(s, blocks + [b], a, a') && Item(s, b) == r
    ensures rowsMade == RowsDue(s, b) && bytesMade == BytesDue(s, b)
  {
    hide Sum, ScanBlock, BytesDue, RowsDue, AllRowsDue, AllBytesDue, PrunedAmong, RowsAmong;
    PaidInFull(s, b, at);
    BillGrows(s, blocks, b);
  }

  lemma PassedConcat(s: Source, first: seq<BlockMetadata>, second: seq<BlockMetadata>, a: Account, at: Account, a': Account)
    requires s.Valid() && Passed(s, first, a, at) && Passed(s, second, at, a')
    ensures Passed(s, first + second, a, a')
  {
    hide Sum, ScanBlock, AllRowsDue, AllBytesDue, PrunedAmong, RowsAmong;
    BillConcat(s, first, second);
  }

  // ------------------------------------------------------------------ the iterator

  /** A lazy scan over the committed blocks of a snapshot. */
  class Scan {
    const source: Source
    const blocks: seq<BlockMetadata>
    const budget: ScanBudget
    var nextIndex: nat

    ghost predicate Valid()
      reads this, budget
    {
      source.Valid() && nextIndex <= |blocks| && budget.Valid()
    }

    constructor (source: Source, blocks: seq<BlockMetadata>)
      requires source.Valid()
      ensures Valid() && nextIndex == 0 && fresh(budget) && this.source == source && this.blocks == blocks
      ensures AccountOf(budget)
           == Account(source.ctx.limits.maxRowsPerScan, source.ctx.limits.maxDecodedScanBytes, Metrics(0, 0, 0, 0))
      ensures budget.rowCharges == [] && budget.byteCharges == []
    {
      this.source, this.blocks, nextIndex := source, blocks, 0;
      budget := new ScanBudget(source.ctx.limits.maxRowsPerScan, source.ctx.limits.maxDecodedScanBytes);
    }

    /**
     * The next item.  Every block is consumed once, in order.  The blocks passed over yield
     * nothing and are paid for in full; the last one consumed yields the item, or its own
     * error, or a refusal exactly when the account it meets cannot afford it.
     */
    method Next() returns (r: Option<Result<seq<Row>>>, ghost quiet: seq<BlockMetadata>, ghost at: Account)
      requires Valid()
      modifies this`nextIndex, budget
      ensures Valid() && old(nextIndex) <= nextIndex && (r.Some? ==> old(nextIndex) < nextIndex)
      ensures quiet == blocks[old(nextIndex)..if r.None? then nextIndex else nextIndex - 1]
      ensures Passed(source, quiet, old(AccountOf(budget)), at) && at.metrics.Fits()
      ensures forall i :: 0 <= i < |quiet| ==> Item(source, quiet[i]) == Ok(None)
      ensures r.None? ==>
                && nextIndex == |blocks| && at == AccountOf(budget)
                && budget.rowCharges == old(budget.rowCharges) + AllRowsDue(source, quiet)
                && budget.byteCharges == old(budget.byteCharges) + AllBytesDue(source, quiet)
      ensures r.Some? ==>
                var b := blocks[nextIndex - 1];
                && (r.value == Err(ResourceLimit) <==> !Affords(source, b, at) || Item(source, b) == Err(ResourceLimit))
                && Consumed(source, b, at, AccountOf(budget), RowsMade(source, b, at), BytesMade(source, b, at), ItemOf(r.value))
                && budget.rowCharges == old(budget.rowCharges) + AllRowsDue(source, quiet) + RowsMade(source, b, at)
                && budget.byteCharges == old(budget.byteCharges) + AllBytesDue(source, quiet) + BytesMade(source, b, at)
    {
      hide ScanBlock, Consumed, Passed, Item, RowsDue, BytesDue, Sum, BillOf, AllRowsDue, AllBytesDue, RowsMade, BytesMade, Outcome;
      quiet, at := [], AccountOf(budget);
      NothingBilled(source);
      PassedNothing(source, at);
      assert budget.rowCharges + [] == budget.rowCharges && budget.byteCharges + [] == budget.byteCharges;
      while nextIndex < |blocks|
        invariant Valid() && old(nextIndex) <= nextIndex && quiet == blocks[old(nextIndex)..nextIndex]
        invariant at == AccountOf(budget) && Passed(source, quiet, old(AccountOf(budget)), at)
        invariant forall i :: 0 <= i < |quiet| ==> Item(source, quiet[i]) == Ok(None)
        invariant budget.rowCharges == old(budget.rowCharges) + AllRowsDue(source, quiet)
        invariant budget.byteCharges == old(budget.byteCharges) + AllBytesDue(source, quiet)
        decreases |blocks| - nextIndex
      {
        var b := blocks[nextIndex];
        nextIndex := nextIndex + 1;
        var item, rowsMade, bytesMade := Consume(source, b, budget);
        WhatConsumed(source, b, at, AccountOf(budget), rowsMade, bytesMade, item);
        if item.Err? {
          return Some(Err(item.kind)), quiet, at;
        }
        if item.value.Some? {
          return Some(Ok(item.value.value)), quiet, at;
        }
        PassedMore(source, quiet, b, old(AccountOf(budget)), at, AccountOf(budget), rowsMade, bytesMade, item);
        BillGrows(source, quiet, b);
        quiet, at := quiet + [b], AccountOf(budget);
      }
      r := None;
    }
  }

  function ItemOf(r: Result<seq<Row>>): Result<Option<seq<Row>>> {
    match r case Ok(rows) => Ok(Some(rows)) case Err(kind) => Err(kind)
  }

  lemma WhatConsumed(
      s: Source, b: BlockMetadata, a: Account, a': Account, rowsMade: seq<nat>, bytesMade: seq<nat>, r: Result<Option<seq<Row>>>)
    requires s.Valid() && Consumed(s, b, a, a', rowsMade, bytesMade, r)
    ensures rowsMade == RowsMade(s, b, a) && bytesMade == BytesMade(s, b, a) && r == Outcome(s, b, a)
    ensures r == Err(ResourceLimit) <==> !Affords(s, b, a) || Item(s, b) == Err(ResourceLimit)
  {
    hide ScanBlock;
  }

  // ------------------------------------------------------------------ whole scans

  function RowsOf(s: Source, blocks: seq<BlockMetadata>): Result<seq<Row>>
    requires s.Valid()
  {
    ScanRows(s.file, s.ctx, s.plan, blocks)
  }

  lemma RowsGrow(s: Source, blocks: seq<BlockMetadata>, b: BlockMetadata)
    requires s.Valid()
    ensures
      var before := RowsOf(s, blocks);
      RowsOf(s, blocks + [b])
      == if before.Err? then before
         else match Item(s, b) case Ok(item) => Ok(before.value + Yielded(item)) case Err(kind) => Err(kind)
  {
    hide ScanBlock;
    assert (blocks + [b])[..|blocks|] == blocks;
  }

  /** Blocks that yield nothing leave a scan's rows as they were. */
  lemma {:induction false} QuietRows(s: Source, blocks: seq<BlockMetadata>, quiet: seq<BlockMetadata>)
    requires s.Valid() && RowsOf(s, blocks).Ok?
    requires forall i :: 0 <= i < |quiet| ==> Item(s, quiet[i]) == Ok(None)
    ensures RowsOf(s, blocks + quiet) == RowsOf(s, blocks)
    decreases |quiet|
  {
    hide Item, ScanBlock, ScanRows, RowsOf;
    if quiet == [] {
      assert blocks + quiet == blocks;
    } else {
      var n := |quiet| - 1;
      QuietRows(s, blocks, quiet[..n]);
      RowsGrow(s, blocks + quiet[..n], quiet[n]);
      assert blocks + quiet[..n] + [quiet[n]] == blocks + quiet;
      assert RowsOf(s, blocks).value + [] == RowsOf(s, blocks).value;
    }
  }

  /** An error among the first blocks is the error of the whole scan. */
  lemma {:induction false} FirstError(s: Source, blocks: seq<BlockMetadata>, later: seq<BlockMetadata>)
    requires s.Valid() && RowsOf(s, blocks).Err?
    ensures RowsOf(s, blocks + later) == RowsOf(s, blocks)
    decreases |later|
  {
    hide Item, ScanBlock, ScanRows, RowsOf;
    if later == [] {
      assert blocks + later == blocks;
    } else {
      var n := |later| - 1;
      FirstError(s, blocks, later[..n]);
      RowsGrow(s, blocks + later[..n], later[n]);
      assert blocks + later[..n] + [later[n]] == blocks + later;
    }
  }

  /** A block its account cannot afford puts the whole scan beyond the first account. */
  lemma Unaffordable(
      s: Source, before: seq<BlockMetadata>, b: BlockMetadata, later: seq<BlockMetadata>, a: Account, at: Account)
    requires s.Valid() && Passed(s, before, a, at) && a.metrics.Fits() && at.metrics.Fits() && !Affords(s, b, at)
    ensures !BillOf(s, before + [b] + later).Within(a)
  {
    hide ScanBlock, Affords, Sum, AllRowsDue, AllBytesDue, PrunedAmong, RowsAmong;
    AffordsExactly(s, b, at);
    BillGrows(s, before, b);
    BillConcat(s, before + [b], later);
  }

  lemma PassedWithin(s: Source, blocks: seq<BlockMetadata>, a: Account, a': Account)
    requires s.Valid() && Passed(s, blocks, a, a') && a'.metrics.Fits()
    ensures BillOf(s, blocks).Within(a)
  {
    hide ScanBlock, Sum;
  }

  /**
   * Drain a scan.  It succeeds if and only if every block it does not prune decodes and the
   * scan's allowances and counters cover the sum of what the blocks owe; it then yields exactly
   * the scan's rows, having charged exactly that.  Otherwise it ends in the scan's own error or
   * in a refusal to pay.
   */
  method Collect(scan: Scan) returns (r: Result<seq<Row>>)
    requires scan.Valid() && scan.nextIndex == 0
    modifies scan, scan.budget
    ensures scan.Valid()
    ensures r.Ok? <==> RowsOf(scan.source, scan.blocks).Ok? && BillOf(scan.source, scan.blocks).Within(old(AccountOf(scan.budget)))
    ensures r.Ok? ==>
              && r == RowsOf(scan.source, scan.blocks)
              && scan.budget.rowCharges == old(scan.budget.rowCharges) + AllRowsDue(scan.source, scan.blocks)
              && scan.budget.byteCharges == old(scan.budget.byteCharges) + AllBytesDue(scan.source, scan.blocks)
    ensures r.Err? ==>
              || r == RowsOf(scan.source, scan.blocks)
              || (r.kind == ResourceLimit && !BillOf(scan.source, scan.blocks).Within(old(AccountOf(scan.budget))))
  {
    hide Progress, Passed, Consumed, Item, Affords, RowsOf, BillOf, AllRowsDue, AllBytesDue, RowsMade, BytesMade, Outcome, Sum;
    var s, blocks := scan.source, scan.blocks;
    ghost var a := AccountOf(scan.budget);
    ghost var rowsPaid, bytesPaid: seq<nat> := [], [];
    ghost var rowCharges, byteCharges := scan.budget.rowCharges, scan.budget.byteCharges;
    var rows: seq<Row> := [];
    NothingScanned(s, a);
    assert blocks[..0] == [] && rowCharges + [] == rowCharges && byteCharges + [] == byteCharges;
    while true
      invariant scan.Valid() && scan.source == s && scan.blocks == blocks
      invariant Progress(s, blocks[..scan.nextIndex], a, AccountOf(scan.budget), rows, rowsPaid, bytesPaid)
      invariant scan.budget.rowCharges == rowCharges + rowsPaid && scan.budget.byteCharges == byteCharges + bytesPaid
      decreases |blocks| - scan.nextIndex
    {
      ghost var done, before := blocks[..scan.nextIndex], AccountOf(scan.budget);
      var item, quiet, at := scan.Next();
      ProgressQuiet(s, done, quiet, a, before, at, rows, rowsPaid, bytesPaid);
      rowsPaid, bytesPaid := rowsPaid + AllRowsDue(s, quiet), bytesPaid + AllBytesDue(s, quiet);
      if item.None? {
        assert done + quiet == blocks;
        ProgressEnds(s, blocks, a, at, rows, rowsPaid, bytesPaid);
        return Ok(rows);
      }
      ghost var b := blocks[scan.nextIndex - 1];
      if item.value.Err? {
        assert done + quiet + [b] + blocks[scan.nextIndex..] == blocks;
        ProgressStops(s, done + quiet, b, blocks[scan.nextIndex..], a, at, AccountOf(scan.budget), rows, rowsPaid, bytesPaid, item.value.kind);
        return Err(item.value.kind);
      }
      assert done + quiet + [b] == blocks[..scan.nextIndex];
      ProgressItem(s, done + quiet, b, a, at, AccountOf(scan.budget), rows, rowsPaid, bytesPaid, item.value.value);
      rowsPaid, bytesPaid := rowsPaid + RowsMade(s, b, at), bytesPaid + BytesMade(s, b, at);
      rows := rows + item.value.value;
    }
  }

  /** The blocks done so far were all paid for, and gave these rows. */
  ghost predicate Progress(
      s: Source, done: seq<BlockMetadata>, a: Account, now: Account, rows: seq<Row>, rowsPaid: seq<nat>, bytesPaid: seq<nat>)
    requires s.Valid()
  {
    && Passed(s, done, a, now) && RowsOf(s, done) == Ok(rows) && a.metrics.Fits() && now.metrics.Fits()
    && rowsPaid == AllRowsDue(s, done) && bytesPaid == AllBytesDue(s, done)
  }

  lemma NothingScanned(s: Source, a: Account)
    requires s.Valid() && a.metrics.Fits()
    ensures Progress(s, [], a, a, [], [], [])
  {
  }

  lemma ProgressQuiet(
      s: Source, done: seq<BlockMetadata>, quiet: seq<BlockMetadata>, a: Account, before: Account, at: Account, rows: seq<Row>,
      rowsPaid: seq<nat>, bytesPaid: seq<nat>)
    requires s.Valid() && Progress(s, done, a, before, rows, rowsPaid, bytesPaid) && Passed(s, quiet, before, at) && at.metrics.Fits()
    requires forall i :: 0 <= i < |quiet| ==> Item(s, quiet[i]) == Ok(None)
    ensures Progress(s, done + quiet, a, at, rows, rowsPaid + AllRowsDue(s, quiet), bytesPaid + AllBytesDue(s, quiet))
  {
    hide Passed, RowsOf, BillOf, AllRowsDue, AllBytesDue, ScanBlock;
    QuietRows(s, done, quiet);
    PassedConcat(s, done, quiet, a, before, at);
    BillConcat(s, done, quiet);
  }

  lemma ProgressItem(
      s: Source, done: seq<BlockMetadata>, b: BlockMetadata, a: Account, at: Account, a': Account, rows: seq<Row>,
      rowsPaid: seq<nat>, bytesPaid: seq<nat>, more: seq<Row>)
    requires s.Valid() && Progress(s, done, a, at, rows, rowsPaid, bytesPaid) && a'.metrics.Fits()
    requires Consumed(s, b, at, a', RowsMade(s, b, at), BytesMade(s, b, at), Ok(Some(more)))
    ensures Progress(s, done + [b], a, a', rows + more, rowsPaid + RowsMade(s, b, at), bytesPaid + BytesMade(s, b, at))
  {
    hide Passed, RowsOf, BillOf, AllRowsDue, AllBytesDue, ScanBlock, Consumed, BlockCharges, Made, Sum;
    PassedMore(s, done, b, a, at, a', RowsMade(s, b, at), BytesMade(s, b, at), Ok(Some(more)));
    RowsGrow(s, done, b);
    BillGrows(s, done, b);
  }

  lemma ProgressEnds(
      s: Source, blocks: seq<BlockMetadata>, a: Account, at: Account, rows: seq<Row>, rowsPaid: seq<nat>, bytesPaid: seq<nat>)
    requires s.Valid() && Progress(s, blocks, a, at, rows, rowsPaid, bytesPaid)
    ensures RowsOf(s, blocks) == Ok(rows) && BillOf(s, blocks).Within(a)
    ensures rowsPaid == AllRowsDue(s, blocks) && bytesPaid == AllBytesDue(s, blocks)
  {
    hide Passed, RowsOf, BillOf, AllRowsDue, AllBytesDue;
    PassedWithin(s, blocks, a, at);
  }

  lemma ProgressStops(
      s: Source, done: seq<BlockMetadata>, b: BlockMetadata, later: seq<BlockMetadata>, a: Account, at: Account, a': Account,
      rows: seq<Row>, rowsPaid: seq<nat>, bytesPaid: seq<nat>, kind: ErrorKind)
    requires s.Valid() && Progress(s, done, a, at, rows, rowsPaid, bytesPaid)
    requires Consumed(s, b, at, a', RowsMade(s, b, at), BytesMade(s, b, at), Err(kind))
    ensures
      var all := done + [b] + later;
      || RowsOf(s, all) == Err(kind)
      || (kind == ResourceLimit && !BillOf(s, all).Within(a))
  {
    hide Passed, RowsOf, BillOf, AllRowsDue, AllBytesDue, ScanBlock, Consumed, BlockCharges, Made, Sum;
    WhatConsumed(s, b, at, a', RowsMade(s, b, at), BytesMade(s, b, at), Err(kind));
    if Affords(s, b, at) {
      RowsGrow(s, done, b);
      FirstError(s, done + [b], later);
    } else {
      Unaffordable(s, done, b, later, a, at);
    }
  }
}
