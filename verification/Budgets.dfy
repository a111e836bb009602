/** Memory allowances: one per block decode, and one shared by every block of a scan. */
module Budgets {
  import opened Core
  import opened Bytes
  import opened Schema
  import opened Rows
  import opened Layouts
  import opened Charges
  import Transforms

  /** The counters a scan reports; of the bytes it reads, those a refresh scans. */
  datatype Metrics = Metrics(blocksConsidered: nat, blocksPruned: nat, bytesScanned: nat, rowsReturned: nat) {
    predicate Fits() {
      blocksConsidered < U64 && blocksPruned < U64 && bytesScanned < U64 && rowsReturned < U64
    }
  }

  class ScanBudget {
    var remainingRows: nat
    var remainingBytes: nat
    var metrics: Metrics
    ghost const rowAllowance: nat
    ghost const byteAllowance: nat
    /** Every successful charge, oldest first. */
    ghost var rowCharges: seq<nat>
    ghost var byteCharges: seq<nat>

    /** What is left is the allowance minus every successful charge. */
    ghost predicate Valid()
      reads this
    {
      && remainingRows + Sum(rowCharges) == rowAllowance
      && remainingBytes + Sum(byteCharges) == byteAllowance
      && metrics.Fits()
    }

    constructor (rows: nat, bytes: nat)
      ensures Valid() && rowAllowance == rows && byteAllowance == bytes && rowCharges == [] && byteCharges == []
      ensures metrics == Metrics(0, 0, 0, 0)
    {
      remainingRows, remainingBytes, rowAllowance, byteAllowance := rows, bytes, rows, bytes;
      rowCharges, byteCharges := [], [];
      metrics := Metrics(0, 0, 0, 0);
    }

    method ChargeRows(rows: nat) returns (r: Result<()>)
      requires Valid()
      modifies this`remainingRows, this`rowCharges
      ensures Valid()
      ensures r == if rows <= old(remainingRows) then Ok(()) else Err(ResourceLimit)
      ensures rowCharges == if r.Ok? then old(rowCharges) + [rows] else old(rowCharges)
    {
      hide Sum;
      if remainingRows < rows {
        return Err(ResourceLimit);
      }
      SumAppend(rowCharges, rows);
      remainingRows := remainingRows - rows;
      rowCharges := rowCharges + [rows];
      r := Ok(());
    }

    /** Count a considered block, and count it as pruned when it was; the first counter moves first. */
    method RecordBlock(pruned: bool) returns (r: Result<()>)
      requires Valid()
      modifies this`metrics
      ensures Valid()
      ensures r == if old(metrics.blocksConsidered) + 1 < U64 && (pruned ==> old(metrics.blocksPruned) + 1 < U64)
                   then Ok(()) else Err(ResourceLimit)
      ensures metrics.rowsReturned == old(metrics.rowsReturned) && metrics.bytesScanned == old(metrics.bytesScanned)
      ensures metrics.blocksConsidered
           == old(metrics.blocksConsidered) + if old(metrics.blocksConsidered) + 1 < U64 then 1 else 0
      ensures metrics.blocksPruned == old(metrics.blocksPruned) + if r.Ok? && pruned then 1 else 0
    {
      if metrics.blocksConsidered + 1 >= U64 {
        return Err(ResourceLimit);
      }
      metrics := metrics.(blocksConsidered := metrics.blocksConsidered + 1);
      if pruned {
        if metrics.blocksPruned + 1 >= U64 {
          return Err(ResourceLimit);
        }
        metrics := metrics.(blocksPruned := metrics.blocksPruned + 1);
      }
      r := Ok(());
    }

    method RecordBytesScanned(bytes: nat) returns (r: Result<()>)
      requires Valid()
      modifies this`metrics
      ensures Valid()
      ensures r == if old(metrics.bytesScanned) + bytes < U64 then Ok(()) else Err(ResourceLimit)
      ensures metrics == if r.Ok? then old(metrics).(bytesScanned := old(metrics.bytesScanned) + bytes) else old(metrics)
    {
      if metrics.bytesScanned + bytes >= U64 {
        return Err(ResourceLimit);
      }
      metrics := metrics.(bytesScanned := metrics.bytesScanned + bytes);
      r := Ok(());
    }

    method RecordRows(rows: nat) returns (r: Result<()>)
      requires Valid()
      modifies this`metrics
      ensures Valid()
      ensures r == if old(metrics.rowsReturned) + rows < U64 then Ok(()) else Err(ResourceLimit)
      ensures metrics == if r.Ok? then old(metrics).(rowsReturned := old(metrics.rowsReturned) + rows) else old(metrics)
    {
      if metrics.rowsReturned + rows >= U64 {
        return Err(ResourceLimit);
      }
      metrics := metrics.(rowsReturned := metrics.rowsReturned + rows);
      r := Ok(());
    }
  }

  /** What a budget can still pay, and what it has paid. */
  datatype Ledger = Ledger(room: nat, charges: seq<nat>)

  /** One block's allowance, which also draws on the scan's. */
  class Budget {
    var remaining: nat
    const scan: ScanBudget?
    ghost const allowance: nat
    ghost var charges: seq<nat>
    /** What the scan had paid before this block. */
    ghost const earlier: seq<nat>

    ghost predicate Valid()
      reads this, scan
    {
      && remaining + Sum(charges) == allowance < U64
      && (scan != null ==> scan.Valid() && scan.byteCharges == earlier + charges)
    }

    constructor (allowance: u64, scan: ScanBudget?)
      requires scan != null ==> scan.Valid()
      ensures Valid() && this.scan == scan && this.allowance == allowance
      ensures Now() == Ledger(if scan != null && scan.remainingBytes < allowance then scan.remainingBytes else allowance, [])
      ensures scan != null ==> earlier == scan.byteCharges
    {
      remaining, this.allowance, this.scan, charges := allowance, allowance, scan, [];
      earlier := if scan == null then [] else scan.byteCharges;
      new;
      assert scan != null ==> earlier + [] == earlier;
    }

    ghost function Shared(): set<ScanBudget> {
      if scan == null then {} else {scan}
    }

    /** The lesser of the block's allowance and the scan's. */
    function Room(): nat
      reads this, scan
    {
      if scan != null && scan.remainingBytes < remaining then scan.remainingBytes else remaining
    }

    ghost function Now(): Ledger
      reads this, scan
    {
      Ledger(Room(), charges)
    }

    /** Charge both allowances, or neither. */
    method Charge(bytes: nat) returns (r: Result<()>)
      requires Valid()
      modifies this`remaining, this`charges, Shared()`remainingBytes, Shared()`byteCharges
      ensures Valid() && Paid(old(Now()), Now(), [bytes], r, Ok(()))
    {
      hide Sum;
      OneDue(bytes, Room());
      if bytes >= U64 || remaining < bytes || (scan != null && scan.remainingBytes < bytes) {
        return Err(ResourceLimit);
      }
      SumAppend(charges, bytes);
      remaining := remaining - bytes;
      charges := charges + [bytes];
      if scan != null {
        SumAppend(scan.byteCharges, bytes);
        scan.remainingBytes := scan.remainingBytes - bytes;
        scan.byteCharges := scan.byteCharges + [bytes];
        assert earlier + (old(charges) + [bytes]) == earlier + old(charges) + [bytes];
      }
      r := Ok(());
    }
  }

  // ------------------------------------------------------------------ metered steps

  /**
   * A step that owes `due` and would otherwise end in `outcome`: it pays what is due as far as
   * the room goes, and ends in its outcome exactly when everything due could be paid.
   */
  ghost predicate Paid<T>(before: Ledger, after: Ledger, due: seq<nat>, r: Result<T>, outcome: Result<T>) {
    && after.charges == before.charges + Made(due, before.room)
    && before.room == after.room + Sum(Made(due, before.room))
    && r == if Sum(due) <= before.room then outcome else Err(ResourceLimit)
  }

  lemma OneDue(bytes: nat, room: nat)
    ensures Made([bytes], room) == if bytes <= room then [bytes] else []
    ensures Sum([bytes]) == bytes && Sum([]) == 0
  {
    SumOne(bytes);
    assert [bytes][1..] == [];
  }

  lemma PaidNothing<T>(l: Ledger, r: Result<T>)
    ensures Paid(l, l, [], r, r)
  {
    assert l.charges + [] == l.charges;
  }

  /** After a step that succeeded comes another, from what it left. */
  lemma PaidThen<T, U>(
      l0: Ledger, l1: Ledger, l2: Ledger, d1: seq<nat>, r1: Result<T>, o1: Result<T>, d2: seq<nat>, r2: Result<U>, o2: Result<U>)
    requires Paid(l0, l1, d1, r1, o1) && r1.Ok? && Paid(l1, l2, d2, r2, o2)
    ensures Paid(l0, l2, d1 + d2, r2, o2)
  {
    hide Sum, Made;
    MadeAll(d1, l0.room);
    MadeConcat(d1, d2, l0.room);
    SumConcat(d1, d2);
    SumConcat(d1, Made(d2, l1.room));
    assert l0.charges + d1 + Made(d2, l1.room) == l0.charges + (d1 + Made(d2, l1.room));
  }

  /** A step that failed of itself owes nothing more; one that could not pay hides all that follows. */
  lemma PaidFails<T, U>(
      l0: Ledger, l1: Ledger, d1: seq<nat>, r1: Result<T>, o1: Result<T>, d2: seq<nat>, o2: Result<U>)
    requires Paid(l0, l1, d1, r1, o1) && r1.Err? && (o1.Err? ==> d2 == [] && o2 == Err(o1.kind))
    ensures Paid(l0, l1, d1 + d2, Err(r1.kind), o2)
  {
    hide Sum, Made;
    MadeConcat(d1, d2, l0.room);
    SumConcat(d1, d2);
    SumOne(0);
    assert d1 + [] == d1;
  }

  /** What is computed from a step's result owes nothing. */
  lemma PaidMaps<T, U>(
      l0: Ledger, l1: Ledger, due: seq<nat>, r1: Result<T>, o1: Result<T>, r2: Result<U>, o2: Result<U>)
    requires Paid(l0, l1, due, r1, o1)
    requires r1.Ok? ==> r2 == o2
    requires r1.Err? ==> r2 == Err(r1.kind)
    requires o1.Err? ==> o2 == Err(o1.kind)
    ensures Paid(l0, l1, due, r2, o2)
  {
  }

  // ------------------------------------------------------------ layout expansions

  /** What one value of a column occupies. */
  function CellCost(t: LogicalType, cell: Cell): nat {
    if IsByteValued(t) then BlobLength(cell) + VALUE_HANDLE_BYTES else SlotBytes(t)
  }

  function Cost(t: LogicalType, cells: seq<Cell>): nat {
    if cells == [] then 0 else Cost(t, cells[..|cells| - 1]) + CellCost(t, cells[|cells| - 1])
  }

  lemma {:induction false} CostBound(t: LogicalType, cells: seq<Cell>, each: nat)
    requires forall i :: 0 <= i < |cells| ==> CellCost(t, cells[i]) <= each
    ensures Cost(t, cells) <= Elements(|cells|, each)
  {
    if cells != [] {
      CostBound(t, cells[..|cells| - 1], each);
      assert (|cells| - 1) * each + each == |cells| * each;
    }
  }

  /** Copies of stored values cost no more than the price of the dearest stored value, each. */
  lemma CopiesAreCovered(t: LogicalType, stored: seq<Cell>, copies: seq<Cell>)
    requires forall i :: 0 <= i < |copies| ==> copies[i] in stored
    ensures Cost(t, copies) <= Elements(|copies|, ValueBytes(t, stored))
  {
    forall i | 0 <= i < |copies| ensures CellCost(t, copies[i]) <= ValueBytes(t, stored) {
      var k :| 0 <= k < |stored| && stored[k] == copies[i];
      assert BlobLength(stored[k]) <= LongestOf(stored);
    }
    CostBound(t, copies, ValueBytes(t, stored));
  }

  lemma {:induction false} ExpandDraws<T>(values: seq<T>, lengths: seq<nat>)
    requires |values| == |lengths|
    ensures forall i :: 0 <= i < |Expand(values, lengths)| ==> Expand(values, lengths)[i] in values
  {
    if values != [] {
      var n := |values| - 1;
      ExpandDraws(values[..n], lengths[..n]);
    }
  }

  /** Expand a dictionary: pay for the whole expansion first, then build it index by index. */
  method ExpandDictionary(t: LogicalType, values: seq<Cell>, indices: seq<nat>, budget: Budget) returns (r: Result<seq<Cell>>)
    requires budget.Valid()
    modifies budget`remaining, budget`charges, budget.Shared()`remainingBytes, budget.Shared()`byteCharges
    ensures budget.Valid()
    ensures Paid(old(budget.Now()), budget.Now(), [Elements(|indices|, ValueBytes(t, values))], r, Lookup(values, indices))
    ensures r.Ok? ==> Cost(t, r.value) <= Elements(|indices|, ValueBytes(t, values))
  {
    hide Paid, Cost, ValueBytes, Elements;
    ghost var l0, due := budget.Now(), [Elements(|indices|, ValueBytes(t, values))];
    var charged := budget.Charge(Elements(|indices|, ValueBytes(t, values)));
    if charged.Err? {
      r := Err(charged.kind);
      PaidMaps(l0, budget.Now(), due, charged, Ok(()), r, Lookup(values, indices));
      return;
    }
    var expanded: seq<Cell>, i := [], 0;
    while i < |indices|
      invariant 0 <= i <= |indices| && |expanded| == i
      invariant forall k :: 0 <= k < i ==> indices[k] < |values| && expanded[k] == values[indices[k]]
    {
      if indices[i] >= |values| {
        r := Err(Corruption);
        PaidMaps(l0, budget.Now(), due, charged, Ok(()), r, Lookup(values, indices));
        return;
      }
      expanded := expanded + [values[indices[i]]];
      i := i + 1;
    }
    CopiesAreCovered(t, values, expanded);
    assert expanded == Lookup(values, indices).value;
    r := Ok(expanded);
    PaidMaps(l0, budget.Now(), due, charged, Ok(()), r, Lookup(values, indices));
  }

  /** Expand runs whose lengths are known to fit. */
  method ExpandRuns(t: LogicalType, values: seq<Cell>, lengths: seq<nat>, count: nat, budget: Budget) returns (r: Result<seq<Cell>>)
    requires budget.Valid() && RunLengthsFit(lengths, count)
    modifies budget`remaining, budget`charges, budget.Shared()`remainingBytes, budget.Shared()`byteCharges
    ensures budget.Valid()
    ensures Paid(old(budget.Now()), budget.Now(), [Elements(count, ValueBytes(t, values))], r, Layouts.ExpandRuns(values, lengths))
    ensures r.Ok? ==> Cost(t, r.value) <= Elements(count, ValueBytes(t, values))
  {
    hide Paid, Cost, ValueBytes, Elements, Expand;
    ghost var l0, due := budget.Now(), [Elements(count, ValueBytes(t, values))];
    var charged := budget.Charge(Elements(count, ValueBytes(t, values)));
    if charged.Err? {
      r := Err(charged.kind);
    } else if |values| != |lengths| {
      r := Err(Corruption);
    } else {
      r := Transforms.ExpandRunsLoop(values, lengths, count);
      ExpandDraws(values, lengths);
      CopiesAreCovered(t, values, r.value);
    }
    PaidMaps(l0, budget.Now(), due, charged, Ok(()), r, Layouts.ExpandRuns(values, lengths));
  }

  /** Repeat the single value of a constant column. */
  method ExpandConstant(t: LogicalType, stored: seq<Cell>, count: nat, budget: Budget) returns (r: Result<seq<Cell>>)
    requires budget.Valid()
    modifies budget`remaining, budget`charges, budget.Shared()`remainingBytes, budget.Shared()`byteCharges
    ensures budget.Valid()
    ensures Paid(old(budget.Now()), budget.Now(), [Elements(count, ValueBytes(t, stored))], r, Constant(stored, count))
    ensures r.Ok? ==> Cost(t, r.value) <= Elements(count, ValueBytes(t, stored))
  {
    hide Paid, Cost, ValueBytes, Elements;
    ghost var l0, due := budget.Now(), [Elements(count, ValueBytes(t, stored))];
    var charged := budget.Charge(Elements(count, ValueBytes(t, stored)));
    if charged.Err? {
      r := Err(charged.kind);
    } else if |stored| != 1 {
      r := Err(Corruption);
    } else {
      var repeated, i := [], 0;
      while i < count
        invariant 0 <= i <= count && repeated == Repeat(stored[0], i)
      {
        repeated := repeated + [stored[0]];
        i := i + 1;
      }
      CopiesAreCovered(t, stored, repeated);
      r := Ok(repeated);
    }
    PaidMaps(l0, budget.Now(), due, charged, Ok(()), r, Constant(stored, count));
  }

  /** Scatter dense values over the rows; they are moved, so a row costs one slot. */
  method ScatterRows(column: Column, dense: seq<Cell>, validity: Option<seq<bool>>, rows: nat, budget: Budget)
      returns (r: Result<seq<Cell>>)
    requires budget.Valid()
    modifies budget`remaining, budget`charges, budget.Shared()`remainingBytes, budget.Shared()`byteCharges
    ensures budget.Valid()
    ensures Paid(old(budget.Now()), budget.Now(), ScatterCharges(column, validity, rows), r, Scatter(dense, validity, rows, Null))
    ensures r.Ok? && !MovesIntoPlace(column, validity) ==>
              ScatterCharges(column, validity, rows) == [Elements(|r.value|, SlotBytes(column.logicalType))]
  {
    hide Paid, Elements, Place;
    ghost var l0, due := budget.Now(), ScatterCharges(column, validity, rows);
    var charged: Result<()> := Ok(());
    if MovesIntoPlace(column, validity) {
      PaidNothing<()>(l0, Ok(()));
    } else {
      charged := budget.Charge(Elements(rows, SlotBytes(column.logicalType)));
    }
    if charged.Err? {
      r := Err(charged.kind);
    } else if validity.None? {
      r := if |dense| == rows then Ok(dense) else Err(Corruption);
    } else if |validity.value| != rows {
      r := Err(Corruption);
    } else {
      var placed := Transforms.PlaceInto(dense, validity.value, Null);
      r := if placed.Ok? then Ok(placed.value[..]) else Err(Corruption);
    }
    PaidMaps(l0, budget.Now(), due, charged, Ok(()), r, Scatter(dense, validity, rows, Null));
  }
}
