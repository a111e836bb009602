/** Scans: projection, pruning by block bounds, and range filtering. */
module Scans {
  import opened Core
  import opened Bytes
  import opened Limits
  import opened Schema
  import opened Rows
  import opened Frame
  import opened DataFrame
  import opened Walk
  import opened WalkTheorems
  import opened ColumnCodec
  import opened Tables
  import opened Blocks
  import opened Contents
  import opened Layouts
  import opened Charges
  import opened Decoder
  import StreamRanges

  // ------------------------------------------------------------ selected decoding

  predicate Wide(rows: seq<Row>, width: nat) {
    forall r :: 0 <= r < |rows| ==> |rows[r]| == width
  }

  function Project(rows: seq<Row>, width: nat, selected: seq<nat>): (projected: seq<Row>)
    requires Wide(rows, width) && forall k :: 0 <= k < |selected| ==> selected[k] < width
    ensures |projected| == |rows|
  {
    seq(|rows|, r requires 0 <= r < |rows| => seq(|selected|, k requires 0 <= k < |selected| => rows[r][selected[k]]))
  }

  // ------------------------------------------------------ what a projection costs

  /** The total of the costs at some indices. */
  function Pick(costs: seq<nat>, selected: seq<nat>): nat
    requires forall k :: 0 <= k < |selected| ==> selected[k] < |costs|
  {
    if selected == [] then 0 else Pick(costs, selected[..|selected| - 1]) + costs[selected[|selected| - 1]]
  }

  predicate NoRepeats(selected: seq<nat>) {
    forall j, k :: 0 <= j < k < |selected| ==> selected[j] != selected[k]
  }

  lemma {:induction false} PickWithout(costs: seq<nat>, selected: seq<nat>, k: nat)
    requires k < |selected| && forall j :: 0 <= j < |selected| ==> selected[j] < |costs|
    ensures Pick(costs, selected) == Pick(costs, selected[..k] + selected[k + 1..]) + costs[selected[k]]
    decreases |selected|
  {
    var n := |selected| - 1;
    var rest := selected[..k] + selected[k + 1..];
    if k == n {
      assert rest == selected[..n];
    } else {
      PickWithout(costs, selected[..n], k);
      assert rest[..n - 1] == selected[..n][..k] + selected[..n][k + 1..];
    }
  }

  lemma {:induction false} PickShorter(costs: seq<nat>, selected: seq<nat>)
    requires costs != [] && forall k :: 0 <= k < |selected| ==> selected[k] < |costs| - 1
    ensures Pick(costs, selected) == Pick(costs[..|costs| - 1], selected)
  {
    if selected != [] {
      PickShorter(costs, selected[..|selected| - 1]);
    }
  }

  /** Distinct indices never cost more than all of them. */
  lemma {:induction false} PickAtMost(costs: seq<nat>, selected: seq<nat>)
    requires NoRepeats(selected) && forall k :: 0 <= k < |selected| ==> selected[k] < |costs|
    ensures Pick(costs, selected) <= Sum(costs)
    decreases |costs|
  {
    if costs != [] {
      var n := |costs| - 1;
      if k :| 0 <= k < |selected| && selected[k] == n {
        var rest := selected[..k] + selected[k + 1..];
        PickWithout(costs, selected, k);
        PickShorter(costs, rest);
        PickAtMost(costs[..n], rest);
      } else {
        PickShorter(costs, selected);
        PickAtMost(costs[..n], selected);
      }
    }
  }

  lemma {:induction false} PickAll(costs: seq<nat>)
    ensures Pick(costs, Indices(|costs|)) == Sum(costs)
  {
    if costs != [] {
      var n := |costs| - 1;
      PickAll(costs[..n]);
      assert Indices(n + 1)[..n] == Indices(n);
      PickShorter(costs, Indices(n));
    }
  }

  /** What each column costs to decode. */
  function Costs(layout: BlockLayout, block: Block, columns: seq<Column>, limits: Limits): (costs: seq<nat>)
    ensures |costs| == |columns|
  {
    seq(|columns|, i requires 0 <= i < |columns| => Sum(OneCharges(layout, block, columns[i], limits)))
  }

  lemma {:induction false} SomeChargesPick(
      layout: BlockLayout, block: Block, columns: seq<Column>, limits: Limits, selected: seq<nat>)
    requires InSchema(columns, selected) && DecodeSome(layout, block, columns, limits, selected).Ok?
    ensures Sum(SomeCharges(layout, block, columns, limits, selected)) == Pick(Costs(layout, block, columns, limits), selected)
  {
    hide DecodeOne, OneCharges, Sum;
    SumOne(0);
    if selected != [] {
      var n := |selected| - 1;
      SomeChargesPick(layout, block, columns, limits, selected[..n]);
      SumConcat(SomeCharges(layout, block, columns, limits, selected[..n]), OneCharges(layout, block, columns[selected[n]], limits));
    }
  }

  /** Where every column decodes, so does any selection of them, to the same cells. */
  lemma {:induction false} SomeColumns(
      layout: BlockLayout, block: Block, columns: seq<Column>, limits: Limits, selected: seq<nat>, all: seq<seq<Cell>>)
    requires InSchema(columns, selected) && |all| == |columns|
    requires forall i :: 0 <= i < |columns| ==> DecodeOne(layout, block, columns[i], limits) == Ok(all[i])
    ensures
      var some := DecodeSome(layout, block, columns, limits, selected);
      some.Ok? && forall k :: 0 <= k < |selected| ==> some.value[k] == all[selected[k]]
  {
    hide DecodeOne;
    if selected != [] {
      SomeColumns(layout, block, columns, limits, selected[..|selected| - 1], all);
    }
  }

  lemma AllColumns(layout: BlockLayout, block: Block, columns: seq<Column>, limits: Limits, all: seq<seq<Cell>>)
    requires DecodeSome(layout, block, columns, limits, Indices(|columns|)) == Ok(all)
    ensures |all| == |columns| && forall i :: 0 <= i < |columns| ==> DecodeOne(layout, block, columns[i], limits) == Ok(all[i])
  {
    hide DecodeOne, DecodeSome;
    forall i | 0 <= i < |columns| ensures DecodeOne(layout, block, columns[i], limits) == Ok(all[i]) {
      SelectedOne(layout, block, columns, limits, Indices(|columns|), i);
    }
  }

  /** A projection never owes more than the whole block. */
  lemma ProjectionIsCheaper(
      layout: BlockLayout, block: Block, columns: seq<Column>, limits: Limits, selected: seq<nat>, primary: Option<nat>,
      schemaPrimary: Option<nat>, all: seq<seq<Cell>>)
    requires InSchema(columns, selected) && NoRepeats(selected)
    requires (schemaPrimary.Some? ==> schemaPrimary.value < |columns|) && (primary.Some? ==> primary == schemaPrimary)
    requires DecodeSome(layout, block, columns, limits, Indices(|columns|)) == Ok(all)
    ensures Sum(SelectedCharges(layout, block, columns, limits, selected, primary))
         <= Sum(SelectedCharges(layout, block, columns, limits, Indices(|columns|), schemaPrimary))
  {
    hide DecodeOne, DecodeSome, SomeCharges, OneCharges, Sum, Pick;
    var costs := Costs(layout, block, columns, limits);
    AllColumns(layout, block, columns, limits, all);
    SomeColumns(layout, block, columns, limits, selected, all);
    SomeChargesPick(layout, block, columns, limits, selected);
    SomeChargesPick(layout, block, columns, limits, Indices(|columns|));
    PickAll(costs);
    SumConcat(SomeCharges(layout, block, columns, limits, selected),
              PrimaryCharges(layout, block, columns, limits, selected, primary));
    SumConcat(SomeCharges(layout, block, columns, limits, Indices(|columns|)),
              PrimaryCharges(layout, block, columns, limits, Indices(|columns|), schemaPrimary));
    SumOne(0);
    if primary.Some? && !StreamRanges.Has(selected, primary.value) {
      var more := selected + [primary.value];
      PickOne(costs, selected, primary.value);
      PickAtMost(costs, more);
      OwnPrimary(layout, block, columns, limits, selected, primary.value, all);
      OwnPrimary(layout, block, columns, limits, Indices(|columns|), primary.value, all);
    } else {
      PickAtMost(costs, selected);
      if primary.Some? {
        OwnPrimary(layout, block, columns, limits, selected, primary.value, all);
        OwnPrimary(layout, block, columns, limits, Indices(|columns|), primary.value, all);
      }
    }
  }

  lemma PickOne(costs: seq<nat>, selected: seq<nat>, i: nat)
    requires i < |costs| && forall k :: 0 <= k < |selected| ==> selected[k] < |costs|
    ensures Pick(costs, selected + [i]) == Pick(costs, selected) + costs[i]
  {
    assert (selected + [i])[..|selected|] == selected;
  }

  lemma OwnPrimary(
      layout: BlockLayout, block: Block, columns: seq<Column>, limits: Limits, selected: seq<nat>, p: nat, all: seq<seq<Cell>>)
    requires p < |columns| && |all| == |columns| && DecodeOne(layout, block, columns[p], limits) == Ok(all[p])
    ensures Sum(PrimaryCharges(layout, block, columns, limits, selected, Some(p)))
         == (if StreamRanges.Has(selected, p) then 0 else Costs(layout, block, columns, limits)[p]) + layout.info.rowCount * PRIMARY_VALUE_BYTES
    ensures StreamRanges.Has(Indices(|columns|), p)
  {
    hide DecodeOne, OneCharges, Sum;
    var values := layout.info.rowCount * PRIMARY_VALUE_BYTES;
    SumOne(values);
    SumConcat(if StreamRanges.Has(selected, p) then [] else OneCharges(layout, block, columns[p], limits), [values]);
    assert Indices(|columns|)[p] == p;
  }

  /** One column of whole rows. */
  function ColumnAt(rows: seq<Row>, width: nat, i: nat): (cells: seq<Cell>)
    requires Wide(rows, width) && i < width
    ensures |cells| == |rows|
  {
    seq(|rows|, r requires 0 <= r < |rows| => rows[r][i])
  }

  lemma TransposeProjects(columns: seq<seq<Cell>>, some: seq<seq<Cell>>, selected: seq<nat>, rows: nat)
    requires Transpose(columns, rows).Ok? && |some| == |selected|
    requires forall k :: 0 <= k < |selected| ==> selected[k] < |columns| && some[k] == columns[selected[k]]
    ensures
      var all := Transpose(columns, rows).value;
      Wide(all, |columns|) && Transpose(some, rows) == Ok(Project(all, |columns|, selected))
  {
    var all := Transpose(columns, rows).value;
    var projected := Transpose(some, rows).value;
    forall r | 0 <= r < rows ensures projected[r] == Project(all, |columns|, selected)[r] {
      assert all[r] == seq(|columns|, c requires 0 <= c < |columns| => columns[c][r]);
    }
    assert projected == Project(all, |columns|, selected);
  }

  /** A projection reads exactly the projected columns of a whole read, and the same primary values. */
  lemma SelectedAgrees(
      block: Block, schema: Schema, rowIds: bool, expected: Option<nat>, limits: Limits, selected: seq<nat>, primary: Option<nat>,
      all: seq<Row>)
    requires InSchema(schema.columns, selected) && NoRepeats(selected) && (primary.Some? ==> primary == PrimaryIndex(schema))
    requires DecodeBlock(block, schema, rowIds, expected, limits) == Ok(all)
    ensures Wide(all, |schema.columns|)
    ensures
      var width := |schema.columns|;
      var layout := DecodableLayout(block, schema, rowIds, expected, limits);
      var d := DecodeSelected(block, schema, rowIds, expected, limits, selected, primary);
      && d.Ok? && d.value.rows == Project(all, width, selected)
      && layout.Ok? && |all| == layout.value.info.rowCount
      && (primary.Some? ==>
            var cells := ColumnAt(all, width, primary.value);
            && VerifyPrimary(cells, layout.value.info).Ok?
            && d.value.primary == Some(VerifyPrimary(cells, layout.value.info).value)
            && d.value.sorted == layout.value.info.sorted)
  {
    hide DecodableLayout, DecodeOne, VerifyPrimary, DecodeSome, PrimaryIndex, SelectedCharges, Sum;
    var layout := DecodableLayout(block, schema, rowIds, expected, limits).value;
    var columns := DecodeSome(layout, block, schema.columns, limits, Indices(|schema.columns|)).value;
    AllColumns(layout, block, schema.columns, limits, columns);
    SomeColumns(layout, block, schema.columns, limits, selected, columns);
    ProjectionIsCheaper(layout, block, schema.columns, limits, selected, primary, PrimaryIndex(schema), columns);
    var some := DecodeSome(layout, block, schema.columns, limits, selected).value;
    TransposeProjects(columns, some, selected, layout.info.rowCount);
    if primary.Some? {
      assert ColumnAt(all, |schema.columns|, primary.value) == columns[primary.value];
    }
  }

  // ------------------------------------------------------------------- filtering

  /** A half-open range of primary values. */
  datatype Range = Range(start: int, end: int) {
    predicate Has(value: int) {
      start <= value < end
    }
  }

  datatype ScanPlan = ScanPlan(projection: seq<nat>, range: Option<Range>) {
    predicate Valid(schema: Schema) {
      && InSchema(schema.columns, projection) && NoRepeats(projection)
      && (range.Some? ==> range.value.start <= range.value.end && PrimaryIndex(schema).Some?)
    }

    /** The one column decoded without being projected. */
    function Primary(schema: Schema): (r: Option<nat>)
      ensures r.Some? ==> r == PrimaryIndex(schema)
    {
      var i := PrimaryIndex(schema);
      if i.Some? && (range.Some? || StreamRanges.Has(projection, i.value)) then i else None
    }

    /** Whether a block's stored bounds exclude every range value. */
    predicate Prunes(bounds: Option<Bounds>) {
      && range.Some?
      && (range.value.start == range.value.end
          || (bounds.Some? && (bounds.value.max < range.value.start || bounds.value.min >= range.value.end)))
    }
  }

  /** The rows whose value is in the range, in order. */
  function Matching(rows: seq<Row>, values: seq<int>, range: Range): (kept: seq<Row>)
    requires |rows| == |values|
  {
    if rows == [] then []
    else
      var n := |rows| - 1;
      Matching(rows[..n], values[..n], range) + if range.Has(values[n]) then [rows[n]] else []
  }

  /** How many leading values are below `x`. */
  function PartitionPoint(values: seq<int>, x: int): (k: nat)
    ensures k <= |values|
    ensures forall i :: 0 <= i < k ==> values[i] < x
    ensures k < |values| ==> values[k] >= x
  {
    if values == [] || values[0] >= x then 0 else 1 + PartitionPoint(values[1..], x)
  }

  lemma {:induction false} NondecreasingPairs(values: seq<int>, i: nat, j: nat)
    requires Nondecreasing(values) && i <= j < |values|
    ensures values[i] <= values[j]
  {
    if i < j {
      NondecreasingPairs(values, i, j - 1);
    }
  }

  lemma {:induction false} PartitionUnique(values: seq<int>, x: int, k: nat)
    requires k <= |values| && (forall i :: 0 <= i < k ==> values[i] < x) && (k < |values| ==> values[k] >= x)
    ensures PartitionPoint(values, x) == k
  {
    if k > 0 {
      PartitionUnique(values[1..], x, k - 1);
    }
  }

  /** Binary search for the partition point of sorted values. */
  method FindPartitionPoint(values: seq<int>, x: int) returns (k: nat)
    requires Nondecreasing(values)
    ensures k == PartitionPoint(values, x)
  {
    var low, high := 0, |values|;
    while low < high
      invariant 0 <= low <= high <= |values|
      invariant forall i :: 0 <= i < low ==> values[i] < x
      invariant forall i :: high <= i < |values| ==> values[i] >= x
    {
      var middle := (low + high) / 2;
      if values[middle] < x {
        forall i | 0 <= i <= middle ensures values[i] < x {
          NondecreasingPairs(values, i, middle);
        }
        low := middle + 1;
      } else {
        forall i | middle <= i < |values| ensures values[i] >= x {
          NondecreasingPairs(values, middle, i);
        }
        high := middle;
      }
    }
    k := low;
    PartitionUnique(values, x, k);
  }

  lemma {:induction false} MatchingNone(rows: seq<Row>, values: seq<int>, range: Range)
    requires |rows| == |values| && forall i :: 0 <= i < |values| ==> !range.Has(values[i])
    ensures Matching(rows, values, range) == []
  {
    if rows != [] {
      MatchingNone(rows[..|rows| - 1], values[..|rows| - 1], range);
    }
  }

  lemma SliceShrinks(rows: seq<Row>, first: nat, last: nat)
    requires rows != [] && first <= |rows| && last <= |rows|
    ensures
      var n := |rows| - 1;
      && (first <= n < last ==> rows[first..last] == rows[..n][first..n] + [rows[n]])
      && (first <= last <= n ==> rows[first..last] == rows[..n][first..last])
      && (first == last ==> rows[first..last] == [])
  {
    var n := |rows| - 1;
    if first <= n < last {
      assert rows[first..last] == rows[first..n] + [rows[n]];
    }
  }

  /** On sorted values the slice between the two partition points is the linear filter. */
  lemma {:induction false} SliceIsFilter(rows: seq<Row>, values: seq<int>, range: Range, first: nat, last: nat)
    requires |rows| == |values| && Nondecreasing(values) && first <= |values| && last <= |values|
    requires forall i :: 0 <= i < |values| ==> (i < first <==> values[i] < range.start) && (i < last <==> values[i] < range.end)
    ensures Matching(rows, values, range) == if first <= last then rows[first..last] else []
  {
    if rows != [] {
      var n := |rows| - 1;
      var f, l := if first < n then first else n, if last < n then last else n;
      SliceIsFilter(rows[..n], values[..n], range, f, l);
      SliceShrinks(rows, first, last);
    }
  }

  lemma PartitionsCut(values: seq<int>, x: int)
    requires Nondecreasing(values)
    ensures forall i :: 0 <= i < |values| ==> (i < PartitionPoint(values, x) <==> values[i] < x)
  {
    var k := PartitionPoint(values, x);
    forall i | k <= i < |values| ensures values[i] >= x {
      NondecreasingPairs(values, k, i);
    }
  }

  /** Keep the rows the range covers; None when there are none. */
  function FilterBatch(sorted: bool, rows: seq<Row>, values: seq<int>, range: Range): Option<seq<Row>>
    requires |rows| == |values|
  {
    if range.start == range.end then None
    else if sorted then
      var first, last := PartitionPoint(values, range.start), PartitionPoint(values, range.end);
      if first >= last then None else Some(rows[first..last])
    else
      var kept := Matching(rows, values, range);
      if kept == [] then None else Some(kept)
  }

  lemma FilterIsMatching(sorted: bool, rows: seq<Row>, values: seq<int>, range: Range)
    requires |rows| == |values| && range.start <= range.end && (sorted ==> Nondecreasing(values))
    ensures
      var kept := Matching(rows, values, range);
      FilterBatch(sorted, rows, values, range) == if kept == [] then None else Some(kept)
  {
    if range.start == range.end {
      MatchingNone(rows, values, range);
    } else if sorted {
      var first, last := PartitionPoint(values, range.start), PartitionPoint(values, range.end);
      PartitionsCut(values, range.start);
      PartitionsCut(values, range.end);
      SliceIsFilter(rows, values, range, first, last);
      if first < last {
        assert rows[first..last] != [];
      }
    }
  }

  // ----------------------------------------------------------------- whole scans

  /** What a scan yields for one block: nothing, or its matching rows.  A file that cannot be opened is None. */
  function ScanBlock(file: Option<seq<byte>>, ctx: Context, plan: ScanPlan, b: BlockMetadata): Result<Option<seq<Row>>>
    requires plan.Valid(ctx.schema)
  {
    if plan.Prunes(b.bounds) then Ok(None)
    else if file.None? then Err(Io)
    else
      var block :- BlockAt(file.value, ctx, b.fileOffset, b.sequence);
      var d :- DecodeSelected(block, ctx.schema, ctx.prologue.RowIds(), b.baseRowId, ctx.limits, plan.projection,
                              plan.Primary(ctx.schema));
      match plan.range
      case None => Ok(Some(d.rows))
      case Some(range) =>
        if d.primary.None? || |d.primary.value| != |d.rows| then Err(Internal)
        else Ok(FilterBatch(d.sorted, d.rows, d.primary.value, range))
  }

  function Yielded(item: Option<seq<Row>>): seq<Row> {
    match item case Some(rows) => rows case None => []
  }

  /** Every row a scan of these blocks yields, in file order. */
  function ScanRows(file: Option<seq<byte>>, ctx: Context, plan: ScanPlan, blocks: seq<BlockMetadata>): Result<seq<Row>>
    requires plan.Valid(ctx.schema)
  {
    if blocks == [] then Ok([])
    else
      var n := |blocks| - 1;
      var before :- ScanRows(file, ctx, plan, blocks[..n]);
      var item :- ScanBlock(file, ctx, plan, blocks[n]);
      Ok(before + Yielded(item))
  }

  /** The primary values of whole rows. */
  function PrimaryValues(rows: seq<Row>, p: nat): (values: seq<int>)
    ensures |values| == |rows|
  {
    seq(|rows|, r requires 0 <= r < |rows| => if p < |rows[r]| && rows[r][p].Number? then rows[r][p].value else 0)
  }

  /** The naive filter: whole rows whose primary value is in the range, then projected. */
  function Filtered(rows: seq<Row>, width: nat, plan: ScanPlan, p: nat): seq<Row>
    requires Wide(rows, width) && forall k :: 0 <= k < |plan.projection| ==> plan.projection[k] < width
  {
    match plan.range
    case None => Project(rows, width, plan.projection)
    case Some(range) => Matching(Project(rows, width, plan.projection), PrimaryValues(rows, p), range)
  }

  /** What the block header declares is what the snapshot recorded for the block. */
  ghost predicate Recorded(file: seq<byte>, ctx: Context, b: BlockMetadata) {
    && Framed(file, ctx, b)
    && var block := BlockAt(file, ctx, b.fileOffset, b.sequence);
    && block.Ok? && |block.value.header| >= 64
    && ParseBlock(block.value.header[..64], |block.value.header|, ctx.schema, ctx.prologue.RowIds(), b.baseRowId)
       == Ok(BlockInfo(b.rowCount, b.baseRowId, b.bounds, b.sorted))
  }

  /** Rows whose primary values the block's verified bounds put outside the range never match. */
  lemma PrunedMatchesNothing(rows: seq<Row>, values: seq<int>, bounds: Option<Bounds>, plan: ScanPlan)
    requires |rows| == |values| && plan.range.Some? && plan.range.value.start <= plan.range.value.end && plan.Prunes(bounds)
    requires bounds.Some? ==> forall i :: 0 <= i < |values| ==> bounds.value.min <= values[i] <= bounds.value.max
    ensures Matching(rows, values, plan.range.value) == []
  {
    MatchingNone(rows, values, plan.range.value);
  }

  lemma VerifiedValues(cells: seq<Cell>, info: BlockInfo)
    requires VerifyPrimary(cells, info).Ok?
    ensures AllNumbers(cells) && VerifyPrimary(cells, info).value == NumbersOf(cells)
  {
  }

  /** One block of a scan is the naive filter of its rows. */
  lemma BlockIsFiltered(file: seq<byte>, ctx: Context, plan: ScanPlan, b: BlockMetadata, rows: seq<Row>, p: nat)
    requires plan.Valid(ctx.schema) && Recorded(file, ctx, b) && RowsAt(file, ctx, b) == Ok(rows)
    requires plan.range.Some? ==> PrimaryIndex(ctx.schema) == Some(p)
    ensures Wide(rows, |ctx.schema.columns|)
    ensures
      var item := ScanBlock(Some(file), ctx, plan, b);
      item.Ok? && Yielded(item.value) == Filtered(rows, |ctx.schema.columns|, plan, p)
  {
    hide BlockAt, DecodeBlock, DecodeSelected, ParseBlock, VerifyPrimary, Matching, Framed, PartitionPoint, PrimaryIndex;
    var block := BlockAt(file, ctx, b.fileOffset, b.sequence).value;
    var width := |ctx.schema.columns|;
    SelectedAgrees(block, ctx.schema, ctx.prologue.RowIds(), b.baseRowId, ctx.limits, plan.projection, plan.Primary(ctx.schema), rows);
    if plan.range.Some? {
      LayoutInfo(block, ctx, b);
      var info := BlockInfo(b.rowCount, b.baseRowId, b.bounds, b.sorted);
      var cells := ColumnAt(rows, width, p);
      VerifiedValues(cells, info);
      var values := VerifyPrimary(cells, info).value;
      assert values == PrimaryValues(rows, p);
      var projected := Project(rows, width, plan.projection);
      if plan.Prunes(b.bounds) {
        PrunedMatchesNothing(projected, values, b.bounds, plan);
      } else {
        FilterIsMatching(b.sorted, projected, values, plan.range.value);
      }
    }
  }

  lemma LayoutInfo(block: Block, ctx: Context, b: BlockMetadata)
    requires |block.header| >= 64
    requires ParseBlock(block.header[..64], |block.header|, ctx.schema, ctx.prologue.RowIds(), b.baseRowId)
          == Ok(BlockInfo(b.rowCount, b.baseRowId, b.bounds, b.sorted))
    ensures
      var layout := ParseLayout(block.header, |block.payload|, ctx.schema, ctx.prologue.RowIds(), b.baseRowId, ctx.limits);
      layout.Ok? ==> layout.value.info == BlockInfo(b.rowCount, b.baseRowId, b.bounds, b.sorted)
  {
    hide ParseBlock, ParseColumns, ParseStreams, RangesFit, IdOrder, Records;
  }

  lemma {:induction false} MatchingConcat(a: seq<Row>, b: seq<Row>, va: seq<int>, vb: seq<int>, range: Range)
    requires |a| == |va| && |b| == |vb|
    ensures Matching(a + b, va + vb, range) == Matching(a, va, range) + Matching(b, vb, range)
    decreases |b|
  {
    if b == [] {
      assert a + b == a && va + vb == va;
    } else {
      var n := |b| - 1;
      assert (a + b)[..|a| + n] == a + b[..n] && (va + vb)[..|a| + n] == va + vb[..n];
      MatchingConcat(a, b[..n], va, vb[..n], range);
    }
  }

  lemma FilteredConcat(a: seq<Row>, b: seq<Row>, width: nat, plan: ScanPlan, p: nat)
    requires Wide(a, width) && Wide(b, width) && forall k :: 0 <= k < |plan.projection| ==> plan.projection[k] < width
    ensures Wide(a + b, width) && Filtered(a + b, width, plan, p) == Filtered(a, width, plan, p) + Filtered(b, width, plan, p)
  {
    hide Matching;
    var pa, pb := Project(a, width, plan.projection), Project(b, width, plan.projection);
    assert Project(a + b, width, plan.projection) == pa + pb;
    assert PrimaryValues(a + b, p) == PrimaryValues(a, p) + PrimaryValues(b, p);
    if plan.range.Some? {
      MatchingConcat(pa, pb, PrimaryValues(a, p), PrimaryValues(b, p), plan.range.value);
    }
  }

  /**
   * A pruned, binary-searched scan equals the naive filter: whenever every block decodes, it
   * yields in file order exactly the rows of a full read whose primary value is in the range,
   * projected as asked.
   */
  lemma {:induction false} ScanIsFilter(
      file: seq<byte>, ctx: Context, plan: ScanPlan, blocks: seq<BlockMetadata>, all: seq<Row>, p: nat)
    requires plan.Valid(ctx.schema) && (plan.range.Some? ==> PrimaryIndex(ctx.schema) == Some(p))
    requires forall i :: 0 <= i < |blocks| ==> Recorded(file, ctx, blocks[i])
    requires RowsOfBlocks(file, ctx, blocks) == Ok(all)
    ensures Wide(all, |ctx.schema.columns|)
    ensures ScanRows(Some(file), ctx, plan, blocks) == Ok(Filtered(all, |ctx.schema.columns|, plan, p))
    decreases |blocks|
  {
    hide Recorded, RowsAt, ScanBlock, PrimaryIndex, Matching;
    var width := |ctx.schema.columns|;
    if blocks == [] {
      NothingFiltered(width, plan, p);
    } else {
      var n := |blocks| - 1;
      var before := RowsOfBlocks(file, ctx, blocks[..n]).value;
      var rows := RowsAt(file, ctx, blocks[n]).value;
      ScanIsFilter(file, ctx, plan, blocks[..n], before, p);
      BlockIsFiltered(file, ctx, plan, blocks[n], rows, p);
      FilteredConcat(before, rows, width, plan, p);
    }
  }

  lemma NothingFiltered(width: nat, plan: ScanPlan, p: nat)
    requires forall k :: 0 <= k < |plan.projection| ==> plan.projection[k] < width
    ensures Filtered([], width, plan, p) == []
  {
  }

  // ---------------------------------------------------- blocks a walk has recorded

  lemma StepRecords(file: seq<byte>, ctx: Context, c: Cursor)
    requires c.offset < |file| && Step(file, ctx, c).Ok? && Step(file, ctx, c).value.Some?
    requires ctx.prologue.RowIds() ==> c.nextRowId.Some?
    ensures
      var c' := Step(file, ctx, c).value.value;
      |c'.blocks| == |c.blocks| + 1 && Recorded(file, ctx, c'.blocks[|c.blocks|])
  {
    hide ReadFrameIn, Framed, ParseBlock;
    StepFrames(file, ctx, c);
    CompleteFrameShape(file[c.offset..], c.sequence, ctx.limits);
    var prefix := ReadFrameIn(file[c.offset..], c.sequence, ctx.limits).value.value;
    var h := c.offset + PREFIX_SIZE;
    assert file[h..h + prefix.headerLength][..64] == file[h..h + 64];
    var header := file[h..h + 64];
    var info := ParseBlock(header, prefix.headerLength, ctx.schema, ctx.prologue.RowIds(), c.nextRowId).value;
    SameBase(header, prefix.headerLength, ctx, c.nextRowId, info);
  }

  lemma SameBase(header: seq<byte>, headerLength: nat, ctx: Context, expected: Option<nat>, info: BlockInfo)
    requires |header| >= 64 && (ctx.prologue.RowIds() ==> expected.Some?)
    requires ParseBlock(header, headerLength, ctx.schema, ctx.prologue.RowIds(), expected) == Ok(info)
    ensures ParseBlock(header, headerLength, ctx.schema, ctx.prologue.RowIds(), info.baseRowId) == Ok(info)
  {
    hide FromLe, LayoutFits, BoundsFit;
  }

  lemma {:induction false} ReachesRecords(file: seq<byte>, ctx: Context, a: Cursor, b: Cursor, n: nat)
    requires Reaches(file, ctx, a, b, n) && (ctx.prologue.RowIds() ==> a.nextRowId.Some?)
    requires forall i :: 0 <= i < |a.blocks| ==> Recorded(file, ctx, a.blocks[i])
    ensures forall i :: 0 <= i < |b.blocks| ==> Recorded(file, ctx, b.blocks[i])
    decreases n
  {
    hide Step, Recorded;
    if n > 0 {
      var c := Step(file, ctx, a).value.value;
      StepFacts(file, ctx, a);
      StepRecords(file, ctx, a);
      assert forall i :: 0 <= i < |a.blocks| ==> c.blocks[i] == c.blocks[..|a.blocks|][i];
      ReachesRecords(file, ctx, c, b, n - 1);
    }
  }

  /** Every block a walk finds is recorded as its header declares it. */
  lemma WalkRecords(file: seq<byte>, limits: Limits, visitor: Visitor)
    requires WalkFile(file, limits, visitor).Ok?
    ensures
      var (scan, walk) := WalkFile(file, limits, visitor).value;
      forall i :: 0 <= i < |walk.end.blocks| ==> Recorded(file, scan.ctx, walk.end.blocks[i])
  {
    hide Step, OpenScan, Recorded;
    var (scan, walk) := WalkFile(file, limits, visitor).value;
    var start := StartCursor(scan, visitor);
    ReachesRecords(file, scan.ctx, start, walk.end, FramesRead(file, scan.ctx, start));
  }

  /** Scanning every block of a file is filtering a full read of it. */
  lemma FileScanIsFilter(file: seq<byte>, limits: Limits, plan: ScanPlan, all: seq<Row>, p: nat)
    requires WalkFile(file, limits, Discard).Ok? && FileRows(file, limits) == Ok(all)
    requires
      var schema := WalkFile(file, limits, Discard).value.0.ctx.schema;
      plan.Valid(schema) && (plan.range.Some? ==> PrimaryIndex(schema) == Some(p))
    ensures
      var (scan, walk) := WalkFile(file, limits, Discard).value;
      && Wide(all, |scan.ctx.schema.columns|)
      && ScanRows(Some(file), scan.ctx, plan, walk.end.blocks) == Ok(Filtered(all, |scan.ctx.schema.columns|, plan, p))
  {
    hide WalkFile, Recorded, RowsOfBlocks, ScanRows, PrimaryIndex;
    var (scan, walk) := WalkFile(file, limits, Discard).value;
    WalkRecords(file, limits, Discard);
    ScanIsFilter(file, scan.ctx, plan, walk.end.blocks, all, p);
  }
}
