/** The block being assembled: buffered batches and their running price. */
module Buffer {
  import opened Core
  import opened Schema
  import opened Rows
  import opened Pricing
  import opened Assembler
  import opened Blocks
  import opened BlockSizes

  const NO_SIZE: BlockSize := BlockSize(0, 0, 0)

  class BlockBuffer {
    const schema: Schema
    const statistics: Policy
    var chunks: seq<seq<Row>>
    var rowCount: nat
    var footprints: seq<Footprint>
    var size: BlockSize

    /** The buffered rows in file order. */
    function Contents(): seq<Row>
      reads this
    {
      Flatten(chunks)
    }

    /** Every counter agrees with the rows held. */
    ghost predicate Valid()
      reads this
    {
      && ValidRows(schema, Contents())
      && rowCount == |Contents()|
      && footprints == Footprints(schema, Contents())
      && size == if Contents() == [] then NO_SIZE else Price(schema, Contents(), statistics)
    }

    constructor (schema: Schema, statistics: Policy)
      ensures Valid() && Contents() == [] && this.schema == schema && this.statistics == statistics
    {
      this.schema := schema;
      this.statistics := statistics;
      chunks, rowCount, size := [], 0, NO_SIZE;
      footprints := seq(|schema.columns|, _ => EMPTY);
    }

    /** Accept rows whose price the assembler has already checked. */
    method Push(chunk: seq<Row>)
      requires Valid() && ValidRows(schema, chunk) && chunk != []
      modifies this
      ensures Valid() && Contents() == old(Contents()) + chunk
    {
      hide Flatten, Footprints, FootprintOf, AddCell;
      var before := Contents();
      ghost var all := before + chunk;
      JoinedValid(schema, before, chunk);
      ghost var was := chunks;
      FlattenAppend(was, chunk);
      assert before == Flatten(was);
      var columns := footprints;
      var i := 0;
      while i < |schema.columns|
        invariant 0 <= i <= |schema.columns| == |columns|
        invariant unchanged(this)
        invariant forall c :: 0 <= c < i ==> columns[c] == Footprints(schema, all)[c]
        invariant forall c :: i <= c < |columns| ==> columns[c] == Footprints(schema, before)[c]
      {
        var added := AddColumn(schema, i, columns[i], before, chunk);
        columns := columns[i := added];
        i := i + 1;
      }
      assert columns == Footprints(schema, all);
      footprints := columns;
      rowCount := rowCount + |chunk|;
      size := PriceFootprints(schema, footprints, rowCount, statistics);
      PriceIs(schema, all, statistics);
      chunks := chunks + [chunk];
      assert Contents() == Flatten(was + [chunk]) == Flatten(was) + chunk;
    }

    /** Drop every buffered row, which the caller has just published. */
    method Clear()
      modifies this
      ensures Valid() && Contents() == []
    {
      chunks, rowCount, size := [], 0, NO_SIZE;
      footprints := seq(|schema.columns|, _ => EMPTY);
    }
  }

  /** One column's counters after every row of a chunk. */
  method AddColumn(schema: Schema, i: nat, f: Footprint, ghost before: seq<Row>, chunk: seq<Row>) returns (r: Footprint)
    requires ValidRows(schema, before + chunk) && ValidRows(schema, before) && ValidRows(schema, chunk)
    requires i < |schema.columns| && f == Footprints(schema, before)[i]
    ensures r == Footprints(schema, before + chunk)[i]
  {
    hide ValidRow, AddCell, Footprints;
    ghost var t := schema.columns[i].logicalType;
    ghost var earlier, added := CellsOf(schema, before, i), CellsOf(schema, chunk, i);
    FootprintsAre(schema, before, i);
    r := f;
    var row := 0;
    assert earlier + added[..0] == earlier;
    while row < |chunk|
      invariant 0 <= row <= |chunk|
      invariant r == FootprintOf(t, earlier + added[..row])
    {
      CellPresent(schema, chunk, row, i);
      assert (earlier + added[..row + 1])[..|earlier| + row] == earlier + added[..row];
      r := AddCell(schema.columns[i].logicalType, r, chunk[row][i]);
      row := row + 1;
    }
    assert earlier + added[..row] == CellsOf(schema, before + chunk, i);
    FootprintsAre(schema, before + chunk, i);
  }

  lemma CellPresent(schema: Schema, rows: seq<Row>, r: nat, i: nat)
    requires ValidRows(schema, rows) && r < |rows| && i < |schema.columns|
    ensures |rows[r]| == |schema.columns|
  {
    assert ValidRow(schema, rows[r]);
  }

  lemma JoinedValid(schema: Schema, a: seq<Row>, b: seq<Row>)
    requires ValidRows(schema, a) && ValidRows(schema, b)
    ensures ValidRows(schema, a + b)
  {
  }

  lemma FlattenAppend(chunks: seq<seq<Row>>, chunk: seq<Row>)
    ensures Flatten(chunks + [chunk]) == Flatten(chunks) + chunk
  {
    FlattenConcat(chunks, [chunk]);
    assert [chunk][1..] == [];
    assert Flatten([chunk]) == chunk + Flatten([]);
  }

  /**
   * How many rows of `batch` from `start` on the block being assembled can still take, found
   * by adding one row at a time to a copy of the buffer's counters.
   */
  method FittingRows(cfg: Config, buffer: BlockBuffer, batch: seq<Row>, start: nat) returns (r: Result<nat>)
    requires buffer.Valid() && buffer.schema == cfg.schema && buffer.statistics == cfg.statistics
    requires cfg.Valid() && ValidRows(cfg.schema, batch) && start <= |batch|
    ensures ValidRows(cfg.schema, batch[start..])
    ensures r == FittingPrefix(cfg, buffer.Contents(), batch[start..])
  {
    hide Price, PriceFootprints, Footprints, Flatten, ValidRow, Longest, Accepts, AddRow;
    ghost var rest := batch[start..];
    var held := buffer.Contents();
    var capacity := if buffer.rowCount >= cfg.rowTarget then 0 else cfg.rowTarget - buffer.rowCount;
    var maxRows := if |batch| - start <= capacity then |batch| - start else capacity;
    if maxRows == 0 {
      return Ok(0);
    }
    var footprints := buffer.footprints;
    var accepted := 0;
    assert held + rest[..0] == held;
    while accepted < maxRows
      invariant 0 <= accepted <= maxRows == MaxRows(cfg, held, rest)
      invariant ValidRows(cfg.schema, held + rest[..accepted])
      invariant footprints == Footprints(cfg.schema, held + rest[..accepted])
      invariant Longest(cfg, held, rest, 0) == Longest(cfg, held, rest, accepted)
    {
      ghost var grown := held + rest[..accepted + 1];
      OneMore(cfg.schema, held, rest, accepted);
      footprints := AddRowTo(cfg.schema, footprints, batch[start + accepted]);
      assert footprints == Footprints(cfg.schema, grown);
      var size := PriceFootprints(cfg.schema, footprints, buffer.rowCount + accepted + 1, cfg.statistics);
      PriceIs(cfg.schema, grown, cfg.statistics);
      LongestStep(cfg, held, rest, accepted);
      var unavoidable := buffer.rowCount == 0 && accepted == 0;
      if !size.WithinFormatLimits(buffer.rowCount + accepted + 1) || (size.frame > cfg.byteTarget && !unavoidable) {
        break;
      }
      accepted := accepted + 1;
    }
    if accepted == maxRows {
      LongestEnds(cfg, held, rest);
    }
    r := if accepted == 0 && buffer.rowCount == 0 then Err(InvalidArgument) else Ok(accepted);
  }

  /** One row is accepted exactly when its grown price passes both tests. */
  lemma LongestStep(cfg: Config, held: seq<Row>, rest: seq<Row>, j: nat)
    requires Inputs(cfg, held, rest) && j < MaxRows(cfg, held, rest) && ValidRows(cfg.schema, held + rest[..j + 1])
    ensures
      var size := Price(cfg.schema, held + rest[..j + 1], cfg.statistics);
      if size.WithinFormatLimits(|held| + j + 1) && (size.frame <= cfg.byteTarget || (|held| == 0 && j == 0))
      then Longest(cfg, held, rest, j) == Longest(cfg, held, rest, j + 1)
      else Longest(cfg, held, rest, j) == j
  {
    hide Price;
  }

  lemma LongestEnds(cfg: Config, held: seq<Row>, rest: seq<Row>)
    requires Inputs(cfg, held, rest)
    ensures Longest(cfg, held, rest, MaxRows(cfg, held, rest)) == MaxRows(cfg, held, rest)
  {
  }

  lemma PriceIs(schema: Schema, rows: seq<Row>, policy: Policy)
    requires ValidRows(schema, rows)
    ensures Price(schema, rows, policy) == PriceFootprints(schema, Footprints(schema, rows), |rows|, policy)
  {
  }

  lemma OneMore(schema: Schema, held: seq<Row>, rest: seq<Row>, n: nat)
    requires ValidRows(schema, held) && ValidRows(schema, rest) && n < |rest|
    ensures ValidRows(schema, held + rest[..n]) && ValidRows(schema, held + rest[..n + 1]) && |rest[n]| == |schema.columns|
    ensures Footprints(schema, held + rest[..n + 1]) == AddRow(schema, Footprints(schema, held + rest[..n]), rest[n])
  {
    hide AddRow;
    assert ValidRow(schema, rest[n]);
    var grown := held + rest[..n + 1];
    assert grown[..|grown| - 1] == held + rest[..n] && grown[|grown| - 1] == rest[n];
  }

  /** Add one row to a copy of the counters, column by column. */
  method AddRowTo(schema: Schema, fs: seq<Footprint>, row: Row) returns (r: seq<Footprint>)
    requires |fs| == |schema.columns| == |row|
    ensures r == AddRow(schema, fs, row)
  {
    r := fs;
    var i := 0;
    while i < |fs|
      invariant 0 <= i <= |fs| == |r|
      invariant forall c :: 0 <= c < i ==> r[c] == AddCell(schema.columns[c].logicalType, fs[c], row[c])
      invariant forall c :: i <= c < |fs| ==> r[c] == fs[c]
    {
      r := r[i := AddCell(schema.columns[i].logicalType, r[i], row[i])];
      i := i + 1;
    }
    assert r == AddRow(schema, fs, row);
  }
}
