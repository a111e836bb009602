/** Exactly which batches an append takes whole. */
module AppendAccepts {
  import opened Core
  import opened Schema
  import opened Rows
  import opened Pricing
  import opened Assembler

  function Joined(f: Footprint, g: Footprint): Footprint {
    Footprint(f.dense + g.dense, f.nulls + g.nulls, f.variable + g.variable)
  }

  /** Counters add up over concatenation. */
  lemma {:induction false} FootprintsJoin(schema: Schema, a: seq<Row>, b: seq<Row>, i: nat)
    requires ValidRows(schema, a + b) && i < |schema.columns|
    ensures ValidRows(schema, a) && ValidRows(schema, b)
    ensures Footprints(schema, a + b)[i] == Joined(Footprints(schema, a)[i], Footprints(schema, b)[i])
    decreases |b|
  {
    hide ValidRow, AddCell;
    PrefixIsValid(schema, a, b);
    if b == [] {
      assert a + b == a;
    } else {
      var n := |b| - 1;
      assert (a + b)[..|a| + n] == a + b[..n];
      PrefixIsValid(schema, a + b[..n], [b[n]]);
      FootprintsJoin(schema, a, b[..n], i);
      RowIsWide(schema, b, n);
      CellsJoin(schema.columns[i].logicalType, Footprints(schema, a)[i], Footprints(schema, b[..n])[i], b[n][i]);
    }
  }

  lemma RowIsWide(schema: Schema, rows: seq<Row>, r: nat)
    requires ValidRows(schema, rows) && r < |rows|
    ensures |rows[r]| == |schema.columns|
  {
    assert ValidRow(schema, rows[r]);
  }

  lemma CellsJoin(t: LogicalType, f: Footprint, g: Footprint, cell: Cell)
    ensures AddCell(t, Joined(f, g), cell) == Joined(f, AddCell(t, g, cell))
  {
  }

  /** A row costs no more alone than inside a block. */
  lemma RowIsCheaperAlone(schema: Schema, before: seq<Row>, row: Row, after: seq<Row>, policy: Policy)
    requires ValidRows(schema, before + [row] + after)
    ensures ValidRows(schema, [row])
    ensures Price(schema, [row], policy).AtMost(Price(schema, before + [row] + after, policy))
  {
    hide ValidRow, Footprints, TotalsOf;
    var all := before + [row] + after;
    assert all == before + ([row] + after);
    PrefixIsValid(schema, before, [row] + after);
    PrefixIsValid(schema, [row], after);
    var fs, gs := Footprints(schema, [row]), Footprints(schema, all);
    forall i | 0 <= i < |fs| ensures fs[i].AtMost(gs[i]) {
      FootprintsJoin(schema, before, [row] + after, i);
      FootprintsJoin(schema, [row], after, i);
    }
    TotalsGrow(schema, fs, gs, 1, |all|, policy, |fs|);
    SizeGrows(|schema.columns|, TotalsOf(schema, fs, 1, policy, |fs|), TotalsOf(schema, gs, |all|, policy, |gs|));
  }

  lemma WritableAlone(cfg: Config, block: seq<Row>, j: nat)
    requires ValidRows(cfg.schema, block) && Writable(cfg, block) && j < |block|
    ensures ValidRows(cfg.schema, [block[j]]) && Writable(cfg, [block[j]])
  {
    hide Price, ValidRow;
    assert block == block[..j] + [block[j]] + block[j + 1..];
    RowIsCheaperAlone(cfg.schema, block[..j], block[j], block[j + 1..], cfg.statistics);
  }

  ghost predicate EachWritable(cfg: Config, rows: seq<Row>)
    requires ValidRows(cfg.schema, rows)
  {
    forall j :: 0 <= j < |rows| ==> ValidRows(cfg.schema, [rows[j]]) && Writable(cfg, [rows[j]])
  }

  lemma {:induction false} TakenAreWritable(cfg: Config, buffer: seq<Row>, rows: seq<Row>)
    requires Inputs(cfg, buffer, rows) && Assemble(cfg, buffer, rows).ok
    ensures EachWritable(cfg, rows)
    decreases |rows|, |buffer|
  {
    hide Price, FittingPrefix, Reached, ValidRow;
    if rows != [] {
      var take := FittingPrefix(cfg, buffer, rows).value;
      if take == 0 {
        ZeroPrefixNeedsBuffer(cfg, buffer, rows);
        TakenAreWritable(cfg, [], rows);
      } else {
        PrefixBound(cfg, buffer, rows);
        GrownIsPublishable(cfg, buffer, rows);
        var grown := buffer + rows[..take];
        TakenAreWritable(cfg, if Reached(cfg, grown) then [] else grown, rows[take..]);
        forall j | 0 <= j < |rows| ensures ValidRows(cfg.schema, [rows[j]]) && Writable(cfg, [rows[j]]) {
          if j < take {
            WritableAlone(cfg, grown, |buffer| + j);
            assert grown[|buffer| + j] == rows[j];
          } else {
            assert rows[j] == rows[take..][j - take];
          }
        }
      }
    }
  }

  /**
   * An append takes the whole batch if and only if every row of it could be written alone,
   * whatever is already buffered and however the rows divide into blocks.
   */
  lemma AppendAcceptsExactly(cfg: Config, buffer: seq<Row>, rows: seq<Row>)
    requires Inputs(cfg, buffer, rows)
    ensures Assemble(cfg, buffer, rows).ok <==> EachWritable(cfg, rows)
  {
    hide Price, Assemble, ValidRow;
    RowsAreConserved(cfg, buffer, rows);
    if Assemble(cfg, buffer, rows).ok {
      TakenAreWritable(cfg, buffer, rows);
    }
  }
}
