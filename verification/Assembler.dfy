/** The greedy division of appended rows into blocks. */
module Assembler {
  import opened Core
  import opened Bytes
  import opened Limits
  import opened Schema
  import opened Rows
  import opened Pricing

  /** The writer options that decide where blocks end. */
  datatype Config = Config(schema: Schema, rowTarget: nat, byteTarget: nat, statistics: Policy) {
    /** Options that could produce a readable file. */
    predicate Valid() {
      && 0 < rowTarget <= DEFAULT.maxRowsPerBlock
      && 0 < byteTarget <= DEFAULT.maxFramePayloadLength
    }
  }

  function Size(cfg: Config, rows: seq<Row>): BlockSize
    requires ValidRows(cfg.schema, rows)
  {
    Price(cfg.schema, rows, cfg.statistics)
  }

  /** Whether a block of these rows could be written at all. */
  predicate Writable(cfg: Config, rows: seq<Row>)
    requires ValidRows(cfg.schema, rows)
  {
    Size(cfg, rows).WithinFormatLimits(|rows|)
  }

  predicate Inputs(cfg: Config, buffer: seq<Row>, rows: seq<Row>) {
    cfg.Valid() && ValidRows(cfg.schema, buffer) && ValidRows(cfg.schema, rows)
  }

  /**
   * Whether row `j` of `rows` may join a block that already holds `buffer` and the rows
   * before it.  A row too large for the byte target is still written, as a block of its own.
   */
  predicate Accepts(cfg: Config, buffer: seq<Row>, rows: seq<Row>, j: nat)
    requires Inputs(cfg, buffer, rows) && j < |rows|
  {
    var grown := buffer + rows[..j + 1];
    Writable(cfg, grown) && (Size(cfg, grown).frame <= cfg.byteTarget || (buffer == [] && j == 0))
  }

  /** The rows the row target still leaves room for. */
  function MaxRows(cfg: Config, buffer: seq<Row>, rows: seq<Row>): (m: nat)
    ensures m <= |rows|
  {
    var capacity := if |buffer| >= cfg.rowTarget then 0 else cfg.rowTarget - |buffer|;
    if |rows| <= capacity then |rows| else capacity
  }

  /** The first row from `j` on that the block does not accept. */
  function Longest(cfg: Config, buffer: seq<Row>, rows: seq<Row>, j: nat): (k: nat)
    requires Inputs(cfg, buffer, rows) && j <= MaxRows(cfg, buffer, rows)
    ensures j <= k <= MaxRows(cfg, buffer, rows)
    decreases |rows| - j
  {
    if j < MaxRows(cfg, buffer, rows) && Accepts(cfg, buffer, rows, j) then Longest(cfg, buffer, rows, j + 1) else j
  }

  /** How many rows the block being assembled can still take; zero asks for a publication. */
  function FittingPrefix(cfg: Config, buffer: seq<Row>, rows: seq<Row>): Result<nat>
    requires Inputs(cfg, buffer, rows)
  {
    if MaxRows(cfg, buffer, rows) == 0 then Ok(0)
    else
      var k := Longest(cfg, buffer, rows, 0);
      if k == 0 && buffer == [] then Err(InvalidArgument) else Ok(k)
  }

  /** Whether the buffer has reached either target. */
  predicate Reached(cfg: Config, buffer: seq<Row>)
    requires ValidRows(cfg.schema, buffer)
  {
    |buffer| >= cfg.rowTarget || Size(cfg, buffer).frame >= cfg.byteTarget
  }

  /**
   * The blocks an append publishes, what it leaves buffered, how many of its rows it took,
   * and whether it took them all.
   */
  datatype Assembly = Assembly(blocks: seq<seq<Row>>, rest: seq<Row>, consumed: nat, ok: bool)

  function After(block: seq<Row>, taken: nat, later: Assembly): Assembly {
    later.(blocks := [block] + later.blocks, consumed := taken + later.consumed)
  }

  function Assemble(cfg: Config, buffer: seq<Row>, rows: seq<Row>): (a: Assembly)
    requires Inputs(cfg, buffer, rows)
    ensures a.consumed <= |rows|
    decreases |rows|, |buffer|
  {
    if rows == [] then Assembly([], buffer, 0, true)
    else
      match FittingPrefix(cfg, buffer, rows)
      case Err(_) => Assembly([], buffer, 0, false)
      case Ok(take) =>
        if take == 0 then After(buffer, 0, Assemble(cfg, [], rows))
        else
          var grown := buffer + rows[..take];
          if Reached(cfg, grown) then After(grown, take, Assemble(cfg, [], rows[take..]))
          else
            var later := Assemble(cfg, grown, rows[take..]);
            later.(consumed := take + later.consumed)
  }

  /** One turn of the assembly, by what the next prefix turns out to be. */
  lemma AssembleTurn(cfg: Config, buffer: seq<Row>, rows: seq<Row>)
    requires Inputs(cfg, buffer, rows) && rows != []
    ensures
      var a := Assemble(cfg, buffer, rows);
      var prefix := FittingPrefix(cfg, buffer, rows);
      && (prefix.Err? ==> a == Assembly([], buffer, 0, false))
      && (prefix.Ok? ==> prefix.value <= |rows|)
      && (prefix == Ok(0) ==> buffer != [] && a == After(buffer, 0, Assemble(cfg, [], rows)))
    ensures
      var a := Assemble(cfg, buffer, rows);
      var prefix := FittingPrefix(cfg, buffer, rows);
      prefix.Ok? && prefix.value > 0 ==>
        var grown, rest := buffer + rows[..prefix.value], rows[prefix.value..];
        && Inputs(cfg, grown, rest)
        && (Reached(cfg, grown) ==> a == After(grown, prefix.value, Assemble(cfg, [], rest)))
        && (!Reached(cfg, grown) ==>
              a == Assemble(cfg, grown, rest).(consumed := prefix.value + Assemble(cfg, grown, rest).consumed))
  {
    hide Price, Reached, Longest;
  }

  // -------------------------------------------------------------------- bounds

  /** A block the writer may publish. */
  ghost predicate Publishable(cfg: Config, block: seq<Row>) {
    && ValidRows(cfg.schema, block)
    && 0 < |block| <= cfg.rowTarget
    && Writable(cfg, block)
    && (Size(cfg, block).frame <= cfg.byteTarget || |block| == 1)
  }

  /** A buffer that could be published as it stands. */
  ghost predicate Holdable(cfg: Config, buffer: seq<Row>) {
    ValidRows(cfg.schema, buffer) && (buffer != [] ==> Publishable(cfg, buffer))
  }

  /** A buffer strictly below both targets. */
  ghost predicate Below(cfg: Config, buffer: seq<Row>) {
    Holdable(cfg, buffer) && (buffer != [] ==> !Reached(cfg, buffer))
  }

  /** Rows taken by a prefix are all accepted, and the next one within reach is not. */
  lemma {:induction false} LongestFacts(cfg: Config, buffer: seq<Row>, rows: seq<Row>, j: nat)
    requires Inputs(cfg, buffer, rows) && j <= MaxRows(cfg, buffer, rows)
    ensures
      var k := Longest(cfg, buffer, rows, j);
      && (forall i :: j <= i < k ==> Accepts(cfg, buffer, rows, i))
      && (k < MaxRows(cfg, buffer, rows) ==> !Accepts(cfg, buffer, rows, k))
    decreases |rows| - j
  {
    hide Accepts, MaxRows;
    if j < MaxRows(cfg, buffer, rows) && Accepts(cfg, buffer, rows, j) {
      LongestFacts(cfg, buffer, rows, j + 1);
    }
  }

  /** What a nonempty prefix makes of the buffer. */
  lemma GrownIsPublishable(cfg: Config, buffer: seq<Row>, rows: seq<Row>)
    requires Inputs(cfg, buffer, rows)
    requires FittingPrefix(cfg, buffer, rows).Ok? && FittingPrefix(cfg, buffer, rows).value > 0
    ensures Publishable(cfg, buffer + rows[..FittingPrefix(cfg, buffer, rows).value])
  {
    hide Price;
    var k := FittingPrefix(cfg, buffer, rows).value;
    LongestFacts(cfg, buffer, rows, 0);
    assert Accepts(cfg, buffer, rows, k - 1);
  }

  /**
   * Every published block is within the row target and the format limits, and within the
   * byte target unless it holds one row; what stays buffered is below both targets.
   */
  lemma {:induction false} BlocksAreBounded(cfg: Config, buffer: seq<Row>, rows: seq<Row>)
    requires Inputs(cfg, buffer, rows) && Holdable(cfg, buffer)
    ensures
      var a := Assemble(cfg, buffer, rows);
      && (forall b :: b in a.blocks ==> Publishable(cfg, b))
      && Holdable(cfg, a.rest)
      && ((rows != [] && a.ok) || Below(cfg, buffer) ==> Below(cfg, a.rest))
    decreases |rows|, |buffer|
  {
    hide Price, FittingPrefix;
    if rows != [] && FittingPrefix(cfg, buffer, rows).Ok? {
      var take := FittingPrefix(cfg, buffer, rows).value;
      if take == 0 {
        ZeroPrefixNeedsBuffer(cfg, buffer, rows);
        BlocksAreBounded(cfg, [], rows);
      } else {
        PrefixBound(cfg, buffer, rows);
        GrownIsPublishable(cfg, buffer, rows);
        var grown := buffer + rows[..take];
        BlocksAreBounded(cfg, if Reached(cfg, grown) then [] else grown, rows[take..]);
      }
    }
  }

  /** A zero prefix only occurs with a nonempty buffer, which publishing then clears. */
  lemma ZeroPrefixNeedsBuffer(cfg: Config, buffer: seq<Row>, rows: seq<Row>)
    requires Inputs(cfg, buffer, rows) && rows != [] && FittingPrefix(cfg, buffer, rows) == Ok(0)
    ensures buffer != []
  {
  }

  lemma PrefixBound(cfg: Config, buffer: seq<Row>, rows: seq<Row>)
    requires Inputs(cfg, buffer, rows) && FittingPrefix(cfg, buffer, rows).Ok?
    ensures FittingPrefix(cfg, buffer, rows).value <= |rows|
  {
  }

  // -------------------------------------------------------------- conservation

  function Flatten(blocks: seq<seq<Row>>): seq<Row> {
    if blocks == [] then [] else blocks[0] + Flatten(blocks[1..])
  }

  lemma {:induction false} FlattenConcat(a: seq<seq<Row>>, b: seq<seq<Row>>)
    ensures Flatten(a + b) == Flatten(a) + Flatten(b)
  {
    if a == [] {
      assert a + b == b;
    } else {
      assert (a + b)[1..] == a[1..] + b;
      FlattenConcat(a[1..], b);
    }
  }

  lemma FlattenAfter(block: seq<Row>, taken: nat, later: Assembly)
    ensures Flatten(After(block, taken, later).blocks) + later.rest == block + (Flatten(later.blocks) + later.rest)
  {
    var all := After(block, taken, later).blocks;
    assert all[1..] == later.blocks;
  }

  /** An append refuses a row exactly when no block could hold that row alone. */
  lemma RefusedRowIsUnwritable(cfg: Config, buffer: seq<Row>, rows: seq<Row>)
    requires Inputs(cfg, buffer, rows) && rows != [] && FittingPrefix(cfg, buffer, rows).Err?
    ensures buffer == [] && !Writable(cfg, [rows[0]])
  {
    hide Price;
    assert rows[..1] == [rows[0]] && buffer + rows[..1] == rows[..1];
  }

  /** No row is lost, repeated or reordered: blocks and buffer hold exactly what was taken. */
  lemma {:induction false} RowsAreConserved(cfg: Config, buffer: seq<Row>, rows: seq<Row>)
    requires Inputs(cfg, buffer, rows)
    ensures
      var a := Assemble(cfg, buffer, rows);
      && Flatten(a.blocks) + a.rest == buffer + rows[..a.consumed]
      && (a.ok <==> a.consumed == |rows|)
      && (!a.ok ==> a.rest == [] && !Writable(cfg, [rows[a.consumed]]))
    decreases |rows|, |buffer|
  {
    hide Price, Reached, FittingPrefix, Writable, Flatten;
    FlattenEmpty();
    if rows != [] {
      var prefix := FittingPrefix(cfg, buffer, rows);
      if prefix.Err? {
        RefusedRowIsUnwritable(cfg, buffer, rows);
        assert rows[..0] == [];
      } else if prefix.value == 0 {
        ZeroPrefixNeedsBuffer(cfg, buffer, rows);
        RowsAreConserved(cfg, [], rows);
        FlattenAfter(buffer, 0, Assemble(cfg, [], rows));
        assert [] + rows[..Assemble(cfg, [], rows).consumed] == rows[..Assemble(cfg, [], rows).consumed];
      } else {
        TakenIsConserved(cfg, buffer, rows, prefix.value);
      }
    }
  }

  lemma FlattenEmpty()
    ensures Flatten([]) == []
  {
  }

  lemma {:induction false} TakenIsConserved(cfg: Config, buffer: seq<Row>, rows: seq<Row>, take: nat)
    requires Inputs(cfg, buffer, rows) && rows != []
    requires FittingPrefix(cfg, buffer, rows) == Ok(take) && take > 0
    ensures
      var a := Assemble(cfg, buffer, rows);
      && Flatten(a.blocks) + a.rest == buffer + rows[..a.consumed]
      && (a.ok <==> a.consumed == |rows|)
      && (!a.ok ==> a.rest == [] && !Writable(cfg, [rows[a.consumed]]))
    decreases |rows|, |buffer|, 0
  {
    hide Price, Reached, FittingPrefix, Writable, Flatten, Assemble;
    AssembleTurn(cfg, buffer, rows);
    var a := Assemble(cfg, buffer, rows);
    var grown := buffer + rows[..take];
    var start := if Reached(cfg, grown) then [] else grown;
    RowsAreConserved(cfg, start, rows[take..]);
    var later := Assemble(cfg, start, rows[take..]);
    FlattenAfter(grown, take, later);
    var taken := rows[take..][..later.consumed];
    assert rows[..take] + taken == rows[..a.consumed];
    assert grown + taken == buffer + rows[..a.consumed];
    assert [] + taken == taken;
  }

  // ------------------------------------------------------- chunking independence

  /** Two appends in a row. */
  function Then(first: Assembly, second: Assembly): Assembly {
    Assembly(first.blocks + second.blocks, second.rest, first.consumed + second.consumed, second.ok)
  }

  lemma {:induction false} RowsStayValid(cfg: Config, buffer: seq<Row>, rows: seq<Row>)
    requires Inputs(cfg, buffer, rows)
    ensures ValidRows(cfg.schema, Assemble(cfg, buffer, rows).rest)
    decreases |rows|, |buffer|
  {
    hide Price, Reached, FittingPrefix;
    if rows != [] && FittingPrefix(cfg, buffer, rows).Ok? {
      var take := FittingPrefix(cfg, buffer, rows).value;
      if take == 0 {
        ZeroPrefixNeedsBuffer(cfg, buffer, rows);
        RowsStayValid(cfg, [], rows);
      } else {
        PrefixBound(cfg, buffer, rows);
        var grown := buffer + rows[..take];
        RowsStayValid(cfg, if Reached(cfg, grown) then [] else grown, rows[take..]);
      }
    }
  }

  /** A block priced exactly at the byte target that could still take a row for free. */
  ghost predicate Tie(cfg: Config, block: seq<Row>, row: Row) {
    && 0 < |block| < cfg.rowTarget
    && ValidRows(cfg.schema, block + [row])
    && ValidRows(cfg.schema, block)
    && Writable(cfg, block + [row])
    && Size(cfg, block).frame == Size(cfg, block + [row]).frame == cfg.byteTarget
  }

  ghost predicate NoTie(cfg: Config) {
    forall block, row :: !Tie(cfg, block, row)
  }

  /** Every priced frame is a multiple of eight, so a target that is not one never ties. */
  lemma UnalignedTargetHasNoTie(cfg: Config)
    requires cfg.Valid() && cfg.byteTarget % 8 != 0
    ensures NoTie(cfg)
  {
    hide Price;
    forall block, row ensures !Tie(cfg, block, row) {
      if Tie(cfg, block, row) {
        PriceIsAligned(cfg.schema, block + [row], cfg.statistics);
      }
    }
  }

  lemma AcceptsFirst(cfg: Config, buffer: seq<Row>, rows: seq<Row>)
    requires Inputs(cfg, buffer, rows) && rows != []
    ensures Accepts(cfg, buffer, rows, 0) <==> Accepts(cfg, buffer, rows[..1], 0)
  {
    hide Price;
    assert rows[..1][..1] == rows[..1];
  }

  /** A prefix takes at least one row exactly when it would take the first row alone. */
  lemma PrefixOfFirst(cfg: Config, buffer: seq<Row>, rows: seq<Row>)
    requires Inputs(cfg, buffer, rows) && rows != []
    ensures
      var whole, first := FittingPrefix(cfg, buffer, rows), FittingPrefix(cfg, buffer, rows[..1]);
      && (whole.Err? <==> first.Err?)
      && (whole == Ok(0) <==> first == Ok(0))
      && (whole.Ok? && whole.value > 0 ==> first == Ok(1))
  {
    hide Accepts;
    AcceptsFirst(cfg, buffer, rows);
    LongestFacts(cfg, buffer, rows, 0);
    LongestFacts(cfg, buffer, rows[..1], 0);
  }

  lemma AcceptsShift(cfg: Config, buffer: seq<Row>, rows: seq<Row>, j: nat)
    requires Inputs(cfg, buffer, rows) && 1 <= j < |rows|
    ensures Accepts(cfg, buffer, rows, j) <==> Accepts(cfg, buffer + rows[..1], rows[1..], j - 1)
  {
    hide Price;
    assert buffer + rows[..j + 1] == (buffer + rows[..1]) + rows[1..][..j];
  }

  lemma {:induction false} LongestShift(cfg: Config, buffer: seq<Row>, rows: seq<Row>, j: nat)
    requires Inputs(cfg, buffer, rows) && 1 <= j <= MaxRows(cfg, buffer, rows)
    ensures MaxRows(cfg, buffer + rows[..1], rows[1..]) == MaxRows(cfg, buffer, rows) - 1
    ensures Longest(cfg, buffer, rows, j) == 1 + Longest(cfg, buffer + rows[..1], rows[1..], j - 1)
    decreases |rows| - j
  {
    hide Accepts;
    if j < MaxRows(cfg, buffer, rows) {
      AcceptsShift(cfg, buffer, rows, j);
      if Accepts(cfg, buffer, rows, j) {
        LongestShift(cfg, buffer, rows, j + 1);
      }
    }
  }

  /** Without ties, a block that the first row completes takes only that row. */
  lemma CompletingRowStandsAlone(cfg: Config, buffer: seq<Row>, rows: seq<Row>)
    requires Inputs(cfg, buffer, rows) && rows != [] && NoTie(cfg)
    requires FittingPrefix(cfg, buffer, rows).Ok? && FittingPrefix(cfg, buffer, rows).value > 0
    requires Reached(cfg, buffer + rows[..1])
    ensures FittingPrefix(cfg, buffer, rows) == Ok(1)
  {
    hide Price;
    var one := buffer + rows[..1];
    LongestFacts(cfg, buffer, rows, 0);
    assert Accepts(cfg, buffer, rows, 0);
    if |one| < cfg.rowTarget && |rows| > 1 {
      assert buffer + rows[..2] == one + [rows[1]];
      PriceGrows(cfg.schema, one, [rows[1]], cfg.statistics);
      assert !Tie(cfg, one, rows[1]);
      assert !Accepts(cfg, buffer, rows, 1);
    }
  }

  /** Without ties, taking many rows at once is taking the first and then the rest. */
  lemma OpenBlockStep(cfg: Config, buffer: seq<Row>, rows: seq<Row>)
    requires Inputs(cfg, buffer, rows) && rows != []
    requires FittingPrefix(cfg, buffer, rows).Ok? && FittingPrefix(cfg, buffer, rows).value > 0
    requires !Reached(cfg, buffer + rows[..1])
    ensures
      var later := Assemble(cfg, buffer + rows[..1], rows[1..]);
      Assemble(cfg, buffer, rows) == later.(consumed := 1 + later.consumed)
  {
    hide Price, Accepts, Reached, FittingPrefix, Assemble;
    var one := buffer + rows[..1];
    var k := FittingPrefix(cfg, buffer, rows).value;
    PrefixShift(cfg, buffer, rows);
    AssembleTurn(cfg, buffer, rows);
    if k > 1 {
      AssembleTurn(cfg, one, rows[1..]);
      assert one + rows[1..][..k - 1] == buffer + rows[..k];
      assert rows[1..][k - 1..] == rows[k..];
    }
  }

  /** The rest of a prefix is the prefix of the rest. */
  lemma PrefixShift(cfg: Config, buffer: seq<Row>, rows: seq<Row>)
    requires Inputs(cfg, buffer, rows) && rows != []
    requires FittingPrefix(cfg, buffer, rows).Ok? && FittingPrefix(cfg, buffer, rows).value > 0
    ensures FittingPrefix(cfg, buffer, rows).value > 1 ==>
              FittingPrefix(cfg, buffer + rows[..1], rows[1..]) == Ok(FittingPrefix(cfg, buffer, rows).value - 1)
  {
    hide Price, Accepts;
    LongestFacts(cfg, buffer, rows, 0);
    LongestShift(cfg, buffer, rows, 1);
    assert Longest(cfg, buffer, rows, 0) == Longest(cfg, buffer, rows, 1);
  }

  /** Appending rows together is appending the first and then the others. */
  lemma {:induction false} AssembleFirst(cfg: Config, buffer: seq<Row>, rows: seq<Row>)
    requires Inputs(cfg, buffer, rows) && rows != [] && NoTie(cfg)
    ensures
      var first := Assemble(cfg, buffer, rows[..1]);
      && ValidRows(cfg.schema, first.rest)
      && Assemble(cfg, buffer, rows)
         == if first.ok then Then(first, Assemble(cfg, first.rest, rows[1..])) else first
    decreases |buffer|
  {
    hide Price, Reached, FittingPrefix;
    PrefixOfFirst(cfg, buffer, rows);
    RowsStayValid(cfg, buffer, rows[..1]);
    var first := Assemble(cfg, buffer, rows[..1]);
    var prefix := FittingPrefix(cfg, buffer, rows);
    if prefix.Ok? {
      if prefix.value == 0 {
        ZeroPrefixNeedsBuffer(cfg, buffer, rows);
        AssembleFirst(cfg, [], rows);
        var f := Assemble(cfg, [], rows[..1]);
        if f.ok {
          assert [buffer] + (f.blocks + Assemble(cfg, f.rest, rows[1..]).blocks)
              == ([buffer] + f.blocks) + Assemble(cfg, f.rest, rows[1..]).blocks;
        }
      } else {
        var one := buffer + rows[..1];
        assert rows[..1][..1] == rows[..1] && rows[..1][1..] == [];
        if Reached(cfg, one) {
          CompletingRowStandsAlone(cfg, buffer, rows);
          assert first == Assembly([one], [], 1, true);
        } else {
          OpenBlockStep(cfg, buffer, rows);
          assert first == Assembly([], one, 1, true);
        }
      }
    }
  }

  /** Appending one run of rows after another. */
  function AppendAll(cfg: Config, buffer: seq<Row>, chunks: seq<seq<Row>>): (a: Assembly)
    requires cfg.Valid() && ValidRows(cfg.schema, buffer)
    requires forall c :: c in chunks ==> ValidRows(cfg.schema, c)
    decreases |chunks|
  {
    if chunks == [] then Assembly([], buffer, 0, true)
    else
      var first := Assemble(cfg, buffer, chunks[0]);
      RowsStayValid(cfg, buffer, chunks[0]);
      if !first.ok then first else Then(first, AppendAll(cfg, first.rest, chunks[1..]))
  }

  lemma ThenAssociates(a: Assembly, b: Assembly, c: Assembly)
    ensures Then(Then(a, b), c) == Then(a, Then(b, c))
  {
    assert (a.blocks + b.blocks) + c.blocks == a.blocks + (b.blocks + c.blocks);
  }

  /** Without ties, one append of two runs is an append of each. */
  lemma {:induction false} AssembleSplits(cfg: Config, buffer: seq<Row>, a: seq<Row>, b: seq<Row>)
    requires Inputs(cfg, buffer, a + b) && NoTie(cfg)
    ensures Inputs(cfg, buffer, a)
    ensures
      var first := Assemble(cfg, buffer, a);
      && Inputs(cfg, first.rest, b)
      && Assemble(cfg, buffer, a + b) == if first.ok then Then(first, Assemble(cfg, first.rest, b)) else first
    decreases |a|
  {
    hide Price, Reached, FittingPrefix, Assemble, ValidRow;
    PrefixIsValid(cfg.schema, a, b);
    RowsStayValid(cfg, buffer, a);
    if a == [] {
      assert a + b == b;
      AssembleNothing(cfg, buffer, b);
    } else {
      assert (a + b)[..1] == a[..1] && (a + b)[1..] == a[1..] + b;
      AssembleFirst(cfg, buffer, a + b);
      AssembleFirst(cfg, buffer, a);
      var f := Assemble(cfg, buffer, a[..1]);
      if f.ok {
        AssembleSplits(cfg, f.rest, a[1..], b);
        var g := Assemble(cfg, f.rest, a[1..]);
        if g.ok {
          ThenAssociates(f, g, Assemble(cfg, g.rest, b));
        }
      }
    }
  }

  lemma AssembleNothing(cfg: Config, buffer: seq<Row>, b: seq<Row>)
    requires Inputs(cfg, buffer, b)
    ensures Assemble(cfg, buffer, []) == Assembly([], buffer, 0, true)
    ensures Then(Assembly([], buffer, 0, true), Assemble(cfg, buffer, b)) == Assemble(cfg, buffer, b)
  {
    assert [] + Assemble(cfg, buffer, b).blocks == Assemble(cfg, buffer, b).blocks;
  }

  /** Without ties, appending in chunks is appending everything at once. */
  lemma {:induction false} ChunksAssembleTogether(cfg: Config, buffer: seq<Row>, chunks: seq<seq<Row>>)
    requires cfg.Valid() && NoTie(cfg) && ValidRows(cfg.schema, buffer)
    requires forall c :: c in chunks ==> ValidRows(cfg.schema, c)
    ensures ValidRows(cfg.schema, Flatten(chunks))
    ensures AppendAll(cfg, buffer, chunks) == Assemble(cfg, buffer, Flatten(chunks))
    decreases |chunks|
  {
    hide Price, Reached, FittingPrefix, Assemble, ValidRow;
    if chunks == [] {
      AssembleNothing(cfg, buffer, []);
    } else {
      var first := Assemble(cfg, buffer, chunks[0]);
      RowsStayValid(cfg, buffer, chunks[0]);
      ChunksAssembleTogether(cfg, first.rest, chunks[1..]);
      AssembleSplits(cfg, buffer, chunks[0], Flatten(chunks[1..]));
    }
  }

  /** The published blocks and the buffer depend only on the rows, not on their division. */
  ghost predicate ChunkingIndependent(cfg: Config) {
    forall buffer, a: seq<seq<Row>>, b: seq<seq<Row>> ::
      && ValidRows(cfg.schema, buffer)
      && (forall c :: c in a ==> ValidRows(cfg.schema, c))
      && (forall c :: c in b ==> ValidRows(cfg.schema, c))
      && Flatten(a) == Flatten(b)
      && cfg.Valid()
      ==> AppendAll(cfg, buffer, a) == AppendAll(cfg, buffer, b)
  }

  /** Chunking never matters exactly when no block price can tie with the byte target. */
  lemma ChunkingIndependence(cfg: Config)
    requires cfg.Valid()
    ensures ChunkingIndependent(cfg) <==> NoTie(cfg)
  {
    hide Assemble, ValidRow, Size;
    if NoTie(cfg) {
      forall buffer, a: seq<seq<Row>>, b: seq<seq<Row>> |
        && ValidRows(cfg.schema, buffer)
        && (forall c :: c in a ==> ValidRows(cfg.schema, c))
        && (forall c :: c in b ==> ValidRows(cfg.schema, c))
        && Flatten(a) == Flatten(b)
        ensures AppendAll(cfg, buffer, a) == AppendAll(cfg, buffer, b)
      {
        ChunksAssembleTogether(cfg, buffer, a);
        ChunksAssembleTogether(cfg, buffer, b);
      }
    } else {
      var block, row :| Tie(cfg, block, row);
      TieMatters(cfg, block, row);
    }
  }

  lemma TiedBlockIsTakenWhole(cfg: Config, block: seq<Row>)
    requires cfg.Valid() && ValidRows(cfg.schema, block) && 0 < |block| <= cfg.rowTarget
    requires Writable(cfg, block) && Size(cfg, block).frame == cfg.byteTarget
    ensures Assemble(cfg, [], block) == Assembly([block], [], |block|, true)
  {
    hide Price, Accepts;
    var n := |block|;
    assert MaxRows(cfg, [], block) == n;
    forall j | 0 <= j < n ensures Accepts(cfg, [], block, j) {
      PrefixAccepted(cfg, block, j);
    }
    LongestFacts(cfg, [], block, 0);
    assert [] + block[..n] == block && block[n..] == [];
    assert FittingPrefix(cfg, [], block) == Ok(n);
  }

  lemma PrefixAccepted(cfg: Config, block: seq<Row>, j: nat)
    requires cfg.Valid() && ValidRows(cfg.schema, block) && j < |block| <= cfg.rowTarget
    requires Writable(cfg, block) && Size(cfg, block).frame == cfg.byteTarget
    ensures Accepts(cfg, [], block, j)
  {
    hide Price;
    assert [] + block[..j + 1] == block[..j + 1];
    assert block == block[..j + 1] + block[j + 1..];
    PriceGrows(cfg.schema, block[..j + 1], block[j + 1..], cfg.statistics);
  }

  /** One append of a tied block and its free row publishes them together; two appends do not. */
  lemma TieMatters(cfg: Config, block: seq<Row>, row: Row)
    requires cfg.Valid() && Tie(cfg, block, row)
    ensures !ChunkingIndependent(cfg)
  {
    hide Assemble, ValidRow, Price;
    var all := block + [row];
    PriceGrows(cfg.schema, block, [row], cfg.statistics);
    PrefixIsValid(cfg.schema, block, [row]);
    SmallerIsWritable(cfg, block, [row]);
    TiedBlockIsTakenWhole(cfg, all);
    TiedBlockIsTakenWhole(cfg, block);
    var together := AppendAll(cfg, [], [all]);
    var apart := AppendAll(cfg, [], [block, [row]]);
    assert [block, [row]][1..] == [[row]] && [all][1..] == [];
    assert together.blocks[0] == all;
    assert apart.blocks[0] == block;
    assert [[row]][1..] == [] && Flatten([[row]]) == [row];
    assert Flatten([all]) == all && Flatten([block, [row]]) == all;
    assert together != apart;
  }

  lemma SmallerIsWritable(cfg: Config, rows: seq<Row>, more: seq<Row>)
    requires ValidRows(cfg.schema, rows + more) && ValidRows(cfg.schema, rows) && Writable(cfg, rows + more)
    ensures Writable(cfg, rows)
  {
    hide Price;
    PriceGrows(cfg.schema, rows, more, cfg.statistics);
  }

  // -------------------------------------------------------- a tie, concretely

  const INT8: Column := Column(1, [], Int8, false)
  const INT8_SCHEMA: Schema := Schema(1, [INT8], None)

  /** One non-null Int8 column and a byte target of 232. */
  const TIED: Config := Config(INT8_SCHEMA, 65_536, 232, NoStatistics)

  function ZeroRows(n: nat): (rows: seq<Row>)
    ensures |rows| == n && ValidRows(INT8_SCHEMA, rows)
  {
    seq(n, _ => [Number(0)])
  }

  lemma {:induction false} ZeroRowFootprints(n: nat)
    ensures Footprints(INT8_SCHEMA, ZeroRows(n)) == [Footprint(n, 0, 0)]
  {
    if n > 0 {
      ZeroRowFootprints(n - 1);
      assert ZeroRows(n)[..n - 1] == ZeroRows(n - 1);
    }
  }

  /** A one-byte column costs its rows rounded up to eight, over a fixed 224 bytes. */
  lemma ZeroRowPrice(n: nat)
    requires 0 < n < 1000
    ensures Size(TIED, ZeroRows(n)) == BlockSize(144, Align8(n), 224 + Align8(n))
  {
    ZeroRowFootprints(n);
    var fs := Footprints(INT8_SCHEMA, ZeroRows(n));
    assert TotalsOf(INT8_SCHEMA, fs, n, NoStatistics, 0) == Totals(0, 0, 0);
    assert ColumnBytes(INT8, fs[0], n) == Align8(n) && ColumnStreams(INT8, fs[0]) == 1;
    assert TotalsOf(INT8_SCHEMA, fs, n, NoStatistics, 1) == Totals(Align8(n), 1, 0);
  }

  /** The same row, one append at a time. */
  function OneByOne(n: nat): (chunks: seq<seq<Row>>)
    ensures |chunks| == n && forall c :: c in chunks ==> c == ZeroRows(1) && ValidRows(INT8_SCHEMA, c)
  {
    if n == 0 then [] else [ZeroRows(1)] + OneByOne(n - 1)
  }

  /** One row alone already meets the target, so each append publishes its row. */
  lemma {:induction false} EachRowIsABlock(n: nat)
    ensures TIED.Valid() && AppendAll(TIED, [], OneByOne(n)) == Assembly(OneByOne(n), [], n, true)
    ensures Flatten(OneByOne(n)) == ZeroRows(n)
  {
    hide Size, Assemble;
    if n > 0 {
      EachRowIsABlock(n - 1);
      ZeroRowPrice(1);
      TiedBlockIsTakenWhole(TIED, ZeroRows(1));
      assert OneByOne(n)[1..] == OneByOne(n - 1) && OneByOne(n)[0] == ZeroRows(1);
      assert ZeroRows(1) + ZeroRows(n - 1) == ZeroRows(n);
    }
  }

  /** Eight rows in one append make one block; the same rows one at a time make eight. */
  lemma ChunkingMattersAtATie()
    ensures Assemble(TIED, [], ZeroRows(8)) == Assembly([ZeroRows(8)], [], 8, true)
    ensures Flatten(OneByOne(8)) == ZeroRows(8)
    ensures AppendAll(TIED, [], OneByOne(8)) == Assembly(OneByOne(8), [], 8, true) && |OneByOne(8)| == 8
    ensures Tie(TIED, ZeroRows(7), [Number(0)]) && !ChunkingIndependent(TIED)
  {
    hide Size, Assemble, AppendAll, OneByOne, Flatten;
    ZeroRowPrice(7);
    ZeroRowPrice(8);
    assert ZeroRows(7) + [[Number(0)]] == ZeroRows(8);
    TiedBlockIsTakenWhole(TIED, ZeroRows(8));
    EachRowIsABlock(8);
    TieMatters(TIED, ZeroRows(7), [Number(0)]);
  }
}
