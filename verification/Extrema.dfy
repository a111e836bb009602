/** The optional min/max pair a block stores for a column. */
module Extrema {
  import opened Core
  import opened Bytes
  import opened Schema
  import opened Rows
  import opened Pricing
  import opened Packing
  import opened ColumnCodec
  import Integers

  /** Whether a stored float is not a number, by its IEEE 754 bits. */
  predicate IsNan(t: LogicalType, cell: Cell) {
    && cell.Number?
    && ((t.Float32? && cell.value % 0x8000_0000 > 0x7F80_0000)
        || (t.Float64? && cell.value % 0x8000_0000_0000_0000 > 0x7FF0_0000_0000_0000))
  }

  /** Orders float bits as their values; both zeros are equal. */
  function FloatKey(t: LogicalType, bits: int): int {
    var sign := if t.Float32? then 0x8000_0000 else 0x8000_0000_0000_0000;
    if bits < sign then bits else sign - bits
  }

  predicate LexLess(a: seq<byte>, b: seq<byte>) {
    b != [] && (a == [] || a[0] < b[0] || (a[0] == b[0] && LexLess(a[1..], b[1..])))
  }

  predicate Less(t: LogicalType, a: Cell, b: Cell) {
    match (a, b)
    case (Flag(x), Flag(y)) => !x && y
    case (Number(x), Number(y)) => if IsFloat(t) then FloatKey(t, x) < FloatKey(t, y) else x < y
    case (Blob(x), Blob(y)) => LexLess(x, y)
    case _ => false
  }

  lemma {:induction false} LexOrder(a: seq<byte>, b: seq<byte>, c: seq<byte>)
    ensures LexLess(a, b) && LexLess(b, c) ==> LexLess(a, c)
    ensures !LexLess(a, a)
    decreases |a|
  {
    if a != [] {
      LexOrder(a[1..], if b == [] then [] else b[1..], if c == [] then [] else c[1..]);
    }
  }

  lemma LessOrder(t: LogicalType, a: Cell, b: Cell, c: Cell)
    ensures Less(t, a, b) && Less(t, b, c) ==> Less(t, a, c)
    ensures !Less(t, a, a)
  {
    if a.Blob? && b.Blob? && c.Blob? {
      LexOrder(a.bytes, b.bytes, c.bytes);
    } else if a.Blob? {
      LexOrder(a.bytes, [], []);
    }
  }

  /** The values a statistic describes: present and not NaN. */
  function Comparable(t: LogicalType, cells: seq<Cell>): (r: seq<Cell>)
    ensures |r| <= |cells|
    ensures forall i :: 0 <= i < |r| ==> r[i] in cells && !IsNan(t, r[i])
  {
    if cells == [] then []
    else
      var n := |cells| - 1;
      Comparable(t, cells[..n]) + if IsNan(t, cells[n]) then [] else [cells[n]]
  }

  /** Smallest value, keeping the first of equals. */
  function Smallest(t: LogicalType, cells: seq<Cell>): (m: Cell)
    requires cells != []
    ensures m in cells
  {
    if |cells| == 1 then cells[0]
    else
      var m := Smallest(t, cells[..|cells| - 1]);
      var last := cells[|cells| - 1];
      if Less(t, last, m) then last else m
  }

  function Largest(t: LogicalType, cells: seq<Cell>): (m: Cell)
    requires cells != []
    ensures m in cells
  {
    if |cells| == 1 then cells[0]
    else
      var m := Largest(t, cells[..|cells| - 1]);
      var last := cells[|cells| - 1];
      if Less(t, m, last) then last else m
  }

  /** No described value lies outside the pair, and both ends are described values. */
  lemma {:induction false} PairBounds(t: LogicalType, cells: seq<Cell>, i: nat)
    requires i < |cells|
    ensures !Less(t, cells[i], Smallest(t, cells)) && !Less(t, Largest(t, cells), cells[i])
  {
    hide Less;
    var n := |cells| - 1;
    LessOrder(t, cells[i], cells[i], cells[i]);
    if n > 0 {
      var lo, hi := Smallest(t, cells[..n]), Largest(t, cells[..n]);
      LessOrder(t, cells[n], lo, lo);
      LessOrder(t, cells[i], cells[n], lo);
      LessOrder(t, hi, cells[n], cells[i]);
      if i < n {
        PairBounds(t, cells[..n], i);
      }
      LessOrder(t, lo, lo, lo);
      LessOrder(t, hi, hi, hi);
    }
  }

  function StatisticBytes(t: LogicalType, cell: Cell): seq<byte> {
    match cell
    case Flag(on) => [if on then 1 else 0]
    case Number(value) =>
      var width := StatisticsWidth(t);
      if -value <= Range(width) then Integers.WriteInteger(value, width) else []
    case Blob(bytes) => bytes
    case Null => []
  }

  /** Whether the automatic policy finds a pair over `count` values worth its bytes. */
  predicate Worthwhile(t: LogicalType, count: nat) {
    var width := StatisticsWidth(t);
    && count >= 64
    && width * 16 <= if t.Bool? then ByteCount(count) else Saturate(width * count)
  }

  /** The stored pair of a column's present values, or nothing. */
  function StatisticsOf(schema: Schema, column: Column, dense: seq<Cell>, policy: Policy): seq<byte> {
    var t := column.logicalType;
    var described := Comparable(t, dense);
    if StatisticsWidth(t) == 0 || policy.NoStatistics? || (policy.Automatic? && schema.primaryColumnId == Some(column.id))
    then []
    else if described == [] || (policy.Automatic? && !Worthwhile(t, |described|)) then []
    else StatisticBytes(t, Smallest(t, described)) + StatisticBytes(t, Largest(t, described))
  }

  lemma StatisticWidth(column: Column, cell: Cell)
    requires !cell.Null? && Admits(column, cell)
    ensures StatisticsWidth(column.logicalType) != 0 ==> |StatisticBytes(column.logicalType, cell)| == StatisticsWidth(column.logicalType)
  {
    hide ValidUtf8;
  }

  lemma {:induction false} ComparableAll(t: LogicalType, cells: seq<Cell>)
    requires forall i :: 0 <= i < |cells| ==> !IsNan(t, cells[i])
    ensures Comparable(t, cells) == cells
  {
    if cells != [] {
      var n := |cells| - 1;
      ComparableAll(t, cells[..n]);
      assert cells[..n] + [cells[n]] == cells;
    }
  }

  /** A stored pair takes exactly the bytes reserved for it, or nothing; exactly, when no value is NaN. */
  lemma StatisticsFitReservation(schema: Schema, column: Column, dense: seq<Cell>, f: Footprint, policy: Policy)
    requires Dense(column, dense) && f.dense == |dense|
    ensures |StatisticsOf(schema, column, dense, policy)| in {0, ReservedStatistics(schema, column, f, policy)}
    ensures (forall i :: 0 <= i < |dense| ==> !IsNan(column.logicalType, dense[i])) ==>
              |StatisticsOf(schema, column, dense, policy)| == ReservedStatistics(schema, column, f, policy)
  {
    hide Admits, StatisticBytes, IsNan, Less;
    var t := column.logicalType;
    var described := Comparable(t, dense);
    ProductGrows(StatisticsWidth(t), |described|, |dense|);
    if described != [] {
      StatisticWidth(column, Smallest(t, described));
      StatisticWidth(column, Largest(t, described));
    }
    if forall i :: 0 <= i < |dense| ==> !IsNan(t, dense[i]) {
      ComparableAll(t, dense);
    }
  }

  // ---------------------------------------------------------------- verification

  /** One stored bound in the value domain its type compares in. */
  function ParseStatistic(t: LogicalType, bytes: seq<byte>): Result<Cell> {
    match StorageOf(t)
    case Bitmap => if bytes == [0] then Ok(Flag(false)) else if bytes == [1] then Ok(Flag(true)) else Err(Corruption)
    case Integer(_, signed) =>
      var cell := Number(Integers.ReadInteger(bytes, signed));
      if IsNan(t, cell) then Err(Corruption) else Ok(cell)
    case FixedBytes(_) => Ok(Blob(bytes))
    case VariableBytes => Err(Corruption)
  }

  /** Equal in the order of the type: the two float zeros are. */
  predicate Same(t: LogicalType, a: Cell, b: Cell) {
    !Less(t, a, b) && !Less(t, b, a)
  }

  /** Confirm a stored pair against the values it claims to describe. */
  function VerifyPair(t: LogicalType, pair: seq<byte>, described: seq<Cell>): Result<()> {
    var width := StatisticsWidth(t);
    if width == 0 || |pair| != 2 * width then Err(Corruption)
    else
      var low :- ParseStatistic(t, pair[..width]);
      var high :- ParseStatistic(t, pair[width..]);
      if Less(t, high, low) || described == [] then Err(Corruption)
      else if !Same(t, low, Smallest(t, described)) || !Same(t, high, Largest(t, described)) then Err(Corruption)
      else Ok(())
  }

  /** A column that claims no statistics has nothing to confirm. */
  function VerifyClaim(t: LogicalType, claim: Option<seq<byte>>, cells: seq<Cell>): Result<()> {
    match claim
    case None => Ok(())
    case Some(pair) => VerifyPair(t, pair, Comparable(t, Present(cells)))
  }

  function Extremes(t: LogicalType, described: seq<Cell>): Option<(Cell, Cell)> {
    if described == [] then None else Some((Smallest(t, described), Largest(t, described)))
  }

  /** Widen the extremes so far by one more row, which may be null or not a number. */
  function Widened(t: LogicalType, so: Option<(Cell, Cell)>, value: Cell): Option<(Cell, Cell)> {
    if value.Null? || IsNan(t, value) then so
    else
      match so
      case None => Some((value, value))
      case Some((low, high)) => Some((if Less(t, value, low) then value else low, if Less(t, high, value) then value else high))
  }

  lemma DescribeMore(t: LogicalType, dense: seq<Cell>, value: Cell)
    ensures Comparable(t, dense + [value]) == Comparable(t, dense) + if IsNan(t, value) then [] else [value]
  {
    hide IsNan;
    assert (dense + [value])[..|dense|] == dense;
  }

  lemma ExtremesMore(t: LogicalType, described: seq<Cell>, value: Cell)
    requires !value.Null? && !IsNan(t, value)
    ensures Extremes(t, described + [value]) == Widened(t, Extremes(t, described), value)
  {
    hide IsNan, Less;
    assert (described + [value])[..|described|] == described;
  }

  lemma ExtremesWiden(t: LogicalType, cells: seq<Cell>, row: nat)
    requires row < |cells|
    ensures Extremes(t, Comparable(t, Present(cells[..row + 1])))
         == Widened(t, Extremes(t, Comparable(t, Present(cells[..row]))), cells[row])
  {
    hide Present, IsNan, Comparable, Extremes;
    PresentMore(cells, row);
    var before, value := Present(cells[..row]), cells[row];
    if value.Null? {
      assert before + [] == before;
    } else {
      DescribeMore(t, before, value);
      var described := Comparable(t, before);
      if IsNan(t, value) {
        assert described + [] == described;
      } else {
        ExtremesMore(t, described, value);
      }
    }
  }

  lemma PresentMore(cells: seq<Cell>, row: nat)
    requires row < |cells|
    ensures Present(cells[..row + 1]) == Present(cells[..row]) + if cells[row].Null? then [] else [cells[row]]
  {
    var more := cells[..row + 1];
    assert more[..row] == cells[..row] && ValidityOf(more)[..row] == ValidityOf(cells[..row]);
  }

  lemma NothingDescribed(t: LogicalType)
    ensures Extremes(t, Comparable(t, Present([]))) == None
  {
  }

  /** The extremes of the values a statistic describes, in one pass over the rows. */
  method Reduce(t: LogicalType, cells: seq<Cell>) returns (r: Option<(Cell, Cell)>)
    ensures r == Extremes(t, Comparable(t, Present(cells)))
  {
    hide Present, Extremes, Comparable;
    r := None;
    var row := 0;
    NothingDescribed(t);
    assert cells[..0] == [];
    while row < |cells|
      invariant 0 <= row <= |cells| && r == Extremes(t, Comparable(t, Present(cells[..row])))
    {
      ExtremesWiden(t, cells, row);
      var value := cells[row];
      if !value.Null? && !IsNan(t, value) {
        r := match r
          case None => Some((value, value))
          case Some((low, high)) => Some((if Less(t, value, low) then value else low, if Less(t, high, value) then value else high));
      }
      row := row + 1;
    }
    assert cells[..row] == cells;
  }

  /** The same confirmation, in one pass. */
  method CheckClaim(t: LogicalType, claim: Option<seq<byte>>, cells: seq<Cell>) returns (r: Result<()>)
    ensures r == VerifyClaim(t, claim, cells)
  {
    hide Present, Comparable, Smallest, Largest, Less, ParseStatistic;
    if claim.None? {
      return Ok(());
    }
    var pair, width := claim.value, StatisticsWidth(t);
    if width == 0 || |pair| != 2 * width {
      return Err(Corruption);
    }
    var low, high := ParseStatistic(t, pair[..width]), ParseStatistic(t, pair[width..]);
    if low.Err? || high.Err? {
      return Err(if low.Err? then low.kind else high.kind);
    }
    if Less(t, high.value, low.value) {
      return Err(Corruption);
    }
    var actual := Reduce(t, cells);
    r := if actual.None? || !Same(t, low.value, actual.value.0) || !Same(t, high.value, actual.value.1) then Err(Corruption) else Ok(());
  }

  /** A bound reads back as the value it was written from. */
  lemma StatisticRoundTrip(column: Column, cell: Cell)
    requires !cell.Null? && Admits(column, cell) && StatisticsWidth(column.logicalType) != 0 && !IsNan(column.logicalType, cell)
    ensures ParseStatistic(column.logicalType, StatisticBytes(column.logicalType, cell)) == Ok(cell)
  {
    hide ValidUtf8, IsNan;
    var t := column.logicalType;
    if cell.Number? {
      var storage := StorageOf(t);
      Integers.IntegerRoundTrip(cell.value, storage.width, storage.signed);
    }
  }

  /** A pair the writer stores is one the reader confirms. */
  lemma WrittenPairVerifies(schema: Schema, column: Column, dense: seq<Cell>, policy: Policy)
    requires Dense(column, dense) && StatisticsOf(schema, column, dense, policy) != []
    ensures VerifyPair(column.logicalType, StatisticsOf(schema, column, dense, policy), Comparable(column.logicalType, dense)) == Ok(())
  {
    hide Admits, StatisticBytes, IsNan, Less, ParseStatistic, Comparable, Smallest, Largest, Worthwhile, StatisticsWidth;
    var t := column.logicalType;
    var described := Comparable(t, dense);
    var low, high := Smallest(t, described), Largest(t, described);
    StatisticWidth(column, low);
    StatisticWidth(column, high);
    StatisticRoundTrip(column, low);
    StatisticRoundTrip(column, high);
    var width := StatisticsWidth(t);
    var pair := StatisticBytes(t, low) + StatisticBytes(t, high);
    assert pair[..width] == StatisticBytes(t, low) && pair[width..] == StatisticBytes(t, high);
    LessOrder(t, low, low, low);
    LessOrder(t, high, high, high);
    var i :| 0 <= i < |described| && described[i] == high;
    PairBounds(t, described, i);
  }

  /** Anything between two ordered values is apart from one of them. */
  lemma {:induction false} LexApart(a: seq<byte>, b: seq<byte>, c: seq<byte>)
    requires LexLess(a, c)
    ensures LexLess(a, b) || LexLess(b, c)
    decreases |a|
  {
    if a != [] && b != [] && a[0] == b[0] == c[0] {
      LexApart(a[1..], b[1..], c[1..]);
    }
  }

  predicate SameKind(a: Cell, b: Cell) {
    (a.Flag? && b.Flag?) || (a.Number? && b.Number?) || (a.Blob? && b.Blob?)
  }

  lemma LessApart(t: LogicalType, a: Cell, b: Cell, c: Cell)
    requires Less(t, a, c) && SameKind(a, b)
    ensures Less(t, a, b) || Less(t, b, c)
  {
    if a.Blob? && c.Blob? {
      LexApart(a.bytes, b.bytes, c.bytes);
    }
  }

  /** A pair the reader confirms bounds every value it describes, and both ends are attained. */
  lemma ConfirmedPair(column: Column, dense: seq<Cell>, pair: seq<byte>, i: nat)
    requires Dense(column, dense) && i < |dense| && !IsNan(column.logicalType, dense[i])
    requires VerifyPair(column.logicalType, pair, Comparable(column.logicalType, dense)) == Ok(())
    ensures
      var t := column.logicalType;
      var width := StatisticsWidth(t);
      var low, high := ParseStatistic(t, pair[..width]).value, ParseStatistic(t, pair[width..]).value;
      && !Less(t, dense[i], low) && !Less(t, high, dense[i])
      && (exists j, k :: 0 <= j < |dense| && 0 <= k < |dense| && Same(t, low, dense[j]) && Same(t, high, dense[k]))
  {
    hide Admits, IsNan, Less, ParseStatistic;
    var t := column.logicalType;
    var width := StatisticsWidth(t);
    var low, high := ParseStatistic(t, pair[..width]).value, ParseStatistic(t, pair[width..]).value;
    var described := Comparable(t, dense);
    Described(t, dense, i);
    var n :| 0 <= n < |described| && described[n] == dense[i];
    PairBounds(t, described, n);
    var least, most := Smallest(t, described), Largest(t, described);
    var j :| 0 <= j < |dense| && dense[j] == least;
    var k :| 0 <= k < |dense| && dense[k] == most;
    AllSameKind(column, dense, i, j);
    AllSameKind(column, dense, i, k);
    if Less(t, dense[i], low) {
      LessApart(t, dense[i], least, low);
    }
    if Less(t, high, dense[i]) {
      Kinds(t, high, dense[i]);
      LessApart(t, high, most, dense[i]);
    }
    assert Same(t, low, dense[j]) && Same(t, high, dense[k]);
  }

  lemma {:induction false} Described(t: LogicalType, cells: seq<Cell>, i: nat)
    requires i < |cells| && !IsNan(t, cells[i])
    ensures cells[i] in Comparable(t, cells)
  {
    if i < |cells| - 1 {
      Described(t, cells[..|cells| - 1], i);
    }
  }

  lemma AllSameKind(column: Column, dense: seq<Cell>, i: nat, j: nat)
    requires Dense(column, dense) && i < |dense| && j < |dense|
    ensures SameKind(dense[i], dense[j])
  {
    hide ValidUtf8;
    assert Admits(column, dense[i]) && Admits(column, dense[j]);
  }

  lemma Kinds(t: LogicalType, a: Cell, b: Cell)
    requires Less(t, a, b)
    ensures SameKind(a, b)
  {
  }
}
