/**
 * Column layouts: how stored values expand to dense values, and how dense values scatter
 * over the rows a validity bitmap marks present.
 */
module Layouts {
  import opened Core
  import opened Bytes

  // ------------------------------------------------------------------ constant

  function Repeat<T>(value: T, count: nat): (values: seq<T>)
    ensures |values| == count
  {
    seq(count, _ => value)
  }

  /** Constant layout: exactly one stored value fills every dense position. */
  function Constant<T>(stored: seq<T>, count: nat): Result<seq<T>> {
    if |stored| == 1 then Ok(Repeat(stored[0], count)) else Err(Corruption)
  }

  lemma ConstantRoundTrip<T>(values: seq<T>)
    requires values != [] && forall i :: 0 <= i < |values| ==> values[i] == values[0]
    ensures Constant(values[..1], |values|) == Ok(values)
  {
    assert Repeat(values[0], |values|) == values;
  }

  // ---------------------------------------------------------------- dictionary

  /** Dictionary layout: each index selects one block-local value. */
  function Lookup<T>(dictionary: seq<T>, indices: seq<nat>): (r: Result<seq<T>>)
    ensures r.Ok? <==> forall i :: 0 <= i < |indices| ==> indices[i] < |dictionary|
    ensures r.Ok? ==> |r.value| == |indices| && forall i :: 0 <= i < |indices| ==> r.value[i] == dictionary[indices[i]]
    ensures r.Err? ==> r.kind == Corruption
  {
    if forall i :: 0 <= i < |indices| ==> indices[i] < |dictionary| then
      Ok(seq(|indices|, i requires 0 <= i < |indices| => dictionary[indices[i]]))
    else Err(Corruption)
  }

  datatype Dictionary<T> = Dictionary(values: seq<T>, indices: seq<nat>)

  function IndexOf<T(==)>(values: seq<T>, value: T): (i: nat)
    ensures i <= |values|
    ensures i < |values| ==> values[i] == value
    ensures i == |values| ==> value !in values
  {
    if values == [] then 0 else if values[0] == value then 0 else 1 + IndexOf(values[1..], value)
  }

  /** The distinct values in order of first appearance, and each value's index among them. */
  function DictionaryOf<T(==)>(values: seq<T>): (d: Dictionary<T>)
    ensures |d.indices| == |values|
  {
    if values == [] then Dictionary([], [])
    else
      var d := DictionaryOf(values[..|values| - 1]);
      var value := values[|values| - 1];
      var i := IndexOf(d.values, value);
      Dictionary(if i < |d.values| then d.values else d.values + [value], d.indices + [i])
  }

  /** Looking every index up restores the column; every entry is used and none is repeated. */
  lemma {:induction false} DictionaryRoundTrip<T>(values: seq<T>)
    ensures
      var d := DictionaryOf(values);
      && Lookup(d.values, d.indices) == Ok(values)
      && (forall i, j :: 0 <= i < j < |d.values| ==> d.values[i] != d.values[j])
      && |d.values| <= |values|
      && (values != [] ==> d.values != [])
  {
    if values != [] {
      var n := |values| - 1;
      DictionaryRoundTrip(values[..n]);
      var d, before := DictionaryOf(values), DictionaryOf(values[..n]);
      forall i | 0 <= i < |values| ensures d.indices[i] < |d.values| && d.values[d.indices[i]] == values[i] {
        if i < n {
          assert before.values[before.indices[i]] == values[..n][i];
        }
      }
      assert Lookup(d.values, d.indices).value == values;
    }
  }

  // ---------------------------------------------------------------- run length

  datatype Runs<T> = Runs(values: seq<T>, lengths: seq<nat>)

  function Sum(lengths: seq<nat>): nat {
    if lengths == [] then 0 else Sum(lengths[..|lengths| - 1]) + lengths[|lengths| - 1]
  }

  /** Each run value repeated for its run length. */
  function Expand<T>(values: seq<T>, lengths: seq<nat>): (expanded: seq<T>)
    requires |values| == |lengths|
    ensures |expanded| == Sum(lengths)
  {
    if values == [] then []
    else
      var n := |values| - 1;
      Expand(values[..n], lengths[..n]) + Repeat(values[n], lengths[n])
  }

  /** The run lengths of a column: positive and summing to its dense count. */
  predicate RunLengthsFit(lengths: seq<nat>, denseCount: nat) {
    (forall i :: 0 <= i < |lengths| ==> lengths[i] > 0) && Sum(lengths) == denseCount
  }

  function ExpandRuns<T>(values: seq<T>, lengths: seq<nat>): Result<seq<T>> {
    if |values| == |lengths| then Ok(Expand(values, lengths)) else Err(Corruption)
  }

  /** One more value either lengthens the last run or starts one. */
  function AddToRuns<T(==)>(runs: Runs<T>, value: T): (r: Runs<T>)
    requires |runs.values| == |runs.lengths|
    ensures |r.values| == |r.lengths| > 0
  {
    var n := |runs.values|;
    if n > 0 && runs.values[n - 1] == value then runs.(lengths := runs.lengths[..n - 1] + [runs.lengths[n - 1] + 1])
    else Runs(runs.values + [value], runs.lengths + [1])
  }

  /** Maximal runs, in order. */
  function RunsOf<T(==)>(values: seq<T>): (r: Runs<T>)
    ensures |r.values| == |r.lengths|
    ensures r.values == [] <==> values == []
  {
    if values == [] then Runs([], []) else AddToRuns(RunsOf(values[..|values| - 1]), values[|values| - 1])
  }

  /** Lengthening the last run by one appends one more of its value. */
  lemma ExpandLonger<T>(values: seq<T>, lengths: seq<nat>)
    requires |values| == |lengths| > 0
    ensures
      var n := |values| - 1;
      var longer := lengths[..n] + [lengths[n] + 1];
      Expand(values, longer) == Expand(values, lengths) + [values[n]] && Sum(longer) == Sum(lengths) + 1
  {
    var n := |values| - 1;
    var longer := lengths[..n] + [lengths[n] + 1];
    assert longer[..n] == lengths[..n];
    assert Repeat(values[n], lengths[n] + 1) == Repeat(values[n], lengths[n]) + [values[n]];
  }

  /** Starting a run of one appends its value. */
  lemma ExpandNew<T>(values: seq<T>, lengths: seq<nat>, value: T)
    requires |values| == |lengths|
    ensures Expand(values + [value], lengths + [1]) == Expand(values, lengths) + [value]
    ensures Sum(lengths + [1]) == Sum(lengths) + 1
  {
    var n := |values|;
    assert (values + [value])[..n] == values && (lengths + [1])[..n] == lengths;
    assert Repeat(value, 1) == [value];
  }

  /** Runs that reproduce a column exactly. */
  ghost predicate Reproduces<T>(runs: Runs<T>, values: seq<T>) {
    && |runs.values| == |runs.lengths| <= |values|
    && Expand(runs.values, runs.lengths) == values
    && RunLengthsFit(runs.lengths, |values|)
    && forall i :: 0 <= i < |runs.lengths| ==> runs.lengths[i] <= |values|
  }

  lemma RunsStep<T>(runs: Runs<T>, values: seq<T>, value: T)
    requires Reproduces(runs, values)
    ensures Reproduces(AddToRuns(runs, value), values + [value])
  {
    hide Expand, Sum;
    if |runs.values| > 0 {
      ExpandLonger(runs.values, runs.lengths);
    }
    ExpandNew(runs.values, runs.lengths, value);
  }

  /** The maximal runs of a column expand back to it. */
  lemma {:induction false} RunsRoundTrip<T>(values: seq<T>)
    ensures Reproduces(RunsOf(values), values)
  {
    if values == [] {
      ExpandNothing<T>();
    } else {
      var n := |values| - 1;
      RunsRoundTrip(values[..n]);
      RunsStep(RunsOf(values[..n]), values[..n], values[n]);
      assert values[..n] + [values[n]] == values;
    }
  }

  lemma ExpandNothing<T>()
    ensures Expand<T>([], []) == [] && Sum([]) == 0
  {
  }

  // ------------------------------------------------------------------- scatter

  function CountTrue(bits: seq<bool>): nat {
    if bits == [] then 0 else CountTrue(bits[..|bits| - 1]) + if bits[|bits| - 1] then 1 else 0
  }

  /** Dense values spread over the valid rows, with the default at every null row. */
  function Place<T>(dense: seq<T>, validity: seq<bool>, default: T): (values: seq<T>)
    requires |dense| == CountTrue(validity)
    ensures |values| == |validity|
  {
    if validity == [] then []
    else
      var n := |validity| - 1;
      if validity[n] then Place(dense[..|dense| - 1], validity[..n], default) + [dense[|dense| - 1]]
      else Place(dense, validity[..n], default) + [default]
  }

  /** The values at the valid rows, in row order. */
  function Gather<T>(values: seq<T>, validity: seq<bool>): (dense: seq<T>)
    requires |values| == |validity|
    ensures |dense| == CountTrue(validity)
  {
    if validity == [] then []
    else
      var n := |validity| - 1;
      Gather(values[..n], validity[..n]) + if validity[n] then [values[n]] else []
  }

  /** Place dense values into one logical position per row. */
  function Scatter<T>(dense: seq<T>, validity: Option<seq<bool>>, rows: nat, default: T): Result<seq<T>> {
    match validity
    case None => if |dense| == rows then Ok(dense) else Err(Corruption)
    case Some(bits) =>
      if |bits| != rows || |dense| != CountTrue(bits) then Err(Corruption) else Ok(Place(dense, bits, default))
  }

  /** Gathering the valid rows of a scattered column gives the dense values back. */
  lemma {:induction false} GatherPlaced<T>(dense: seq<T>, validity: seq<bool>, default: T)
    requires |dense| == CountTrue(validity)
    ensures Gather(Place(dense, validity, default), validity) == dense
    ensures forall i :: 0 <= i < |validity| && !validity[i] ==> Place(dense, validity, default)[i] == default
  {
    if validity != [] {
      var n := |validity| - 1;
      var placed := Place(dense, validity, default);
      if validity[n] {
        GatherPlaced(dense[..|dense| - 1], validity[..n], default);
        assert placed[..n] == Place(dense[..|dense| - 1], validity[..n], default);
      } else {
        GatherPlaced(dense, validity[..n], default);
        assert placed[..n] == Place(dense, validity[..n], default);
      }
    }
  }

  /** A column whose null rows hold the default is restored from its valid rows. */
  lemma {:induction false} PlaceGathered<T>(values: seq<T>, validity: seq<bool>, default: T)
    requires |values| == |validity|
    requires forall i :: 0 <= i < |validity| && !validity[i] ==> values[i] == default
    ensures Place(Gather(values, validity), validity, default) == values
  {
    if validity != [] {
      var n := |validity| - 1;
      PlaceGathered(values[..n], validity[..n], default);
      var dense := Gather(values, validity);
      assert validity[n] ==> dense[..|dense| - 1] == Gather(values[..n], validity[..n]);
      assert !validity[n] ==> dense == Gather(values[..n], validity[..n]);
      assert values[..n] + [values[n]] == values;
    }
  }

  // -------------------------------------------------------------- split values

  function Concat(values: seq<seq<byte>>): (payload: seq<byte>) {
    if values == [] then [] else values[0] + Concat(values[1..])
  }

  function Lengths(values: seq<seq<byte>>): (lengths: seq<nat>)
    ensures |lengths| == |values|
  {
    seq(|values|, i requires 0 <= i < |values| => |values[i]|)
  }

  /** Cut a concatenation into its values; the lengths must consume it exactly. */
  function SplitValues(payload: seq<byte>, lengths: seq<nat>): Result<seq<seq<byte>>>
    decreases |lengths|
  {
    if lengths == [] then (if payload == [] then Ok([]) else Err(Corruption))
    else if lengths[0] > |payload| then Err(Corruption)
    else
      var rest :- SplitValues(payload[lengths[0]..], lengths[1..]);
      Ok([payload[..lengths[0]]] + rest)
  }

  lemma {:induction false} SplitRoundTrip(values: seq<seq<byte>>)
    ensures SplitValues(Concat(values), Lengths(values)) == Ok(values)
  {
    if values != [] {
      var payload := Concat(values);
      assert payload[..|values[0]|] == values[0] && payload[|values[0]|..] == Concat(values[1..]);
      assert Lengths(values)[1..] == Lengths(values[1..]);
      SplitRoundTrip(values[1..]);
      assert [values[0]] + values[1..] == values;
    }
  }

  lemma ConsFacts(first: seq<byte>, later: seq<seq<byte>>)
    ensures Concat([first] + later) == first + Concat(later)
    ensures Lengths([first] + later) == [|first|] + Lengths(later)
  {
    assert ([first] + later)[1..] == later;
  }

  /** Split values concatenate back to the payload and have the lengths asked for. */
  lemma {:induction false} SplitExact(payload: seq<byte>, lengths: seq<nat>)
    requires SplitValues(payload, lengths).Ok?
    ensures Concat(SplitValues(payload, lengths).value) == payload
    ensures Lengths(SplitValues(payload, lengths).value) == lengths
    decreases |lengths|
  {
    if lengths == [] {
      assert SplitValues(payload, lengths).value == [];
    } else {
      hide Concat, Lengths;
      SplitExact(payload[lengths[0]..], lengths[1..]);
      ConsFacts(payload[..lengths[0]], SplitValues(payload[lengths[0]..], lengths[1..]).value);
      assert payload[..lengths[0]] + payload[lengths[0]..] == payload;
      assert [lengths[0]] + lengths[1..] == lengths;
    }
  }
}
