/** Stream ranges: sorting by offset and checking neighbours decides pairwise disjointness. */
module StreamRanges {
  import opened Core
  import opened Bytes

  /** One stream's place in the frame payload. */
  datatype Extent = Extent(offset: nat, length: nat) {
    function End(): nat {
      offset + length
    }

    predicate Holds(position: nat) {
      offset <= position < End()
    }
  }

  predicate Has(order: seq<nat>, i: nat) {
    exists p :: 0 <= p < |order| && order[p] == i
  }

  predicate Permutes(order: seq<nat>, n: nat) {
    && |order| == n
    && (forall p :: 0 <= p < n ==> order[p] < n)
    && (forall p, q :: 0 <= p < q < n ==> order[p] != order[q])
    && (forall i :: 0 <= i < n ==> Has(order, i))
  }

  /** Any result the unstable sort by offset may produce. */
  predicate SortedOrder(extents: seq<Extent>, order: seq<nat>) {
    && Permutes(order, |extents|)
    && forall p :: 0 <= p < |order| - 1 ==> extents[order[p]].offset <= extents[order[p + 1]].offset
  }

  predicate NeighboursFit(extents: seq<Extent>, order: seq<nat>)
    requires Permutes(order, |extents|)
  {
    forall p :: 0 <= p < |order| - 1 ==>
                  extents[order[p]].End() < U64 && extents[order[p]].End() <= extents[order[p + 1]].offset
  }

  predicate Inside(extents: seq<Extent>, payloadLength: nat) {
    forall i :: 0 <= i < |extents| ==> extents[i].End() < U64 && extents[i].End() <= payloadLength
  }

  /** Two streams end before one another in some order. */
  predicate Separated(extents: seq<Extent>) {
    forall i, j :: 0 <= i < j < |extents| ==> extents[i].End() <= extents[j].offset || extents[j].End() <= extents[i].offset
  }

  /** No stream with bytes shares its offset with an empty one. */
  ghost predicate NoSharedOffset(extents: seq<Extent>) {
    forall i, j :: 0 <= i < |extents| && 0 <= j < |extents| && extents[i].offset == extents[j].offset && extents[i].length == 0
      ==> extents[j].length == 0
  }

  /** The pass: neighbours in sorted order, then every end against the payload. */
  method ValidateStreamRanges(extents: seq<Extent>, order: seq<nat>, payloadLength: nat) returns (r: Result<()>)
    requires SortedOrder(extents, order)
    ensures r == if NeighboursFit(extents, order) && Inside(extents, payloadLength) then Ok(()) else Err(Corruption)
    ensures r.Ok? ==> forall i, j, position :: 0 <= i < j < |extents| ==> !(extents[i].Holds(position) && extents[j].Holds(position))
  {
    var p := 0;
    while p + 1 < |order|
      invariant p == 0 || 0 < p < |order|
      invariant forall q :: 0 <= q < p ==>
                              extents[order[q]].End() < U64 && extents[order[q]].End() <= extents[order[q + 1]].offset
    {
      var earlier, later := extents[order[p]], extents[order[p + 1]];
      if earlier.End() >= U64 || earlier.End() > later.offset {
        return Err(Corruption);
      }
      p := p + 1;
    }
    var i := 0;
    while i < |extents|
      invariant 0 <= i <= |extents|
      invariant forall k :: 0 <= k < i ==> extents[k].End() < U64 && extents[k].End() <= payloadLength
    {
      if extents[i].End() >= U64 || extents[i].End() > payloadLength {
        return Err(Corruption);
      }
      i := i + 1;
    }
    AcceptedAreDisjoint(extents, order);
    r := Ok(());
  }

  lemma {:induction false} OffsetsGrow(extents: seq<Extent>, order: seq<nat>, p: nat, q: nat)
    requires SortedOrder(extents, order) && p <= q < |order|
    ensures extents[order[p]].offset <= extents[order[q]].offset
  {
    if p < q {
      OffsetsGrow(extents, order, p, q - 1);
    }
  }

  lemma LaterStartsAfter(extents: seq<Extent>, order: seq<nat>, p: nat, q: nat)
    requires SortedOrder(extents, order) && NeighboursFit(extents, order) && p < q < |order|
    ensures extents[order[p]].End() <= extents[order[q]].offset
  {
    OffsetsGrow(extents, order, p + 1, q);
  }

  /** If the pass accepts, every two streams are apart and share no byte, in whatever order ties fell. */
  lemma AcceptedAreDisjoint(extents: seq<Extent>, order: seq<nat>)
    requires SortedOrder(extents, order) && NeighboursFit(extents, order)
    ensures Separated(extents)
    ensures forall i, j, position :: 0 <= i < j < |extents| ==> !(extents[i].Holds(position) && extents[j].Holds(position))
  {
    forall i, j | 0 <= i < j < |extents|
      ensures extents[i].End() <= extents[j].offset || extents[j].End() <= extents[i].offset
    {
      assert Has(order, i) && Has(order, j);
      var p :| 0 <= p < |order| && order[p] == i;
      var q :| 0 <= q < |order| && order[q] == j;
      if p < q {
        LaterStartsAfter(extents, order, p, q);
      } else {
        LaterStartsAfter(extents, order, q, p);
      }
    }
  }

  lemma Apart(extents: seq<Extent>, a: nat, b: nat)
    requires Separated(extents) && a < |extents| && b < |extents| && a != b
    ensures extents[a].End() <= extents[b].offset || extents[b].End() <= extents[a].offset
  {
    var i, j := if a < b then a else b, if a < b then b else a;
    assert extents[i].End() <= extents[j].offset || extents[j].End() <= extents[i].offset;
  }

  /**
   * Exactly when a sorted order accepts streams that are pairwise apart: no stream with
   * bytes comes before an empty stream at its own offset.
   */
  lemma AcceptsExactly(extents: seq<Extent>, order: seq<nat>, payloadLength: nat)
    requires SortedOrder(extents, order) && Inside(extents, payloadLength)
    ensures
      NeighboursFit(extents, order)
      <==> Separated(extents)
           && forall p :: 0 <= p < |order| - 1 && extents[order[p]].offset == extents[order[p + 1]].offset
                ==> extents[order[p]].length == 0
  {
    if NeighboursFit(extents, order) {
      AcceptedAreDisjoint(extents, order);
    }
    if Separated(extents) && forall p :: 0 <= p < |order| - 1 && extents[order[p]].offset == extents[order[p + 1]].offset
                               ==> extents[order[p]].length == 0
    {
      forall p | 0 <= p < |order| - 1
        ensures extents[order[p]].End() < U64 && extents[order[p]].End() <= extents[order[p + 1]].offset
      {
        var a, b := order[p], order[p + 1];
        assert a != b;
        Apart(extents, a, b);
      }
    }
  }

  lemma PermutesTwo(a: nat, b: nat)
    requires a < 2 && b < 2 && a != b
    ensures Permutes([a, b], 2)
  {
    var order: seq<nat> := [a, b];
    assert order[0] == a && order[1] == b;
    assert Has(order, 0) && Has(order, 1);
  }

  /** One table accepted under one order of its ties and refused under the other. */
  lemma TieOrderMatters()
    ensures
      var extents := [Extent(0, 8), Extent(0, 0)];
      && SortedOrder(extents, [0, 1]) && SortedOrder(extents, [1, 0])
      && Separated(extents) && Inside(extents, 8)
      && !NeighboursFit(extents, [0, 1]) && NeighboursFit(extents, [1, 0])
  {
    hide Permutes;
    var extents := [Extent(0, 8), Extent(0, 0)];
    PermutesTwo(0, 1);
    PermutesTwo(1, 0);
    var order: seq<nat> := [0, 1];
    assert !(extents[order[0]].End() <= extents[order[0 + 1]].offset);
  }

  lemma SwapKeepsOrder(extents: seq<Extent>, order: seq<nat>, p: nat, q: nat) returns (swapped: seq<nat>)
    requires SortedOrder(extents, order) && p < q < |order|
    requires extents[order[p]].offset == extents[order[q]].offset
    ensures swapped == order[p := order[q]][q := order[p]] && SortedOrder(extents, swapped)
  {
    swapped := order[p := order[q]][q := order[p]];
    forall i | 0 <= i < |extents| ensures Has(swapped, i) {
      assert Has(order, i);
      var k :| 0 <= k < |order| && order[k] == i;
      assert swapped[if k == p then q else if k == q then p else k] == i;
    }
  }

  /** A stream with bytes anywhere before an empty one at its offset is refused. */
  lemma BytesBeforeEmptyRefused(extents: seq<Extent>, order: seq<nat>, p: nat, q: nat)
    requires SortedOrder(extents, order) && p < q < |order|
    requires extents[order[p]].offset == extents[order[q]].offset && extents[order[p]].length > 0
    ensures !NeighboursFit(extents, order)
  {
    if NeighboursFit(extents, order) {
      LaterStartsAfter(extents, order, p, q);
    }
  }

  lemma UnsharedAccepts(extents: seq<Extent>, payloadLength: nat, order: seq<nat>)
    requires Separated(extents) && Inside(extents, payloadLength) && NoSharedOffset(extents) && SortedOrder(extents, order)
    ensures NeighboursFit(extents, order)
  {
    hide NoSharedOffset, Separated, Inside;
    forall p | 0 <= p < |order| - 1 && extents[order[p]].offset == extents[order[p + 1]].offset
      ensures extents[order[p]].length == 0
    {
      TiesAreEmpty(extents, order[p], order[p + 1]);
    }
    AcceptsExactly(extents, order, payloadLength);
  }

  lemma SharedIsRefused(extents: seq<Extent>, i: nat, j: nat) returns (order: seq<nat>)
    requires i < |extents| && j < |extents| && extents[i].offset == extents[j].offset
    requires extents[i].length == 0 && extents[j].length > 0
    ensures SortedOrder(extents, order) && !NeighboursFit(extents, order)
  {
    hide NeighboursFit, SortByOffset;
    order := SortByOffset(extents);
    assert Has(order, i) && Has(order, j);
    var p :| 0 <= p < |order| && order[p] == i;
    var q :| 0 <= q < |order| && order[q] == j;
    if p < q {
      order := SwapKeepsOrder(extents, order, p, q);
      BytesBeforeEmptyRefused(extents, order, p, q);
    } else {
      BytesBeforeEmptyRefused(extents, order, q, p);
    }
  }

  /**
   * For streams that are apart and inside the payload, every order the sort may produce is
   * accepted if and only if no stream with bytes shares its offset with an empty one.
   */
  lemma EveryOrderAccepts(extents: seq<Extent>, payloadLength: nat)
    requires Separated(extents) && Inside(extents, payloadLength)
    ensures (forall order :: SortedOrder(extents, order) ==> NeighboursFit(extents, order)) <==> NoSharedOffset(extents)
  {
    hide NeighboursFit, Permutes, Separated, Inside;
    if NoSharedOffset(extents) {
      forall order | SortedOrder(extents, order) ensures NeighboursFit(extents, order) {
        UnsharedAccepts(extents, payloadLength, order);
      }
    } else {
      var i, j :| 0 <= i < |extents| && 0 <= j < |extents| && extents[i].offset == extents[j].offset
        && extents[i].length == 0 && extents[j].length > 0;
      var order := SharedIsRefused(extents, i, j);
    }
  }

  lemma TiesAreEmpty(extents: seq<Extent>, a: nat, b: nat)
    requires Separated(extents) && NoSharedOffset(extents)
    requires a < |extents| && b < |extents| && a != b && extents[a].offset == extents[b].offset
    ensures extents[a].length == 0
  {
    Apart(extents, a, b);
  }

  /** Insert an index before the first one with a larger offset. */
  function Insert(extents: seq<Extent>, order: seq<nat>, i: nat): (r: seq<nat>)
    requires i < |extents| && forall p :: 0 <= p < |order| ==> order[p] < |extents|
    ensures |r| == |order| + 1
    ensures forall p :: 0 <= p < |r| ==> r[p] < |extents|
  {
    if order == [] || extents[i].offset < extents[order[0]].offset then [i] + order
    else [order[0]] + Insert(extents, order[1..], i)
  }

  ghost predicate OrderOf(extents: seq<Extent>, order: seq<nat>, n: nat)
    requires n <= |extents|
  {
    && Permutes(order, n)
    && forall p :: 0 <= p < n - 1 ==> extents[order[p]].offset <= extents[order[p + 1]].offset
  }

  lemma HasCons(first: nat, rest: seq<nat>)
    ensures forall k :: Has([first] + rest, k) <==> k == first || Has(rest, k)
  {
    var all := [first] + rest;
    forall k ensures Has(all, k) <==> k == first || Has(rest, k) {
      assert all[0] == first;
      if Has(rest, k) {
        var p :| 0 <= p < |rest| && rest[p] == k;
        assert all[p + 1] == k;
      }
      if Has(all, k) && k != first {
        var p :| 0 <= p < |all| && all[p] == k;
        assert rest[p - 1] == k;
      }
    }
  }

  lemma {:induction false} InsertFacts(extents: seq<Extent>, order: seq<nat>, i: nat)
    requires i < |extents| && forall p :: 0 <= p < |order| ==> order[p] < |extents|
    requires forall p :: 0 <= p < |order| - 1 ==> extents[order[p]].offset <= extents[order[p + 1]].offset
    requires forall p, q :: 0 <= p < q < |order| ==> order[p] != order[q]
    requires !Has(order, i)
    ensures
      var r := Insert(extents, order, i);
      && (forall p :: 0 <= p < |r| - 1 ==> extents[r[p]].offset <= extents[r[p + 1]].offset)
      && (forall p, q :: 0 <= p < q < |r| ==> r[p] != r[q])
      && (forall k :: Has(r, k) <==> k == i || Has(order, k))
      && (extents[r[0]].offset == extents[i].offset || (order != [] && extents[r[0]].offset == extents[order[0]].offset))
  {
    if order != [] && extents[i].offset >= extents[order[0]].offset {
      var rest := order[1..];
      assert forall k :: Has(order, k) <==> k == order[0] || Has(rest, k) by { HasCons(order[0], rest); assert order == [order[0]] + rest; }
      assert !Has(rest, order[0]);
      InsertFacts(extents, rest, i);
      HasCons(order[0], Insert(extents, rest, i));
    } else {
      HasCons(i, order);
    }
  }

  /** Indices of the first `n` extents, sorted by offset. */
  function OrderUpTo(extents: seq<Extent>, n: nat): (order: seq<nat>)
    requires n <= |extents|
    ensures OrderOf(extents, order, n)
  {
    if n == 0 then []
    else
      var before := OrderUpTo(extents, n - 1);
      InsertSorts(extents, before, n - 1);
      Insert(extents, before, n - 1)
  }

  lemma InsertSorts(extents: seq<Extent>, before: seq<nat>, n: nat)
    requires n < |extents| && OrderOf(extents, before, n)
    ensures OrderOf(extents, Insert(extents, before, n), n + 1)
  {
    var order := Insert(extents, before, n);
    assert !Has(before, n);
    InsertFacts(extents, before, n);
    forall p | 0 <= p < n + 1 ensures order[p] < n + 1 {
      assert Has(order, order[p]);
    }
  }

  /** One order the sort may produce. */
  function SortByOffset(extents: seq<Extent>): (order: seq<nat>)
    ensures SortedOrder(extents, order)
  {
    OrderUpTo(extents, |extents|)
  }
}
