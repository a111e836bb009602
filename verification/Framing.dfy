/** Filling frame buffers in place, and collecting schema columns as they are read. */
module Framing {
  import opened Core
  import opened Bytes
  import opened Limits
  import opened Crc32c
  import opened Schema
  import opened Frame
  import SchemaFrame

  /** Copy a field into its place and touch nothing else. */
  method Put(a: array<byte>, offset: nat, bytes: seq<byte>)
    requires offset + |bytes| <= a.Length
    modifies a
    ensures a[..] == old(a[..offset]) + bytes + old(a[offset + |bytes|..])
  {
    var i := 0;
    while i < |bytes|
      invariant 0 <= i <= |bytes|
      invariant forall k :: 0 <= k < a.Length ==>
                  a[k] == if offset <= k < offset + i then bytes[k - offset] else old(a[k])
    {
      a[offset + i] := bytes[i];
      i := i + 1;
    }
  }

  /** The next field of a buffer that is filled from the front. */
  method Next(a: array<byte>, offset: nat, bytes: seq<byte>, ghost done: seq<byte>)
    requires offset + |bytes| <= a.Length && a[..offset] == done
    modifies a
    ensures a[..offset + |bytes|] == done + bytes && a[offset + |bytes|..] == old(a[offset + |bytes|..])
  {
    Put(a, offset, bytes);
    ghost var all := a[..];
    assert a[..offset + |bytes|] == all[..offset + |bytes|];
    assert a[offset + |bytes|..] == all[offset + |bytes|..];
  }

  method BuildPrefix(frameType: u16, sequence: u64, header: seq<byte>, payloadLength: nat) returns (prefix: array<byte>)
    ensures fresh(prefix)
    ensures
      var covered := PrefixCovered(frameType, sequence, |header|, payloadLength, Checksum(header));
      prefix[..] == covered + Le(Checksum(covered), 4)
  {
    hide Checksum, Le, Zeros;
    prefix := new byte[PREFIX_SIZE](_ => 0);
    ghost var covered := PrefixCovered(frameType, sequence, |header|, payloadLength, Checksum(header));
    assert prefix[..0] == [];
    Next(prefix, 0, FRAME_MAGIC, []);
    ghost var done := [] + FRAME_MAGIC;
    Next(prefix, 8, Le(frameType, 2), done);
    done := done + Le(frameType, 2);
    Next(prefix, 10, Le(0, 2), done);
    done := done + Le(0, 2);
    Next(prefix, 12, Le(0, 4), done);
    done := done + Le(0, 4);
    Next(prefix, 16, Le(|header|, 4), done);
    done := done + Le(|header|, 4);
    Next(prefix, 20, Zeros(4), done);
    done := done + Zeros(4);
    Next(prefix, 24, Le(payloadLength, 8), done);
    done := done + Le(payloadLength, 8);
    Next(prefix, 32, Le(sequence, 8), done);
    done := done + Le(sequence, 8);
    Next(prefix, 40, Le(Checksum(header), 4), done);
    done := done + Le(Checksum(header), 4);
    assert done == covered;
    Next(prefix, 44, Le(Checksum(prefix[..44]), 4), done);
    assert prefix[..48] == prefix[..];
  }

  method BuildTrailer(totalLength: nat, sequence: u64, bodyCrc: u32) returns (trailer: array<byte>)
    ensures fresh(trailer) && trailer[..] == Trailer(totalLength, sequence, bodyCrc)
  {
    hide Checksum, Fold, Le;
    trailer := new byte[TRAILER_SIZE](_ => 0);
    ghost var head := Le(totalLength, 8) + Le(sequence, 8) + Le(bodyCrc, 4);
    assert trailer[..0] == [];
    Next(trailer, 0, Le(totalLength, 8), []);
    Next(trailer, 8, Le(sequence, 8), [] + Le(totalLength, 8));
    Next(trailer, 16, Le(bodyCrc, 4), [] + Le(totalLength, 8) + Le(sequence, 8));
    assert trailer[..20] == head;
    var crc := new Accumulator();
    crc.Update(trailer[..20]);
    crc.Update(COMMIT_MAGIC);
    assert crc.fed == head + COMMIT_MAGIC;
    var total := crc.Total();
    Next(trailer, 20, Le(total, 4), head);
    Next(trailer, 24, COMMIT_MAGIC, head + Le(total, 4));
    assert trailer[..32] == trailer[..];
  }

  /** One frame, or a refusal of regions no frame can hold. */
  method BuildFrame(frameType: u16, sequence: u64, header: seq<byte>, payload: seq<byte>) returns (r: Result<seq<byte>>)
    ensures r.Ok? <==> |header| % 8 == 0 && |payload| % 8 == 0 && |header| < U32 && FrameLength(|header|, |payload|) < U64
    ensures r.Ok? ==> r.value == FrameBytes(frameType, sequence, header, payload)
  {
    hide Checksum, Fold, Le, PrefixCovered, Trailer;
    if |header| % 8 != 0 || |payload| % 8 != 0 {
      return Err(Internal);
    }
    if |header| >= U32 || FrameLength(|header|, |payload|) >= U64 {
      return Err(ResourceLimit);
    }
    var prefix := BuildPrefix(frameType, sequence, header, |payload|);
    var body := new Accumulator();
    body.Update(prefix[..]);
    body.Update(header);
    body.Update(payload);
    assert body.fed == Body(frameType, sequence, header, payload);
    var crc := body.Total();
    var trailer := BuildTrailer(FrameLength(|header|, |payload|), sequence, crc);
    r := Ok(prefix[..] + header + payload + trailer[..]);
  }

  // --------------------------------------------------------------- schema columns

  /** Columns accepted so far, with the IDs and names they have used. */
  class ColumnSet {
    var columns: seq<Column>
    var ids: set<u32>
    var names: set<Text>

    ghost predicate Valid()
      reads this
    {
      && ids == SchemaFrame.Ids(columns) && names == SchemaFrame.Names(columns)
      && SchemaFrame.Distinct(columns) && forall i :: 0 <= i < |columns| ==> columns[i].id != 0
    }

    constructor ()
      ensures Valid() && columns == []
    {
      columns, ids, names := [], {}, {};
    }

    /** Accept a column whose ID is nonzero and whose ID and name are new. */
    method Insert(column: Column) returns (r: Result<()>)
      requires Valid()
      modifies this
      ensures r.Ok? <==> SchemaFrame.Joins(old(columns), column)
      ensures r.Ok? ==> Valid() && columns == old(columns) + [column]
      ensures r.Err? ==> r.kind == Corruption
    {
      if column.id == 0 || column.id in ids {
        return Err(Corruption);
      }
      ids := ids + {column.id};
      if column.name in names {
        return Err(Corruption);
      }
      names := names + {column.name};
      AddColumn(columns, column);
      columns := columns + [column];
      r := Ok(());
    }
  }

  lemma AddColumn(columns: seq<Column>, column: Column)
    requires SchemaFrame.Distinct(columns) && SchemaFrame.Joins(columns, column)
    ensures SchemaFrame.Ids(columns + [column]) == SchemaFrame.Ids(columns) + {column.id}
    ensures SchemaFrame.Names(columns + [column]) == SchemaFrame.Names(columns) + {column.name}
    ensures SchemaFrame.Distinct(columns + [column])
  {
    forall i | 0 <= i < |columns| ensures columns[i].id != column.id && columns[i].name != column.name {
      assert columns[i] in columns;
    }
  }

  /** Read descriptors until all are in; they must fill the payload exactly. */
  method ReadColumns(payload: seq<byte>, count: nat, limits: Limits) returns (r: Result<seq<Column>>)
    ensures r == SchemaFrame.ReadColumns(payload, 0, count, [], limits)
    ensures r.Ok? ==> |r.value| == count && SchemaFrame.Distinct(r.value)
  {
    hide SchemaFrame.ParseDescriptor, SchemaFrame.Joins, SchemaFrame.Distinct, SchemaFrame.Ids, SchemaFrame.Names;
    var found := new ColumnSet();
    var position, left := 0, count;
    while left > 0
      invariant 0 <= left <= count && position <= |payload| && found.Valid() && |found.columns| == count - left
      invariant SchemaFrame.ReadColumns(payload, 0, count, [], limits)
             == SchemaFrame.ReadColumns(payload, position, left, found.columns, limits)
      decreases left
    {
      var parsed := SchemaFrame.ParseDescriptor(payload[position..], limits);
      if parsed.Err? {
        return Err(parsed.kind);
      }
      var (column, length) := parsed.value;
      if position + length > |payload| {
        return Err(Corruption);
      }
      var inserted := found.Insert(column);
      if inserted.Err? {
        return Err(inserted.kind);
      }
      position, left := position + length, left - 1;
    }
    r := if position != |payload| then Err(Corruption) else Ok(found.columns);
  }
}
