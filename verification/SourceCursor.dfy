/** Cursors over the sorted source tables of initialization, and the iterator that walks a table with
    several values per key. */
module SourceCursors {
  import opened Blocks
  import opened ProofStores

  /** Strict order of keys: first by address, then by path or slot. */
  predicate SubLess(a: Sub, b: Sub) {
    a.owner < b.owner || (a.owner == b.owner && a.item < b.item)
  }

  type Row<V> = (Sub, V)

  predicate Sorted<V>(rows: seq<Row<V>>) {
    forall i, j | 0 <= i < j < |rows| :: SubLess(rows[i].0, rows[j].0)
  }

  /** What follows position `pos`; before the first row stands -1. */
  function Successor<V>(rows: seq<Row<V>>, pos: int): Option<Row<V>>
    requires pos >= -1
  {
    if pos + 1 < |rows| then Some(rows[pos + 1]) else None
  }

  /** A cursor over a table whose rows are grouped by address. */
  class DupCursor<V> {
    const rows: seq<Row<V>>
    var pos: int

    ghost predicate Valid()
      reads this
    {
      Sorted(rows) && -1 <= pos < |rows|
    }

    constructor (rows: seq<Row<V>>)
      requires Sorted(rows)
      ensures Valid() && this.rows == rows && pos == -1
    {
      this.rows, pos := rows, -1;
    }

    /** The next row of the same address. */
    method NextDup() returns (r: Option<Row<V>>)
      requires Valid()
      modifies this
      ensures Valid()
      ensures r.Some? ==> pos == old(pos) + 1 && r == Some(rows[pos])
      ensures r.None? ==>
                pos == old(pos) && (0 <= pos && pos + 1 < |rows| ==> rows[pos].0.owner < rows[pos + 1].0.owner)
    {
      if 0 <= pos && pos + 1 < |rows| && rows[pos].0.owner == rows[pos + 1].0.owner {
        pos := pos + 1;
        return Some(rows[pos]);
      }
      return None;
    }

    /** The first row of the next address. */
    method NextNoDup() returns (r: Option<Row<V>>)
      requires Valid()
      modifies this
      ensures Valid()
      ensures r.Some? ==> old(pos) < pos && r == Some(rows[pos])
      ensures r.Some? && old(pos) == -1 ==> pos == 0
      ensures r.Some? && old(pos) >= 0 ==> rows[old(pos)].0.owner < rows[pos].0.owner
      ensures r.Some? && old(pos) >= 0 ==> forall i | old(pos) < i < pos :: rows[i].0.owner == rows[old(pos)].0.owner
      ensures r.None? ==> pos == old(pos) && (pos == -1 ==> rows == [])
      ensures r.None? && pos >= 0 ==> forall i | pos < i < |rows| :: rows[i].0.owner == rows[pos].0.owner
    {
      var i := pos + 1;
      while i < |rows| && pos >= 0 && rows[i].0.owner == rows[pos].0.owner
        invariant pos < i <= |rows| && pos == old(pos) && (pos == -1 ==> i == 0)
        invariant pos >= 0 ==> forall j | pos < j < i :: rows[j].0.owner == rows[pos].0.owner
      {
        i := i + 1;
      }
      if i < |rows| {
        pos := i;
        return Some(rows[i]);
      }
      return None;
    }

    /** The first row at or after an address. */
    method Seek(owner: nat) returns (r: Option<Row<V>>)
      requires Valid()
      modifies this
      ensures Valid()
      ensures r.Some? ==> pos >= 0 && r == Some(rows[pos]) && rows[pos].0.owner >= owner && forall i | 0 <= i < pos ::
                 rows[i].0.owner < owner
      ensures r.None? ==> pos == old(pos) && forall i | 0 <= i < |rows| :: rows[i].0.owner < owner
    {
      var i := 0;
      while i < |rows| && rows[i].0.owner < owner
        invariant 0 <= i <= |rows| && forall j | 0 <= j < i :: rows[j].0.owner < owner
      {
        i := i + 1;
      }
      if i < |rows| {
        pos := i;
        return Some(rows[i]);
      }
      return None;
    }

    /** The iterator: the next row of the address, else the first row of the next address. Together
        these walk the rows one by one. */
    method Next() returns (r: Option<Row<V>>)
      requires Valid()
      modifies this
      ensures Valid()
      ensures r == Successor(rows, old(pos))
      ensures r.Some? ==> pos == old(pos) + 1
      ensures r.None? ==> pos == old(pos)
    {
      r := NextDup();
      if r.Some? {
        return;
      }
      var first := NextNoDup();
      if first.None? {
        return None;
      }
      ghost var there := pos;
      r := Seek(first.value.0.owner);
      assert pos == there;
    }

    /** Positions on the row with this very key, if there is one. */
    method SeekByKeySubkey(key: Sub) returns (found: bool)
      requires Valid()
      modifies this
      ensures Valid()
      ensures found <==> exists i :: 0 <= i < |rows| && rows[i].0 == key
      ensures found ==> pos >= 0 && rows[pos].0 == key
    {
      var i := 0;
      while i < |rows| && SubLess(rows[i].0, key)
        invariant 0 <= i <= |rows| && forall j | 0 <= j < i :: SubLess(rows[j].0, key)
      {
        i := i + 1;
      }
      found := false;
      if i < |rows| {
        pos := i;
        found := rows[i].0 == key;
      }
    }
  }

  /** From a position, the iterator yields every later row once and in order. */
  method Collect<V>(cursor: DupCursor<V>) returns (all: seq<Row<V>>)
    requires cursor.Valid()
    modifies cursor
    ensures all == cursor.rows[old(cursor.pos) + 1..]
  {
    all := [];
    var r := cursor.Next();
    while r.Some?
      invariant cursor.Valid() && old(cursor.pos) + 1 + |all| <= |cursor.rows|
      invariant all == cursor.rows[old(cursor.pos) + 1..old(cursor.pos) + 1 + |all|]
      invariant r == Successor(cursor.rows, old(cursor.pos) + |all|)
      invariant cursor.pos == old(cursor.pos) + |all| + if r.Some? then 1 else 0
      decreases |cursor.rows| - |all|
    {
      all := all + [r.value];
      r := cursor.Next();
    }
  }
}
