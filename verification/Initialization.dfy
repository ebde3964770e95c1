/** The resumable copy of the source tables into the base of the proof store. */
module Initialization {
  import opened Blocks
  import opened VersionedTables
  import opened ProofStores
  import opened SourceCursors
  import opened StoreRefinement

  /** How many entries are stored in one transaction. */
  const INITIALIZE_STORAGE_THRESHOLD: nat := 100000

  // ---------------------------------------------------------------------------------------------
  // Storing a batch
  // ---------------------------------------------------------------------------------------------

  /** The entries inserted in order. */
  function Inserted<K, V>(level: map<K, V>, entries: seq<(K, V)>): map<K, V> {
    if entries == [] then level
    else
      var last := entries[|entries| - 1];
      Inserted(level, entries[..|entries| - 1])[last.0 := last.1]
  }

  lemma {:induction false} InsertedConcat<K, V>(level: map<K, V>, a: seq<(K, V)>, b: seq<(K, V)>)
    ensures Inserted(level, a + b) == Inserted(Inserted(level, a), b)
  {
    if b == [] {
      assert a + b == a;
    } else {
      assert (a + b)[..|a + b| - 1] == a + b[..|b| - 1];
      InsertedConcat(level, a, b[..|b| - 1]);
    }
  }

  lemma InsertedOneMore<K, V>(level: map<K, V>, entries: seq<(K, V)>, e: (K, V))
    ensures Inserted(level, entries + [e]) == Inserted(level, entries)[e.0 := e.1]
  {
    assert (entries + [e])[..|entries|] == entries;
  }

  method InsertAll<K(==), V>(level: map<K, V>, entries: seq<(K, V)>) returns (next: map<K, V>)
    ensures next == Inserted(level, entries)
  {
    next := level;
    for i := 0 to |entries|
      invariant next == Inserted(level, entries[..i])
    {
      assert entries[..i + 1] == entries[..i] + [entries[i]];
      InsertedOneMore(level, entries[..i], entries[i]);
      next := next[entries[i].0 := entries[i].1];
    }
    assert entries[..|entries|] == entries;
  }

  type Group<V> = (nat, seq<(nat, V)>)

  function Keyed<V>(owner: nat, items: seq<(nat, V)>): seq<Row<V>> {
    if items == [] then []
    else
      var last := items[|items| - 1];
      Keyed(owner, items[..|items| - 1]) + [(Sub(owner, last.0), last.1)]
  }

  function Ungrouped<V>(groups: seq<Group<V>>): seq<Row<V>> {
    if groups == [] then []
    else
      var last := groups[|groups| - 1];
      Ungrouped(groups[..|groups| - 1]) + Keyed(last.0, last.1)
  }

  lemma UngroupedOneMore<V>(groups: seq<Group<V>>, g: Group<V>)
    ensures Ungrouped(groups + [g]) == Ungrouped(groups) + Keyed(g.0, g.1)
  {
    assert (groups + [g])[..|groups|] == groups;
  }

  lemma KeyedOneMore<V>(owner: nat, items: seq<(nat, V)>, e: (nat, V))
    ensures Keyed(owner, items + [e]) == Keyed(owner, items) + [(Sub(owner, e.0), e.1)]
  {
    assert (items + [e])[..|items|] == items;
  }

  /** Groups are not empty and neighbours have different addresses. */
  ghost predicate Separated<V>(groups: seq<Group<V>>) {
    && (forall i | 0 <= i < |groups| :: groups[i].1 != [])
    && (forall i | 0 < i < |groups| :: groups[i - 1].0 != groups[i].0)
  }

  lemma SeparatedOneMore<V>(groups: seq<Group<V>>, g: Group<V>)
    requires Separated(groups) && g.1 != [] && (groups != [] ==> groups[|groups| - 1].0 != g.0)
    ensures Separated(groups + [g])
  {
  }

  /** The entries so far: the closed groups and the open one. */
  ghost predicate Collected<V>(entries: seq<Row<V>>, grouped: seq<Group<V>>, current: nat, items: seq<(nat, V)>) {
    && entries == Ungrouped(grouped) + Keyed(current, items)
    && Separated(grouped) && (grouped != [] ==> grouped[|grouped| - 1].0 != current)
  }

  lemma ClosedGroup<V>(entries: seq<Row<V>>, grouped: seq<Group<V>>, current: nat, items: seq<(nat, V)>)
    requires Collected(entries, grouped, current, items) && items != []
    ensures Ungrouped(grouped + [(current, items)]) == entries && Separated(grouped + [(current, items)])
    ensures forall other | other != current :: Collected(entries, grouped + [(current, items)], other, [])
  {
    UngroupedOneMore(grouped, (current, items));
    SeparatedOneMore(grouped, (current, items));
  }

  lemma OneMoreEntry<V>(entries: seq<Row<V>>, i: nat, grouped: seq<Group<V>>, current: nat, items: seq<(nat, V)>)
    requires i < |entries| && entries[i].0.owner == current && Collected(entries[..i], grouped, current, items)
    ensures Collected(entries[..i + 1], grouped, current, items + [(entries[i].0.item, entries[i].1)])
  {
    KeyedOneMore(current, items, (entries[i].0.item, entries[i].1));
    assert entries[i] == (Sub(current, entries[i].0.item), entries[i].1);
    assert entries[..i + 1] == entries[..i] + [entries[i]];
  }

  /** Collects runs of entries with the same address. Nothing is lost, reordered or merged across a
      run. */
  method GroupEntries<V>(entries: seq<Row<V>>) returns (grouped: seq<Group<V>>)
    ensures Ungrouped(grouped) == entries && Separated(grouped)
  {
    grouped := [];
    if entries == [] {
      return;
    }
    var current, items := entries[0].0.owner, [];
    for i := 0 to |entries|
      invariant Collected(entries[..i], grouped, current, items)
      invariant if i > 0 then items != [] else current == entries[0].0.owner
    {
      var key := entries[i].0;
      if current != key.owner {
        ClosedGroup(entries[..i], grouped, current, items);
        grouped := grouped + [(current, items)];
        current, items := key.owner, [];
      }
      OneMoreEntry(entries, i, grouped, current, items);
      items := items + [(key.item, entries[i].1)];
    }
    assert entries[..|entries|] == entries;
    ClosedGroup(entries, grouped, current, items);
    grouped := grouped + [(current, items)];
  }

  /** Stores a batch of a table with several entries per address: grouping does not change what is
      stored. */
  method StoreGrouped<V>(level: map<Sub, V>, entries: seq<Row<V>>) returns (next: map<Sub, V>)
    ensures next == Inserted(level, entries)
  {
    var grouped := GroupEntries(entries);
    next := level;
    for i := 0 to |grouped|
      invariant next == Inserted(level, Ungrouped(grouped[..i]))
    {
      UngroupedOneMore(grouped[..i], grouped[i]);
      assert grouped[..i + 1] == grouped[..i] + [grouped[i]];
      InsertedConcat(level, Ungrouped(grouped[..i]), Keyed(grouped[i].0, grouped[i].1));
      next := StoreUnder(next, grouped[i].0, grouped[i].1);
    }
    assert grouped[..|grouped|] == grouped;
  }

  method StoreUnder<V>(level: map<Sub, V>, owner: nat, items: seq<(nat, V)>) returns (next: map<Sub, V>)
    ensures next == Inserted(level, Keyed(owner, items))
  {
    next := level;
    for i := 0 to |items|
      invariant next == Inserted(level, Keyed(owner, items[..i]))
    {
      KeyedOneMore(owner, items[..i], items[i]);
      assert items[..i + 1] == items[..i] + [items[i]];
      InsertedOneMore(level, Keyed(owner, items[..i]), (Sub(owner, items[i].0), items[i].1));
      next := next[Sub(owner, items[i].0) := items[i].1];
    }
    assert items[..|items|] == items;
  }

  // ---------------------------------------------------------------------------------------------
  // Copying one table
  // ---------------------------------------------------------------------------------------------

  function Chunk(threshold: nat): nat {
    if threshold == 0 then 1 else threshold
  }

  /** The rows from `from` on copied in batches, with `budget` transactions left before a stop: the
      base reached, the transactions left, and whether all rows got there. */
  function Loaded<K, V>(rows: seq<(K, V)>, from: nat, level: map<K, V>, chunk: nat, budget: nat): (map<K, V>, nat, bool)
    requires from <= |rows| && chunk >= 1
    decreases |rows| - from
  {
    if from == |rows| then (level, budget, true)
    else if budget == 0 then (level, 0, false)
    else
      var to := Min(from + chunk, |rows|);
      Loaded(rows, to, Inserted(level, rows[from..to]), chunk, budget - 1)
  }

  /** The copy toward `goal` has stored the rows up to `stored` and collected those up to `i`. */
  ghost predicate Progress<K, V>(rows: seq<(K, V)>, goal: (map<K, V>, nat, bool), chunk: nat, stored: nat, i: nat,
                                 batch: seq<(K, V)>, level: map<K, V>, left: nat)
  {
    && stored <= i <= |rows| && i - stored < chunk && batch == rows[stored..i]
    && goal == Loaded(rows, stored, level, chunk, left)
  }

  /** One more row: the batch grows, or is full and stored, or there is no transaction left to store it. */
  lemma OneMoreRow<K, V>(rows: seq<(K, V)>, goal: (map<K, V>, nat, bool), chunk: nat, stored: nat, i: nat,
                         batch: seq<(K, V)>, level: map<K, V>, left: nat)
    requires Progress(rows, goal, chunk, stored, i, batch, level, left) && i < |rows|
    ensures var more := batch + [rows[i]];
            if |more| < chunk then Progress(rows, goal, chunk, stored, i + 1, more, level, left)
            else if left == 0 then goal == (level, 0, false)
            else Progress(rows, goal, chunk, i + 1, i + 1, [], Inserted(level, more), left - 1)
  {
    assert batch + [rows[i]] == rows[stored..i + 1];
  }

  /** After the last row a shorter batch is stored as well. */
  lemma NoMoreRows<K, V>(rows: seq<(K, V)>, goal: (map<K, V>, nat, bool), chunk: nat, stored: nat,
                         batch: seq<(K, V)>, level: map<K, V>, left: nat)
    requires Progress(rows, goal, chunk, stored, |rows|, batch, level, left)
    ensures if batch == [] then goal == (level, left, true)
            else if left == 0 then goal == (level, 0, false)
            else goal == (Inserted(level, batch), left - 1, true)
  {
    if batch != [] && left > 0 {
      assert Min(stored + chunk, |rows|) == |rows|;
      assert Loaded(rows, |rows|, Inserted(level, batch), chunk, left - 1) == (Inserted(level, batch), left - 1, true);
    }
  }

  method Initialize<K(==), V>(rows: seq<(K, V)>, from: nat, level: map<K, V>, threshold: nat, budget: nat)
    returns (next: map<K, V>, left: nat, done: bool)
    requires from <= |rows|
    ensures (next, left, done) == Loaded(rows, from, level, Chunk(threshold), budget)
  {
    next, left := level, budget;
    var batch: seq<(K, V)> := [];
    ghost var stored, goal := from, Loaded(rows, from, level, Chunk(threshold), budget);
    for i := from to |rows|
      invariant 0 <= stored && Progress(rows, goal, Chunk(threshold), stored, i, batch, next, left)
    {
      OneMoreRow(rows, goal, Chunk(threshold), stored, i, batch, next, left);
      batch := batch + [rows[i]];
      if |batch| >= threshold {
        if left == 0 {
          return next, 0, false;
        }
        next := InsertAll(next, batch);
        left, batch, stored := left - 1, [], i + 1;
      }
    }
    NoMoreRows(rows, goal, Chunk(threshold), stored, batch, next, left);
    if batch != [] {
      if left == 0 {
        return next, 0, false;
      }
      next := InsertAll(next, batch);
      left := left - 1;
    }
    done := true;
  }

  /** The same copy for a table with several rows per address: the cursor walks the rows, and a batch is
      stored in groups. */
  method InitializeDup<V>(cursor: DupCursor<V>, level: map<Sub, V>, threshold: nat, budget: nat)
    returns (next: map<Sub, V>, left: nat, done: bool)
    requires cursor.Valid()
    modifies cursor
    ensures (next, left, done) == Loaded(cursor.rows, old(cursor.pos) + 1, level, Chunk(threshold), budget)
  {
    next, left := level, budget;
    ghost var rows := cursor.rows;
    var batch: seq<Row<V>> := [];
    ghost var stored, i: nat := cursor.pos + 1, cursor.pos + 1;
    ghost var goal := Loaded(rows, stored, level, Chunk(threshold), budget);
    var r := cursor.Next();
    while r.Some?
      invariant cursor.Valid() && 0 <= stored && Progress(rows, goal, Chunk(threshold), stored, i, batch, next, left)
      invariant r == Successor(rows, i - 1) && cursor.pos == if r.Some? then i else i - 1
      decreases |rows| - i
    {
      var stopped;
      batch, next, left, stopped, stored := TakeRow(rows, goal, threshold, stored, i, batch, r.value, next, left);
      if stopped {
        return next, 0, false;
      }
      i := i + 1;
      r := cursor.Next();
    }
    NoMoreRows(rows, goal, Chunk(threshold), stored, batch, next, left);
    next, left, done := StoreLast(next, batch, left);
  }

  /** One more row joins the batch, and a full batch is stored. */
  method TakeRow<V>(ghost rows: seq<Row<V>>, ghost goal: (map<Sub, V>, nat, bool), threshold: nat, ghost stored: nat,
                    ghost i: nat, batch: seq<Row<V>>, row: Row<V>, level: map<Sub, V>, budget: nat)
    returns (more: seq<Row<V>>, next: map<Sub, V>, left: nat, stopped: bool, ghost upTo: nat)
    requires Progress(rows, goal, Chunk(threshold), stored, i, batch, level, budget) && i < |rows| && row == rows[i]
    ensures if stopped then goal == (next, 0, false) && left == 0
            else Progress(rows, goal, Chunk(threshold), upTo, i + 1, more, next, left)
  {
    OneMoreRow(rows, goal, Chunk(threshold), stored, i, batch, level, budget);
    more, next, left, stopped, upTo := batch + [row], level, budget, false, stored;
    if |more| >= threshold {
      if left == 0 {
        return more, next, 0, true, stored;
      }
      next := StoreGrouped(next, more);
      left, more, upTo := left - 1, [], i + 1;
    }
  }

  /** The rows that did not fill a batch. */
  method StoreLast<V>(level: map<Sub, V>, batch: seq<Row<V>>, budget: nat)
    returns (next: map<Sub, V>, left: nat, done: bool)
    ensures (next, left, done) == if batch == [] then (level, budget, true)
                                  else if budget == 0 then (level, 0, false)
                                  else (Inserted(level, batch), budget - 1, true)
  {
    if batch == [] {
      return level, budget, true;
    }
    if budget == 0 {
      return level, 0, false;
    }
    next := StoreGrouped(level, batch);
    left, done := budget - 1, true;
  }

  // ---------------------------------------------------------------------------------------------
  // Where to resume
  // ---------------------------------------------------------------------------------------------

  ghost predicate TotalOrder<K(!new)>(less: (K, K) -> bool) {
    && (forall a, b :: less(a, b) ==> !less(b, a))
    && (forall a, b :: a == b || less(a, b) || less(b, a))
    && (forall a, b, c :: less(a, b) && less(b, c) ==> less(a, c))
  }

  function NatOrder(): (nat, nat) -> bool {
    (a: nat, b: nat) => a < b
  }

  function SubOrder(): (Sub, Sub) -> bool {
    (a: Sub, b: Sub) => SubLess(a, b)
  }

  predicate InOrder<K, V>(less: (K, K) -> bool, rows: seq<(K, V)>) {
    forall i, j | 0 <= i < j < |rows| :: less(rows[i].0, rows[j].0)
  }

  /** The greatest stored key. */
  predicate IsLast<K>(less: (K, K) -> bool, keys: set<K>, k: K) {
    k in keys && forall c | c in keys :: c == k || less(c, k)
  }

  function IndexOf<K(==), V>(rows: seq<(K, V)>, k: K): (r: Option<nat>)
    ensures r.Some? ==> r.value < |rows| && rows[r.value].0 == k
    ensures r.None? ==> forall i | 0 <= i < |rows| :: rows[i].0 != k
  {
    if rows == [] then None
    else if rows[|rows| - 1].0 == k then Some(|rows| - 1)
    else IndexOf(rows[..|rows| - 1], k)
  }

  /** Scans the stored keys for the greatest one. */
  method LastKey<K(!new, ==)>(less: (K, K) -> bool, keys: set<K>) returns (last: Option<K>)
    requires TotalOrder(less)
    ensures last.None? ==> keys == {}
    ensures last.Some? ==> IsLast(less, keys, last.value)
  {
    last := None;
    var todo := keys;
    while todo != {}
      invariant todo <= keys && (last.None? ==> todo == keys)
      invariant last.Some? ==>
                last.value in keys && forall c | c in keys && c !in todo :: c == last.value || less(c, last.value)
      decreases todo
    {
      var k :| k in todo;
      todo := todo - {k};
      if last.None? || less(last.value, k) {
        last := Some(k);
      }
    }
  }

  /** Resuming starts just after the greatest stored key; a stored key that the source does not have
      is an inconsistency. */
  method Resume<K(!new, ==), V>(less: (K, K) -> bool, rows: seq<(K, V)>, level: map<K, V>) returns (from: Option<nat>)
    requires TotalOrder(less)
    ensures from == ResumeAt(less, rows, level)
    ensures from.Some? ==> from.value <= |rows|
  {
    var last := LastKey(less, level.Keys);
    if last.None? {
      return Some(0);
    }
    var i := IndexOf(rows, last.value);
    return if i.Some? then Some(i.value + 1) else None;
  }

  /** The same for a table with several rows per address, through the cursor. */
  method ResumeDup<V>(cursor: DupCursor<V>, level: map<Sub, V>) returns (from: Option<nat>)
    requires cursor.Valid() && cursor.pos == -1
    modifies cursor
    ensures cursor.Valid()
    ensures from == ResumeAt(SubOrder(), cursor.rows, level)
    ensures from.Some? ==> from.value == cursor.pos + 1
  {
    OrdersAreTotal();
    var last := LastKey(SubOrder(), level.Keys);
    if last.None? {
      return Some(0);
    }
    ResumeAfterLast(SubOrder(), cursor.rows, level, last.value);
    var found := cursor.SeekByKeySubkey(last.value);
    from := if found then Some(cursor.pos + 1) else None;
    if found {
      SortedIndex(cursor.rows, cursor.pos);
    }
  }

  lemma ResumeAfterLast<K(!new), V>(less: (K, K) -> bool, rows: seq<(K, V)>, level: map<K, V>, last: K)
    requires TotalOrder(less) && IsLast(less, level.Keys, last)
    ensures ResumeAt(less, rows, level) == (match IndexOf(rows, last) case Some(i) => Some(i + 1) case None => None)
  {
    forall k | IsLast(less, level.Keys, k) ensures k == last {
      LastIsUnique(less, level.Keys, k, last);
    }
  }

  lemma SortedIndex<V>(rows: seq<Row<V>>, i: nat)
    requires Sorted(rows) && i < |rows|
    ensures IndexOf(rows, rows[i].0) == Some(i)
  {
    var j := IndexOf(rows, rows[i].0);
    assert j.Some? ==> j.value == i;
  }

  ghost function ResumeAt<K(!new), V>(less: (K, K) -> bool, rows: seq<(K, V)>, level: map<K, V>): (from: Option<nat>)
    ensures from.Some? ==> from.value <= |rows|
  {
    if level.Keys == {} then Some(0)
    else if exists k :: IsLast(less, level.Keys, k) then
      var k :| IsLast(less, level.Keys, k);
      var i := IndexOf(rows, k);
      if i.Some? then Some(i.value + 1) else None
    else None
  }

  lemma OrdersAreTotal()
    ensures TotalOrder(NatOrder()) && TotalOrder(SubOrder())
  {
  }

  lemma LastIsUnique<K(!new)>(less: (K, K) -> bool, keys: set<K>, a: K, b: K)
    requires TotalOrder(less) && IsLast(less, keys, a) && IsLast(less, keys, b)
    ensures a == b
  {
  }

  // ---------------------------------------------------------------------------------------------
  // A copied prefix
  // ---------------------------------------------------------------------------------------------

  /** The base holds the first `n` rows. */
  ghost predicate Holds<K, V>(rows: seq<(K, V)>, n: nat, level: map<K, V>) {
    n <= |rows| && level == Inserted(map[], rows[..n])
  }

  lemma {:induction false} InsertedKeys<K, V>(rows: seq<(K, V)>, k: K)
    ensures k in Inserted(map[], rows) <==> exists i :: 0 <= i < |rows| && rows[i].0 == k
  {
    if rows != [] {
      var init := rows[..|rows| - 1];
      InsertedKeys(init, k);
      assert rows == init + [rows[|rows| - 1]];
    }
  }

  lemma {:induction false} InsertedValues<K(!new), V>(less: (K, K) -> bool, rows: seq<(K, V)>, i: nat)
    requires TotalOrder(less) && InOrder(less, rows) && i < |rows|
    ensures rows[i].0 in Inserted(map[], rows) && Inserted(map[], rows)[rows[i].0] == rows[i].1
  {
    if i < |rows| - 1 {
      InsertedValues(less, rows[..|rows| - 1], i);
    }
  }

  /** A full copy holds exactly the source entries. */
  lemma FullCopyIsExact<K(!new), V>(less: (K, K) -> bool, rows: seq<(K, V)>, k: K)
    requires TotalOrder(less) && InOrder(less, rows)
    ensures k in Inserted(map[], rows) <==> exists i :: 0 <= i < |rows| && rows[i].0 == k
    ensures forall i | 0 <= i < |rows| && rows[i].0 == k :: Inserted(map[], rows)[k] == rows[i].1
  {
    InsertedKeys(rows, k);
    forall i | 0 <= i < |rows| && rows[i].0 == k ensures Inserted(map[], rows)[k] == rows[i].1 {
      InsertedValues(less, rows, i);
    }
  }

  /** Resuming a copied prefix starts at the first row not copied yet. */
  lemma ResumeAfterPrefix<K(!new), V>(less: (K, K) -> bool, rows: seq<(K, V)>, n: nat, level: map<K, V>)
    requires TotalOrder(less) && InOrder(less, rows) && Holds(rows, n, level)
    ensures ResumeAt(less, rows, level) == Some(n)
  {
    if n > 0 {
      var k := rows[n - 1].0;
      forall c ensures c in level <==> exists i :: 0 <= i < n && rows[i].0 == c {
        InsertedKeys(rows[..n], c);
      }
      assert rows[n - 1].0 in level;
      assert IsLast(less, level.Keys, k);
      forall c | IsLast(less, level.Keys, c) ensures c == k {
        LastIsUnique(less, level.Keys, c, k);
      }
      var i := IndexOf(rows, k);
    }
  }

  /** From a copied prefix the copy reaches a longer one, all of it exactly if it ends, and needs no
      more transactions than there are rows left. */
  lemma {:induction false} LoadExtendsPrefix<K, V>(rows: seq<(K, V)>, n: nat, level: map<K, V>, chunk: nat, budget: nat)
    returns (m: nat)
    requires Holds(rows, n, level) && chunk >= 1
    ensures n <= m && Holds(rows, m, Loaded(rows, n, level, chunk, budget).0)
    ensures Loaded(rows, n, level, chunk, budget).2 <==> m == |rows|
    ensures Loaded(rows, n, level, chunk, budget).1 + m >= budget + n || m < |rows|
    ensures budget >= |rows| - n ==> m == |rows|
    decreases |rows| - n
  {
    m := n;
    if n < |rows| && budget > 0 {
      var to := Min(n + chunk, |rows|);
      assert rows[..n] + rows[n..to] == rows[..to];
      InsertedConcat(map[], rows[..n], rows[n..to]);
      m := LoadExtendsPrefix(rows, to, Inserted(level, rows[n..to]), chunk, budget - 1);
    }
  }
}
