/** A table that keeps every version of every key, and its views "as of" a block. */
module VersionedTables {
  import opened Blocks

  /** The rows of a versioned table, grouped by the block that wrote them. Block zero holds the
      base state. */
  type Table<K(==), V> = map<nat, map<K, V>>

  predicate Has<K, V>(t: Table<K, V>, b: nat, k: K) {
    b in t && k in t[b]
  }

  /** The versions one block wrote. */
  function Level<K, V>(t: Table<K, V>, b: nat): map<K, V> {
    if b in t then t[b] else map[]
  }

  /** The newest version of `k` at or below block `m`, searching downward. */
  function Lookup<K, V>(t: Table<K, V>, m: nat, k: K): Option<V> {
    if Has(t, m, k) then Some(t[m][k])
    else if m == 0 then None
    else Lookup(t, m - 1, k)
  }

  /** The newest version of every key at or below block `m`. */
  function View<K, V>(t: Table<K, V>, m: nat): map<K, V> {
    if m == 0 then Level(t, 0) else View(t, m - 1) + Level(t, m)
  }

  /** The table after block `b` writes `rows`. */
  function Put<K, V>(t: Table<K, V>, b: nat, rows: map<K, V>): Table<K, V> {
    t[b := Level(t, b) + rows]
  }

  /** The blocks up to `n`. */
  function UpTo<R>(t: map<nat, R>, n: nat): map<nat, R> {
    map b | b in t && b <= n :: t[b]
  }

  /** The blocks above `n`. */
  function Beyond<R>(t: map<nat, R>, n: nat): map<nat, R> {
    map b | b in t && b > n :: t[b]
  }

  /** The table with everything up to block `e` folded into the base. */
  function Folded<K, V>(t: Table<K, V>, e: nat): Table<K, V> {
    Beyond(t, e)[0 := View(t, e)]
  }

  /** How many rows a fold up to block `e` moves. */
  function Movable<K, V>(t: Table<K, V>, e: nat): nat {
    if e == 0 then 0 else Movable(t, e - 1) + if e in t then |t[e]| else 0
  }

  /** No row is newer than block `n`. */
  predicate Bounded<K, V>(t: Table<K, V>, n: nat) {
    forall b | b in t :: b <= n
  }

  // ---------------------------------------------------------------------------------------------
  // Views
  // ---------------------------------------------------------------------------------------------

  /** The view overlays the blocks in order; the downward search finds the same versions. */
  lemma {:induction false} ViewIsLookup<K, V>(t: Table<K, V>, m: nat, k: K)
    ensures k in View(t, m) <==> Lookup(t, m, k).Some?
    ensures k in View(t, m) ==> Lookup(t, m, k) == Some(View(t, m)[k])
  {
    if m > 0 {
      ViewIsLookup(t, m - 1, k);
    }
  }

  /** `b` is the newest block at or below `m` with a row for `k`. */
  predicate Newest<K, V>(t: Table<K, V>, m: nat, k: K, b: nat) {
    Has(t, b, k) && b <= m && forall c: nat | Has(t, c, k) && c <= m :: c <= b
  }

  lemma {:induction false} LookupIsNewest<K, V>(t: Table<K, V>, m: nat, k: K)
    ensures forall b | Newest(t, m, k, b) :: Lookup(t, m, k) == Some(t[b][k])
    ensures Lookup(t, m, k).None? <==> forall b: nat | b <= m :: !Has(t, b, k)
  {
    if Has(t, m, k) {
      assert Newest(t, m, k, m);
    } else if m > 0 {
      LookupIsNewest(t, m - 1, k);
      forall b | Newest(t, m, k, b) ensures Newest(t, m - 1, k, b) {}
    }
  }

  /** Maps with the same entries are the same. */
  lemma SameMap<K, V>(a: map<K, V>, b: map<K, V>)
    requires forall k | k in a :: k in b && a[k] == b[k]
    requires forall k | k in b :: k in a
    ensures a == b
  {
  }

  /** Tables that agree up to block `m` have the same view there. */
  lemma {:induction false} ViewDependsBelow<K, V>(t: Table<K, V>, u: Table<K, V>, m: nat)
    requires forall b: nat | b <= m :: Level(t, b) == Level(u, b)
    ensures View(t, m) == View(u, m)
  {
    if m > 0 {
      ViewDependsBelow(t, u, m - 1);
    }
  }

  /** Above the newest row the view no longer changes. */
  lemma {:induction false} ViewSettles<K, V>(t: Table<K, V>, n: nat, m: nat)
    requires Bounded(t, n) && n <= m
    ensures View(t, m) == View(t, n)
  {
    if n < m {
      ViewSettles(t, n, m - 1);
      assert View(t, m - 1) + map[] == View(t, m - 1);
    }
  }

  /** Writing a new block does not change the views below it. */
  lemma ViewBelowPut<K, V>(t: Table<K, V>, b: nat, rows: map<K, V>, m: nat)
    requires m < b
    ensures View(Put(t, b, rows), m) == View(t, m)
  {
    ViewDependsBelow(Put(t, b, rows), t, m);
  }

  lemma PlusAssociates<K, V>(a: map<K, V>, b: map<K, V>, c: map<K, V>)
    ensures a + (b + c) == (a + b) + c
  {
    SameMap(a + (b + c), (a + b) + c);
  }

  /** From a new newest block on, the view is the old one overlaid with its rows. */
  lemma ViewFromPut<K, V>(t: Table<K, V>, b: nat, rows: map<K, V>, m: nat)
    requires b <= m && Bounded(t, b)
    ensures View(Put(t, b, rows), m) == View(t, m) + rows
  {
    ViewSettles(Put(t, b, rows), b, m);
    ViewSettles(t, b, m);
    if b > 0 {
      ViewBelowPut(t, b, rows, b - 1);
      PlusAssociates(View(t, b - 1), Level(t, b), rows);
    }
  }

  lemma ViewUpTo<K, V>(t: Table<K, V>, n: nat, m: nat)
    ensures View(UpTo(t, n), m) == View(t, if m <= n then m else n)
  {
    ViewDependsBelow(UpTo(t, n), t, if m <= n then m else n);
    if m > n {
      ViewSettles(UpTo(t, n), n, m);
    }
  }

  /** Folding keeps every view at or above the fold. */
  lemma {:induction false} ViewFolded<K, V>(t: Table<K, V>, e: nat, m: nat)
    requires e <= m
    ensures View(Folded(t, e), m) == View(t, m)
  {
    var f := Folded(t, e);
    if m == e {
      var base := map[0 := View(t, e)];
      ViewDependsBelow(f, base, e);
      ViewSettles(base, 0, e);
    } else {
      ViewFolded(t, e, m - 1);
      assert Level(f, m) == Level(t, m);
    }
  }

  // ---------------------------------------------------------------------------------------------
  // The algebra of rewrites
  // ---------------------------------------------------------------------------------------------

  lemma {:induction false} MovableDependsBelow<K, V>(t: Table<K, V>, u: Table<K, V>, e: nat)
    requires forall b | 0 < b <= e :: (b in t <==> b in u) && (b in t ==> t[b] == u[b])
    ensures Movable(t, e) == Movable(u, e)
  {
    if e > 0 {
      MovableDependsBelow(t, u, e - 1);
    }
  }

  lemma {:induction false} MovedInTwo<K, V>(t: Table<K, V>, e1: nat, e2: nat)
    requires e1 <= e2
    ensures Movable(t, e1) + Movable(Folded(t, e1), e2) == Movable(t, e2)
  {
    if e1 == e2 {
      NothingLeft(t, e1, e2);
    } else {
      MovedInTwo(t, e1, e2 - 1);
    }
  }

  lemma {:induction false} NothingLeft<K, V>(t: Table<K, V>, e1: nat, e: nat)
    requires e <= e1
    ensures Movable(Folded(t, e1), e) == 0
  {
    if e > 0 {
      NothingLeft(t, e1, e - 1);
    }
  }

  /** Folding in two stages equals folding at once, and moves as many rows in all. */
  lemma FoldTwice<K, V>(t: Table<K, V>, e1: nat, e2: nat)
    requires e1 <= e2
    ensures Folded(Folded(t, e1), e2) == Folded(t, e2)
    ensures Movable(t, e1) + Movable(Folded(t, e1), e2) == Movable(t, e2)
  {
    ViewFolded(t, e1, e2);
    MovedInTwo(t, e1, e2);
  }

  lemma FoldAndCutCommute<K, V>(t: Table<K, V>, e: nat, n: nat)
    requires e <= n
    ensures Folded(UpTo(t, n), e) == UpTo(Folded(t, e), n)
    ensures Movable(UpTo(t, n), e) == Movable(t, e)
  {
    ViewUpTo(t, n, e);
    MovableDependsBelow(UpTo(t, n), t, e);
  }

  lemma CutUndoesPut<K, V>(t: Table<K, V>, n: nat, rows: map<K, V>)
    requires n >= 1 && Bounded(t, n - 1)
    ensures UpTo(Put(t, n, rows), n - 1) == t
  {
  }

  // ---------------------------------------------------------------------------------------------
  // The loops
  // ---------------------------------------------------------------------------------------------

  /** Inserts the rows of one block, counting them. */
  method InsertRows<K(==), V>(t: Table<K, V>, b: nat, rows: map<K, V>) returns (u: Table<K, V>, written: nat)
    ensures u == Put(t, b, rows) && written == |rows|
  {
    var level := MoveRows(Level(t, b), rows);
    u, written := t[b := level], |rows|;
  }

  /** The entries of the selected keys. */
  function Only<K, V>(view: map<K, V>, select: K -> bool): map<K, V> {
    map k | k in view && select(k) :: view[k]
  }

  /** Scans all rows and keeps, for every selected key, the newest version at or below `max`. */
  method CollectNewest<K(==), V>(t: Table<K, V>, max: nat, select: K -> bool) returns (view: map<K, V>)
    ensures view == Only(View(t, max), select)
  {
    var newest: map<K, (nat, V)> := map[];
    var todo := t.Keys;
    while todo != {}
      invariant todo <= t.Keys && Tracks(t, max, select, t.Keys - todo, newest)
      decreases todo
    {
      var b :| b in todo;
      if b <= max {
        newest := CollectLevel(t, max, select, t.Keys - todo, newest, b);
      }
      todo := todo - {b};
    }
    view := map k | k in newest :: newest[k].1;
    TrackedIsView(t, max, select, newest);
  }

  /** `newest` holds, for every selected key, its newest version among the blocks `seen`. */
  ghost predicate Tracks<K, V>(t: Table<K, V>, max: nat, select: K -> bool, seen: set<nat>, newest: map<K, (nat, V)>) {
    && (forall k | k in newest ::
        select(k) && newest[k].0 <= max && Has(t, newest[k].0, k)
        && newest[k].1 == t[newest[k].0][k])
    && (forall b | b in seen && b <= max && b in t :: forall k | k in t[b] && select(k) ::
        k in newest
        && b <= newest[k].0)
  }

  /** The scan over the rows of one block. */
  method CollectLevel<K(==), V>(t: Table<K, V>, max: nat, select: K -> bool, ghost seen: set<nat>,
                                newest: map<K, (nat, V)>, b: nat)
    returns (next: map<K, (nat, V)>)
    requires b in t && b <= max && Tracks(t, max, select, seen, newest)
    ensures Tracks(t, max, select, seen + {b}, next)
  {
    next := newest;
    var todo := t[b].Keys;
    while todo != {}
      invariant todo <= t[b].Keys && Tracks(t, max, select, seen, next)
      invariant forall k | k in t[b] && k !in todo && select(k) :: k in next && b <= next[k].0
      decreases todo
    {
      var k :| k in todo;
      todo := todo - {k};
      if select(k) {
        if k in next {
          if b > next[k].0 {
            next := next[k := (b, t[b][k])];
          }
        } else {
          next := next[k := (b, t[b][k])];
        }
      }
    }
  }

  lemma TrackedIsView<K, V>(t: Table<K, V>, max: nat, select: K -> bool, newest: map<K, (nat, V)>)
    requires Tracks(t, max, select, t.Keys, newest)
    ensures (map k | k in newest :: newest[k].1) == Only(View(t, max), select)
  {
    var view := map k | k in newest :: newest[k].1;
    forall k | k in view ensures k in Only(View(t, max), select) && view[k] == View(t, max)[k] {
      assert Newest(t, max, k, newest[k].0);
      LookupIsNewest(t, max, k);
      ViewIsLookup(t, max, k);
    }
    forall k | k in Only(View(t, max), select) ensures k in view {
      ViewIsLookup(t, max, k);
      LookupIsNewest(t, max, k);
    }
    SameMap(view, Only(View(t, max), select));
  }

  lemma PlusNothing<K, V>(m: map<K, V>)
    ensures m + map[] == m
  {
  }

  /** No block after `f` up to `g` has rows. */
  predicate Empty<K, V>(t: Table<K, V>, f: nat, g: nat) {
    forall b | b in t :: b <= f || g < b
  }

  /** Blocks without rows do not change the view, ... */
  lemma {:induction false} EmptyView<K, V>(t: Table<K, V>, f: nat, g: nat)
    requires f <= g && Empty(t, f, g)
    ensures View(t, g) == View(t, f)
  {
    if f < g {
      EmptyView(t, f, g - 1);
      assert Level(t, g) == map[];
      PlusNothing(View(t, f));
    }
  }

  /** ... nor the count. */
  lemma {:induction false} EmptyCount<K, V>(t: Table<K, V>, f: nat, g: nat)
    requires f <= g && Empty(t, f, g)
    ensures Movable(t, g) == Movable(t, f)
  {
    if f < g {
      EmptyCount(t, f, g - 1);
    }
  }

  lemma SameFold<K, V>(t: Table<K, V>, f: nat, g: nat)
    requires f <= g && Empty(t, f, g)
    ensures Folded(t, f) == Folded(t, g)
  {
    EmptyView(t, f, g);
    SameMap(Beyond(t, f), Beyond(t, g));
  }

  /** The fold of one more block, after a stretch without rows. */
  lemma FoldOneMore<K, V>(t: Table<K, V>, f: nat, b: nat)
    requires f < b && b in t && Empty(t, f, b - 1)
    ensures Folded(t, b) == (Folded(t, f) - {b})[0 := View(t, f) + t[b]]
  {
    EmptyView(t, f, b - 1);
    SameMap(Beyond(t, b), Beyond(t, f) - {b});
    UpdateAfterRemoval(Beyond(t, f), b, View(t, f), View(t, b));
  }

  lemma UpdateAfterRemoval<V>(m: map<nat, V>, b: nat, v: V, w: V)
    requires b > 0
    ensures (m[0 := v] - {b})[0 := w] == (m - {b})[0 := w]
  {
  }

  /** `keys` lists the blocks of `t` above zero and at or below `e` in increasing order. */
  ghost predicate Lists<R>(t: map<nat, R>, e: nat, keys: seq<nat>) {
    && (forall i, j | 0 <= i < j < |keys| :: keys[i] < keys[j])
    && (forall b | b in keys :: b in t && 0 < b <= e)
    && (forall b | b in t && 0 < b <= e :: b in keys)
  }

  /** The block before position `i` of the list. */
  ghost function Passed(keys: seq<nat>, i: nat): nat
    requires i <= |keys|
  {
    if i == 0 then 0 else keys[i - 1]
  }

  /** Collects the blocks to fold, oldest first. */
  method SortedBlocks<R>(t: map<nat, R>, e: nat) returns (keys: seq<nat>)
    ensures Lists(t, e, keys)
  {
    keys := [];
    var todo := set b | b in t && 0 < b <= e;
    while todo != {}
      invariant todo <= t.Keys && forall b | b in todo :: 0 < b <= e && b !in keys
      invariant forall b | b in t && 0 < b <= e :: b in todo || b in keys
      invariant forall b | b in keys :: b in t && 0 < b <= e
      invariant forall i, j | 0 <= i < j < |keys| :: keys[i] < keys[j]
      invariant forall i, b | 0 <= i < |keys| && b in todo :: keys[i] < b
      decreases todo
    {
      LeastExists(todo);
      var b :| b in todo && forall c | c in todo :: b <= c;
      keys := keys + [b];
      todo := todo - {b};
    }
  }

  /** Between two listed neighbours, and after the last, there is nothing to fold. */
  lemma NothingBetween<K, V>(t: Table<K, V>, e: nat, keys: seq<nat>, i: nat)
    requires Lists(t, e, keys) && i <= |keys|
    ensures i < |keys| ==> Passed(keys, i) < keys[i] && Empty(t, Passed(keys, i), keys[i] - 1)
    ensures i == |keys| ==> Passed(keys, i) <= e && Empty(t, Passed(keys, i), e)
  {
    assert i < |keys| ==> keys[i] in keys;
    assert i > 0 ==> keys[i - 1] in keys;
    forall b | b in t && 0 < b <= e ensures b <= Passed(keys, i) || (i < |keys| && keys[i] <= b) {
      var j :| 0 <= j < |keys| && keys[j] == b;
    }
  }

  /** Moves every row above zero and at or below `e` to the base, oldest block first, so that the
      newest version is the one that stays. */
  method FoldTable<K(==), V>(t: Table<K, V>, e: nat) returns (u: Table<K, V>, moved: nat)
    ensures u == Folded(t, e) && moved == Movable(t, e)
  {
    u, moved := t[0 := Level(t, 0)], 0;
    FoldNothing(t);
    var keys := SortedBlocks(t, e);
    for i := 0 to |keys|
      invariant u == Folded(t, Passed(keys, i)) && moved == Movable(t, Passed(keys, i))
    {
      u, moved := FoldNext(t, e, keys, i, u, moved);
    }
    FoldedAll(t, e, keys);
  }

  method FoldNext<K(==), V>(t: Table<K, V>, ghost e: nat, keys: seq<nat>, i: nat, u: Table<K, V>, moved: nat)
    returns (v: Table<K, V>, count: nat)
    requires Lists(t, e, keys) && i < |keys| && u == Folded(t, Passed(keys, i)) && moved == Movable(t, Passed(keys, i))
    ensures v == Folded(t, Passed(keys, i + 1)) && count == Movable(t, Passed(keys, i + 1))
  {
    assert keys[i] in keys;
    NothingBetween(t, e, keys, i);
    CountOneMore(t, Passed(keys, i), keys[i]);
    var rows;
    v, rows := FoldBlock(t, Passed(keys, i), u, keys[i]);
    count := moved + rows;
  }

  lemma FoldedAll<K, V>(t: Table<K, V>, e: nat, keys: seq<nat>)
    requires Lists(t, e, keys)
    ensures Folded(t, Passed(keys, |keys|)) == Folded(t, e) && Movable(t, Passed(keys, |keys|)) == Movable(t, e)
  {
    NothingBetween(t, e, keys, |keys|);
    SameFold(t, Passed(keys, |keys|), e);
    EmptyCount(t, Passed(keys, |keys|), e);
  }

  lemma FoldNothing<K, V>(t: Table<K, V>)
    ensures t[0 := Level(t, 0)] == Folded(t, 0)
  {
    SameMap(t[0 := Level(t, 0)], Folded(t, 0));
  }

  lemma CountOneMore<K, V>(t: Table<K, V>, f: nat, b: nat)
    requires f < b && b in t && Empty(t, f, b - 1)
    ensures Movable(t, b) == Movable(t, f) + |t[b]|
  {
    EmptyCount(t, f, b - 1);
  }

  /** Removes the rows of block `b` and inserts them into the base. */
  method FoldBlock<K(==), V>(t: Table<K, V>, ghost f: nat, u: Table<K, V>, b: nat) returns (v: Table<K, V>, rows: nat)
    requires f < b && b in t && Empty(t, f, b - 1) && u == Folded(t, f)
    ensures v == Folded(t, b) && rows == |t[b]|
  {
    FoldOneMore(t, f, b);
    var base := MoveRows(u[0], t[b]);
    rows := |t[b]|;
    v := (u - {b})[0 := base];
  }

  /** Inserts rows one by one. */
  method MoveRows<K(==), V>(base: map<K, V>, rows: map<K, V>) returns (next: map<K, V>)
    ensures next == base + rows
  {
    next := base;
    var todo := rows.Keys;
    while todo != {}
      invariant todo <= rows.Keys
      invariant forall k | k in base || (k in rows && k !in todo) :: k in next
      invariant forall k | k in next ::
                 if k in rows && k !in todo then next[k] == rows[k] else k in base && next[k] == base[k]
      decreases todo
    {
      var k :| k in todo;
      next := next[k := rows[k]];
      todo := todo - {k};
    }
    SameMap(next, base + rows);
  }
}
