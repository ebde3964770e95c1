/** The cursors of the in-memory store: a sorted copy of the view as of one block, collected on first
    use, and a position in it. */
module Cursors {
  import opened Blocks
  import opened VersionedTables
  import opened ProofStores
  import opened StoreRefinement

  type Entry<V> = (nat, V)

  predicate Ordered<V>(entries: seq<Entry<V>>) {
    forall i, j | 0 <= i < j < |entries| :: entries[i].0 < entries[j].0
  }

  /** `entries` is `view` in key order. */
  ghost predicate Listing<V>(entries: seq<Entry<V>>, view: map<nat, V>) {
    && Ordered(entries)
    && (forall i | 0 <= i < |entries| :: entries[i].0 in view && view[entries[i].0] == entries[i].1)
    && (forall k | k in view :: Occurs(entries, k))
  }

  ghost predicate Occurs<V>(entries: seq<Entry<V>>, k: nat) {
    exists i :: 0 <= i < |entries| && entries[i].0 == k
  }

  /** The entries of one address, keyed by path or slot. */
  function Under<V>(view: map<Sub, V>, a: nat): map<nat, V> {
    map x | x in view && x.owner == a :: x.item := view[x]
  }

  // ---------------------------------------------------------------------------------------------
  // Collecting the entries
  // ---------------------------------------------------------------------------------------------

  method SortEntries<V>(view: map<nat, V>) returns (entries: seq<Entry<V>>)
    ensures Listing(entries, view)
  {
    entries := [];
    var todo := view.Keys;
    while todo != {}
      invariant SortedSoFar(entries, view, todo)
      decreases todo
    {
      LeastExists(todo);
      var k :| k in todo && forall c | c in todo :: k <= c;
      OneRound(entries, view, todo, k);
      entries := entries + [(k, view[k])];
      todo := todo - {k};
    }
    assert view - todo == view;
  }

  /** One round of the sort: the least key left goes to the end. */
  lemma OneRound<V>(entries: seq<Entry<V>>, view: map<nat, V>, todo: set<nat>, k: nat)
    requires SortedSoFar(entries, view, todo) && k in todo && forall c | c in todo :: k <= c
    ensures SortedSoFar(entries + [(k, view[k])], view, todo - {k})
  {
    ListingWithOneMore(entries, view - todo, k, view[k]);
    assert (view - todo)[k := view[k]] == view - (todo - {k});
  }

  /** What is not left is listed, and everything listed is below what is left. */
  ghost predicate SortedSoFar<V>(entries: seq<Entry<V>>, view: map<nat, V>, todo: set<nat>) {
    && todo <= view.Keys && Listing(entries, view - todo)
    && forall i, k | 0 <= i < |entries| && k in todo :: entries[i].0 < k
  }

  lemma ListingWithOneMore<V>(entries: seq<Entry<V>>, view: map<nat, V>, k: nat, v: V)
    requires Listing(entries, view) && forall i | 0 <= i < |entries| :: entries[i].0 < k
    ensures Listing(entries + [(k, v)], view[k := v])
  {
    var more := entries + [(k, v)];
    assert more[|entries|].0 == k;
    forall c | c in view ensures Occurs(more, c) {
      assert Occurs(entries, c);
      var i :| 0 <= i < |entries| && entries[i].0 == c;
      assert more[i].0 == c;
    }
  }

  /** The account trie cursor and the account cursor: removals are left out. */
  method CollectPresent<V>(t: Table<nat, Option<V>>, max: nat) returns (entries: seq<Entry<V>>)
    ensures Listing(entries, Present(View(t, max)))
  {
    var latest := CollectNewest(t, max, (k: nat) => true);
    assert latest == View(t, max);
    entries := SortEntries(Present(latest));
  }

  /** The storage trie cursor of one address. */
  method CollectPresentUnder<V>(t: Table<Sub, Option<V>>, max: nat, a: nat) returns (entries: seq<Entry<V>>)
    ensures Listing(entries, Under(Present(View(t, max)), a))
  {
    var latest := CollectNewest(t, max, (x: Sub) => x.owner == a);
    OnlyPresentUnder(View(t, max), a);
    entries := SortEntries(Under(Present(latest), a));
  }

  lemma OnlyPresentUnder<V>(view: map<Sub, Option<V>>, a: nat)
    ensures Under(Present(Only(view, (x: Sub) => x.owner == a)), a) == Under(Present(view), a)
  {
    var some, all := Present(Only(view, (x: Sub) => x.owner == a)), Present(view);
    assert forall x | x in all && x.owner == a :: x in some && some[x] == all[x];
    assert forall x | x in some :: x in all && some[x] == all[x];
    SameUnder(some, all, a);
  }

  /** The slot cursor of one address: zero slots are left out. */
  method CollectNonZeroUnder(t: Table<Sub, nat>, max: nat, a: nat) returns (entries: seq<Entry<nat>>)
    ensures Listing(entries, Under(NonZero(View(t, max)), a))
  {
    var latest := CollectNewest(t, max, (x: Sub) => x.owner == a);
    OnlyNonZeroUnder(View(t, max), a);
    entries := SortEntries(Under(NonZero(latest), a));
  }

  lemma OnlyNonZeroUnder(view: map<Sub, nat>, a: nat)
    ensures Under(NonZero(Only(view, (x: Sub) => x.owner == a)), a) == Under(NonZero(view), a)
  {
    var some, all := NonZero(Only(view, (x: Sub) => x.owner == a)), NonZero(view);
    assert forall x | x in all && x.owner == a :: x in some && some[x] == all[x];
    assert forall x | x in some :: x in all && some[x] == all[x];
    SameUnder(some, all, a);
  }

  lemma SameUnder<V>(p: map<Sub, V>, q: map<Sub, V>, a: nat)
    requires forall x | x in p && x.owner == a :: x in q && p[x] == q[x]
    requires forall x | x in q && x.owner == a :: x in p
    ensures Under(p, a) == Under(q, a)
  {
    forall k | k in Under(p, a) ensures k in Under(q, a) && Under(p, a)[k] == Under(q, a)[k] {
      assert Sub(a, k) in p;
    }
    forall k | k in Under(q, a) ensures k in Under(p, a) {
      assert Sub(a, k) in q;
    }
    SameMap(Under(p, a), Under(q, a));
  }

  // ---------------------------------------------------------------------------------------------
  // Moving over them
  // ---------------------------------------------------------------------------------------------

  /** `r` is the entry with the least key at or above `key`, or there is none. */
  ghost predicate FirstFrom<V>(entries: seq<Entry<V>>, key: nat, r: Option<Entry<V>>) {
    match r
    case Some(e) => e in entries && e.0 >= key && forall f | f in entries && f.0 >= key :: e.0 <= f.0
    case None => forall f | f in entries :: f.0 < key
  }

  function EntryAt<V>(entries: seq<Entry<V>>, i: nat): Option<Entry<V>> {
    if i < |entries| then Some(entries[i]) else None
  }

  lemma NextIsFirst<V>(entries: seq<Entry<V>>, i: nat)
    requires Ordered(entries) && i <= |entries|
    ensures FirstFrom(entries, if i == 0 then 0 else entries[i - 1].0 + 1, EntryAt(entries, i))
  {
    forall f | f in entries ensures (i > 0 && f.0 <= entries[i - 1].0) || (i < |entries| && entries[i].0 <= f.0) {
      var j :| 0 <= j < |entries| && entries[j] == f;
    }
  }

  class Cursor<V> {
    var entries: seq<Entry<V>>
    var position: int
    var populated: bool

    ghost predicate Valid()
      reads this
    {
      Ordered(entries) && position >= -1 && (!populated ==> entries == [])
    }

    /** The entries the cursor works on if the store would now yield `now`. */
    function Shown(now: seq<Entry<V>>): seq<Entry<V>>
      reads this
    {
      if populated then entries else now
    }

    constructor ()
      ensures Valid() && !populated && position == -1
    {
      entries, position, populated := [], -1, false;
    }

    method EnsurePopulated(now: seq<Entry<V>>)
      requires Valid() && Ordered(now)
      modifies this
      ensures Valid() && populated && position == old(position) && entries == old(Shown(now))
    {
      if !populated {
        entries, populated := now, true;
      }
    }

    /** Moves to the first entry at or above `key`; without one the position stays. */
    method Seek(now: seq<Entry<V>>, key: nat) returns (r: Option<Entry<V>>)
      requires Valid() && Ordered(now)
      modifies this
      ensures Valid() && populated && entries == old(Shown(now))
      ensures FirstFrom(entries, key, r)
      ensures r.Some? ==> 0 <= position < |entries| && entries[position] == r.value
      ensures r.None? ==> position == old(position)
    {
      EnsurePopulated(now);
      var i := 0;
      while i < |entries| && entries[i].0 < key
        invariant 0 <= i <= |entries| && forall j | 0 <= j < i :: entries[j].0 < key
      {
        i := i + 1;
      }
      if i < |entries| {
        position := i;
        return Some(entries[i]);
      }
      return None;
    }

    /** Moves to the entry under `key`; without one the position stays. */
    method SeekExact(now: seq<Entry<V>>, key: nat) returns (r: Option<Entry<V>>)
      requires Valid() && Ordered(now)
      modifies this
      ensures Valid() && populated && entries == old(Shown(now))
      ensures r.Some? ==> r.value.0 == key && 0 <= position < |entries| && entries[position] == r.value
      ensures r.None? ==> position == old(position) && forall f | f in entries :: f.0 != key
    {
      EnsurePopulated(now);
      var i := 0;
      while i < |entries| && entries[i].0 != key
        invariant 0 <= i <= |entries| && forall j | 0 <= j < i :: entries[j].0 != key
      {
        i := i + 1;
      }
      if i < |entries| {
        position := i;
        return Some(entries[i]);
      }
      return None;
    }

    /** Moves one entry on: to the first entry from the start, to the next larger key from an entry,
        and to nothing from the last entry or beyond. */
    method Next(now: seq<Entry<V>>) returns (r: Option<Entry<V>>)
      requires Valid() && Ordered(now)
      modifies this
      ensures Valid() && populated && entries == old(Shown(now)) && position == old(position) + 1
      ensures old(position) == -1 ==> FirstFrom(entries, 0, r)
      ensures 0 <= old(position) < |entries| ==> FirstFrom(entries, entries[old(position)].0 + 1, r)
      ensures r == EntryAt(entries, position)
    {
      EnsurePopulated(now);
      position := position + 1;
      r := EntryAt(entries, position);
      if position <= |entries| {
        NextIsFirst(entries, position);
      }
    }

    method Current(now: seq<Entry<V>>) returns (r: Option<nat>)
      requires Valid() && Ordered(now)
      modifies this
      ensures Valid() && populated && entries == old(Shown(now)) && position == old(position)
      ensures r == if 0 <= position < |entries| then Some(entries[position].0) else None
    {
      EnsurePopulated(now);
      r := if 0 <= position < |entries| then Some(entries[position].0) else None;
    }

    method Reset()
      requires Valid()
      modifies this
      ensures Valid() && position == -1 && populated == old(populated) && entries == old(entries)
    {
      position := -1;
    }

    /** The next use collects the entries of the new address. */
    method SetHashedAddress()
      requires Valid()
      modifies this
      ensures Valid() && position == -1 && !populated
    {
      populated, entries := false, [];
      Reset();
    }

    method IsStorageEmpty(now: seq<Entry<V>>) returns (empty: bool)
      requires Valid() && Ordered(now)
      modifies this
      ensures Valid() && populated && entries == old(Shown(now))
      ensures empty <==> entries == []
    {
      var r := Seek(now, 0);
      empty := r.None?;
      assert entries != [] ==> entries[0] in entries;
    }
  }

  /** A cursor that is only moved on yields the whole view in key order, then nothing. */
  method Drain<V>(cursor: Cursor<V>, now: seq<Entry<V>>) returns (all: seq<Entry<V>>)
    requires cursor.Valid() && !cursor.populated && cursor.position == -1 && Ordered(now)
    modifies cursor
    ensures all == now
  {
    all := [];
    var r := cursor.Next(now);
    while r.Some?
      invariant cursor.Valid() && cursor.populated && cursor.entries == now
      invariant cursor.position == |all| <= |now| && all == now[..|all|]
      invariant r == EntryAt(now, |all|)
      decreases |now| - |all|
    {
      all := all + [r.value];
      r := cursor.Next(now);
    }
    assert all == now;
  }

  /** A listing is determined by its view: cursors over equal views behave alike. */
  lemma {:induction false} ListingUnique<V>(p: seq<Entry<V>>, q: seq<Entry<V>>, view: map<nat, V>)
    requires Listing(p, view) && Listing(q, view)
    ensures p == q
  {
    if view == map[] {
      assert p == [] && q == [];
    } else {
      ListingLast(p, view);
      ListingLast(q, view);
      ListingUnique(p[..|p| - 1], q[..|q| - 1], view - {p[|p| - 1].0});
    }
  }

  lemma ListingLast<V>(p: seq<Entry<V>>, view: map<nat, V>)
    requires Listing(p, view) && view != map[]
    ensures p != [] && p == p[..|p| - 1] + [p[|p| - 1]]
    ensures p[|p| - 1].0 in view && view[p[|p| - 1].0] == p[|p| - 1].1 && forall k | k in view :: k <= p[|p| - 1].0
    ensures Listing(p[..|p| - 1], view - {p[|p| - 1].0})
  {
    var k :| k in view;
    assert Occurs(p, k);
    LastIsGreatest(p, view);
    ListingWithoutLast(p, view);
  }

  lemma LastIsGreatest<V>(p: seq<Entry<V>>, view: map<nat, V>)
    requires Listing(p, view) && p != []
    ensures p[|p| - 1].0 in view && view[p[|p| - 1].0] == p[|p| - 1].1
    ensures forall k | k in view :: k <= p[|p| - 1].0
  {
    forall k | k in view ensures k <= p[|p| - 1].0 {
      assert Occurs(p, k);
      var i :| 0 <= i < |p| && p[i].0 == k;
    }
  }

  lemma ListingWithoutLast<V>(p: seq<Entry<V>>, view: map<nat, V>)
    requires Listing(p, view) && p != []
    ensures Listing(p[..|p| - 1], view - {p[|p| - 1].0})
  {
    var init := p[..|p| - 1];
    forall k | k in view && k != p[|p| - 1].0 ensures Occurs(init, k) {
      assert Occurs(p, k);
      var i :| 0 <= i < |p| && p[i].0 == k;
      assert init[i].0 == k;
    }
  }

  /** What the slot cursor of an address lists after any allowed operations, from the highest prune
      target on: the slots of that address in the initial state with the diffs applied. */
  lemma SlotCursorShowsHistory(t: Tables, ops: seq<Operation>, m: nat, a: nat, entries: seq<Entry<nat>>)
    requires OnlyBase(t) && AllAllowed(History(Viewed(t, 0), [], 0), ops)
    requires m >= SpecRun(History(Viewed(t, 0), [], 0), ops).floor
    requires Listing(entries, Under(NonZero(View(TableRun(t, ops).storages, m)), a))
    ensures Listing(entries, Under(At(Viewed(t, 0), SpecRun(History(Viewed(t, 0), [], 0), ops).changes, m).slots, a))
  {
    ViewsAreHistory(t, ops, m);
  }
}
