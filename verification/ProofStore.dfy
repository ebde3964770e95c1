/** The in-memory proof store: four versioned tables, the per-block updates, and the operations that
    rewrite them in place. */
module ProofStores {
  import opened Blocks
  import opened VersionedTables

  /** A key of the per-account tables: the hashed address, and the path or slot under it. Keys
      are modelled by their rank in the key order. */
  datatype Sub = Sub(owner: nat, item: nat)

  type Node = nat
  type Account = nat

  /** What one block changes. An absent node or account is a removal; a zero slot is empty. The
      entries of all addresses are held together, keyed by address and path or slot. */
  datatype Diff = Diff(
    accountNodes: map<nat, Option<Node>>,
    storageNodes: map<Sub, Option<Node>>,
    accounts: map<nat, Option<Account>>,
    wiped: set<nat>,
    slots: map<Sub, nat>)

  const EMPTY_DIFF := Diff(map[], map[], map[], {}, map[])

  datatype Tables = Tables(
    accountBranches: Table<nat, Option<Node>>,
    storageBranches: Table<Sub, Option<Node>>,
    accounts: Table<nat, Option<Account>>,
    storages: Table<Sub, nat>,
    updates: map<nat, Diff>,
    earliest: Option<(nat, Hash)>)

  datatype WriteCounts = WriteCounts(accountTrie: nat, storageTrie: nat, accounts: nat, storages: nat)

  function Sum(a: WriteCounts, b: WriteCounts): WriteCounts {
    WriteCounts(a.accountTrie + b.accountTrie, a.storageTrie + b.storageTrie, a.accounts + b.accounts,
                a.storages + b.storages)
  }

  // ---------------------------------------------------------------------------------------------
  // What an operation writes
  // ---------------------------------------------------------------------------------------------

  /** The entries of the addresses in `who`. */
  function Among<V>(rows: map<Sub, V>, who: set<nat>): map<Sub, V> {
    map x | x in rows && x.owner in who :: rows[x]
  }

  /** The zero rows that mark the live slots of wiped addresses as deleted. */
  function WipeRows(prior: map<Sub, nat>, wiped: set<nat>): map<Sub, nat> {
    map x | x in prior && prior[x] != 0 && x.owner in wiped :: 0
  }

  /** The slot rows a block writes for the addresses in `who`; a slot set in the wiping block
      overrides its zero. */
  function StorageRows(prior: map<Sub, nat>, d: Diff, who: set<nat>): map<Sub, nat> {
    WipeRows(prior, d.wiped * who) + Among(d.slots, who)
  }

  /** The addresses whose storage the diff touches. */
  function Touched(d: Diff): set<nat> {
    d.wiped + (set x | x in d.slots :: x.owner)
  }

  /** The slots as they were before block `n`. */
  function Prior(t: Table<Sub, nat>, n: nat): map<Sub, nat> {
    if n == 0 then map[] else View(t, n - 1)
  }

  function Stored(t: Tables, n: nat, d: Diff): Tables {
    Tables(Put(t.accountBranches, n, d.accountNodes),
           Put(t.storageBranches, n, d.storageNodes),
           Put(t.accounts, n, d.accounts),
           Put(t.storages, n, StorageRows(Prior(t.storages, n), d, Touched(d))),
           t.updates[n := d],
           t.earliest)
  }

  /** How many rows storing a diff writes; a slot that is zeroed and set again counts twice. */
  function StoreCounts(t: Tables, n: nat, d: Diff): WriteCounts {
    WriteCounts(|d.accountNodes|, |d.storageNodes|, |d.accounts|, SlotCount(Prior(t.storages, n), d.wiped, d.slots))
  }

  /** Rows of a wipe and rows of new slots. */
  function SlotCount(prior: map<Sub, nat>, wiped: set<nat>, slots: map<Sub, nat>): nat {
    |WipeRows(prior, wiped)| + |slots|
  }

  /** The tables without everything above block `n`. */
  function Cut(t: Tables, n: nat): Tables {
    Tables(UpTo(t.accountBranches, n), UpTo(t.storageBranches, n), UpTo(t.accounts, n), UpTo(t.storages, n),
           UpTo(t.updates, n), t.earliest)
  }

  /** The block below `n`, saturating at zero. */
  function Below(n: nat): nat {
    if n == 0 then 0 else n - 1
  }

  /** The tables after unwinding block `n` and everything above it. */
  function Unwound(t: Tables, n: nat): Tables {
    Cut(t, Below(n))
  }

  function Pruned(t: Tables, e: nat): Tables {
    Tables(Folded(t.accountBranches, e), Folded(t.storageBranches, e), Folded(t.accounts, e), Folded(t.storages, e),
           Beyond(t.updates, e),
           if t.earliest.Some? then Some((e, t.earliest.value.1)) else None)
  }

  function PruneCounts(t: Tables, e: nat): WriteCounts {
    WriteCounts(Movable(t.accountBranches, e), Movable(t.storageBranches, e), Movable(t.accounts, e),
                Movable(t.storages, e))
  }

  datatype Change = Change(number: nat, diff: Diff)

  function StoredAll(t: Tables, changes: seq<Change>): Tables {
    if changes == [] then t
    else
      var last := changes[|changes| - 1];
      Stored(StoredAll(t, changes[..|changes| - 1]), last.number, last.diff)
  }

  function Replaced(t: Tables, common: nat, changes: seq<Change>): Tables {
    StoredAll(Cut(t, common), changes)
  }

  /** The stored updates of a block, empty if there are none. */
  function Fetched(t: Tables, n: nat): Diff {
    if n in t.updates then t.updates[n] else EMPTY_DIFF
  }

  // ---------------------------------------------------------------------------------------------
  // The store
  // ---------------------------------------------------------------------------------------------

  class InMemoryStorage {
    var accountBranches: Table<nat, Option<Node>>
    var storageBranches: Table<Sub, Option<Node>>
    var hashedAccounts: Table<nat, Option<Account>>
    var hashedStorages: Table<Sub, nat>
    var updates: map<nat, Diff>
    var earliest: Option<(nat, Hash)>

    function Model(): Tables
      reads this
    {
      Tables(accountBranches, storageBranches, hashedAccounts, hashedStorages, updates, earliest)
    }

    constructor ()
      ensures Model() == Tables(map[], map[], map[], map[], map[], None)
    {
      accountBranches, storageBranches, hashedAccounts, hashedStorages := map[], map[], map[], map[];
      updates, earliest := map[], None;
    }

    method SetEarliestBlockNumber(n: nat, hash: Hash)
      modifies this
      ensures Model() == old(Model()).(earliest := Some((n, hash)))
    {
      earliest := Some((n, hash));
    }

    method StoreTrieUpdates(n: nat, d: Diff) returns (counts: WriteCounts)
      modifies this
      ensures Model() == Stored(old(Model()), n, d) && counts == StoreCounts(old(Model()), n, d)
    {
      var u;
      u, counts := InsertDiff(Model(), n, d);
      accountBranches, storageBranches := u.accountBranches, u.storageBranches;
      hashedAccounts, hashedStorages, updates := u.accounts, u.storages, u.updates;
    }

    method PruneEarliestState(e: nat) returns (counts: WriteCounts)
      modifies this
      ensures Model() == Pruned(old(Model()), e) && counts == PruneCounts(old(Model()), e)
    {
      var u;
      u, counts := FoldTables(Model(), e);
      accountBranches, storageBranches := u.accountBranches, u.storageBranches;
      hashedAccounts, hashedStorages := u.accounts, u.storages;
      if earliest.Some? {
        earliest := Some((e, earliest.value.1));
      }
      updates := Beyond(updates, e);
    }

    method Retain(n: nat)
      modifies this
      ensures Model() == Cut(old(Model()), n)
    {
      updates := UpTo(updates, n);
      accountBranches, storageBranches := UpTo(accountBranches, n), UpTo(storageBranches, n);
      hashedAccounts, hashedStorages := UpTo(hashedAccounts, n), UpTo(hashedStorages, n);
    }

    method UnwindHistory(n: nat)
      modifies this
      ensures Model() == Unwound(old(Model()), n)
    {
      Retain(Below(n));
    }

    method ReplaceUpdates(common: nat, changes: seq<Change>)
      modifies this
      ensures Model() == Replaced(old(Model()), common, changes)
    {
      Retain(common);
      ghost var cut := Model();
      for i := 0 to |changes|
        invariant Model() == StoredAll(cut, changes[..i])
      {
        StoredOneMore(cut, changes, i);
        var _ := StoreTrieUpdates(changes[i].number, changes[i].diff);
      }
      assert changes[..|changes|] == changes;
    }
  }

  lemma StoredOneMore(t: Tables, changes: seq<Change>, i: nat)
    requires i < |changes|
    ensures StoredAll(t, changes[..i + 1]) == Stored(StoredAll(t, changes[..i]), changes[i].number, changes[i].diff)
  {
    assert changes[..i + 1][..i] == changes[..i];
  }

  /** Folds the four tables, counting the rows moved. */
  method FoldTables(t: Tables, e: nat) returns (u: Tables, counts: WriteCounts)
    ensures u == t.(accountBranches := Folded(t.accountBranches, e), storageBranches := Folded(t.storageBranches, e),
                    accounts := Folded(t.accounts, e), storages := Folded(t.storages, e))
    ensures counts == PruneCounts(t, e)
  {
    var t1, a := FoldTable(t.accountBranches, e);
    var t2, b := FoldTable(t.storageBranches, e);
    var t3, c := FoldTable(t.accounts, e);
    var t4, d := FoldTable(t.storages, e);
    u := t.(accountBranches := t1, storageBranches := t2, accounts := t3, storages := t4);
    counts := WriteCounts(a, b, c, d);
  }

  /** Inserts the rows of a diff into the four tables, counting them. */
  method InsertDiff(t: Tables, n: nat, d: Diff) returns (u: Tables, counts: WriteCounts)
    ensures u == Stored(t, n, d) && counts == StoreCounts(t, n, d)
  {
    var t1, a := InsertRows(t.accountBranches, n, d.accountNodes);
    var t2, b := InsertRows(t.storageBranches, n, d.storageNodes);
    var t3, c := InsertRows(t.accounts, n, d.accounts);
    var t4, s := InsertStorages(t.storages, n, d);
    u := Tables(t1, t2, t3, t4, t.updates[n := d], t.earliest);
    counts := WriteCounts(a, b, c, s);
  }

  lemma PutTwice<K, V>(t: Table<K, V>, n: nat, a: map<K, V>, b: map<K, V>)
    ensures Put(Put(t, n, a), n, b) == Put(t, n, a + b)
  {
    PlusAssociates(Level(t, n), a, b);
  }

  /** The slot rows, address by address. */
  method InsertStorages(t: Table<Sub, nat>, n: nat, d: Diff) returns (u: Table<Sub, nat>, written: nat)
    ensures u == Put(t, n, StorageRows(Prior(t, n), d, Touched(d)))
    ensures written == SlotCount(Prior(t, n), d.wiped, d.slots)
  {
    u, written := InsertFor(t, n, d, Touched(d));
    CountTouched(Prior(t, n), d);
  }

  /** The slot rows of the addresses in `who` are written, and counted. */
  ghost predicate InsertedFor(t: Table<Sub, nat>, u: Table<Sub, nat>, n: nat, d: Diff, who: set<nat>, written: nat) {
    && u == Put(t, n, StorageRows(Prior(t, n), d, who))
    && written == SlotCount(Prior(t, n), d.wiped * who, Among(d.slots, who))
  }

  method InsertFor(t: Table<Sub, nat>, n: nat, d: Diff, who: set<nat>) returns (u: Table<Sub, nat>, written: nat)
    ensures InsertedFor(t, u, n, d, who, written)
  {
    u, written := t[n := Level(t, n)], 0;
    NothingInserted(t, n, d);
    var todo := who;
    ghost var done: set<nat> := {};
    while todo != {}
      invariant todo !! done && todo + done == who && InsertedFor(t, u, n, d, done, written)
      decreases todo
    {
      var a :| a in todo;
      u, written := InsertNextStorage(t, u, n, d, a, done, written);
      todo, done := todo - {a}, done + {a};
    }
    assert done == who;
  }

  lemma NothingInserted(t: Table<Sub, nat>, n: nat, d: Diff)
    ensures InsertedFor(t, t[n := Level(t, n)], n, d, {}, 0)
  {
    NoAddresses(Prior(t, n), d);
    PlusNothing(Level(t, n));
  }

  lemma CountTouched(prior: map<Sub, nat>, d: Diff)
    ensures SlotCount(prior, d.wiped * Touched(d), Among(d.slots, Touched(d))) == SlotCount(prior, d.wiped, d.slots)
  {
    AllTouched(d);
  }

  lemma NoAddresses(prior: map<Sub, nat>, d: Diff)
    ensures StorageRows(prior, d, {}) == map[] && SlotCount(prior, d.wiped * {}, Among(d.slots, {})) == 0
  {
    assert WipeRows(prior, d.wiped * {}) == map[] && Among(d.slots, {}) == map[];
  }

  lemma AllTouched(d: Diff)
    ensures Among(d.slots, Touched(d)) == d.slots && d.wiped * Touched(d) == d.wiped
  {
    assert forall x | x in d.slots :: x.owner in Touched(d);
    SameMap(Among(d.slots, Touched(d)), d.slots);
  }

  lemma CountOneMoreAddress(prior: map<Sub, nat>, d: Diff, done: set<nat>, a: nat)
    requires a !in done
    ensures SlotCount(prior, d.wiped * (done + {a}), Among(d.slots, done + {a}))
         == SlotCount(prior, d.wiped * done, Among(d.slots, done))
           + SlotCount(prior, d.wiped * {a}, Among(d.slots, {a}))
  {
    WipeOneMore(prior, d.wiped, done, a);
    CountPlus(WipeRows(prior, d.wiped * done), WipeRows(prior, d.wiped * {a}));
    AmongOneMore(d.slots, done, a);
    CountPlus(Among(d.slots, done), Among(d.slots, {a}));
  }

  lemma CountPlus<K, V>(p: map<K, V>, q: map<K, V>)
    requires p.Keys !! q.Keys
    ensures |p + q| == |p| + |q|
  {
    assert (p + q).Keys == p.Keys + q.Keys;
  }

  method InsertNextStorage(ghost t: Table<Sub, nat>, u: Table<Sub, nat>, n: nat, d: Diff, a: nat,
                           ghost done: set<nat>, so: nat)
    returns (v: Table<Sub, nat>, written: nat)
    requires a !in done && InsertedFor(t, u, n, d, done, so)
    ensures InsertedFor(t, v, n, d, done + {a}, written)
  {
    CountOneMoreAddress(Prior(t, n), d, done, a);
    var rows;
    v, rows := InsertOneStorage(t, u, n, d, a, done);
    written := so + rows;
  }

  /** The slot rows of one address: its live slots zeroed if it is wiped, then its new slots. */
  method InsertOneStorage(ghost t: Table<Sub, nat>, u: Table<Sub, nat>, n: nat, d: Diff, a: nat, ghost done: set<nat>)
    returns (v: Table<Sub, nat>, written: nat)
    requires a !in done && u == Put(t, n, StorageRows(Prior(t, n), d, done))
    ensures v == Put(t, n, StorageRows(Prior(t, n), d, done + {a}))
    ensures written == SlotCount(Prior(t, n), d.wiped * {a}, Among(d.slots, {a}))
  {
    var zeros := ZerosOfWipe(t, u, n, d, a, done);
    var slots := Among(d.slots, {a});
    v, written := InsertTwice(u, n, zeros, slots);
    ghost var rows := StorageRows(Prior(t, n), d, done);
    PutTwice(t, n, rows, zeros);
    PutTwice(t, n, rows + zeros, slots);
    OneMoreAddress(Prior(t, n), d, done, a);
  }

  method InsertTwice(u: Table<Sub, nat>, n: nat, zeros: map<Sub, nat>, slots: map<Sub, nat>)
    returns (v: Table<Sub, nat>, written: nat)
    ensures v == Put(Put(u, n, zeros), n, slots) && written == |zeros| + |slots|
  {
    var p, q;
    v, p := InsertRows(u, n, zeros);
    v, q := InsertRows(v, n, slots);
    written := p + q;
  }

  /** The zero rows of one address, if it is wiped. Rows already written for the block do not matter. */
  method ZerosOfWipe(ghost t: Table<Sub, nat>, u: Table<Sub, nat>, n: nat, d: Diff, a: nat, ghost done: set<nat>)
    returns (zeros: map<Sub, nat>)
    requires u == Put(t, n, StorageRows(Prior(t, n), d, done))
    ensures zeros == WipeRows(Prior(t, n), d.wiped * {a})
  {
    zeros := map[];
    if a in d.wiped && n > 0 {
      ViewBelowPut(t, n, StorageRows(Prior(t, n), d, done), n - 1);
      zeros := ZeroLiveSlots(u, n - 1, a);
      assert d.wiped * {a} == {a};
    }
  }

  /** A zero for every slot of `a` that is live as of block `m`. */
  method ZeroLiveSlots(t: Table<Sub, nat>, m: nat, a: nat) returns (zeros: map<Sub, nat>)
    ensures zeros == WipeRows(View(t, m), {a})
  {
    var live := CollectNewest(t, m, (x: Sub) => x.owner == a);
    zeros := map x | x in live && live[x] != 0 :: 0;
  }

  /** Writing address by address gives what writing them together does: the rows of different
      addresses do not touch. */
  lemma OneMoreAddress(prior: map<Sub, nat>, d: Diff, done: set<nat>, a: nat)
    requires a !in done
    ensures StorageRows(prior, d, done) + WipeRows(prior, d.wiped * {a}) + Among(d.slots, {a})
         == StorageRows(prior, d, done + {a})
  {
    WipeOneMore(prior, d.wiped, done, a);
    AmongOneMore(d.slots, done, a);
    PlusSwaps(WipeRows(prior, d.wiped * done), Among(d.slots, done), WipeRows(prior, d.wiped * {a}),
              Among(d.slots, {a}));
  }

  lemma WipeOneMore(prior: map<Sub, nat>, wiped: set<nat>, done: set<nat>, a: nat)
    ensures WipeRows(prior, wiped * (done + {a})) == WipeRows(prior, wiped * done) + WipeRows(prior, wiped * {a})
  {
  }

  lemma AmongOneMore<V>(rows: map<Sub, V>, done: set<nat>, a: nat)
    ensures Among(rows, done + {a}) == Among(rows, done) + Among(rows, {a})
  {
  }

  lemma PlusSwaps<K, V>(a: map<K, V>, b: map<K, V>, c: map<K, V>, d: map<K, V>)
    requires b.Keys !! c.Keys
    ensures a + b + c + d == (a + c) + (b + d)
  {
    SameMap(a + b + c + d, (a + c) + (b + d));
  }
}
