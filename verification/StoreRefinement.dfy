/** The versioned tables refine a base state with a list of per-block diffs: after any sequence of
    stores, prunes, unwinds and replacements, the view as of any block from the highest prune target
    on is the base state with the diffs up to that block applied in order. */
module StoreRefinement {
  import opened Blocks
  import opened VersionedTables
  import opened ProofStores

  /** The entries that exist: no removed node or account, no zero slot. */
  datatype State = State(accountNodes: map<nat, Node>, storageNodes: map<Sub, Node>, accounts: map<nat, Account>,
                         slots: map<Sub, nat>)

  function Present<K, V>(view: map<K, Option<V>>): map<K, V> {
    map k | k in view && view[k].Some? :: view[k].value
  }

  function NonZero(view: map<Sub, nat>): map<Sub, nat> {
    map x | x in view && view[x] != 0 :: view[x]
  }

  /** What the four cursors show as of block `m`. */
  function Viewed(t: Tables, m: nat): State {
    State(Present(View(t.accountBranches, m)), Present(View(t.storageBranches, m)), Present(View(t.accounts, m)),
          NonZero(View(t.storages, m)))
  }

  // ---------------------------------------------------------------------------------------------
  // The specification
  // ---------------------------------------------------------------------------------------------

  /** Removals take entries out, the rest are put in. */
  function Changed<K, V>(entries: map<K, V>, change: map<K, Option<V>>): map<K, V> {
    (entries - change.Keys) + Present(change)
  }

  /** Wiped addresses are emptied first, then the slots are set. */
  function SlotsChanged(slots: map<Sub, nat>, wiped: set<nat>, change: map<Sub, nat>): map<Sub, nat> {
    (map x | x in slots && x.owner !in wiped && x !in change :: slots[x]) + NonZero(change)
  }

  function ApplyDiff(s: State, d: Diff): State {
    State(Changed(s.accountNodes, d.accountNodes), Changed(s.storageNodes, d.storageNodes),
          Changed(s.accounts, d.accounts),
          SlotsChanged(s.slots, d.wiped, d.slots))
  }

  /** The base state with the changes up to block `m` applied in order. */
  function At(base: State, changes: seq<Change>, m: nat): State {
    if changes == [] then base
    else
      var last := changes[|changes| - 1];
      var before := At(base, changes[..|changes| - 1], m);
      if last.number <= m then ApplyDiff(before, last.diff) else before
  }

  /** A base state, what was stored on it, and the highest block ever pruned to. */
  datatype History = History(base: State, changes: seq<Change>, floor: nat)

  predicate Increasing(changes: seq<Change>) {
    && (forall i | 0 <= i < |changes| :: changes[i].number >= 1)
    && (forall i, j | 0 <= i < j < |changes| :: changes[i].number < changes[j].number)
  }

  /** Every change is below block `n`. */
  predicate AllBelow(changes: seq<Change>, n: nat) {
    forall i | 0 <= i < |changes| :: changes[i].number < n
  }

  /** The changes up to block `n`. */
  function Kept(changes: seq<Change>, n: nat): seq<Change> {
    if changes == [] then []
    else
      var last := changes[|changes| - 1];
      var before := Kept(changes[..|changes| - 1], n);
      if last.number <= n then before + [last] else before
  }

  datatype Operation =
    | Store(number: nat, diff: Diff)
    | Prune(upTo: nat)
    | Unwind(from: nat)
    | Replace(common: nat, changes: seq<Change>)

  /** Block numbers only grow, and neither an unwind nor a replacement goes below what was pruned. */
  predicate Allowed(h: History, op: Operation) {
    match op
    case Store(n, _) => n >= 1 && AllBelow(h.changes, n)
    case Prune(_) => true
    case Unwind(n) => n > h.floor
    case Replace(common, changes) =>
      && common >= h.floor && Increasing(changes)
      && (forall i | 0 <= i < |changes| :: changes[i].number > common)
  }

  function SpecStep(h: History, op: Operation): History {
    match op
    case Store(n, d) => h.(changes := h.changes + [Change(n, d)])
    case Prune(e) => h.(floor := if e > h.floor then e else h.floor)
    case Unwind(n) => h.(changes := Kept(h.changes, Below(n)))
    case Replace(common, changes) => h.(changes := Kept(h.changes, common) + changes)
  }

  function TableStep(t: Tables, op: Operation): Tables {
    match op
    case Store(n, d) => Stored(t, n, d)
    case Prune(e) => Pruned(t, e)
    case Unwind(n) => Unwound(t, n)
    case Replace(common, changes) => Replaced(t, common, changes)
  }

  // ---------------------------------------------------------------------------------------------
  // The refinement relation
  // ---------------------------------------------------------------------------------------------

  ghost predicate Stems<R>(rows: map<nat, R>, changes: seq<Change>) {
    forall b | b in rows :: b == 0 || exists i :: 0 <= i < |changes| && changes[i].number == b
  }

  /** Every row above the base belongs to a stored block. */
  ghost predicate AllStem(t: Tables, changes: seq<Change>) {
    Stems(t.accountBranches, changes) && Stems(t.storageBranches, changes) && Stems(t.accounts, changes)
      && Stems(t.storages, changes)
  }

  ghost predicate Refines(t: Tables, h: History) {
    && Increasing(h.changes) && AllStem(t, h.changes)
    && forall m: nat | m >= h.floor :: Viewed(t, m) == At(h.base, h.changes, m)
  }

  // ---------------------------------------------------------------------------------------------
  // Storing
  // ---------------------------------------------------------------------------------------------

  lemma PresentOfOverlay<K, V>(view: map<K, Option<V>>, change: map<K, Option<V>>)
    ensures Present(view + change) == Changed(Present(view), change)
  {
    SameMap(Present(view + change), Changed(Present(view), change));
  }

  /** Zeroing the live slots of the wiped addresses empties them, and the new slots win. */
  lemma NonZeroOfOverlay(view: map<Sub, nat>, d: Diff)
    ensures NonZero(view + StorageRows(view, d, Touched(d))) == SlotsChanged(NonZero(view), d.wiped, d.slots)
  {
    AllTouched(d);
    SameMap(NonZero(view + (WipeRows(view, d.wiped) + d.slots)), SlotsChanged(NonZero(view), d.wiped, d.slots));
  }

  /** Every row is older than block `n`. */
  predicate RowsBelow(t: Tables, n: nat) {
    && (forall b | b in t.accountBranches :: b < n) && (forall b | b in t.storageBranches :: b < n)
    && (forall b | b in t.accounts :: b < n) && (forall b | b in t.storages :: b < n)
  }

  lemma SettledPrior(t: Table<Sub, nat>, n: nat, m: nat)
    requires n >= 1 && m >= n && forall b | b in t :: b < n
    ensures Prior(t, n) == View(t, m)
  {
    ViewSettles(t, n - 1, m);
  }

  /** From the stored block on, the views are the previous ones with the diff applied. */
  lemma ViewFromStored(t: Tables, n: nat, d: Diff, m: nat)
    requires n >= 1 && RowsBelow(t, n) && m >= n
    ensures Viewed(Stored(t, n, d), m) == ApplyDiff(Viewed(t, m), d)
  {
    ViewFromPut(t.accountBranches, n, d.accountNodes, m);
    PresentOfOverlay(View(t.accountBranches, m), d.accountNodes);
    ViewFromPut(t.storageBranches, n, d.storageNodes, m);
    PresentOfOverlay(View(t.storageBranches, m), d.storageNodes);
    ViewFromPut(t.accounts, n, d.accounts, m);
    PresentOfOverlay(View(t.accounts, m), d.accounts);
    SettledPrior(t.storages, n, m);
    ViewFromPut(t.storages, n, StorageRows(View(t.storages, m), d, Touched(d)), m);
    NonZeroOfOverlay(View(t.storages, m), d);
  }

  lemma ViewBelowStored(t: Tables, n: nat, d: Diff, m: nat)
    requires m < n
    ensures Viewed(Stored(t, n, d), m) == Viewed(t, m)
  {
    ViewBelowPut(t.accountBranches, n, d.accountNodes, m);
    ViewBelowPut(t.storageBranches, n, d.storageNodes, m);
    ViewBelowPut(t.accounts, n, d.accounts, m);
    ViewBelowPut(t.storages, n, StorageRows(Prior(t.storages, n), d, Touched(d)), m);
  }

  lemma StemsGrow<K, V>(rows: Table<K, V>, changes: seq<Change>, n: nat, level: map<K, V>, d: Diff)
    requires Stems(rows, changes)
    ensures Stems(rows[n := level], changes + [Change(n, d)])
  {
    var next := changes + [Change(n, d)];
    assert next[|changes|].number == n;
    forall b | b in rows && b != 0 ensures exists i :: 0 <= i < |next| && next[i].number == b {
      var i :| 0 <= i < |changes| && changes[i].number == b;
      assert next[i] == changes[i];
    }
  }

  lemma StemsStored(t: Tables, changes: seq<Change>, n: nat, d: Diff)
    requires AllStem(t, changes)
    ensures AllStem(Stored(t, n, d), changes + [Change(n, d)])
  {
    StemsGrow(t.accountBranches, changes, n, Level(t.accountBranches, n) + d.accountNodes, d);
    StemsGrow(t.storageBranches, changes, n, Level(t.storageBranches, n) + d.storageNodes, d);
    StemsGrow(t.accounts, changes, n, Level(t.accounts, n) + d.accounts, d);
    StemsGrow(t.storages, changes, n, Level(t.storages, n) + StorageRows(Prior(t.storages, n), d, Touched(d)), d);
  }

  lemma StoreRefines(t: Tables, h: History, n: nat, d: Diff)
    requires Refines(t, h) && n >= 1 && AllBelow(h.changes, n)
    ensures Refines(Stored(t, n, d), SpecStep(h, Store(n, d)))
  {
    var next := h.changes + [Change(n, d)];
    StemsStored(t, h.changes, n, d);
    forall m: nat | m >= h.floor ensures Viewed(Stored(t, n, d), m) == At(h.base, next, m) {
      assert next[..|next| - 1] == h.changes;
      if m >= n {
        ViewFromStored(t, n, d, m);
      } else {
        ViewBelowStored(t, n, d, m);
      }
    }
  }

  // ---------------------------------------------------------------------------------------------
  // Pruning and unwinding
  // ---------------------------------------------------------------------------------------------

  lemma ViewFromPruned(t: Tables, e: nat, m: nat)
    requires m >= e
    ensures Viewed(Pruned(t, e), m) == Viewed(t, m)
  {
    ViewFolded(t.accountBranches, e, m);
    ViewFolded(t.storageBranches, e, m);
    ViewFolded(t.accounts, e, m);
    ViewFolded(t.storages, e, m);
  }

  lemma PruneRefines(t: Tables, h: History, e: nat)
    requires Refines(t, h)
    ensures Refines(Pruned(t, e), SpecStep(h, Prune(e)))
  {
    forall m: nat | m >= e && m >= h.floor ensures Viewed(Pruned(t, e), m) == At(h.base, h.changes, m) {
      ViewFromPruned(t, e, m);
    }
  }

  lemma ViewOfCut(t: Tables, n: nat, m: nat)
    ensures Viewed(Cut(t, n), m) == Viewed(t, if m <= n then m else n)
  {
    ViewUpTo(t.accountBranches, n, m);
    ViewUpTo(t.storageBranches, n, m);
    ViewUpTo(t.accounts, n, m);
    ViewUpTo(t.storages, n, m);
  }

  /** The kept changes are the changes up to `n`, in the same order. */
  lemma {:induction false} KeptChanges(changes: seq<Change>, n: nat)
    requires Increasing(changes)
    ensures Increasing(Kept(changes, n)) && AllBelow(Kept(changes, n), n + 1)
    ensures forall b | AllBelow(changes, b) :: AllBelow(Kept(changes, n), b)
    ensures forall c | c in changes && c.number <= n :: c in Kept(changes, n)
  {
    if changes != [] {
      var init := changes[..|changes| - 1];
      KeptChanges(init, n);
      assert AllBelow(init, changes[|changes| - 1].number);
      assert changes == init + [changes[|changes| - 1]];
    }
  }

  lemma {:induction false} AtKept(base: State, changes: seq<Change>, n: nat, m: nat)
    ensures At(base, Kept(changes, n), m) == At(base, changes, if m <= n then m else n)
  {
    if changes != [] {
      var last := changes[|changes| - 1];
      var before := Kept(changes[..|changes| - 1], n);
      AtKept(base, changes[..|changes| - 1], n, m);
      assert (before + [last])[..|before|] == before;
    }
  }

  lemma StemsCut<R>(rows: map<nat, R>, changes: seq<Change>, n: nat)
    requires Stems(rows, changes) && Increasing(changes)
    ensures Stems(UpTo(rows, n), Kept(changes, n))
  {
    KeptChanges(changes, n);
    forall b | b in rows && b <= n && b != 0
      ensures exists i :: 0 <= i < |Kept(changes, n)| && Kept(changes, n)[i].number == b
    {
      var i :| 0 <= i < |changes| && changes[i].number == b;
      assert changes[i] in Kept(changes, n);
    }
  }

  lemma CutRefines(t: Tables, h: History, n: nat)
    requires Refines(t, h) && n >= h.floor
    ensures Refines(Cut(t, n), h.(changes := Kept(h.changes, n)))
  {
    KeptChanges(h.changes, n);
    StemsCut(t.accountBranches, h.changes, n);
    StemsCut(t.storageBranches, h.changes, n);
    StemsCut(t.accounts, h.changes, n);
    StemsCut(t.storages, h.changes, n);
    forall m: nat | m >= h.floor ensures Viewed(Cut(t, n), m) == At(h.base, Kept(h.changes, n), m) {
      ViewOfCut(t, n, m);
      AtKept(h.base, h.changes, n, m);
    }
  }

  // ---------------------------------------------------------------------------------------------
  // Whole runs
  // ---------------------------------------------------------------------------------------------

  lemma OneMoreIncreases(changes: seq<Change>, last: Change)
    requires Increasing(changes + [last])
    ensures Increasing(changes) && last.number >= 1 && AllBelow(changes, last.number)
  {
    var all := changes + [last];
    assert all[|changes|] == last;
    assert forall i | 0 <= i < |changes| :: all[i] == changes[i];
  }

  lemma {:induction false} StoreAllRefines(t: Tables, h: History, changes: seq<Change>)
    requires Refines(t, h) && Increasing(h.changes + changes)
    ensures Refines(StoredAll(t, changes), h.(changes := h.changes + changes))
  {
    if changes == [] {
      assert h.changes + changes == h.changes;
    } else {
      var init, last := changes[..|changes| - 1], changes[|changes| - 1];
      var all := h.changes + init;
      assert h.changes + changes == all + [last];
      OneMoreIncreases(all, last);
      StoreAllRefines(t, h, init);
      assert last == Change(last.number, last.diff);
      StoreRefines(StoredAll(t, init), h.(changes := all), last.number, last.diff);
    }
  }

  lemma ReplaceRefines(t: Tables, h: History, common: nat, changes: seq<Change>)
    requires Refines(t, h) && Allowed(h, Replace(common, changes))
    ensures Refines(Replaced(t, common, changes), SpecStep(h, Replace(common, changes)))
  {
    CutRefines(t, h, common);
    KeptChanges(h.changes, common);
    StoreAllRefines(Cut(t, common), h.(changes := Kept(h.changes, common)), changes);
  }

  lemma StepRefines(t: Tables, h: History, op: Operation)
    requires Refines(t, h) && Allowed(h, op)
    ensures Refines(TableStep(t, op), SpecStep(h, op))
  {
    match op
    case Store(n, d) => StoreRefines(t, h, n, d);
    case Prune(e) => PruneRefines(t, h, e);
    case Unwind(n) => CutRefines(t, h, Below(n));
    case Replace(common, changes) => ReplaceRefines(t, h, common, changes);
  }

  predicate AllAllowed(h: History, ops: seq<Operation>)
    decreases |ops|
  {
    ops == [] || (Allowed(h, ops[0]) && AllAllowed(SpecStep(h, ops[0]), ops[1..]))
  }

  function SpecRun(h: History, ops: seq<Operation>): History
    decreases |ops|
  {
    if ops == [] then h else SpecRun(SpecStep(h, ops[0]), ops[1..])
  }

  function TableRun(t: Tables, ops: seq<Operation>): Tables
    decreases |ops|
  {
    if ops == [] then t else TableRun(TableStep(t, ops[0]), ops[1..])
  }

  lemma {:induction false} RunRefines(t: Tables, h: History, ops: seq<Operation>)
    requires Refines(t, h) && AllAllowed(h, ops)
    ensures Refines(TableRun(t, ops), SpecRun(h, ops))
    decreases |ops|
  {
    if ops != [] {
      StepRefines(t, h, ops[0]);
      RunRefines(TableStep(t, ops[0]), SpecStep(h, ops[0]), ops[1..]);
    }
  }

  /** Only base rows: the store as initialization leaves it. */
  predicate OnlyBase(t: Tables) {
    t.accountBranches.Keys <= {0} && t.storageBranches.Keys <= {0} && t.accounts.Keys <= {0} && t.storages.Keys <= {0}
  }

  lemma BaseRefines(t: Tables, m: nat)
    requires OnlyBase(t)
    ensures Viewed(t, m) == Viewed(t, 0)
  {
    ViewSettles(t.accountBranches, 0, m);
    ViewSettles(t.storageBranches, 0, m);
    ViewSettles(t.accounts, 0, m);
    ViewSettles(t.storages, 0, m);
  }

  /** The refinement theorem: from a freshly initialized store, after any allowed operations, every
      view from the highest prune target on is the initial state with the surviving diffs up to that
      block applied in order. */
  lemma ViewsAreHistory(t: Tables, ops: seq<Operation>, m: nat)
    requires OnlyBase(t) && AllAllowed(History(Viewed(t, 0), [], 0), ops)
    requires m >= SpecRun(History(Viewed(t, 0), [], 0), ops).floor
    ensures Viewed(TableRun(t, ops), m) == At(Viewed(t, 0), SpecRun(History(Viewed(t, 0), [], 0), ops).changes, m)
  {
    var h := History(Viewed(t, 0), [], 0);
    forall k: nat ensures Viewed(t, k) == h.base {
      BaseRefines(t, k);
    }
    RunRefines(t, h, ops);
    RunKeepsBase(h, ops);
  }

  lemma {:induction false} RunKeepsBase(h: History, ops: seq<Operation>)
    ensures SpecRun(h, ops).base == h.base
    decreases |ops|
  {
    if ops != [] {
      RunKeepsBase(SpecStep(h, ops[0]), ops[1..]);
    }
  }

  // ---------------------------------------------------------------------------------------------
  // The algebra of the operations
  // ---------------------------------------------------------------------------------------------

  /** Pruning in two stages equals pruning at once, with the same rows moved in all. */
  lemma PruneTwice(t: Tables, e1: nat, e2: nat)
    requires e1 <= e2
    ensures Pruned(Pruned(t, e1), e2) == Pruned(t, e2)
    ensures Sum(PruneCounts(t, e1), PruneCounts(Pruned(t, e1), e2)) == PruneCounts(t, e2)
  {
    FoldTwice(t.accountBranches, e1, e2);
    FoldTwice(t.storageBranches, e1, e2);
    FoldTwice(t.accounts, e1, e2);
    FoldTwice(t.storages, e1, e2);
    SameMap(Beyond(Beyond(t.updates, e1), e2), Beyond(t.updates, e2));
  }

  /** Pruning and unwinding above the prune target commute, with the same rows moved. */
  lemma PruneUnwindCommute(t: Tables, e: nat, n: nat)
    requires e < n
    ensures Pruned(Unwound(t, n), e) == Unwound(Pruned(t, e), n)
    ensures PruneCounts(Unwound(t, n), e) == PruneCounts(t, e)
  {
    PruneCutCommute(t, e, Below(n));
    CutKeepsCounts(t, e, Below(n));
  }

  lemma PruneCutCommute(t: Tables, e: nat, n: nat)
    requires e <= n
    ensures Pruned(Cut(t, n), e) == Cut(Pruned(t, e), n)
  {
    FoldAndCutCommute(t.accountBranches, e, n);
    FoldAndCutCommute(t.storageBranches, e, n);
    FoldAndCutCommute(t.accounts, e, n);
    FoldAndCutCommute(t.storages, e, n);
    SameMap(Beyond(UpTo(t.updates, n), e), UpTo(Beyond(t.updates, e), n));
  }

  lemma CutKeepsCounts(t: Tables, e: nat, n: nat)
    requires e <= n
    ensures PruneCounts(Cut(t, n), e) == PruneCounts(t, e)
  {
    FoldAndCutCommute(t.accountBranches, e, n);
    FoldAndCutCommute(t.storageBranches, e, n);
    FoldAndCutCommute(t.accounts, e, n);
    FoldAndCutCommute(t.storages, e, n);
  }

  /** Nothing at block `n` or above is stored. */
  predicate AllOlder(t: Tables, n: nat) {
    RowsBelow(t, n) && forall b | b in t.updates :: b < n
  }

  lemma UnwindUndoesStore(t: Tables, n: nat, d: Diff)
    requires n >= 1 && AllOlder(t, n)
    ensures Unwound(Stored(t, n, d), n) == t
  {
    CutUndoesPut(t.accountBranches, n, d.accountNodes);
    CutUndoesPut(t.storageBranches, n, d.storageNodes);
    CutUndoesPut(t.accounts, n, d.accounts);
    CutUndoesPut(t.storages, n, StorageRows(Prior(t.storages, n), d, Touched(d)));
    SameMap(UpTo(t.updates[n := d], n - 1), t.updates);
  }

  /** A block's stored updates come back until the block is unwound, replaced or pruned. */
  lemma FetchAfterStore(t: Tables, n: nat, d: Diff, k: nat)
    ensures Fetched(Stored(t, n, d), n) == d
    ensures Fetched(Unwound(Stored(t, n, d), k), n) == (if n < k || n == 0 then d else EMPTY_DIFF)
    ensures Fetched(Pruned(Stored(t, n, d), k), n) == (if n > k then d else EMPTY_DIFF)
  {
  }

  /** Replacing is unwinding above the common block and storing the new blocks in order. */
  lemma ReplaceIsUnwindThenStores(t: Tables, common: nat, changes: seq<Change>)
    ensures TableStep(t, Replace(common, changes))
         == TableRun(TableStep(t, Unwind(common + 1)), Stores(changes))
  {
    RunOfStores(Unwound(t, common + 1), changes);
  }

  function Stores(changes: seq<Change>): seq<Operation> {
    if changes == [] then []
    else Stores(changes[..|changes| - 1]) + [Store(changes[|changes| - 1].number, changes[|changes| - 1].diff)]
  }

  lemma {:induction false} RunOfStores(t: Tables, changes: seq<Change>)
    ensures TableRun(t, Stores(changes)) == StoredAll(t, changes)
  {
    if changes != [] {
      var init, last := changes[..|changes| - 1], changes[|changes| - 1];
      RunOfStores(t, init);
      RunOneMore(t, Stores(init), Store(last.number, last.diff));
    }
  }

  lemma {:induction false} RunOneMore(t: Tables, ops: seq<Operation>, op: Operation)
    ensures TableRun(t, ops + [op]) == TableStep(TableRun(t, ops), op)
    decreases |ops|
  {
    if ops == [] {
      assert ops + [op] == [op];
    } else {
      assert (ops + [op])[1..] == ops[1..] + [op];
      RunOneMore(TableStep(t, ops[0]), ops[1..], op);
    }
  }

  // ---------------------------------------------------------------------------------------------
  // The recorded earliest block
  // ---------------------------------------------------------------------------------------------

  /** No prune goes below an earlier one. */
  predicate PrunesAscend(h: History, ops: seq<Operation>)
    decreases |ops|
  {
    ops == [] || ((ops[0].Prune? ==> ops[0].upTo >= h.floor) && PrunesAscend(SpecStep(h, ops[0]), ops[1..]))
  }

  /** The recorded earliest block is the highest prune target when prunes never go down ... */
  lemma {:induction false} EarliestIsFloor(t: Tables, h: History, ops: seq<Operation>)
    requires t.earliest.Some? && t.earliest.value.0 == h.floor && PrunesAscend(h, ops)
    ensures TableRun(t, ops).earliest.Some? && TableRun(t, ops).earliest.value.0 == SpecRun(h, ops).floor
    decreases |ops|
  {
    if ops != [] {
      if ops[0].Replace? {
        StoresKeepEarliest(Cut(t, ops[0].common), ops[0].changes);
      }
      EarliestIsFloor(TableStep(t, ops[0]), SpecStep(h, ops[0]), ops[1..]);
    }
  }

  lemma {:induction false} StoresKeepEarliest(t: Tables, changes: seq<Change>)
    ensures StoredAll(t, changes).earliest == t.earliest
  {
    if changes != [] {
      StoresKeepEarliest(t, changes[..|changes| - 1]);
    }
  }

  lemma {:induction false} FoldDownward<K, V>(t: Table<K, V>, e1: nat, e2: nat)
    requires e2 <= e1
    ensures View(Folded(Folded(t, e1), e2), e2) == View(t, e1)
  {
    var u := Folded(t, e1);
    ViewFolded(u, e2, e2);
    EmptyView(u, 0, e2);
  }

  /** ... and after a prune that goes down, the view at the block it records is the view at the
      higher block pruned to before. So that view is right exactly if nothing changed in between. */
  lemma PruneDownward(t: Tables, e1: nat, e2: nat)
    requires e2 <= e1 && t.earliest.Some?
    ensures Pruned(Pruned(t, e1), e2).earliest.value.0 == e2
    ensures Viewed(Pruned(Pruned(t, e1), e2), e2) == Viewed(t, e1)
    ensures Viewed(Pruned(Pruned(t, e1), e2), e2) == Viewed(t, e2) <==> Viewed(t, e1) == Viewed(t, e2)
  {
    FoldDownward(t.accountBranches, e1, e2);
    FoldDownward(t.storageBranches, e1, e2);
    FoldDownward(t.accounts, e1, e2);
    FoldDownward(t.storages, e1, e2);
  }

  /** An account written at block 4 shows at block 3 after pruning to 5 and then to 3. */
  lemma PruneDownwardMisreports(t: Tables)
    requires t == Tables(map[], map[], map[4 := map[7 := Some(1)]], map[], map[], Some((0, 0)))
    ensures Pruned(Pruned(t, 5), 3).earliest.value.0 == 3
    ensures 7 in Viewed(Pruned(Pruned(t, 5), 3), 3).accounts && 7 !in Viewed(t, 3).accounts
  {
    PruneDownward(t, 5, 3);
    WrittenAtFour(t.accounts);
  }

  lemma WrittenAtFour(t: Table<nat, Option<Account>>)
    requires t == map[4 := map[7 := Some(1)]]
    ensures 7 in Present(View(t, 5)) && 7 !in Present(View(t, 3))
  {
    ViewIsLookup(t, 5, 7);
    LookupIsNewest(t, 5, 7);
    assert Newest(t, 5, 7, 4);
    ViewIsLookup(t, 3, 7);
    LookupIsNewest(t, 3, 7);
  }

  // ---------------------------------------------------------------------------------------------
  // The views at every block
  // ---------------------------------------------------------------------------------------------

  /** The highest changed block up to `e`, or the base. */
  function LastUpTo(changes: seq<Change>, e: nat): nat {
    if changes == [] then 0
    else if changes[|changes| - 1].number <= e then changes[|changes| - 1].number
    else LastUpTo(changes[..|changes| - 1], e)
  }

  /** No change lies above `a` and at or below `b`. */
  predicate NoneBetween(changes: seq<Change>, a: nat, b: nat) {
    forall i | 0 <= i < |changes| :: changes[i].number <= a || b < changes[i].number
  }

  /** The base, or a changed block. */
  predicate IsChange(changes: seq<Change>, n: nat) {
    n == 0 || exists i :: 0 <= i < |changes| && changes[i].number == n
  }

  lemma {:induction false} LastUpToIsLast(changes: seq<Change>, e: nat)
    requires Increasing(changes)
    ensures LastUpTo(changes, e) <= e && NoneBetween(changes, LastUpTo(changes, e), e)
    ensures IsChange(changes, LastUpTo(changes, e))
  {
    if changes != [] && changes[|changes| - 1].number > e {
      LastUpToIsLast(changes[..|changes| - 1], e);
    }
  }

  lemma {:induction false} AtSame(base: State, changes: seq<Change>, a: nat, b: nat)
    requires a <= b && NoneBetween(changes, a, b)
    ensures At(base, changes, a) == At(base, changes, b)
  {
    if changes != [] {
      AtSame(base, changes[..|changes| - 1], a, b);
    }
  }

  /** Blocks up to `g` were folded into the base, so every view shows at least those. */
  ghost predicate Shows(t: Tables, h: History, g: nat) {
    && g <= h.floor && IsChange(h.changes, g)
    && forall m: nat :: Viewed(t, m) == At(h.base, h.changes, Max(m, g))
  }

  /** The highest changed block a prune has folded. */
  function FoldedStep(h: History, g: nat, op: Operation): nat {
    if op.Prune? then Max(g, LastUpTo(h.changes, op.upTo)) else g
  }

  function FoldedRun(h: History, g: nat, ops: seq<Operation>): nat
    decreases |ops|
  {
    if ops == [] then g else FoldedRun(SpecStep(h, ops[0]), FoldedStep(h, g, ops[0]), ops[1..])
  }

  lemma StoreShows(t: Tables, h: History, g: nat, n: nat, d: Diff)
    requires Refines(t, h) && Shows(t, h, g) && n >= 1 && AllBelow(h.changes, n)
    ensures Shows(Stored(t, n, d), SpecStep(h, Store(n, d)), g)
  {
    var next := h.changes + [Change(n, d)];
    assert IsChange(next, g) by {
      assert forall i | 0 <= i < |h.changes| :: next[i] == h.changes[i];
    }
    forall m: nat ensures Viewed(Stored(t, n, d), m) == At(h.base, next, Max(m, g)) {
      assert next[..|next| - 1] == h.changes;
      if m >= n {
        ViewFromStored(t, n, d, m);
      } else {
        ViewBelowStored(t, n, d, m);
      }
    }
  }

  lemma ViewBelowFolded<K, V>(t: Table<K, V>, e: nat, m: nat)
    requires m <= e
    ensures View(Folded(t, e), m) == View(t, e)
  {
    EmptyView(Folded(t, e), m, e);
    ViewFolded(t, e, e);
  }

  lemma ViewBelowPruned(t: Tables, e: nat, m: nat)
    requires m <= e
    ensures Viewed(Pruned(t, e), m) == Viewed(t, e)
  {
    ViewBelowFolded(t.accountBranches, e, m);
    ViewBelowFolded(t.storageBranches, e, m);
    ViewBelowFolded(t.accounts, e, m);
    ViewBelowFolded(t.storages, e, m);
  }

  lemma PruneShows(t: Tables, h: History, g: nat, e: nat)
    requires Increasing(h.changes) && Shows(t, h, g)
    ensures Shows(Pruned(t, e), SpecStep(h, Prune(e)), FoldedStep(h, g, Prune(e)))
  {
    LastUpToIsLast(h.changes, e);
    var folded := Max(g, LastUpTo(h.changes, e));
    forall m: nat ensures Viewed(Pruned(t, e), m) == At(h.base, h.changes, Max(m, folded)) {
      if m >= e {
        ViewFromPruned(t, e, m);
      } else {
        ViewBelowPruned(t, e, m);
        if g < e {
          AtSame(h.base, h.changes, Max(m, folded), e);
        }
      }
    }
  }

  lemma CutShows(t: Tables, h: History, g: nat, n: nat)
    requires Increasing(h.changes) && Shows(t, h, g) && n >= h.floor
    ensures Shows(Cut(t, n), h.(changes := Kept(h.changes, n)), g)
  {
    KeptChanges(h.changes, n);
    forall m: nat ensures Viewed(Cut(t, n), m) == At(h.base, Kept(h.changes, n), Max(m, g)) {
      ViewOfCut(t, n, m);
      AtKept(h.base, h.changes, n, Max(m, g));
    }
    if g != 0 {
      var i :| 0 <= i < |h.changes| && h.changes[i].number == g;
      assert h.changes[i] in Kept(h.changes, n);
    }
  }

  lemma {:induction false} StoreAllShows(t: Tables, h: History, g: nat, changes: seq<Change>)
    requires Refines(t, h) && Shows(t, h, g) && Increasing(h.changes + changes)
    ensures Shows(StoredAll(t, changes), h.(changes := h.changes + changes), g)
  {
    if changes == [] {
      assert h.changes + changes == h.changes;
    } else {
      var init, last := changes[..|changes| - 1], changes[|changes| - 1];
      var all := h.changes + init;
      assert h.changes + changes == all + [last];
      OneMoreIncreases(all, last);
      StoreAllShows(t, h, g, init);
      StoreAllRefines(t, h, init);
      StoreShows(StoredAll(t, init), h.(changes := all), g, last.number, last.diff);
    }
  }

  lemma StepShows(t: Tables, h: History, g: nat, op: Operation)
    requires Refines(t, h) && Shows(t, h, g) && Allowed(h, op)
    ensures Shows(TableStep(t, op), SpecStep(h, op), FoldedStep(h, g, op))
  {
    match op
    case Store(n, d) => StoreShows(t, h, g, n, d);
    case Prune(e) => PruneShows(t, h, g, e);
    case Unwind(n) => CutShows(t, h, g, Below(n));
    case Replace(common, changes) =>
      CutShows(t, h, g, common);
      CutRefines(t, h, common);
      KeptChanges(h.changes, common);
      StoreAllShows(Cut(t, common), h.(changes := Kept(h.changes, common)), g, changes);
  }

  lemma {:induction false} RunShows(t: Tables, h: History, g: nat, ops: seq<Operation>)
    requires Refines(t, h) && Shows(t, h, g) && AllAllowed(h, ops)
    ensures Shows(TableRun(t, ops), SpecRun(h, ops), FoldedRun(h, g, ops))
    decreases |ops|
  {
    if ops != [] {
      StepShows(t, h, g, ops[0]);
      StepRefines(t, h, ops[0]);
      RunShows(TableStep(t, ops[0]), SpecStep(h, ops[0]), FoldedStep(h, g, ops[0]), ops[1..]);
    }
  }

  /** After any allowed operations, the view at every block, below the prune targets too, is the initial
      state with the surviving diffs up to that block or to the highest folded one applied. So it is the
      history at that block if and only if the diffs in between, if any, change nothing. */
  lemma EveryViewIff(t: Tables, ops: seq<Operation>, m: nat)
    requires OnlyBase(t) && AllAllowed(History(Viewed(t, 0), [], 0), ops)
    ensures var h0 := History(Viewed(t, 0), [], 0);
            var h, g := SpecRun(h0, ops), FoldedRun(h0, 0, ops);
            && h.base == Viewed(t, 0) && g <= h.floor && IsChange(h.changes, g)
            && Viewed(TableRun(t, ops), m) == At(h.base, h.changes, Max(m, g))
            && (Viewed(TableRun(t, ops), m) == At(h.base, h.changes, m) <==>
                m >= g || At(h.base, h.changes, g) == At(h.base, h.changes, m))
  {
    var h0 := History(Viewed(t, 0), [], 0);
    forall k: nat ensures Viewed(t, k) == h0.base {
      BaseRefines(t, k);
    }
    RunShows(t, h0, 0, ops);
    RunKeepsBase(h0, ops);
  }

  /** In particular for a prune to any block after any allowed operations, and the view at the block it
      records. */
  lemma PruneDownwardIff(t: Tables, ops: seq<Operation>, e: nat)
    requires OnlyBase(t) && t.earliest.Some? && AllAllowed(History(Viewed(t, 0), [], 0), ops)
    ensures var h0 := History(Viewed(t, 0), [], 0);
            var h, g, u := SpecRun(h0, ops), FoldedRun(h0, 0, ops), Pruned(TableRun(t, ops), e);
            && u.earliest.Some? && u.earliest.value.0 == e
            && (Viewed(u, e) == At(h.base, h.changes, e) <==>
                e >= g || At(h.base, h.changes, g) == At(h.base, h.changes, e))
  {
    EveryViewIff(t, ops, e);
    ViewFromPruned(TableRun(t, ops), e, e);
    RunKeepsEarliest(t, ops);
  }

  lemma {:induction false} RunKeepsEarliest(t: Tables, ops: seq<Operation>)
    requires t.earliest.Some?
    ensures TableRun(t, ops).earliest.Some?
    decreases |ops|
  {
    if ops != [] {
      if ops[0].Replace? {
        StoresKeepEarliest(Cut(t, ops[0].common), ops[0].changes);
      }
      RunKeepsEarliest(TableStep(t, ops[0]), ops[1..]);
    }
  }
}
