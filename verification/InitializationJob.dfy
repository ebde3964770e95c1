/** The initialization job over the four tables, interrupted anywhere between its transactions and
    run again. */
module InitializationJobs {
  import opened Blocks
  import opened VersionedTables
  import opened ProofStores
  import opened SourceCursors
  import opened StoreRefinement
  import opened Initialization

  /** The source tables, each in key order, with the values as they are stored. */
  datatype Source = Source(
    accounts: seq<(nat, Option<Account>)>,
    slots: seq<Row<nat>>,
    storageNodes: seq<Row<Option<Node>>>,
    accountNodes: seq<(nat, Option<Node>)>)

  ghost predicate ValidSource(src: Source) {
    InOrder(NatOrder(), src.accounts) && InOrder(SubOrder(), src.slots) && InOrder(SubOrder(), src.storageNodes)
      && InOrder(NatOrder(), src.accountNodes)
  }

  type Anchor = (nat, Hash)

  /** What is durable while the base is being copied. */
  datatype InitDb = InitDb(
    accounts: map<nat, Option<Account>>,
    slots: map<Sub, nat>,
    storageNodes: map<Sub, Option<Node>>,
    accountNodes: map<nat, Option<Node>>,
    anchor: Option<Anchor>,
    earliest: Option<Anchor>)

  const EMPTY_DB := InitDb(map[], map[], map[], map[], None, None)

  /** A run ends, stops at a crash, or refuses. */
  datatype Outcome = Finished | Stopped | Inconsistent

  // ---------------------------------------------------------------------------------------------
  // The run as a function
  // ---------------------------------------------------------------------------------------------

  function CopyFrom<K, V>(rows: seq<(K, V)>, from: nat, level: map<K, V>, budget: nat): (map<K, V>, nat, Outcome)
    requires from <= |rows|
  {
    var (next, left, done) := Loaded(rows, from, level, INITIALIZE_STORAGE_THRESHOLD, budget);
    (next, left, if done then Finished else Stopped)
  }

  /** One table: from just after its greatest key, or from the start. */
  ghost function TableInit<K(!new), V>(less: (K, K) -> bool, rows: seq<(K, V)>, level: map<K, V>, resume: bool,
                                       budget: nat): (map<K, V>, nat, Outcome) {
    var from := if resume then ResumeAt(less, rows, level) else Some(0);
    if from.None? then (level, budget, Inconsistent) else CopyFrom(rows, from.value, level, budget)
  }

  /** The four tables in order, then the commit. */
  ghost function CopyAccounts(src: Source, db: InitDb, resume: bool, budget: nat): (InitDb, Outcome) {
    var (level, left, outcome) := TableInit(NatOrder(), src.accounts, db.accounts, resume, budget);
    var next := db.(accounts := level);
    if outcome.Finished? then CopySlots(src, next, resume, left) else (next, outcome)
  }

  ghost function CopySlots(src: Source, db: InitDb, resume: bool, budget: nat): (InitDb, Outcome) {
    var (level, left, outcome) := TableInit(SubOrder(), src.slots, db.slots, resume, budget);
    var next := db.(slots := level);
    if outcome.Finished? then CopyStorageNodes(src, next, resume, left) else (next, outcome)
  }

  ghost function CopyStorageNodes(src: Source, db: InitDb, resume: bool, budget: nat): (InitDb, Outcome) {
    var (level, left, outcome) := TableInit(SubOrder(), src.storageNodes, db.storageNodes, resume, budget);
    var next := db.(storageNodes := level);
    if outcome.Finished? then CopyAccountNodes(src, next, resume, left) else (next, outcome)
  }

  ghost function CopyAccountNodes(src: Source, db: InitDb, resume: bool, budget: nat): (InitDb, Outcome) {
    var (level, left, outcome) := TableInit(NatOrder(), src.accountNodes, db.accountNodes, resume, budget);
    var next := db.(accountNodes := level);
    if outcome.Finished? then Commit(next, left) else (next, outcome)
  }

  function Commit(db: InitDb, budget: nat): (InitDb, Outcome) {
    if budget == 0 then (db, Stopped) else (db.(earliest := db.anchor), Finished)
  }

  ghost function RunResult(src: Source, db: InitDb, best: Anchor, budget: nat): (InitDb, Outcome) {
    if db.anchor.None? then
      if budget == 0 then (db, Stopped) else CopyAccounts(src, db.(anchor := Some(best)), false, budget - 1)
    else if db.earliest.Some? then (db, Finished)
    else if db.anchor != Some(best) then (db, Inconsistent)
    else CopyAccounts(src, db, true, budget)
  }

  // ---------------------------------------------------------------------------------------------
  // The run as a program
  // ---------------------------------------------------------------------------------------------

  method InitializeTable<K(!new, ==), V>(less: (K, K) -> bool, rows: seq<(K, V)>, level: map<K, V>, resume: bool,
                                         budget: nat)
    returns (next: map<K, V>, left: nat, outcome: Outcome)
    requires TotalOrder(less)
    ensures (next, left, outcome) == TableInit(less, rows, level, resume, budget)
  {
    var from := Some(0);
    if resume {
      from := Resume(less, rows, level);
      if from.None? {
        return level, budget, Inconsistent;
      }
    }
    var done;
    next, left, done := Initialize(rows, from.value, level, INITIALIZE_STORAGE_THRESHOLD, budget);
    outcome := if done then Finished else Stopped;
  }

  lemma InOrderIsSorted<V>(rows: seq<Row<V>>)
    requires InOrder(SubOrder(), rows)
    ensures Sorted(rows)
  {
    forall i, j | 0 <= i < j < |rows| ensures SubLess(rows[i].0, rows[j].0) {
      assert SubOrder()(rows[i].0, rows[j].0);
    }
  }

  /** A table with several rows per address, walked by its cursor and stored in groups. */
  method InitializeDupTable<V>(rows: seq<Row<V>>, level: map<Sub, V>, resume: bool, budget: nat)
    returns (next: map<Sub, V>, left: nat, outcome: Outcome)
    requires InOrder(SubOrder(), rows)
    ensures (next, left, outcome) == TableInit(SubOrder(), rows, level, resume, budget)
  {
    InOrderIsSorted(rows);
    var cursor := new DupCursor(rows);
    var from := Some(0);
    if resume {
      from := ResumeDup(cursor, level);
    }
    if from.None? {
      return level, budget, Inconsistent;
    }
    next, left, outcome := CopyDup(cursor, level, budget);
  }

  method CopyDup<V>(cursor: DupCursor<V>, level: map<Sub, V>, budget: nat)
    returns (next: map<Sub, V>, left: nat, outcome: Outcome)
    requires cursor.Valid()
    modifies cursor
    ensures (next, left, outcome) == CopyFrom(cursor.rows, old(cursor.pos) + 1, level, budget)
  {
    var done;
    next, left, done := InitializeDup(cursor, level, INITIALIZE_STORAGE_THRESHOLD, budget);
    outcome := if done then Finished else Stopped;
  }

  class InitializationJob {
    const source: Source
    var db: InitDb

    constructor (source: Source, db: InitDb)
      ensures this.source == source && this.db == db
    {
      this.source, this.db := source, db;
    }

    /** Copies the tables one after another; each step is durable before the next. */
    method InitializeTrie(resume: bool, budget: nat) returns (left: nat, outcome: Outcome)
      requires ValidSource(source)
      modifies this
      ensures !outcome.Finished? ==> (db, outcome) == CopyAccounts(source, old(db), resume, budget)
      ensures outcome.Finished? ==> Commit(db, left) == CopyAccounts(source, old(db), resume, budget)
    {
      OrdersAreTotal();
      var accounts, slots, storageNodes, accountNodes;
      accounts, left, outcome := InitializeTable(NatOrder(), source.accounts, db.accounts, resume, budget);
      db := db.(accounts := accounts);
      if !outcome.Finished? {
        return;
      }
      slots, left, outcome := InitializeDupTable(source.slots, db.slots, resume, left);
      db := db.(slots := slots);
      if !outcome.Finished? {
        return;
      }
      storageNodes, left, outcome := InitializeDupTable(source.storageNodes, db.storageNodes, resume, left);
      db := db.(storageNodes := storageNodes);
      if !outcome.Finished? {
        return;
      }
      accountNodes, left, outcome := InitializeTable(NatOrder(), source.accountNodes, db.accountNodes, resume, left);
      db := db.(accountNodes := accountNodes);
    }

    /** `budget` transactions happen before the process stops. */
    method Run(best: Anchor, budget: nat) returns (outcome: Outcome)
      requires ValidSource(source)
      modifies this
      ensures (db, outcome) == RunResult(source, old(db), best, budget)
    {
      var resume, left := db.anchor.Some?, budget;
      if resume && db.earliest.Some? {
        return Finished;
      }
      if !resume {
        if left == 0 {
          return Stopped;
        }
        db, left := db.(anchor := Some(best)), left - 1;
      } else if db.anchor != Some(best) {
        return Inconsistent;
      }
      left, outcome := InitializeTrie(resume, left);
      if outcome.Finished? {
        if left == 0 {
          return Stopped;
        }
        db := db.(earliest := db.anchor);
      }
    }
  }

  // ---------------------------------------------------------------------------------------------
  // Crash and resume
  // ---------------------------------------------------------------------------------------------

  ghost predicate Prefix<K, V>(rows: seq<(K, V)>, level: map<K, V>) {
    exists n :: Holds(rows, n, level)
  }

  /** Every table is a prefix of its source. */
  ghost predicate Prefixes(src: Source, db: InitDb) {
    Prefix(src.accounts, db.accounts) && Prefix(src.slots, db.slots) && Prefix(src.storageNodes, db.storageNodes)
      && Prefix(src.accountNodes, db.accountNodes)
  }

  /** Every table is a full copy of its source. */
  ghost predicate Copied(src: Source, db: InitDb) {
    && db.accounts == Inserted(map[], src.accounts) && db.slots == Inserted(map[], src.slots)
    && db.storageNodes == Inserted(map[], src.storageNodes) && db.accountNodes == Inserted(map[], src.accountNodes)
  }

  /** Untouched, being copied, or complete. */
  ghost predicate Sound(src: Source, best: Anchor, db: InitDb) {
    || db == EMPTY_DB
    || (db.anchor == Some(best) && db.earliest.None? && Prefixes(src, db))
    || (db.anchor == Some(best) && db.earliest == Some(best) && Copied(src, db))
  }

  function Size(src: Source): nat {
    |src.accounts| + |src.slots| + |src.storageNodes| + |src.accountNodes|
  }

  lemma TableExtends<K(!new), V>(less: (K, K) -> bool, rows: seq<(K, V)>, level: map<K, V>, resume: bool, budget: nat)
    requires TotalOrder(less) && InOrder(less, rows) && Prefix(rows, level) && (!resume ==> level == map[])
    ensures var (next, left, outcome) := TableInit(less, rows, level, resume, budget);
            && Prefix(rows, next) && !outcome.Inconsistent?
            && (outcome.Finished? ==> next == Inserted(map[], rows) && left + |rows| >= budget)
            && (budget >= |rows| ==> outcome.Finished?)
  {
    var n :| Holds(rows, n, level);
    if resume {
      ResumeAfterPrefix(less, rows, n, level);
    } else {
      n := 0;
      assert rows[..0] == [];
    }
    var m := LoadExtendsPrefix(rows, n, level, INITIALIZE_STORAGE_THRESHOLD, budget);
    assert rows[..|rows|] == rows;
    assert Holds(rows, m, Loaded(rows, n, level, INITIALIZE_STORAGE_THRESHOLD, budget).0);
  }

  /** The claim about the result of a run: the store is sound, the run does not refuse, it finishes
      exactly if the store is complete, and it finishes if it had enough transactions. */
  ghost predicate Lands(src: Source, best: Anchor, result: (InitDb, Outcome), enough: bool) {
    && Sound(src, best, result.0) && !result.1.Inconsistent?
    && (result.1.Finished? <==> result.0.earliest.Some?)
    && (enough ==> result.1.Finished?)
  }

  ghost predicate Copying(src: Source, best: Anchor, db: InitDb) {
    ValidSource(src) && db.anchor == Some(best) && db.earliest.None? && Prefixes(src, db)
  }

  lemma AccountNodesLand(src: Source, best: Anchor, db: InitDb, resume: bool, budget: nat)
    requires Copying(src, best, db) && (!resume ==> db.accountNodes == map[])
    requires db.accounts == Inserted(map[], src.accounts) && db.slots == Inserted(map[], src.slots)
    requires db.storageNodes == Inserted(map[], src.storageNodes)
    ensures Lands(src, best, CopyAccountNodes(src, db, resume, budget), budget >= |src.accountNodes| + 1)
  {
    OrdersAreTotal();
    TableExtends(NatOrder(), src.accountNodes, db.accountNodes, resume, budget);
  }

  lemma StorageNodesLand(src: Source, best: Anchor, db: InitDb, resume: bool, budget: nat)
    requires Copying(src, best, db) && (!resume ==> db.storageNodes == map[] && db.accountNodes == map[])
    requires db.accounts == Inserted(map[], src.accounts) && db.slots == Inserted(map[], src.slots)
    ensures Lands(src, best, CopyStorageNodes(src, db, resume, budget),
                  budget >= |src.storageNodes| + |src.accountNodes| + 1)
  {
    OrdersAreTotal();
    TableExtends(SubOrder(), src.storageNodes, db.storageNodes, resume, budget);
    var (level, left, outcome) := TableInit(SubOrder(), src.storageNodes, db.storageNodes, resume, budget);
    if outcome.Finished? {
      AccountNodesLand(src, best, db.(storageNodes := level), resume, left);
    }
  }

  lemma SlotsLand(src: Source, best: Anchor, db: InitDb, resume: bool, budget: nat)
    requires Copying(src, best, db)
    requires (!resume ==> db.slots == map[] && db.storageNodes == map[] && db.accountNodes == map[])
    requires db.accounts == Inserted(map[], src.accounts)
    ensures Lands(src, best, CopySlots(src, db, resume, budget),
                  budget >= |src.slots| + |src.storageNodes| + |src.accountNodes| + 1)
  {
    OrdersAreTotal();
    TableExtends(SubOrder(), src.slots, db.slots, resume, budget);
    var (level, left, outcome) := TableInit(SubOrder(), src.slots, db.slots, resume, budget);
    if outcome.Finished? {
      StorageNodesLand(src, best, db.(slots := level), resume, left);
    }
  }

  lemma AccountsLand(src: Source, best: Anchor, db: InitDb, resume: bool, budget: nat)
    requires Copying(src, best, db)
    requires (!resume ==>
              db.accounts == map[] && db.slots == map[] && db.storageNodes == map[]
              && db.accountNodes == map[])
    ensures Lands(src, best, CopyAccounts(src, db, resume, budget), budget >= Size(src) + 1)
  {
    OrdersAreTotal();
    TableExtends(NatOrder(), src.accounts, db.accounts, resume, budget);
    var (level, left, outcome) := TableInit(NatOrder(), src.accounts, db.accounts, resume, budget);
    if outcome.Finished? {
      SlotsLand(src, best, db.(accounts := level), resume, left);
    }
  }

  lemma EmptyIsPrefix<K, V>(rows: seq<(K, V)>)
    ensures Prefix(rows, map[])
  {
    assert rows[..0] == [];
    assert Holds(rows, 0, map[]);
  }

  /** One run from a sound store lands in a sound store, however early it is stopped. */
  lemma RunLands(src: Source, best: Anchor, db: InitDb, budget: nat)
    requires ValidSource(src) && Sound(src, best, db)
    ensures Lands(src, best, RunResult(src, db, best, budget), budget >= Size(src) + 2)
  {
    if db == EMPTY_DB {
      EmptyIsPrefix(src.accounts);
      EmptyIsPrefix(src.slots);
      EmptyIsPrefix(src.storageNodes);
      EmptyIsPrefix(src.accountNodes);
      if budget > 0 {
        AccountsLand(src, best, db.(anchor := Some(best)), false, budget - 1);
      }
    } else if db.earliest.None? {
      AccountsLand(src, best, db, true, budget);
    }
  }

  /** Any number of runs, each stopped after its own number of transactions. */
  ghost function RunAll(src: Source, db: InitDb, best: Anchor, budgets: seq<nat>): InitDb
    decreases |budgets|
  {
    if budgets == [] then db else RunAll(src, RunResult(src, db, best, budgets[0]).0, best, budgets[1..])
  }

  lemma {:induction false} RunsStaySound(src: Source, best: Anchor, db: InitDb, budgets: seq<nat>)
    requires ValidSource(src) && Sound(src, best, db)
    ensures Sound(src, best, RunAll(src, db, best, budgets))
    decreases |budgets|
  {
    if budgets != [] {
      RunLands(src, best, db, budgets[0]);
      RunsStaySound(src, best, RunResult(src, db, best, budgets[0]).0, budgets[1..]);
    }
  }

  /** Crash and resume: however often the job is interrupted from an empty store on, one more run with
      enough transactions finishes, and whenever a run finishes the tables hold exactly the source. */
  lemma InterruptedInitializationIsExact(src: Source, best: Anchor, budgets: seq<nat>, last: nat)
    requires ValidSource(src)
    ensures var (db, outcome) := RunResult(src, RunAll(src, EMPTY_DB, best, budgets), best, last);
            && !outcome.Inconsistent?
            && (outcome.Finished? ==> db.anchor == Some(best) && db.earliest == Some(best) && Copied(src, db))
            && (last >= Size(src) + 2 ==> outcome.Finished?)
  {
    RunsStaySound(src, best, EMPTY_DB, budgets);
    RunLands(src, best, RunAll(src, EMPTY_DB, best, budgets), last);
  }

  /** Attempts with any anchor blocks. */
  type Attempts = seq<(Anchor, nat)>

  ghost function RunEach(src: Source, db: InitDb, attempts: Attempts): InitDb
    decreases |attempts|
  {
    if attempts == [] then db else RunEach(src, RunResult(src, db, attempts[0].0, attempts[0].1).0, attempts[1..])
  }

  /** The budgets of the attempts for `best`. */
  function BudgetsFor(best: Anchor, attempts: Attempts): seq<nat> {
    if attempts == [] then []
    else (if attempts[0].0 == best then [attempts[0].1] else []) + BudgetsFor(best, attempts[1..])
  }

  /** Once a copy is anchored, attempts for other blocks change nothing: any mix of attempts does what
      the ones for the anchor block do, and none does anything to a complete store. */
  lemma {:induction false} OnlyAnchoredAttemptsMatter(src: Source, best: Anchor, db: InitDb, attempts: Attempts)
    requires ValidSource(src) && Sound(src, best, db) && db.anchor.Some?
    ensures RunEach(src, db, attempts) == RunAll(src, db, best, BudgetsFor(best, attempts))
    ensures db.earliest.Some? ==> RunEach(src, db, attempts) == db
    decreases |attempts|
  {
    if attempts != [] {
      var next := RunResult(src, db, attempts[0].0, attempts[0].1).0;
      if attempts[0].0 == best {
        RunLands(src, best, db, attempts[0].1);
        AnchorStays(src, db, best, attempts[0].1);
        assert BudgetsFor(best, attempts)[1..] == BudgetsFor(best, attempts[1..]);
      } else {
        assert next == db;
        assert BudgetsFor(best, attempts) == BudgetsFor(best, attempts[1..]);
      }
      OnlyAnchoredAttemptsMatter(src, best, next, attempts[1..]);
    }
  }

  lemma AnchorStays(src: Source, db: InitDb, best: Anchor, budget: nat)
    requires db.anchor.Some?
    ensures RunResult(src, db, best, budget).0.anchor == db.anchor
  {
  }

  // ---------------------------------------------------------------------------------------------
  // The initialized store
  // ---------------------------------------------------------------------------------------------

  /** The copied tables as the base of the versioned store. */
  function AsTables(db: InitDb): Tables {
    Tables(map[0 := db.accountNodes], map[0 := db.storageNodes], map[0 := db.accounts], map[0 := db.slots], map[],
           db.earliest)
  }

  /** The state the source describes. */
  function SourceState(src: Source): State {
    State(Present(Inserted(map[], src.accountNodes)), Present(Inserted(map[], src.storageNodes)),
          Present(Inserted(map[], src.accounts)), NonZero(Inserted(map[], src.slots)))
  }

  /** From interrupted initialization to live operation: after a finished run, every later view is the
      source state with the stored diffs applied. */
  lemma InitializedViewsAreHistory(src: Source, best: Anchor, budgets: seq<nat>, last: nat, ops: seq<Operation>, m: nat)
    requires ValidSource(src)
    requires RunResult(src, RunAll(src, EMPTY_DB, best, budgets), best, last).1.Finished?
    requires AllAllowed(History(SourceState(src), [], 0), ops)
    requires m >= SpecRun(History(SourceState(src), [], 0), ops).floor
    ensures var t := AsTables(RunResult(src, RunAll(src, EMPTY_DB, best, budgets), best, last).0);
            Viewed(TableRun(t, ops), m)
            == At(SourceState(src), SpecRun(History(SourceState(src), [], 0), ops).changes, m)
  {
    InterruptedInitializationIsExact(src, best, budgets, last);
    var t := AsTables(RunResult(src, RunAll(src, EMPTY_DB, best, budgets), best, last).0);
    assert Viewed(t, 0) == SourceState(src);
    ViewsAreHistory(t, ops, m);
  }
}
