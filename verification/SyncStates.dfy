/** The sync protocol together with the tables it drives: what the views at the stored heights are. */
module SyncStates {
  import opened Blocks
  import opened SyncTargets
  import opened ProofWindows
  import opened SyncProtocol
  import opened SyncInvariant
  import opened SyncTaskSteps
  import opened SyncWorkerSteps
  import opened SyncTheorems
  import PS = ProofStores
  import SR = StoreRefinement
  import LC = LiveCollectors

  /** What executing blocks yields: a block's hash fixes its ancestry, so it fixes the state after the
      block, the block's diff and its body. */
  datatype World = World(evm: LC.Evm, post: Hash -> SR.State, diff: Hash -> PS.Diff, body: Hash -> LC.Body)

  /** Executing the block on the state after its parent yields its diff and the state after it. */
  predicate Genuine(w: World, b: Block) {
    var before, d := w.post(b.parent), w.diff(b.hash);
    && w.body(b.hash).block == b && w.evm.execute(before, w.body(b.hash)) == Some(d)
    && w.evm.root(before, d) == w.body(b.hash).stateRoot && w.post(b.hash) == SR.ApplyDiff(before, d)
  }

  predicate GenuineChain(w: World, chain: seq<Block>) {
    forall i | 0 < i < |chain| :: Genuine(w, chain[i])
  }

  // ---------------------------------------------------------------------------------------------
  // The tables through a batch
  // ---------------------------------------------------------------------------------------------

  /** The entry is the block: to be executed, or with the diff executing it yields. */
  predicate EntryOf(w: World, b: Block, entry: LC.BatchBlock) {
    entry == LC.Cached(b, w.diff(b.hash)) || entry == LC.Execute(w.body(b.hash))
  }

  predicate EntriesOf(w: World, batch: seq<Block>, entries: seq<LC.BatchBlock>) {
    |entries| == |batch| && forall i | 0 <= i < |batch| :: EntryOf(w, batch[i], entries[i])
  }

  /** The tables have nothing above their latest block `n`. */
  predicate TablesUpTo(db: LC.Db, n: nat) {
    && db.tables.earliest.Some? && db.tables.earliest.value.0 <= n
    && LC.Latest(db).Some? && LC.Latest(db).value.0 == n
    && SR.RowsBelow(db.tables, n + 1) && forall b | b in db.tables.updates :: b <= n
  }

  /** What is seen at each height. */
  type Views = nat -> SR.State

  function ViewsOf(db: LC.Db): Views {
    (k: nat) => SR.Viewed(db.tables, k)
  }

  /** The view after a block is the state after it, if the view before it is the state after its parent. */
  predicate Carries(w: World, v: Views, n: nat, b: Block) {
    Genuine(w, b) && v(n) == w.post(b.parent) ==> v(n + 1) == w.post(b.hash)
  }

  lemma AppendedCached(evm: LC.Evm, db: LC.Db, b: Block, d: PS.Diff, next: LC.Db)
    requires LC.Step(evm, db, LC.Cached(b, d)) == LC.Ok(next)
    ensures next == LC.Db(PS.Stored(db.tables, b.number, d), Some((b.number, b.hash)))
  {
  }

  lemma AppendedExecuted(evm: LC.Evm, db: LC.Db, n: nat, body: LC.Body, next: LC.Db)
    requires LC.Step(evm, db, LC.Execute(body)) == LC.Ok(next) && body.block.number == n + 1
    ensures var v := SR.Viewed(db.tables, n);
            var d := evm.execute(v, body);
            && d.Some? && LC.ReplayOne(evm, v, body) == Some(SR.ApplyDiff(v, d.value))
            && next == LC.Db(PS.Stored(db.tables, n + 1, d.value), Some((n + 1, body.block.hash)))
  {
    assert LC.ParentNumber(n + 1) == n;
  }

  lemma AppendedDiff(w: World, db: LC.Db, n: nat, b: Block, entry: LC.BatchBlock, next: LC.Db) returns (d: PS.Diff)
    requires TablesUpTo(db, n) && b.number == n + 1 && EntryOf(w, b, entry) && LC.Step(w.evm, db, entry) == LC.Ok(next)
    requires w.body(b.hash).block == b
    ensures next.tables == PS.Stored(db.tables, n + 1, d) && next.recorded == Some((n + 1, b.hash))
    ensures Genuine(w, b) && SR.Viewed(db.tables, n) == w.post(b.parent) ==> d == w.diff(b.hash)
  {
    if entry.Cached? {
      AppendedCached(w.evm, db, b, entry.diff, next);
      d := entry.diff;
    } else {
      AppendedExecuted(w.evm, db, n, w.body(b.hash), next);
      d := w.evm.execute(SR.Viewed(db.tables, n), w.body(b.hash)).value;
    }
  }

  lemma StepCarries(w: World, db: LC.Db, n: nat, b: Block, entry: LC.BatchBlock, next: LC.Db)
    requires TablesUpTo(db, n) && b.number == n + 1 && EntryOf(w, b, entry) && LC.Step(w.evm, db, entry) == LC.Ok(next)
    requires w.body(b.hash).block == b
    ensures Carries(w, ViewsOf(next), n, b)
  {
    var d := AppendedDiff(w, db, n, b, entry, next);
    SR.ViewBelowStored(db.tables, n + 1, d, n);
    LC.StagedWritesAreRead(db.tables, n + 1, d);
  }

  lemma StepKeepsTables(w: World, db: LC.Db, n: nat, b: Block, entry: LC.BatchBlock, next: LC.Db)
    requires TablesUpTo(db, n) && b.number == n + 1 && EntryOf(w, b, entry) && LC.Step(w.evm, db, entry) == LC.Ok(next)
    requires w.body(b.hash).block == b
    ensures TablesUpTo(next, n + 1) && LC.Latest(next) == Some((n + 1, b.hash))
    ensures next.tables.earliest == db.tables.earliest
  {
    var d := AppendedDiff(w, db, n, b, entry, next);
    LC.StagedRowsAreNewest(db.tables, n + 1, d);
  }

  lemma StepKeepsViews(w: World, db: LC.Db, n: nat, b: Block, entry: LC.BatchBlock, next: LC.Db, k: nat)
    requires TablesUpTo(db, n) && b.number == n + 1 && EntryOf(w, b, entry) && LC.Step(w.evm, db, entry) == LC.Ok(next)
    requires w.body(b.hash).block == b && k <= n
    ensures ViewsOf(next)(k) == ViewsOf(db)(k)
  {
    var d := AppendedDiff(w, db, n, b, entry, next);
    SR.ViewBelowStored(db.tables, n + 1, d, k);
  }

  /** A stored batch keeps the views below it and carries the state from block to block. */
  ghost predicate BatchCarries(w: World, v: Views, n: nat, batch: seq<Block>, next: Views) {
    && (forall k: nat | k <= n :: next(k) == v(k))
    && (forall i | 0 <= i < |batch| :: Carries(w, next, n + i, batch[i]))
  }

  /** What one entry that succeeds does. */
  ghost predicate EntryCarries(w: World, f: LC.Stepper<LC.Db>, db: LC.Db, n: nat, b: Block, entry: LC.BatchBlock) {
    TablesUpTo(db, n) && b.number == n + 1 && EntryOf(w, b, entry) && w.body(b.hash).block == b && f(db, entry).Ok? ==>
      var next := f(db, entry).value;
      && TablesUpTo(next, n + 1) && LC.Latest(next) == Some((n + 1, b.hash))
         && next.tables.earliest == db.tables.earliest
      && Carries(w, ViewsOf(next), n, b) && forall k: nat | k <= n :: ViewsOf(next)(k) == ViewsOf(db)(k)
  }

  lemma StepEntryCarries(w: World, db: LC.Db, n: nat, b: Block, entry: LC.BatchBlock)
    ensures EntryCarries(w, LC.StepOn(w.evm), db, n, b, entry)
  {
    if TablesUpTo(db, n) && b.number == n + 1 && EntryOf(w, b, entry) && w.body(b.hash).block == b
      && LC.Step(w.evm, db, entry).Ok? {
      var next := LC.Step(w.evm, db, entry).value;
      StepKeepsTables(w, db, n, b, entry, next);
      StepCarries(w, db, n, b, entry, next);
      forall k: nat | k <= n ensures ViewsOf(next)(k) == ViewsOf(db)(k) {
        StepKeepsViews(w, db, n, b, entry, next, k);
      }
    }
  }

  lemma {:induction false} EntriesKeepTables(w: World, f: LC.Stepper<LC.Db>, db: LC.Db, n: nat, batch: seq<Block>,
                                             entries: seq<LC.BatchBlock>, next: LC.Db)
    requires forall db, n: nat, b, entry :: EntryCarries(w, f, db, n, b, entry)
    requires TablesUpTo(db, n) && Numbered(batch, n + 1) && EntriesOf(w, batch, entries)
    requires (forall b | b in batch :: w.body(b.hash).block == b) && LC.BatchRun(f, db, entries) == LC.Ok(next)
    ensures TablesUpTo(next, n + |batch|) && next.tables.earliest == db.tables.earliest
    ensures batch != [] ==> LC.Latest(next) == Some((n + |batch|, batch[|batch| - 1].hash))
    decreases |batch|
  {
    if batch != [] {
      assert batch[0] in batch && EntryCarries(w, f, db, n, batch[0], entries[0]);
      EntriesKeepTables(w, f, f(db, entries[0]).value, n + 1, batch[1..], entries[1..], next);
    }
  }

  lemma {:induction false} EntriesCarry(w: World, f: LC.Stepper<LC.Db>, db: LC.Db, n: nat, batch: seq<Block>,
                                        entries: seq<LC.BatchBlock>, next: LC.Db)
    requires forall db, n: nat, b, entry :: EntryCarries(w, f, db, n, b, entry)
    requires TablesUpTo(db, n) && Numbered(batch, n + 1) && EntriesOf(w, batch, entries)
    requires (forall b | b in batch :: w.body(b.hash).block == b) && LC.BatchRun(f, db, entries) == LC.Ok(next)
    ensures BatchCarries(w, ViewsOf(db), n, batch, ViewsOf(next))
    decreases |batch|
  {
    if batch != [] {
      var mid := f(db, entries[0]).value;
      HeadCarries(w, f, db, n, batch, entries);
      EntriesCarry(w, f, mid, n + 1, batch[1..], entries[1..], next);
      BatchCarriesMore(w, ViewsOf(db), ViewsOf(mid), n, batch, ViewsOf(next));
    }
  }

  lemma HeadCarries(w: World, f: LC.Stepper<LC.Db>, db: LC.Db, n: nat, batch: seq<Block>, entries: seq<LC.BatchBlock>)
    requires forall db, n: nat, b, entry :: EntryCarries(w, f, db, n, b, entry)
    requires batch != [] && TablesUpTo(db, n) && Numbered(batch, n + 1) && EntriesOf(w, batch, entries)
    requires (forall b | b in batch :: w.body(b.hash).block == b) && LC.BatchRun(f, db, entries).Ok?
    ensures f(db, entries[0]).Ok? && TablesUpTo(f(db, entries[0]).value, n + 1)
    ensures Carries(w, ViewsOf(f(db, entries[0]).value), n, batch[0])
    ensures forall k: nat | k <= n :: ViewsOf(f(db, entries[0]).value)(k) == ViewsOf(db)(k)
  {
    assert batch[0] in batch && EntryCarries(w, f, db, n, batch[0], entries[0]);
  }

  lemma StoredBatchCarries(w: World, db: LC.Db, n: nat, batch: seq<Block>, entries: seq<LC.BatchBlock>, next: LC.Db)
    requires TablesUpTo(db, n) && Numbered(batch, n + 1) && EntriesOf(w, batch, entries)
    requires forall b | b in batch :: w.body(b.hash).block == b
    requires LC.BatchRun(LC.StepOn(w.evm), db, entries) == LC.Ok(next)
    ensures BatchCarries(w, ViewsOf(db), n, batch, ViewsOf(next))
    ensures TablesUpTo(next, n + |batch|) && next.tables.earliest == db.tables.earliest
    ensures batch != [] ==> LC.Latest(next) == Some((n + |batch|, batch[|batch| - 1].hash))
  {
    forall db, n: nat, b, entry ensures EntryCarries(w, LC.StepOn(w.evm), db, n, b, entry) {
      StepEntryCarries(w, db, n, b, entry);
    }
    EntriesKeepTables(w, LC.StepOn(w.evm), db, n, batch, entries, next);
    EntriesCarry(w, LC.StepOn(w.evm), db, n, batch, entries, next);
  }

  lemma BatchCarriesMore(w: World, v: Views, mid: Views, n: nat, batch: seq<Block>, next: Views)
    requires batch != [] && BatchCarries(w, mid, n + 1, batch[1..], next)
    requires Carries(w, mid, n, batch[0]) && forall k: nat | k <= n :: mid(k) == v(k)
    ensures BatchCarries(w, v, n, batch, next)
  {
    assert next(n) == mid(n) && next(n + 1) == mid(n + 1);
    forall i | 0 <= i < |batch| ensures Carries(w, next, n + i, batch[i]) {
      if i > 0 {
        assert batch[1..][i - 1] == batch[i];
      }
    }
  }

  // ---------------------------------------------------------------------------------------------
  // When a batch is stored
  // ---------------------------------------------------------------------------------------------

  /** The state an entry leaves on a state: a cached diff always applies, an executed block must reproduce
      its state root. */
  function AfterEntry(w: World, v: SR.State, entry: LC.BatchBlock): Option<SR.State> {
    match entry
    case Cached(_, d) => Some(SR.ApplyDiff(v, d))
    case Execute(body) => LC.ReplayOne(w.evm, v, body)
  }

  function AfterEntries(w: World, v: SR.State, entries: seq<LC.BatchBlock>): Option<SR.State>
    decreases |entries|
  {
    if entries == [] then Some(v)
    else
      match AfterEntry(w, v, entries[0])
      case None => None
      case Some(next) => AfterEntries(w, next, entries[1..])
  }

  lemma StepOkIff(w: World, db: LC.Db, n: nat, b: Block, entry: LC.BatchBlock)
    requires TablesUpTo(db, n) && b.number == n + 1 && EntryOf(w, b, entry) && w.body(b.hash).block == b
    ensures LC.Step(w.evm, db, entry).Ok? <==>
              LC.Latest(db).value.1 == b.parent && AfterEntry(w, SR.Viewed(db.tables, n), entry).Some?
  {
  }

  lemma StepView(w: World, db: LC.Db, n: nat, b: Block, entry: LC.BatchBlock, next: LC.Db)
    requires TablesUpTo(db, n) && b.number == n + 1 && EntryOf(w, b, entry) && LC.Step(w.evm, db, entry) == LC.Ok(next)
    requires w.body(b.hash).block == b
    ensures AfterEntry(w, SR.Viewed(db.tables, n), entry) == Some(SR.Viewed(next.tables, n + 1))
  {
    var d := AppendedEntry(w, db, n, b, entry, next);
    LC.StagedWritesAreRead(db.tables, n + 1, d);
  }

  lemma AppendedEntry(w: World, db: LC.Db, n: nat, b: Block, entry: LC.BatchBlock, next: LC.Db) returns (d: PS.Diff)
    requires TablesUpTo(db, n) && b.number == n + 1 && EntryOf(w, b, entry) && LC.Step(w.evm, db, entry) == LC.Ok(next)
    requires w.body(b.hash).block == b
    ensures next.tables == PS.Stored(db.tables, n + 1, d)
    ensures AfterEntry(w, SR.Viewed(db.tables, n), entry) == Some(SR.ApplyDiff(SR.Viewed(db.tables, n), d))
  {
    if entry.Cached? {
      AppendedCached(w.evm, db, b, entry.diff, next);
      d := entry.diff;
    } else {
      AppendedExecuted(w.evm, db, n, w.body(b.hash), next);
      d := w.evm.execute(SR.Viewed(db.tables, n), w.body(b.hash)).value;
    }
  }

  /** What decides whether one entry is stored, and what it leaves. */
  ghost predicate EntryDecided(w: World, f: LC.Stepper<LC.Db>, db: LC.Db, n: nat, b: Block, entry: LC.BatchBlock) {
    TablesUpTo(db, n) && b.number == n + 1 && EntryOf(w, b, entry) && w.body(b.hash).block == b ==>
      var r, after := f(db, entry), AfterEntry(w, ViewsOf(db)(n), entry);
      && (r.Ok? <==> LC.Latest(db).value.1 == b.parent && after.Some?)
      && (r.Ok? ==> TablesUpTo(r.value, n + 1) && LC.Latest(r.value).value.1 == b.hash)
      && (r.Ok? ==> after == Some(ViewsOf(r.value)(n + 1)))
  }

  lemma StepEntryDecided(w: World, db: LC.Db, n: nat, b: Block, entry: LC.BatchBlock)
    ensures EntryDecided(w, LC.StepOn(w.evm), db, n, b, entry)
  {
    if TablesUpTo(db, n) && b.number == n + 1 && EntryOf(w, b, entry) && w.body(b.hash).block == b {
      StepOkIff(w, db, n, b, entry);
      if LC.Step(w.evm, db, entry).Ok? {
        var next := LC.Step(w.evm, db, entry).value;
        StepKeepsTables(w, db, n, b, entry, next);
        StepView(w, db, n, b, entry, next);
      }
    }
  }

  /** Every block names the one before it, read from the front. */
  predicate Follows(parent: Hash, batch: seq<Block>)
    decreases |batch|
  {
    batch == [] || (batch[0].parent == parent && Follows(batch[0].hash, batch[1..]))
  }

  lemma {:induction false} FollowsIsLinksTo(parent: Hash, batch: seq<Block>)
    ensures Follows(parent, batch) <==> LinksTo(parent, batch)
    decreases |batch|
  {
    if batch != [] {
      FollowsIsLinksTo(batch[0].hash, batch[1..]);
      assert forall i | 0 < i < |batch| :: batch[i] == batch[1..][i - 1];
    }
  }

  lemma {:induction false} EntriesDecided(w: World, f: LC.Stepper<LC.Db>, db: LC.Db, n: nat, batch: seq<Block>,
                                          entries: seq<LC.BatchBlock>)
    requires forall db, n: nat, b, entry :: EntryDecided(w, f, db, n, b, entry)
    requires TablesUpTo(db, n) && Numbered(batch, n + 1) && EntriesOf(w, batch, entries)
    requires forall b | b in batch :: w.body(b.hash).block == b
    ensures LC.BatchRun(f, db, entries).Ok? <==>
              Follows(LC.Latest(db).value.1, batch) && AfterEntries(w, ViewsOf(db)(n), entries).Some?
    decreases |batch|
  {
    if batch != [] {
      assert batch[0] in batch && EntryDecided(w, f, db, n, batch[0], entries[0]);
      HeadDecided(w, f, db, n, batch[0], entries);
      var r := f(db, entries[0]);
      if r.Ok? {
        EntriesDecided(w, f, r.value, n + 1, batch[1..], entries[1..]);
      }
    }
  }

  lemma HeadDecided(w: World, f: LC.Stepper<LC.Db>, db: LC.Db, n: nat, b: Block, entries: seq<LC.BatchBlock>)
    requires entries != [] && EntryDecided(w, f, db, n, b, entries[0])
    requires TablesUpTo(db, n) && b.number == n + 1 && EntryOf(w, b, entries[0]) && w.body(b.hash).block == b
    ensures var r, tip, v := f(db, entries[0]), LC.Latest(db).value.1, ViewsOf(db)(n);
            && (r.Err? ==> LC.BatchRun(f, db, entries).Err? && (tip != b.parent || AfterEntries(w, v, entries).None?))
            && (r.Ok? ==> tip == b.parent && TablesUpTo(r.value, n + 1) && LC.Latest(r.value).value.1 == b.hash)
            && (r.Ok? ==> LC.BatchRun(f, db, entries) == LC.BatchRun(f, r.value, entries[1..]))
            && (r.Ok? ==> AfterEntries(w, v, entries) == AfterEntries(w, ViewsOf(r.value)(n + 1), entries[1..]))
  {
  }

  /** The store takes a batch if and only if the parent check accepts it and every block to be executed
      reproduces its state root on the view at the tip with the entries before it applied. */
  lemma BatchStoredIff(w: World, db: LC.Db, n: nat, batch: seq<Block>, entries: seq<LC.BatchBlock>)
    requires TablesUpTo(db, n) && Numbered(batch, n + 1) && EntriesOf(w, batch, entries)
    requires forall b | b in batch :: w.body(b.hash).block == b
    ensures LC.BatchRun(LC.StepOn(w.evm), db, entries).Ok? <==>
              LinksTo(LC.Latest(db).value.1, batch) && AfterEntries(w, ViewsOf(db)(n), entries).Some?
  {
    forall db, n: nat, b, entry ensures EntryDecided(w, LC.StepOn(w.evm), db, n, b, entry) {
      StepEntryDecided(w, db, n, b, entry);
    }
    EntriesDecided(w, LC.StepOn(w.evm), db, n, batch, entries);
    FollowsIsLinksTo(LC.Latest(db).value.1, batch);
  }

  /** Genuine blocks that follow one another execute on the state after the first one's parent. */
  lemma {:induction false} GenuineEntriesExecute(w: World, batch: seq<Block>, entries: seq<LC.BatchBlock>, parent: Hash)
    requires EntriesOf(w, batch, entries) && Follows(parent, batch) && forall b | b in batch :: Genuine(w, b)
    ensures AfterEntries(w, w.post(parent), entries).Some?
    decreases |batch|
  {
    if batch != [] {
      assert batch[0] in batch && Genuine(w, batch[0]);
      assert AfterEntry(w, w.post(parent), entries[0]) == Some(w.post(batch[0].hash));
      GenuineEntriesExecute(w, batch[1..], entries[1..], batch[0].hash);
    }
  }

  // ---------------------------------------------------------------------------------------------
  // Which heights are good
  // ---------------------------------------------------------------------------------------------

  /** The height is stored, below the suspect height and below every outstanding revert. */
  predicate Good(s: State, k: nat) {
    s.window.earliest <= k < s.window.earliest + |s.window.blocks| && Trusted(k, s) && Below(k, s)
  }

  lemma GoodIsCanonical(s: State, k: nat)
    requires Inv(s) && Good(s, k)
    ensures k < |s.chain| && StoredAt(s.window, k) == s.chain[k]
  {
    assert StoredAt(s.window, k) in s.window.blocks;
  }

  /** A height that is good after the step was good before it, on the same block, unless the step
      stored it. */
  predicate GoodBefore(s: State, t: State, k: nat) {
    Good(t, k) ==> Good(s, k) && k < |s.chain| && k < |t.chain| && t.chain[k] == s.chain[k]
  }

  lemma NodeGoodBefore(s: State, from: nat, n: Notification, k: nat)
    requires Inv(s) && MayIssue(s, from, n)
    ensures GoodBefore(s, Issue(s, from, n), k)
  {
    var t := Issue(s, from, n);
    if Good(t, k) {
      BelowAfterIssue(k, s.queue, n);
      GoodIsCanonical(s, k);
      assert t.chain == s.chain[..from] + BlocksOf(AddedOf(n));
    }
  }

  lemma RevertGoodBefore(s: State, o: RevertOutcome, k: nat)
    requires Inv(s) && Enabled(s, RunRevert(o))
    ensures GoodBefore(s, Apply(s, RunRevert(o)), k)
  {
    var t := Apply(s, RunRevert(o));
    if Good(t, k) {
      if !o.RevertFails? {
        UnwoundShape(s.window, s.worker.to);
      }
      assert Good(s, k);
      GoodIsCanonical(s, k);
    }
  }

  lemma MarkGoodBefore(s: State, k: nat)
    requires Inv(s) && Enabled(s, MarkComplete)
    ensures GoodBefore(s, Apply(s, MarkComplete), k)
  {
    var t := Apply(s, MarkComplete);
    if Good(t, k) {
      assert k <= Latest(s.window) < s.worker.to.number;
      GoodIsCanonical(s, k);
    }
  }

  lemma DeliverGoodBefore(s: State, k: nat)
    requires Inv(s) && Enabled(s, Deliver)
    ensures GoodBefore(s, Apply(s, Deliver), k)
  {
    DeliverKeepsFloors(s, k);
    if Good(s, k) {
      GoodIsCanonical(s, k);
    }
  }

  /** The remaining steps leave the window, the chain and the suspect height alone, and the outstanding
      reverts as a whole. */
  lemma InnerKeepsWindow(s: State, a: Action)
    requires Enabled(s, a) && Inner(a)
    ensures SameStore(s, Apply(s, a))
  {
    match a
    case ReadLatest(_) => TurnKeepsWindow(s, a);
    case TakeCached => TurnKeepsWindow(s, a);
    case Fetch(_) => TurnKeepsWindow(s, a);
    case Take => TurnKeepsWindow(s, a);
    case _ =>
  }

  predicate SameStore(s: State, t: State) {
    t.window == s.window && t.chain == s.chain && t.suspect == s.suspect && t.queue == s.queue
  }

  lemma TurnKeepsWindow(s: State, a: Action)
    requires Enabled(s, a) && (a.ReadLatest? || a.TakeCached? || a.Fetch? || a.Take?)
    ensures SameStore(s, Apply(s, a))
  {
  }

  lemma InnerKeepsFloors(s: State, a: Action, k: nat)
    requires Enabled(s, a) && Inner(a)
    ensures BelowState(k, Apply(s, a).pending) && BelowWorker(k, Apply(s, a).worker) ==>
              BelowState(k, s.pending) && BelowWorker(k, s.worker)
  {
  }

  lemma InnerGoodBefore(s: State, a: Action, k: nat)
    requires Inv(s) && Enabled(s, a) && Inner(a)
    ensures GoodBefore(s, Apply(s, a), k)
  {
    InnerKeepsWindow(s, a);
    InnerKeepsFloors(s, a, k);
    if Good(s, k) {
      GoodIsCanonical(s, k);
    }
  }

  // ---------------------------------------------------------------------------------------------
  // Protocol and tables together
  // ---------------------------------------------------------------------------------------------

  /** How the tables move with a step. */
  ghost predicate Moves(w: World, s: State, a: Action, db: LC.Db, next: LC.Db)
    requires Enabled(s, a)
  {
    match a
    case StoreBatch(o) =>
      if o.BatchStored? || o.BatchStoredUnreported?
      then exists entries ::
        EntriesOf(w, s.worker.batch, entries)
        && LC.BatchRun(LC.StepOn(w.evm), db, entries) == LC.Ok(next)
      else
        && next == db
        && (o.BatchRefused? ==>
              exists entries ::
                EntriesOf(w, s.worker.batch, entries)
                && LC.BatchRun(LC.StepOn(w.evm), db, entries).Err?)
    case RunRevert(o) =>
      if !o.RevertFails? && UnwindRemoves(s.window, s.worker.to)
      then next == LC.Db(PS.Unwound(db.tables, s.worker.to.number),
                         Some((PS.Below(s.worker.to.number), s.worker.to.parent)))
      else next == db
    case Prune(e) => next == db.(tables := PS.Pruned(db.tables, e))
    case _ => next == db
  }

  /** The tables record the window. */
  predicate Records(s: State, db: LC.Db) {
    && |s.window.blocks| > 0 && TablesUpTo(db, Latest(s.window)) && db.tables.earliest.value.0 == s.window.earliest
    && LC.Latest(db).value.1 == s.window.tipHash
  }

  /** At every good height the view is the state after the canonical block there. */
  ghost predicate ViewsHold(w: World, s: State, v: Views) {
    forall k: nat | Good(s, k) :: k < |s.chain| && v(k) == w.post(s.chain[k].hash)
  }

  ghost predicate Attached(w: World, s: State, db: LC.Db) {
    GenuineChain(w, s.chain) && Records(s, db) && ViewsHold(w, s, ViewsOf(db))
  }

  lemma UnchangedViewsHold(w: World, s: State, t: State, v: Views, next: Views)
    requires ViewsHold(w, s, v) && forall k: nat :: GoodBefore(s, t, k)
    requires forall k: nat | Good(t, k) :: next(k) == v(k)
    ensures ViewsHold(w, t, next)
  {
    forall k: nat | Good(t, k) ensures k < |t.chain| && next(k) == w.post(t.chain[k].hash) {
      assert GoodBefore(s, t, k) && Good(s, k);
    }
  }

  /** At a good height in the stored batch, the block, its parent and the height below are canonical. */
  lemma BatchHeightIsCanonical(s: State, t: State, k: nat)
    requires Inv(s) && s.worker.Collecting? && |s.worker.batch| > 0 && k > Latest(s.window) && Good(t, k)
    requires t.window == Appended(s.window, s.worker.batch) && t.suspect == s.suspect && Below(k, s)
    ensures var i := k - Latest(s.window) - 1;
            0 <= i < |s.worker.batch| && 0 < k < |s.chain| && s.worker.batch[i] == s.chain[k]
              && s.chain[k].parent == s.chain[k - 1].hash
  {
    var batch, i := s.worker.batch, k - Latest(s.window) - 1;
    AppendedShape(s.window, batch);
    assert batch[i] in batch;
  }

  lemma StoredViewsHold(w: World, s: State, t: State, v: Views, next: Views)
    requires Inv(s) && GenuineChain(w, s.chain) && ViewsHold(w, s, v) && s.worker.Collecting? && |s.worker.batch| > 0
    requires t == s.(window := Appended(s.window, s.worker.batch), worker := t.worker, pending := t.pending)
    requires forall k: nat :: Below(k, t) ==> Below(k, s)
    requires BatchCarries(w, v, Latest(s.window), s.worker.batch, next)
    ensures ViewsHold(w, t, next)
  {
    forall k: nat | Good(t, k) ensures k < |t.chain| && next(k) == w.post(t.chain[k].hash) {
      StoredViewHolds(w, s, t, v, next, k);
    }
  }

  lemma {:induction false} StoredViewHolds(w: World, s: State, t: State, v: Views, next: Views, k: nat)
    requires Inv(s) && GenuineChain(w, s.chain) && ViewsHold(w, s, v) && s.worker.Collecting? && |s.worker.batch| > 0
    requires t == s.(window := Appended(s.window, s.worker.batch), worker := t.worker, pending := t.pending)
    requires forall k: nat :: Below(k, t) ==> Below(k, s)
    requires BatchCarries(w, v, Latest(s.window), s.worker.batch, next) && Good(t, k)
    ensures k < |t.chain| && next(k) == w.post(t.chain[k].hash)
    decreases k
  {
    if k <= Latest(s.window) {
      assert Good(s, k);
    } else {
      BatchHeightIsCanonical(s, t, k);
      LowerIsGood(t, k);
      StoredViewHolds(w, s, t, v, next, k - 1);
      var i := k - Latest(s.window) - 1;
      assert Carries(w, next, Latest(s.window) + i, s.worker.batch[i]);
      assert Genuine(w, s.chain[k]);
    }
  }

  lemma LowerIsGood(t: State, k: nat)
    requires Good(t, k) && k > t.window.earliest
    ensures Good(t, k - 1)
  {
    LowerIsBelow(t, k - 1, k);
  }

  lemma StoredKeepsAttached(w: World, s: State, t: State, db: LC.Db, entries: seq<LC.BatchBlock>, next: LC.Db)
    requires Inv(s) && Attached(w, s, db) && s.worker.Collecting? && |s.worker.batch| > 0
    requires t == s.(window := Appended(s.window, s.worker.batch), worker := t.worker, pending := t.pending)
    requires forall k: nat :: Below(k, t) ==> Below(k, s)
    requires EntriesOf(w, s.worker.batch, entries) && LC.BatchRun(LC.StepOn(w.evm), db, entries) == LC.Ok(next)
    requires forall b | b in s.worker.batch :: w.body(b.hash).block == b
    ensures Attached(w, t, next)
  {
    StoredBatchCarries(w, db, Latest(s.window), s.worker.batch, entries, next);
    AppendedShape(s.window, s.worker.batch);
    StoredViewsHold(w, s, t, ViewsOf(db), ViewsOf(next));
  }

  lemma BatchKeepsAttached(w: World, s: State, o: BatchOutcome, db: LC.Db, next: LC.Db)
    requires Inv(s) && Attached(w, s, db) && Enabled(s, StoreBatch(o)) && Moves(w, s, StoreBatch(o), db, next)
    requires forall b | b in s.worker.batch :: w.body(b.hash).block == b
    ensures Attached(w, Apply(s, StoreBatch(o)), next)
  {
    var t := Apply(s, StoreBatch(o));
    BatchKeepsFloors(s, o);
    if o.BatchStored? || o.BatchStoredUnreported? {
      var entries :| EntriesOf(w, s.worker.batch, entries)
                     && LC.BatchRun(LC.StepOn(w.evm), db, entries) == LC.Ok(next);
      StoredKeepsAttached(w, s, t, db, entries, next);
    } else {
      forall k: nat ensures GoodBefore(s, t, k) {
        if Good(s, k) { GoodIsCanonical(s, k); }
      }
      SameWindowKeepsAttached(w, s, t, db);
    }
  }

  lemma BatchKeepsFloors(s: State, o: BatchOutcome)
    requires Enabled(s, StoreBatch(o))
    ensures forall k: nat :: Below(k, Apply(s, StoreBatch(o))) ==> Below(k, s)
  {
  }

  lemma RevertKeepsAttached(w: World, s: State, o: RevertOutcome, db: LC.Db, next: LC.Db)
    requires Inv(s) && Attached(w, s, db) && Enabled(s, RunRevert(o)) && Moves(w, s, RunRevert(o), db, next)
    ensures Attached(w, Apply(s, RunRevert(o)), next)
  {
    var t := Apply(s, RunRevert(o));
    forall k: nat ensures GoodBefore(s, t, k) {
      RevertGoodBefore(s, o, k);
    }
    if !o.RevertFails? && UnwindRemoves(s.window, s.worker.to) {
      UnwoundShape(s.window, s.worker.to);
      UnwoundTables(s, db, s.worker.to, next);
    }
    UnchangedViewsHold(w, s, t, ViewsOf(db), ViewsOf(next));
  }

  lemma UnwoundTables(s: State, db: LC.Db, to: Block, next: LC.Db)
    requires Contiguous(s.window) && UnwindRemoves(s.window, to) && Records(s, db)
    requires next == LC.Db(PS.Unwound(db.tables, to.number), Some((PS.Below(to.number), to.parent)))
    ensures TablesUpTo(next, to.number - 1) && next.tables.earliest == db.tables.earliest
    ensures LC.Latest(next) == Some((to.number - 1, to.parent))
    ensures forall k: nat | k < to.number :: ViewsOf(next)(k) == ViewsOf(db)(k)
  {
    forall k: nat | k < to.number ensures ViewsOf(next)(k) == ViewsOf(db)(k) {
      SR.ViewOfCut(db.tables, PS.Below(to.number), k);
    }
  }

  lemma PruneGoodBefore(s: State, e: nat, k: nat)
    requires Inv(s) && Enabled(s, Prune(e))
    ensures GoodBefore(s, Apply(s, Prune(e)), k)
  {
    if Good(Apply(s, Prune(e)), k) {
      GoodIsCanonical(s, k);
    }
  }

  lemma PruneKeepsAttached(w: World, s: State, e: nat, db: LC.Db)
    requires Inv(s) && Attached(w, s, db) && Enabled(s, Prune(e))
    ensures Attached(w, Apply(s, Prune(e)), db.(tables := PS.Pruned(db.tables, e)))
  {
    var t, next := Apply(s, Prune(e)), db.(tables := PS.Pruned(db.tables, e));
    forall k: nat ensures GoodBefore(s, t, k) {
      PruneGoodBefore(s, e, k);
    }
    forall k: nat | Good(t, k) ensures ViewsOf(next)(k) == ViewsOf(db)(k) {
      SR.ViewFromPruned(db.tables, e, k);
    }
    PrunedTables(db, e, Latest(s.window));
    UnchangedViewsHold(w, s, t, ViewsOf(db), ViewsOf(next));
  }

  lemma PrunedTables(db: LC.Db, e: nat, n: nat)
    requires TablesUpTo(db, n) && db.tables.earliest.value.0 < e <= n
    ensures TablesUpTo(db.(tables := PS.Pruned(db.tables, e)), n) && PS.Pruned(db.tables, e).earliest.value.0 == e
    ensures LC.Latest(db.(tables := PS.Pruned(db.tables, e))) == LC.Latest(db)
  {
  }

  /** The node only makes genuine blocks canonical, and a batch holds blocks with their own bodies. */
  predicate Honest(w: World, s: State, a: Action) {
    match a
    case Commit(added) => forall f | f in added :: Genuine(w, f.block)
    case Reorg(_, added) => forall f | f in added :: Genuine(w, f.block)
    case StoreBatch(_) => s.worker.Collecting? ==> forall b | b in s.worker.batch :: w.body(b.hash).block == b
    case _ => true
  }

  lemma GenuineAfterIssue(w: World, s: State, from: nat, n: Notification)
    requires GenuineChain(w, s.chain) && from <= |s.chain| && forall f | f in AddedOf(n) :: Genuine(w, f.block)
    ensures GenuineChain(w, Issue(s, from, n).chain)
  {
    var chain := Issue(s, from, n).chain;
    forall i | 0 < i < |chain| ensures Genuine(w, chain[i]) {
      if i >= from {
        assert chain[i] == AddedOf(n)[i - from].block && AddedOf(n)[i - from] in AddedOf(n);
      }
    }
  }

  lemma IssueKeepsAttached(w: World, s: State, from: nat, n: Notification, db: LC.Db)
    requires Inv(s) && Attached(w, s, db) && MayIssue(s, from, n) && forall f | f in AddedOf(n) :: Genuine(w, f.block)
    ensures Attached(w, Issue(s, from, n), db)
  {
    var t := Issue(s, from, n);
    forall k: nat ensures GoodBefore(s, t, k) {
      NodeGoodBefore(s, from, n, k);
    }
    GenuineAfterIssue(w, s, from, n);
    UnchangedViewsHold(w, s, t, ViewsOf(db), ViewsOf(db));
  }

  lemma NodeKeepsAttached(w: World, s: State, a: Action, db: LC.Db)
    requires Inv(s) && Attached(w, s, db) && Enabled(s, a) && Honest(w, s, a)
    requires (a.Commit? || a.Reorg? || a.RevertChain?)
    ensures Attached(w, Apply(s, a), db)
  {
    var from, n := AsIssue(w, s, a);
    IssueKeepsAttached(w, s, from, n, db);
  }

  lemma AsIssue(w: World, s: State, a: Action) returns (from: nat, n: Notification)
    requires Enabled(s, a) && Honest(w, s, a) && (a.Commit? || a.Reorg? || a.RevertChain?)
    ensures MayIssue(s, from, n) && Apply(s, a) == Issue(s, from, n)
    ensures forall f | f in AddedOf(n) :: Genuine(w, f.block)
  {
    match a
    case Commit(added) => from, n := |s.chain|, ChainCommitted(added);
    case Reorg(f, added) => from, n := f, ChainReorged(s.chain[f], added);
    case RevertChain(f) => from, n := f, ChainReverted(s.chain[f]);
  }

  /** A step that keeps the chain, the window and the good heights keeps the tables attached. */
  lemma SameWindowKeepsAttached(w: World, s: State, t: State, db: LC.Db)
    requires Attached(w, s, db) && t.chain == s.chain && t.window == s.window && forall k: nat :: GoodBefore(s, t, k)
    ensures Attached(w, t, db)
  {
    UnchangedViewsHold(w, s, t, ViewsOf(db), ViewsOf(db));
  }

  lemma MarkKeepsAttached(w: World, s: State, db: LC.Db)
    requires Inv(s) && Attached(w, s, db) && Enabled(s, MarkComplete)
    ensures Attached(w, Apply(s, MarkComplete), db)
  {
    forall k: nat ensures GoodBefore(s, Apply(s, MarkComplete), k) {
      MarkGoodBefore(s, k);
    }
    SameWindowKeepsAttached(w, s, Apply(s, MarkComplete), db);
  }

  lemma DeliverKeepsAttached(w: World, s: State, db: LC.Db)
    requires Inv(s) && Attached(w, s, db) && Enabled(s, Deliver)
    ensures Attached(w, Apply(s, Deliver), db)
  {
    forall k: nat ensures GoodBefore(s, Apply(s, Deliver), k) {
      DeliverGoodBefore(s, k);
    }
    SameWindowKeepsAttached(w, s, Apply(s, Deliver), db);
  }

  /** The steps that only move the task, the worker, the cache or the pending state. */
  predicate Inner(a: Action) {
    && !a.StoreBatch? && !a.RunRevert? && !a.Prune? && !a.MarkComplete? && !a.Deliver?
    && !a.Commit? && !a.Reorg? && !a.RevertChain?
  }

  lemma InnerKeepsAttached(w: World, s: State, a: Action, db: LC.Db)
    requires Inv(s) && Attached(w, s, db) && Enabled(s, a) && Inner(a)
    ensures Attached(w, Apply(s, a), db)
  {
    var t := Apply(s, a);
    InnerKeepsWindow(s, a);
    forall k: nat ensures GoodBefore(s, t, k) {
      InnerGoodBefore(s, a, k);
    }
    SameWindowKeepsAttached(w, s, t, db);
  }

  lemma StepKeepsAttached(w: World, s: State, a: Action, db: LC.Db, next: LC.Db)
    requires Inv(s) && Attached(w, s, db) && Enabled(s, a) && Honest(w, s, a) && Moves(w, s, a, db, next)
    ensures Attached(w, Apply(s, a), next)
  {
    if a.StoreBatch? {
      BatchKeepsAttached(w, s, a.batch, db, next);
    } else {
      StepBesidesBatch(w, s, a, db, next);
    }
  }

  lemma StepBesidesBatch(w: World, s: State, a: Action, db: LC.Db, next: LC.Db)
    requires Inv(s) && Attached(w, s, db) && Enabled(s, a) && Honest(w, s, a) && Moves(w, s, a, db, next)
    requires !a.StoreBatch?
    ensures Attached(w, Apply(s, a), next)
  {
    if a.RunRevert? {
      RevertKeepsAttached(w, s, a.revert, db, next);
    } else if a.Prune? {
      PruneKeepsAttached(w, s, a.earliest, db);
    } else {
      MovesNothing(w, s, a, db, next);
      OtherKeepsAttached(w, s, a, db);
    }
  }

  lemma MovesNothing(w: World, s: State, a: Action, db: LC.Db, next: LC.Db)
    requires Enabled(s, a) && !a.StoreBatch? && !a.RunRevert? && !a.Prune? && Moves(w, s, a, db, next)
    ensures next == db
  {
  }

  lemma OtherKeepsAttached(w: World, s: State, a: Action, db: LC.Db)
    requires Inv(s) && Attached(w, s, db) && Enabled(s, a) && Honest(w, s, a)
    requires !a.StoreBatch? && !a.RunRevert? && !a.Prune?
    ensures Attached(w, Apply(s, a), db)
  {
    if a.Commit? || a.Reorg? || a.RevertChain? {
      NodeKeepsAttached(w, s, a, db);
    } else if a.MarkComplete? {
      MarkKeepsAttached(w, s, db);
    } else if a.Deliver? {
      DeliverKeepsAttached(w, s, db);
    } else {
      InnerKeepsAttached(w, s, a, db);
    }
  }

  // ---------------------------------------------------------------------------------------------
  // Whole runs
  // ---------------------------------------------------------------------------------------------

  /** Actions with the tables each leaves. */
  type StoreRun = seq<(Action, LC.Db)>

  ghost predicate Runs(w: World, s: State, db: LC.Db, run: StoreRun)
    decreases |run|
  {
    run == [] ||
    (Enabled(s, run[0].0) && Honest(w, s, run[0].0) && Moves(w, s, run[0].0, db, run[0].1)
     && Runs(w, Apply(s, run[0].0), run[0].1, run[1..]))
  }

  function EndState(w: World, s: State, db: LC.Db, run: StoreRun): State
    requires Runs(w, s, db, run)
    decreases |run|
  {
    if run == [] then s else EndState(w, Apply(s, run[0].0), run[0].1, run[1..])
  }

  function EndTables(db: LC.Db, run: StoreRun): LC.Db {
    if run == [] then db else run[|run| - 1].1
  }

  ghost predicate Preserves(w: World, p: (State, LC.Db) -> bool, s: State, a: Action, db: LC.Db, next: LC.Db) {
    p(s, db) && Enabled(s, a) && Honest(w, s, a) && Moves(w, s, a, db, next) ==> p(Apply(s, a), next)
  }

  /** What every step preserves, every run does. */
  lemma {:induction false} RunPreserves(w: World, p: (State, LC.Db) -> bool, s: State, db: LC.Db, run: StoreRun)
    requires forall s, a, db, next :: Preserves(w, p, s, a, db, next)
    requires p(s, db) && Runs(w, s, db, run)
    ensures p(EndState(w, s, db, run), EndTables(db, run))
    decreases |run|
  {
    if run != [] {
      assert Preserves(w, p, s, run[0].0, db, run[0].1);
      RunPreserves(w, p, Apply(s, run[0].0), run[0].1, run[1..]);
    }
  }

  ghost function Coupled(w: World): (State, LC.Db) -> bool {
    (s: State, db: LC.Db) => Inv(s) && Attached(w, s, db)
  }

  lemma StepKeepsCoupled(w: World, s: State, a: Action, db: LC.Db, next: LC.Db)
    ensures Preserves(w, Coupled(w), s, a, db, next)
  {
    if Coupled(w)(s, db) && Enabled(s, a) && Honest(w, s, a) && Moves(w, s, a, db, next) {
      StepKeepsAttached(w, s, a, db, next);
      StepKeepsInv(s, a);
    }
  }

  lemma RunKeepsCoupled(w: World, s: State, db: LC.Db, run: StoreRun)
    requires Initial(s) && Attached(w, s, db) && Runs(w, s, db, run)
    ensures Coupled(w)(EndState(w, s, db, run), EndTables(db, run))
  {
    InitialInv(s);
    forall s, a, db, next ensures Preserves(w, Coupled(w), s, a, db, next) {
      StepKeepsCoupled(w, s, a, db, next);
    }
    RunPreserves(w, Coupled(w), s, db, run);
  }

  /** Executing the canonical chain from its first block on. */
  function Bodies(w: World, chain: seq<Block>): seq<LC.Body> {
    seq(|chain|, i requires 0 <= i < |chain| => w.body(chain[i].hash))
  }

  lemma {:induction false} PostIsReplay(w: World, chain: seq<Block>, from: nat, k: nat)
    requires ValidChain(chain) && GenuineChain(w, chain) && from <= k < |chain|
    ensures LC.Replay(w.evm, w.post(chain[from].hash), Bodies(w, chain[from + 1..k + 1])) == Some(w.post(chain[k].hash))
    decreases k - from
  {
    var bodies := Bodies(w, chain[from + 1..k + 1]);
    if from < k {
      assert Genuine(w, chain[from + 1]) && chain[from + 1].parent == chain[from].hash;
      assert bodies[0] == w.body(chain[from + 1].hash) && bodies[1..] == Bodies(w, chain[from + 2..k + 1]);
      PostIsReplay(w, chain, from + 1, k);
    }
  }

  /** The state after the canonical block at height `k`, by executing the chain from its first block. */
  function Executed(w: World, chain: seq<Block>, k: nat): Option<SR.State>
    requires k < |chain|
  {
    LC.Replay(w.evm, w.post(chain[0].hash), Bodies(w, chain[1..k + 1]))
  }

  lemma ExecutedIsPost(w: World, chain: seq<Block>, k: nat)
    requires ValidChain(chain) && GenuineChain(w, chain) && k < |chain|
    ensures Executed(w, chain, k) == Some(w.post(chain[k].hash))
  {
    PostIsReplay(w, chain, 0, k);
  }

  lemma CoupledIsGenuine(w: World, t: State, db: LC.Db, k: nat)
    requires Coupled(w)(t, db) && Good(t, k)
    ensures ValidChain(t.chain) && GenuineChain(w, t.chain) && k < |t.chain|
    ensures ViewsOf(db)(k) == w.post(t.chain[k].hash)
  {
  }

  /** Whatever mix of cached and executed blocks was stored, through any interleaving of commits, reorgs,
      reverts and prunes: at every stored height below the suspect height and the outstanding reverts, the
      view of the tables is the state that executing the canonical chain gives. */
  lemma ViewsAreExecutedChain(w: World, s: State, db: LC.Db, run: StoreRun, k: nat)
    requires Initial(s) && Attached(w, s, db) && Runs(w, s, db, run)
    requires Good(EndState(w, s, db, run), k)
    ensures var chain := EndState(w, s, db, run).chain;
            k < |chain| && Executed(w, chain, k) == Some(ViewsOf(EndTables(db, run))(k))
  {
    RunKeepsCoupled(w, s, db, run);
    CoupledIsGenuine(w, EndState(w, s, db, run), EndTables(db, run), k);
    ExecutedIsPost(w, EndState(w, s, db, run).chain, k);
  }

  // ---------------------------------------------------------------------------------------------
  // Refusals
  // ---------------------------------------------------------------------------------------------

  /** Some run of a started node leads to this state and these tables. */
  ghost predicate ReachableWith(w: World, t: State, db: LC.Db) {
    exists s, before, run ::
      Initial(s) && Attached(w, s, before) && Runs(w, s, before, run) && EndState(w, s, before, run) == t
      && EndTables(before, run) == db
  }

  lemma ReachableIsCoupled(w: World, t: State, db: LC.Db)
    requires ReachableWith(w, t, db)
    ensures Inv(t) && Attached(w, t, db)
  {
    var s, before, run :| Initial(s) && Attached(w, s, before) && Runs(w, s, before, run)
                          && EndState(w, s, before, run) == t && EndTables(before, run) == db;
    RunKeepsCoupled(w, s, before, run);
  }

  /** A batch to be stored: complete, with entries for its blocks. */
  predicate Offered(w: World, t: State, entries: seq<LC.BatchBlock>) {
    && t.worker.Collecting? && |t.worker.batch| > 0 && EntriesOf(w, t.worker.batch, entries)
    && forall b | b in t.worker.batch :: w.body(b.hash).block == b
  }

  /** The store's answer to it. */
  predicate Taken(w: World, db: LC.Db, entries: seq<LC.BatchBlock>) {
    LC.BatchRun(LC.StepOn(w.evm), db, entries).Ok?
  }

  lemma OfferTakenIff(w: World, t: State, db: LC.Db, entries: seq<LC.BatchBlock>)
    requires Inv(t) && Records(t, db) && Offered(w, t, entries)
    ensures Taken(w, db, entries) <==>
              Accepts(t.window, t.worker.batch) && AfterEntries(w, ViewsOf(db)(Latest(t.window)), entries).Some?
  {
    BatchStoredIff(w, db, Latest(t.window), t.worker.batch, entries);
  }

  /** With a trusted tip and no revert reaching into the batch, the store takes it. */
  lemma GoodOfferIsTaken(w: World, t: State, db: LC.Db, entries: seq<LC.BatchBlock>)
    requires Inv(t) && Attached(w, t, db) && Offered(w, t, entries)
    requires Trusted(Latest(t.window), t) && Below(Latest(t.window) + |t.worker.batch|, t)
    ensures Taken(w, db, entries)
  {
    var batch, n := t.worker.batch, Latest(t.window);
    OfferTakenIff(w, t, db, entries);
    BatchIsAccepted(t);
    LowerIsBelow(t, n, n + |batch|);
    WindowIsCanonical(t);
    TipViewIsRight(w, t, db);
    forall b | b in batch ensures Genuine(w, b) {
      BatchBlockIsGenuine(w, t, b);
    }
    FollowsIsLinksTo(t.window.tipHash, batch);
    GenuineEntriesExecute(w, batch, entries, t.window.tipHash);
  }

  lemma TipViewIsRight(w: World, t: State, db: LC.Db)
    requires Inv(t) && Attached(w, t, db) && Trusted(Latest(t.window), t) && Below(Latest(t.window), t)
    ensures ViewsOf(db)(Latest(t.window)) == w.post(t.window.tipHash)
  {
    assert Good(t, Latest(t.window));
    WindowIsCanonical(t);
  }

  lemma BatchBlockIsGenuine(w: World, t: State, b: Block)
    requires Inv(t) && GenuineChain(w, t.chain) && t.worker.Collecting? && b in t.worker.batch
    requires Below(Latest(t.window) + |t.worker.batch|, t)
    ensures Genuine(w, b)
  {
    var batch := t.worker.batch;
    var i :| 0 <= i < |batch| && batch[i] == b;
    LowerIsBelow(t, b.number, Latest(t.window) + |batch|);
    assert OnChain(t.chain, b) && t.chain[b.number] == b;
  }

  /** On a tip below the suspect height the store refuses a batch, by its parent check or because a block
      does not execute to its state root, only while a revert that reaches into the batch or the window is
      still pending or undelivered, whatever mix of cached and executed blocks it holds. */
  lemma RefusalMeansRevertComing(w: World, t: State, db: LC.Db, entries: seq<LC.BatchBlock>)
    requires ReachableWith(w, t, db) && Offered(w, t, entries) && !Taken(w, db, entries)
    requires |t.window.blocks| > 0 && Trusted(Latest(t.window), t)
    ensures RevertComing(t, Latest(t.window) + |t.worker.batch|)
  {
    ReachableIsCoupled(w, t, db);
    if Below(Latest(t.window) + |t.worker.batch|, t) {
      GoodOfferIsTaken(w, t, db, entries);
      assert false;
    }
  }

  /** A goal is dropped only by a revert that reports an error, or by a batch refused on a suspect tip. */
  lemma GoalDroppedOnlyByError(w: World, t: State, a: Action, db: LC.Db, next: LC.Db)
    requires ReachableWith(w, t, db) && Enabled(t, a) && Honest(w, t, a) && Moves(w, t, a, db, next)
    requires !t.gaveUp && Apply(t, a).gaveUp
    ensures Contiguous(t.window)
    ensures (a.RunRevert? && !a.revert.RevertLands?) || (a == StoreBatch(BatchRefused) && !Trusted(Latest(t.window), t))
  {
    ReachableIsCoupled(w, t, db);
    GoalDroppedByError(t, a);
    if a == StoreBatch(BatchRefused) && Trusted(Latest(t.window), t) {
      var entries :| EntriesOf(w, t.worker.batch, entries) && LC.BatchRun(LC.StepOn(w.evm), db, entries).Err?;
      RefusalMeansRevertComing(w, t, db, entries);
      assert false;
    }
  }

  /** With nothing outstanding, whatever failed before and however the node started: the store takes a
      collected batch if and only if the recorded tip is canonical and the blocks to be executed reproduce
      their state roots on the view at the tip. */
  lemma QuietBatchTakenIff(w: World, t: State, db: LC.Db, entries: seq<LC.BatchBlock>)
    requires ReachableWith(w, t, db) && Offered(w, t, entries) && NothingOutstanding(t)
    ensures Contiguous(t.window)
    ensures Taken(w, db, entries) <==>
              AnchorAgrees(t.window, t.chain) && AfterEntries(w, ViewsOf(db)(Latest(t.window)), entries).Some?
  {
    ReachableIsCoupled(w, t, db);
    OfferTakenIff(w, t, db, entries);
    QuietAcceptedIff(t);
  }

  /** In particular, while the view at the tip is the state after the canonical block there, the tip
      decides alone. */
  lemma RightViewTakenIff(w: World, t: State, db: LC.Db, entries: seq<LC.BatchBlock>)
    requires ReachableWith(w, t, db) && Offered(w, t, entries) && NothingOutstanding(t)
    requires |t.window.blocks| > 0 && Latest(t.window) < |t.chain|
    requires ViewsOf(db)(Latest(t.window)) == w.post(t.chain[Latest(t.window)].hash)
    ensures Taken(w, db, entries) <==> AnchorAgrees(t.window, t.chain)
  {
    QuietBatchTakenIff(w, t, db, entries);
    ReachableIsCoupled(w, t, db);
    if AnchorAgrees(t.window, t.chain) {
      QuietAcceptedIff(t);
      NothingOutstandingIsBelow(t, Latest(t.window) + |t.worker.batch|);
      forall b | b in t.worker.batch ensures Genuine(w, b) {
        BatchBlockIsGenuine(w, t, b);
      }
      FollowsIsLinksTo(t.window.tipHash, t.worker.batch);
      GenuineEntriesExecute(w, t.worker.batch, entries, t.window.tipHash);
    }
  }
}
