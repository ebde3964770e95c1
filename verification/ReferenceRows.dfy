/** What the index holds after any sequence of durable transactions: exactly the rows of the blocks
    from the first Jade block to the cursor. */
module ReferenceRows {
  import opened Blocks
  import opened ReferenceIndexes

  predicate Numbered(first: nat, blocks: seq<IndexBlock>) {
    forall i | 0 <= i < |blocks| :: blocks[i].number == first + i
  }

  /** The block with number `n`. */
  function BlockOf(first: nat, blocks: seq<IndexBlock>, n: nat): IndexBlock
    requires first <= n < first + |blocks|
  {
    blocks[n - first]
  }

  /** The block of the list with the number of the row carries that row. */
  predicate Lists(first: nat, blocks: seq<IndexBlock>, k: BlockKey) {
    first <= k.number < first + |blocks| && Carries(BlockOf(first, blocks, k.number), k)
  }

  predicate ListsReference(first: nat, blocks: seq<IndexBlock>, k: ReferenceKey) {
    first <= k.number < first + |blocks| && HasReference(BlockOf(first, blocks, k.number), k)
  }

  ghost predicate ReferencesExact(rows: map<ReferenceKey, nat>, first: nat, chain: seq<IndexBlock>) {
    && (forall k | k in rows :: ListsReference(first, chain, k) && rows[k] == BlockOf(first, chain, k.number).timestamp)
    && (forall k | ListsReference(first, chain, k) :: k in rows)
  }

  ghost predicate ByBlockExact(rows: map<BlockKey, nat>, first: nat, chain: seq<IndexBlock>) {
    && (forall k | k in rows ::
        Lists(first, chain, k)
        && Some(rows[k]) == BlockOf(first, chain, k.number).transactions[k.index].reference)
    && (forall k | Lists(first, chain, k) :: k in rows)
  }

  /** `chain` are the blocks from the first Jade block to the cursor. */
  predicate ReachesCursor(indexedTo: Option<nat>, first: nat, chain: seq<IndexBlock>) {
    match indexedTo
    case None => chain == []
    case Some(c) => |chain| == SaturatingSub(c + 1, first)
  }

  /** The rows are exactly those of the blocks from the first Jade block to the cursor, and no crumb is
      above the cursor or names another block. */
  ghost predicate Exact(ix: Index, first: nat, chain: seq<IndexBlock>) {
    && Numbered(first, chain) && ReachesCursor(ix.indexedTo, first, chain)
    && ReferencesExact(ix.references, first, chain) && ByBlockExact(ix.byBlock, first, chain)
    && (forall n | n in ix.crumbs ::
        ix.indexedTo.Some? && n <= ix.indexedTo.value
        && (n >= first ==> ix.crumbs[n] == BlockOf(first, chain, n).hash))
  }

  lemma ExactIsMirrored(ix: Index, first: nat, chain: seq<IndexBlock>)
    requires Exact(ix, first, chain)
    ensures Mirrored(ix)
  {
    forall k | k in ix.references ensures ByBlock(k) in ix.byBlock && ix.byBlock[ByBlock(k)] == k.reference {
      assert Lists(first, chain, ByBlock(k));
    }
  }

  // ---------------------------------------------------------------------------------------------
  // Writing
  // ---------------------------------------------------------------------------------------------

  lemma {:induction false} ReferencesOfBlock(rows: map<ReferenceKey, nat>, b: IndexBlock, n: nat, k: ReferenceKey)
    requires n <= |b.transactions|
    ensures k in WithReferences(rows, b, n) <==> k in rows || (HasReference(b, k) && k.index < n)
    ensures k in WithReferences(rows, b, n) ==>
              WithReferences(rows, b, n)[k] == if HasReference(b, k) && k.index < n then b.timestamp else rows[k]
  {
    if n > 0 {
      ReferencesOfBlock(rows, b, n - 1, k);
    }
  }

  lemma {:induction false} ByBlockOfBlock(rows: map<BlockKey, nat>, b: IndexBlock, n: nat, k: BlockKey)
    requires n <= |b.transactions|
    ensures k in WithByBlock(rows, b, n) <==> k in rows || (Carries(b, k) && k.index < n)
    ensures k in WithByBlock(rows, b, n) ==>
              WithByBlock(rows, b, n)[k]
                == if Carries(b, k) && k.index < n then b.transactions[k.index].reference.value else rows[k]
  {
    if n > 0 {
      ByBlockOfBlock(rows, b, n - 1, k);
    }
  }

  lemma {:induction false} ReferencesOfBlocks(ix: Index, s: nat, blocks: seq<IndexBlock>, k: ReferenceKey)
    requires Numbered(s, blocks)
    ensures k in WithBlocks(ix, blocks).references <==> k in ix.references || ListsReference(s, blocks, k)
    ensures k in WithBlocks(ix, blocks).references ==>
              WithBlocks(ix, blocks).references[k]
                == if ListsReference(s, blocks, k) then BlockOf(s, blocks, k.number).timestamp else ix.references[k]
  {
    if blocks != [] {
      var init, b := blocks[..|blocks| - 1], blocks[|blocks| - 1];
      ReferencesOfBlocks(ix, s, init, k);
      ReferencesOfBlock(WithBlocks(ix, init).references, b, |b.transactions|, k);
      assert ListsReference(s, blocks, k) <==> ListsReference(s, init, k) || HasReference(b, k);
    }
  }

  lemma {:induction false} ByBlockOfBlocks(ix: Index, s: nat, blocks: seq<IndexBlock>, k: BlockKey)
    requires Numbered(s, blocks)
    ensures k in WithBlocks(ix, blocks).byBlock <==> k in ix.byBlock || Lists(s, blocks, k)
    ensures k in WithBlocks(ix, blocks).byBlock ==>
              WithBlocks(ix, blocks).byBlock[k]
                == if Lists(s, blocks, k) then BlockOf(s, blocks, k.number).transactions[k.index].reference.value
                  else ix.byBlock[k]
  {
    if blocks != [] {
      var init, b := blocks[..|blocks| - 1], blocks[|blocks| - 1];
      ByBlockOfBlocks(ix, s, init, k);
      ByBlockOfBlock(WithBlocks(ix, init).byBlock, b, |b.transactions|, k);
      assert Lists(s, blocks, k) <==> Lists(s, init, k) || Carries(b, k);
    }
  }

  lemma {:induction false} CrumbsOfBlocks(ix: Index, s: nat, blocks: seq<IndexBlock>, n: nat)
    requires Numbered(s, blocks)
    ensures n in WithBlocks(ix, blocks).crumbs <==> n in ix.crumbs || s <= n < s + |blocks|
    ensures n in WithBlocks(ix, blocks).crumbs ==>
              WithBlocks(ix, blocks).crumbs[n] == if s <= n < s + |blocks| then BlockOf(s, blocks, n).hash
                else ix.crumbs[n]
  {
    if blocks != [] {
      CrumbsOfBlocks(ix, s, blocks[..|blocks| - 1], n);
    }
  }

  // ---------------------------------------------------------------------------------------------
  // Transactions
  // ---------------------------------------------------------------------------------------------

  /** Where the next batch starts: just after the cursor, or at the first Jade block. */
  function Start(ix: Index, first: nat): nat {
    if ix.indexedTo.Some? then SaturatingAdd(ix.indexedTo.value, 1) else first
  }

  datatype Txn =
    | Batch(blocks: seq<IndexBlock>, finalized: Option<nat>)
    | Rollback(ancestor: Option<nat>, batchSize: nat)

  /** Blocks that continue the index; their numbers fit. */
  predicate NextBlocks(ix: Index, first: nat, blocks: seq<IndexBlock>) {
    && blocks != [] && Contiguous(Start(ix, first), blocks) && Start(ix, first) + |blocks| <= U64_MAX + 1
    && (ix.indexedTo.Some? ==> ix.indexedTo.value < U64_MAX)
  }

  /** The transaction commits and leads from one durable index to the next. */
  ghost predicate Commits(first: nat, ix: Index, txn: Txn, next: Index) {
    match txn
    case Batch(blocks, finalized) =>
      NextBlocks(ix, first, blocks) && Committed(ix, first, blocks, finalized, next)
    case Rollback(ancestor, batchSize) =>
      batchSize >= 1 && !RolledBack(ix, ancestor) && CursorFits(ix) && next == RollbackStep(ix, ancestor, batchSize)
  }

  /** How many of the blocks lie below the first Jade block. */
  function Early(first: nat, s: nat, blocks: seq<IndexBlock>): nat {
    if SaturatingSub(first, s) < |blocks| then SaturatingSub(first, s) else |blocks|
  }

  /** The blocks from the first Jade block to the cursor after the transaction. */
  function ChainAfter(ix: Index, first: nat, chain: seq<IndexBlock>, txn: Txn): seq<IndexBlock> {
    match txn
    case Batch(blocks, _) => Extended(ix, first, chain, blocks)
    case Rollback(ancestor, batchSize) =>
      if ix.indexedTo.None? then chain
      else
        var kept := SaturatingSub(BatchStart(ix.indexedTo.value, ancestor, batchSize), first);
        if kept <= |chain| then chain[..kept] else chain
  }

  // ---------------------------------------------------------------------------------------------
  // A batch
  // ---------------------------------------------------------------------------------------------

  function Extended(ix: Index, first: nat, chain: seq<IndexBlock>, blocks: seq<IndexBlock>): seq<IndexBlock> {
    chain + blocks[Early(first, Start(ix, first), blocks)..]
  }

  lemma BatchChain(ix: Index, first: nat, chain: seq<IndexBlock>, blocks: seq<IndexBlock>)
    requires Numbered(first, chain) && ReachesCursor(ix.indexedTo, first, chain) && NextBlocks(ix, first, blocks)
    ensures var s, after := Start(ix, first), Extended(ix, first, chain, blocks);
            && Numbered(s, blocks) && Numbered(first, after)
               && ReachesCursor(Some(blocks[|blocks| - 1].number), first, after)
            && first + |chain| == Max(first, s) && first + |after| == Max(first, s + |blocks|)
            && (forall n | first <= n < first + |after| ::
                BlockOf(first, after, n) == if n < s then BlockOf(first, chain, n) else BlockOf(s, blocks, n))
  {
    var s := Start(ix, first);
    assert forall i | 0 <= i < |blocks| :: SaturatingAdd(s, i) == s + i;
  }

  /** The rows of the longer chain are the old ones and those of the new blocks, if none of these is
      below the first Jade block. */
  lemma BatchReference(ix: Index, first: nat, chain: seq<IndexBlock>, blocks: seq<IndexBlock>, k: ReferenceKey)
    requires Exact(ix, first, chain) && NextBlocks(ix, first, blocks)
    requires ListsReference(Start(ix, first), blocks, k) ==> k.number >= first
    ensures var after, rows := Extended(ix, first, chain, blocks), WithBlocks(ix, blocks).references;
            && (k in rows <==> ListsReference(first, after, k))
            && (k in rows ==> rows[k] == BlockOf(first, after, k.number).timestamp)
  {
    BatchChain(ix, first, chain, blocks);
    ReferencesOfBlocks(ix, Start(ix, first), blocks, k);
  }

  lemma BatchByBlock(ix: Index, first: nat, chain: seq<IndexBlock>, blocks: seq<IndexBlock>, k: BlockKey)
    requires Exact(ix, first, chain) && NextBlocks(ix, first, blocks)
    requires Lists(Start(ix, first), blocks, k) ==> k.number >= first
    ensures var after, rows := Extended(ix, first, chain, blocks), WithBlocks(ix, blocks).byBlock;
            && (k in rows <==> Lists(first, after, k))
            && (k in rows ==> Some(rows[k]) == BlockOf(first, after, k.number).transactions[k.index].reference)
  {
    BatchChain(ix, first, chain, blocks);
    ByBlockOfBlocks(ix, Start(ix, first), blocks, k);
  }

  lemma BatchCrumb(ix: Index, first: nat, chain: seq<IndexBlock>, blocks: seq<IndexBlock>, n: nat)
    requires Exact(ix, first, chain) && NextBlocks(ix, first, blocks) && n in WithBlocks(ix, blocks).crumbs
    ensures n <= blocks[|blocks| - 1].number
    ensures var after := Extended(ix, first, chain, blocks);
            n >= first ==> n < first + |after| && WithBlocks(ix, blocks).crumbs[n] == BlockOf(first, after, n).hash
  {
    BatchChain(ix, first, chain, blocks);
    CrumbsOfBlocks(ix, Start(ix, first), blocks, n);
  }

  lemma BatchKeepsExact(ix: Index, first: nat, chain: seq<IndexBlock>, blocks: seq<IndexBlock>,
                        finalized: Option<nat>, next: Index)
    requires Exact(ix, first, chain) && NextBlocks(ix, first, blocks) && Committed(ix, first, blocks, finalized, next)
    requires forall k: BlockKey | Lists(Start(ix, first), blocks, k) :: k.number >= first
    ensures Exact(next, first, Extended(ix, first, chain, blocks))
  {
    BatchChain(ix, first, chain, blocks);
    forall k: ReferenceKey ensures ListsReference(Start(ix, first), blocks, k) ==> k.number >= first {
      assert ListsReference(Start(ix, first), blocks, k) ==> Lists(Start(ix, first), blocks, ByBlock(k));
    }
    forall k: ReferenceKey {
      BatchReference(ix, first, chain, blocks, k);
    }
    forall k: BlockKey {
      BatchByBlock(ix, first, chain, blocks, k);
    }
    forall n | n in WithBlocks(ix, blocks).crumbs {
      BatchCrumb(ix, first, chain, blocks, n);
    }
  }

  /** The commit keeps the rows exact if and only if no block of the batch below the first Jade block
      carries a reference. */
  lemma BatchExactIff(ix: Index, first: nat, chain: seq<IndexBlock>, blocks: seq<IndexBlock>, finalized: Option<nat>,
                      next: Index)
    requires Exact(ix, first, chain) && NextBlocks(ix, first, blocks) && Committed(ix, first, blocks, finalized, next)
    ensures (exists c :: Exact(next, first, c)) <==>
              forall k: BlockKey | Lists(Start(ix, first), blocks, k) :: k.number >= first
  {
    if forall k: BlockKey | Lists(Start(ix, first), blocks, k) :: k.number >= first {
      BatchKeepsExact(ix, first, chain, blocks, finalized, next);
    } else {
      var k: BlockKey :| Lists(Start(ix, first), blocks, k) && k.number < first;
      BatchChain(ix, first, chain, blocks);
      ByBlockOfBlocks(ix, Start(ix, first), blocks, k);
      assert k in next.byBlock;
    }
  }

  /** A batch that starts at or above the first Jade block always qualifies. */
  lemma LateBatchQualifies(ix: Index, first: nat, blocks: seq<IndexBlock>)
    requires Start(ix, first) >= first
    ensures forall k: BlockKey | Lists(Start(ix, first), blocks, k) :: k.number >= first
  {
  }

  /** After every batch commit the crumb of the cursor block is there, whatever was pruned. */
  lemma CursorCrumbIsThere(ix: Index, first: nat, blocks: seq<IndexBlock>, finalized: Option<nat>, next: Index)
    requires NextBlocks(ix, first, blocks) && Committed(ix, first, blocks, finalized, next)
    ensures next.indexedTo.Some? && next.indexedTo.value in next.crumbs
    ensures next.crumbs[next.indexedTo.value] == blocks[|blocks| - 1].hash
  {
    var last := blocks[|blocks| - 1];
    assert last.number in WithBlocks(ix, blocks).crumbs;
  }

  // ---------------------------------------------------------------------------------------------
  // A rollback
  // ---------------------------------------------------------------------------------------------

  lemma RollbackCursor(ix: Index, ancestor: Option<nat>, batchSize: nat)
    requires batchSize >= 1 && !RolledBack(ix, ancestor) && CursorFits(ix)
    ensures var c, start, next := ix.indexedTo.value, BatchStart(ix.indexedTo.value, ancestor, batchSize),
            RollbackStep(ix, ancestor, batchSize);
            && start <= c && LowerBound(ancestor) <= start
            && (if next.indexedTo.Some? then next.indexedTo.value + 1 == start else start == 0 && ancestor.None?)
  {
  }

  lemma RollbackKeepsExact(ix: Index, first: nat, chain: seq<IndexBlock>, ancestor: Option<nat>, batchSize: nat)
    requires Exact(ix, first, chain) && batchSize >= 1 && !RolledBack(ix, ancestor) && CursorFits(ix)
    ensures Exact(RollbackStep(ix, ancestor, batchSize), first,
                  ChainAfter(ix, first, chain, Rollback(ancestor, batchSize)))
  {
    RollbackCursor(ix, ancestor, batchSize);
    var start := BatchStart(ix.indexedTo.value, ancestor, batchSize);
    var kept := SaturatingSub(start, first);
    var next, after := RollbackStep(ix, ancestor, batchSize), chain[..kept];
    ShorterReferences(ix.references, first, chain, start, next.references);
    ShorterByBlock(ix.byBlock, first, chain, start, next.byBlock);
  }

  lemma ShorterReferences(rows: map<ReferenceKey, nat>, first: nat, chain: seq<IndexBlock>, start: nat,
                          next: map<ReferenceKey, nat>)
    requires ReferencesExact(rows, first, chain) && SaturatingSub(start, first) <= |chain|
    requires (forall k | k in next :: k in rows && k.number < start && next[k] == rows[k])
    requires (forall k | k in rows && k.number < start :: k in next)
    ensures ReferencesExact(next, first, chain[..SaturatingSub(start, first)])
  {
    var after := chain[..SaturatingSub(start, first)];
    forall k: ReferenceKey ensures k in next <==> ListsReference(first, after, k) {
      assert ListsReference(first, after, k) ==> ListsReference(first, chain, k);
    }
  }

  lemma ShorterByBlock(rows: map<BlockKey, nat>, first: nat, chain: seq<IndexBlock>, start: nat,
                       next: map<BlockKey, nat>)
    requires ByBlockExact(rows, first, chain) && SaturatingSub(start, first) <= |chain|
    requires (forall k | k in next :: k in rows && k.number < start && next[k] == rows[k])
    requires (forall k | k in rows && k.number < start :: k in next)
    ensures ByBlockExact(next, first, chain[..SaturatingSub(start, first)])
  {
    var after := chain[..SaturatingSub(start, first)];
    forall k: BlockKey ensures k in next <==> Lists(first, after, k) {
      assert Lists(first, after, k) ==> Lists(first, chain, k);
    }
  }

  lemma ErasedTwice(ix: Index, low: nat, mid: nat, high: nat)
    requires low <= mid <= high + 1
    ensures Erased(Erased(ix, mid, high), low, mid - 1) == Erased(ix, low, high)
  {
    var e, f := Erased(Erased(ix, mid, high), low, mid - 1), Erased(ix, low, high);
    assert e.references == f.references && e.byBlock == f.byBlock && e.crumbs == f.crumbs;
  }

  /** The lowest block above the cursor. */
  function AboveCursor(cursor: Option<nat>): nat {
    if cursor.Some? then cursor.value + 1 else 0
  }

  /** The cursor falls with every transaction until it is exactly the ancestor. */
  lemma {:induction false} RollbackTerminates(ix: Index, ancestor: Option<nat>, batchSize: nat, steps: nat)
    requires batchSize >= 1 && !RolledBack(ix, ancestor) && CursorFits(ix)
    ensures var r := RollbackSteps(ix, ancestor, batchSize, steps);
            && CursorFits(r) && AboveCursor(r.indexedTo) <= AboveCursor(ix.indexedTo)
            && (RolledBack(r, ancestor) ==> r.indexedTo == ancestor)
            && (!RolledBack(r, ancestor) ==> AboveCursor(r.indexedTo) + steps <= AboveCursor(ix.indexedTo))
  {
    if steps > 0 {
      RollbackTerminates(ix, ancestor, batchSize, steps - 1);
      var before := RollbackSteps(ix, ancestor, batchSize, steps - 1);
      if !RolledBack(before, ancestor) {
        RollbackCursor(before, ancestor, batchSize);
      }
    }
  }

  /** Erasing below an erased suffix is erasing the longer suffix. */
  lemma RollbackStepErases(ix: Index, high: nat, r: Index, ancestor: Option<nat>, batchSize: nat)
    requires batchSize >= 1 && !RolledBack(r, ancestor) && CursorFits(r) && r.indexedTo.value <= high
    requires r == Erased(ix, AboveCursor(r.indexedTo), high).(indexedTo := r.indexedTo)
    ensures var next := RollbackStep(r, ancestor, batchSize);
            next == Erased(ix, AboveCursor(next.indexedTo), high).(indexedTo := next.indexedTo)
  {
    RollbackCursor(r, ancestor, batchSize);
    var start := BatchStart(r.indexedTo.value, ancestor, batchSize);
    ErasedTwice(ix, start, r.indexedTo.value + 1, high);
  }

  /** However many of its transactions a rollback gets to, it has erased everything above its cursor
      and nothing else. */
  lemma {:induction false} RollbackErasesSuffix(ix: Index, ancestor: Option<nat>, batchSize: nat, steps: nat)
    requires batchSize >= 1 && !RolledBack(ix, ancestor) && CursorFits(ix)
    ensures var r := RollbackSteps(ix, ancestor, batchSize, steps);
            r == Erased(ix, AboveCursor(r.indexedTo), ix.indexedTo.value).(indexedTo := r.indexedTo)
  {
    if steps == 0 {
      ErasedNothing(ix, ix.indexedTo.value + 1);
    } else {
      RollbackErasesSuffix(ix, ancestor, batchSize, steps - 1);
      RollbackTerminates(ix, ancestor, batchSize, steps - 1);
      var before := RollbackSteps(ix, ancestor, batchSize, steps - 1);
      if !RolledBack(before, ancestor) {
        RollbackStepErases(ix, ix.indexedTo.value, before, ancestor, batchSize);
      }
    }
  }

  // ---------------------------------------------------------------------------------------------
  // Whole runs
  // ---------------------------------------------------------------------------------------------

  /** Transactions with the durable index each leaves. A process stop falls between two of them. */
  type Run = seq<(Txn, Index)>

  /** The transaction commits, and a batch brings no references from below the first Jade block. */
  ghost predicate Qualifies(first: nat, ix: Index, txn: Txn, next: Index) {
    && Commits(first, ix, txn, next)
    && (txn.Batch? ==> forall k: BlockKey | Lists(Start(ix, first), txn.blocks, k) :: k.number >= first)
  }

  ghost predicate Valid(first: nat, ix: Index, run: Run)
    decreases |run|
  {
    run == [] || (Qualifies(first, ix, run[0].0, run[0].1) && Valid(first, run[0].1, run[1..]))
  }

  function Final(ix: Index, run: Run): Index {
    if run == [] then ix else run[|run| - 1].1
  }

  function FinalChain(ix: Index, first: nat, chain: seq<IndexBlock>, run: Run): seq<IndexBlock>
    decreases |run|
  {
    if run == [] then chain else FinalChain(run[0].1, first, ChainAfter(ix, first, chain, run[0].0), run[1..])
  }

  lemma StepKeepsExact(first: nat, ix: Index, chain: seq<IndexBlock>, txn: Txn, next: Index)
    requires Exact(ix, first, chain) && Qualifies(first, ix, txn, next)
    ensures Exact(next, first, ChainAfter(ix, first, chain, txn))
  {
    match txn
    case Batch(blocks, finalized) => BatchKeepsExact(ix, first, chain, blocks, finalized, next);
    case Rollback(ancestor, batchSize) => RollbackKeepsExact(ix, first, chain, ancestor, batchSize);
  }

  /** After any sequence of batch commits and rollback transactions the rows are exactly those of the
      blocks from the first Jade block to the durable cursor. */
  lemma {:induction false} RunsStayExact(first: nat, ix: Index, chain: seq<IndexBlock>, run: Run)
    requires Exact(ix, first, chain) && Valid(first, ix, run)
    ensures Exact(Final(ix, run), first, FinalChain(ix, first, chain, run))
    decreases |run|
  {
    if run != [] {
      StepKeepsExact(first, ix, chain, run[0].0, run[0].1);
      RunsStayExact(first, run[0].1, ChainAfter(ix, first, chain, run[0].0), run[1..]);
      FinalOfRest(ix, run);
    }
  }

  lemma FinalOfRest(ix: Index, run: Run)
    requires run != []
    ensures Final(ix, run) == Final(run[0].1, run[1..])
  {
  }

  /** The rows are exactly those of some chain from the first Jade block to the cursor. */
  ghost predicate IsExact(ix: Index, first: nat) {
    exists chain :: Exact(ix, first, chain)
  }

  /** ... at every point of the run. */
  ghost predicate ExactThroughout(first: nat, ix: Index, run: Run)
    decreases |run|
  {
    IsExact(ix, first) && (run != [] ==> ExactThroughout(first, run[0].1, run[1..]))
  }

  /** Over any committed transactions the rows are exact at every point if and only if no batch brings a
      reference from below the first Jade block. */
  lemma {:induction false} ExactThroughoutIff(first: nat, ix: Index, run: Run)
    requires IsExact(ix, first) && AllCommit(first, ix, run)
    ensures ExactThroughout(first, ix, run) <==> Valid(first, ix, run)
    decreases |run|
  {
    if run != [] {
      StepExactIff(first, ix, run[0].0, run[0].1);
      if IsExact(run[0].1, first) {
        ExactThroughoutIff(first, run[0].1, run[1..]);
      }
    }
  }

  lemma StepExactIff(first: nat, ix: Index, txn: Txn, next: Index)
    requires IsExact(ix, first) && Commits(first, ix, txn, next)
    ensures IsExact(next, first) <==> Qualifies(first, ix, txn, next)
  {
    var chain :| Exact(ix, first, chain);
    match txn
    case Batch(blocks, finalized) => BatchExactIff(ix, first, chain, blocks, finalized, next);
    case Rollback(ancestor, batchSize) => RollbackKeepsExact(ix, first, chain, ancestor, batchSize);
  }

  /** Every rollback has an ancestor, not more than one block below the first Jade block. */
  predicate RollsBackToJade(first: nat, txn: Txn) {
    txn.Rollback? ==> txn.ancestor.Some? && txn.ancestor.value + 1 >= first
  }

  ghost predicate AllCommit(first: nat, ix: Index, run: Run)
    decreases |run|
  {
    run == [] || (Commits(first, ix, run[0].0, run[0].1) && AllCommit(first, run[0].1, run[1..]))
  }

  /** If no rollback goes below the first Jade block, every batch starts at or above it. */
  lemma {:induction false} RollbacksToJadeQualify(first: nat, ix: Index, run: Run)
    requires AllCommit(first, ix, run) && Start(ix, first) >= first && first <= U64_MAX
    requires forall i | 0 <= i < |run| :: RollsBackToJade(first, run[i].0)
    ensures Valid(first, ix, run)
    decreases |run|
  {
    if run != [] {
      StartStaysAtJade(first, ix, run[0].0, run[0].1);
      RollbacksToJadeQualify(first, run[0].1, run[1..]);
    }
  }

  lemma StartStaysAtJade(first: nat, ix: Index, txn: Txn, next: Index)
    requires Commits(first, ix, txn, next) && Start(ix, first) >= first && RollsBackToJade(first, txn)
    requires first <= U64_MAX
    ensures Qualifies(first, ix, txn, next) && Start(next, first) >= first
  {
    match txn
    case Batch(blocks, _) =>
      LateBatchQualifies(ix, first, blocks);
      assert blocks[|blocks| - 1].number == SaturatingAdd(Start(ix, first), |blocks| - 1);
    case Rollback(ancestor, batchSize) =>
      RollbackCursor(ix, ancestor, batchSize);
  }

  const EMPTY_INDEX := Index(map[], map[], map[], None, None)

  /** From the empty index, with commits starting just after the cursor, rollbacks to ancestors at or
      above the block before Jade, and a stop between any two transactions: the rows are exactly those of
      the blocks from the first Jade block to the durable cursor. Nothing is asked of the batches. */
  lemma IndexHoldsExactlyTheChain(first: nat, run: Run)
    requires AllCommit(first, EMPTY_INDEX, run) && first <= U64_MAX
    requires forall i | 0 <= i < |run| :: RollsBackToJade(first, run[i].0)
    ensures Exact(Final(EMPTY_INDEX, run), first, FinalChain(EMPTY_INDEX, first, [], run))
  {
    RollbacksToJadeQualify(first, EMPTY_INDEX, run);
    RunsStayExact(first, EMPTY_INDEX, [], run);
  }

  /** A rollback without ancestor that is stopped half-way leaves its cursor below the first Jade block
      10; the next batch then starts at block 7 and brings in a reference from before Jade. */
  lemma StoppedClearIndexesEarlyBlocks(t: Transaction, b10: IndexBlock, b7: IndexBlock, ix0: Index, ix1: Index,
                                       ix2: Index, ix3: Index)
    requires t == Transaction(Some(1), 2) && b10 == IndexBlock(10, 3, 0, []) && b7 == IndexBlock(7, 4, 0, [t])
    requires ix0 == Index(map[], map[], map[], None, None)
    requires ix1 == WithBlocks(ix0, [b10]).(indexedTo := Some(10), jadeFirst := Some(10))
    requires ix2 == RollbackStep(ix1, None, 4)
    requires ix3 == WithBlocks(ix2, [b7]).(indexedTo := Some(7), jadeFirst := Some(10))
    ensures Commits(10, ix0, Batch([b10], None), ix1) && Commits(10, ix1, Rollback(None, 4), ix2)
    ensures Commits(10, ix2, Batch([b7], None), ix3)
    ensures Exact(ix2, 10, []) && forall chain :: !Exact(ix3, 10, chain)
  {
    StoppedClearIsExact(b10, ix0, ix1, ix2);
    EarlyBlockIsNotExact(t, b7, ix2, ix3);
  }

  lemma StoppedClearIsExact(b10: IndexBlock, ix0: Index, ix1: Index, ix2: Index)
    requires b10 == IndexBlock(10, 3, 0, []) && ix0 == Index(map[], map[], map[], None, None)
    requires ix1 == WithBlocks(ix0, [b10]).(indexedTo := Some(10), jadeFirst := Some(10))
    requires ix2 == RollbackStep(ix1, None, 4)
    ensures Commits(10, ix0, Batch([b10], None), ix1) && Commits(10, ix1, Rollback(None, 4), ix2)
    ensures ix2.indexedTo == Some(6) && Exact(ix2, 10, [])
  {
    assert ix1.indexedTo == Some(10) && ix2.indexedTo == Some(6);
    BatchKeepsExact(ix0, 10, [], [b10], None, ix1);
    RollbackKeepsExact(ix1, 10, [b10], None, 4);
  }

  lemma EarlyBlockIsNotExact(t: Transaction, b7: IndexBlock, ix: Index, next: Index)
    requires t == Transaction(Some(1), 2) && b7 == IndexBlock(7, 4, 0, [t]) && ix.indexedTo == Some(6)
    requires Exact(ix, 10, []) && next == WithBlocks(ix, [b7]).(indexedTo := Some(7), jadeFirst := Some(10))
    ensures forall chain :: !Exact(next, 10, chain)
  {
    assert Lists(7, [b7], BlockKey(7, 0, 2));
    BatchExactIff(ix, 10, [], [b7], None, next);
  }
}
