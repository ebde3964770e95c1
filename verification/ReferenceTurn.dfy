/** One turn of the reference index: the cursor is reconciled with the canonical chain, a stale suffix is
    rolled back, and the next batch is committed. */
module ReferenceTurns {
  import opened Blocks
  import opened ReferenceIndexes
  import opened ReferenceRows

  datatype Tip = Tip(number: nat, hash: Hash)

  datatype Reconciled =
    | Unchanged
    | RollBackTo(ancestor: nat)
    | Corrupt
    | ManualRebuildRequired

  /** The lowest block the search for an ancestor looks at. */
  function RewindFloor(first: nat, finalized: Option<nat>, candidate: nat): nat {
    Min(if finalized.Some? then Max(finalized.value, first) else first, candidate)
  }

  /** The indexed block at `n` is canonical. */
  predicate Agrees(ix: Index, canonical: nat -> Option<Hash>, n: nat) {
    n in ix.crumbs && canonical(n) == Some(ix.crumbs[n])
  }

  /** The cursor block is the canonical one at its height. */
  predicate CursorAgrees(ix: Index, head: Tip, canonical: nat -> Option<Hash>)
    requires ix.indexedTo.Some?
  {
    var c := ix.indexedTo.value;
    && c in ix.crumbs
    && (if c == head.number then ix.crumbs[c] == head.hash else c < head.number && Agrees(ix, canonical, c))
  }

  /** Finds the highest indexed block that is canonical, looking down from the lower of the cursor and
      the head; the index is left alone if the cursor block is. */
  method ReconcileCursor(ix: Index, first: nat, finalized: Option<nat>, head: Tip, canonical: nat -> Option<Hash>)
    returns (r: Reconciled)
    ensures r.Unchanged? <==> ix.indexedTo.None? || CursorAgrees(ix, head, canonical)
    ensures r.RollBackTo? ==>
              var candidate := Min(ix.indexedTo.value, head.number);
              && RewindFloor(first, finalized, candidate) <= r.ancestor <= candidate
                 && Agrees(ix, canonical, r.ancestor)
              && forall n | r.ancestor < n <= candidate :: n in ix.crumbs && !Agrees(ix, canonical, n)
    ensures r.ManualRebuildRequired? ==>
              var candidate := Min(ix.indexedTo.value, head.number);
              forall n | RewindFloor(first, finalized, candidate) <= n <= candidate :: n in ix.crumbs
                && !Agrees(ix, canonical, n)
    ensures r.Corrupt? ==> exists n :: n !in ix.crumbs && n <= Min(ix.indexedTo.value, head.number)
  {
    if ix.indexedTo.None? {
      return Unchanged;
    }
    var cursor := ix.indexedTo.value;
    var candidate := Min(cursor, head.number);
    if candidate !in ix.crumbs {
      return Corrupt;
    }
    if cursor == head.number && ix.crumbs[candidate] == head.hash {
      return Unchanged;
    }
    if cursor < head.number && canonical(cursor) == Some(ix.crumbs[candidate]) {
      return Unchanged;
    }
    var floor, number := RewindFloor(first, finalized, candidate), candidate;
    while number > floor
      invariant floor <= number <= candidate
      invariant forall n | number < n <= candidate :: n in ix.crumbs && !Agrees(ix, canonical, n)
    {
      if number !in ix.crumbs {
        return Corrupt;
      }
      if canonical(number) == Some(ix.crumbs[number]) {
        return RollBackTo(number);
      }
      number := number - 1;
    }
    if number !in ix.crumbs {
      return Corrupt;
    }
    if canonical(number) == Some(ix.crumbs[number]) {
      return RollBackTo(number);
    }
    return ManualRebuildRequired;
  }

  // ---------------------------------------------------------------------------------------------
  // What every turn keeps
  // ---------------------------------------------------------------------------------------------

  /** The index from the first Jade block on: exact, with the cursor and every crumb at or above it. */
  ghost predicate Keeps(ix: Index, first: nat) {
    && ix.jadeFirst == Some(first) && IsExact(ix, first) && CursorFits(ix)
    && ix.indexedTo.Some? && ix.indexedTo.value >= first && forall n | n in ix.crumbs :: n >= first
  }

  /** Nothing committed yet, or an index from its recorded first Jade block on. */
  ghost predicate Sane(ix: Index) {
    ix == EMPTY_INDEX || (ix.jadeFirst.Some? && Keeps(ix, ix.jadeFirst.value))
  }

  lemma CommitKeeps(ix: Index, first: nat, blocks: seq<IndexBlock>, finalized: Option<nat>, next: Index)
    requires ix == EMPTY_INDEX || Keeps(ix, first)
    requires first <= U64_MAX && NextBlocks(ix, first, blocks) && Committed(ix, first, blocks, finalized, next)
    ensures Keeps(next, first)
  {
    assert ix == EMPTY_INDEX ==> Exact(ix, first, []);
    var chain :| Exact(ix, first, chain);
    LateBatchQualifies(ix, first, blocks);
    BatchKeepsExact(ix, first, chain, blocks, finalized, next);
    BatchChain(ix, first, chain, blocks);
    forall n | n in next.crumbs ensures n >= first {
      CrumbsOfBlocks(ix, Start(ix, first), blocks, n);
    }
  }

  lemma {:induction false} RollbackKeeps(ix: Index, first: nat, ancestor: nat, batchSize: nat, steps: nat)
    requires Keeps(ix, first) && ancestor >= first && batchSize >= 1
    ensures Keeps(RollbackSteps(ix, Some(ancestor), batchSize, steps), first)
  {
    if steps > 0 {
      RollbackKeeps(ix, first, ancestor, batchSize, steps - 1);
      var before := RollbackSteps(ix, Some(ancestor), batchSize, steps - 1);
      if !RolledBack(before, Some(ancestor)) {
        var chain :| Exact(before, first, chain);
        RollbackKeepsExact(before, first, chain, Some(ancestor), batchSize);
        RollbackCursor(before, Some(ancestor), batchSize);
      }
    }
  }

  /** A rollback to an indexed block never goes below it, and leaves its crumb alone. */
  lemma {:induction false} RollbackKeepsAncestor(ix: Index, ancestor: nat, batchSize: nat, steps: nat)
    requires CursorFits(ix) && ix.indexedTo.Some? && ancestor <= ix.indexedTo.value && ancestor in ix.crumbs
    requires batchSize >= 1
    ensures var r := RollbackSteps(ix, Some(ancestor), batchSize, steps);
            && CursorFits(r) && r.indexedTo.Some? && ancestor <= r.indexedTo.value
            && (RolledBack(r, Some(ancestor)) ==> r.indexedTo == Some(ancestor))
            && ancestor in r.crumbs && r.crumbs[ancestor] == ix.crumbs[ancestor]
  {
    if steps > 0 {
      RollbackKeepsAncestor(ix, ancestor, batchSize, steps - 1);
      var before := RollbackSteps(ix, Some(ancestor), batchSize, steps - 1);
      if !RolledBack(before, Some(ancestor)) {
        RollbackCursor(before, Some(ancestor), batchSize);
      }
    }
  }

  /** The ancestor the search finds is an indexed block, so it is not below the first Jade block, wherever
      the head is. */
  lemma FoundAncestorIsAtJade(ix: Index, first: nat, ancestor: nat, canonical: nat -> Option<Hash>, batchSize: nat)
    requires Keeps(ix, first) && Agrees(ix, canonical, ancestor)
    ensures ancestor >= first && RollsBackToJade(first, Rollback(Some(ancestor), batchSize))
  {
  }

  // ---------------------------------------------------------------------------------------------
  // The turn
  // ---------------------------------------------------------------------------------------------

  datatype Turn = Skipped | Unresolved | Unreconciled | StoppedRollingBack | Live | BadRead | Advanced(end: nat)

  /** What the provider returned for the range: as many blocks as asked for, numbered in order, each the
      canonical block when it was looked up again. */
  predicate ReadWell(start: nat, end: nat, blocks: seq<IndexBlock>, recheck: nat -> Option<Hash>)
    requires start <= end
  {
    && |blocks| == end - start + 1
    && forall i | 0 <= i < |blocks| :: blocks[i].number == start + i && recheck(start + i) == Some(blocks[i].hash)
  }

  /** `skip` says that Jade is not active at the head or that the turn is deferred, and `resolved` is what
      the search for the first Jade block finds. The canonical chain may change between the reads, and the
      process may stop after `budget` rollback transactions. Whatever is read, the index stays exact from
      its first Jade block to its cursor. */
  method SynchronizeOnce(db: ReferenceIndexDb, skip: bool, resolved: Option<nat>, finalized: Option<nat>, head: Tip,
                         canonical: nat -> Option<Hash>, blocks: seq<IndexBlock>, recheck: nat -> Option<Hash>,
                         budget: nat)
    returns (turn: Turn)
    requires Sane(db.durable) && head.number < U64_MAX && (resolved.Some? ==> resolved.value <= U64_MAX)
    modifies db
    ensures Sane(db.durable)
    ensures turn.Skipped? || turn.Unresolved? || turn.Unreconciled? ==> db.durable == old(db.durable)
    ensures (turn.Live? || turn.BadRead?) && db.durable.indexedTo.Some? ==>
              CursorAgrees(db.durable, head, canonical) || Agrees(db.durable, canonical, db.durable.indexedTo.value)
    ensures turn.Live? ==> db.durable.indexedTo.Some? ==> db.durable.indexedTo.value >= head.number
    ensures turn.Advanced? ==>
              && db.durable.indexedTo == Some(turn.end) && turn.end <= head.number
              && turn.end in db.durable.crumbs && Agrees(db.durable, recheck, turn.end)
  {
    if skip {
      return Skipped;
    }
    if db.durable.jadeFirst.None? && resolved.None? {
      return Unresolved;
    }
    var first := if db.durable.jadeFirst.Some? then db.durable.jadeFirst.value else resolved.value;
    var r := ReconcileCursor(db.durable, first, finalized, head, canonical);
    if r.Corrupt? || r.ManualRebuildRequired? {
      return Unreconciled;
    }
    if r.RollBackTo? {
      var done := RollBackStale(db, first, r.ancestor, canonical, budget);
      if !done {
        return StoppedRollingBack;
      }
    }
    var start := Start(db.durable, first);
    if start > head.number {
      return Live;
    }
    var end := Min(SaturatingAdd(start, DEFAULT_BACKFILL_BATCH_BLOCKS - 1), head.number);
    if !ReadWell(start, end, blocks, recheck) {
      return BadRead;
    }
    CommitRead(db, first, start, end, blocks, finalized, recheck);
    turn := Advanced(end);
  }

  method RollBackStale(db: ReferenceIndexDb, first: nat, ancestor: nat, canonical: nat -> Option<Hash>, budget: nat)
    returns (done: bool)
    requires Keeps(db.durable, first) && Agrees(db.durable, canonical, ancestor)
    requires ancestor <= db.durable.indexedTo.value
    modifies db
    ensures Keeps(db.durable, first)
    ensures done ==> db.durable.indexedTo == Some(ancestor) && Agrees(db.durable, canonical, ancestor)
  {
    KeptIsMirrored(db.durable, first);
    ghost var before := db.durable;
    var r, steps := db.RollbackSuffix(Some(ancestor), DEFAULT_BACKFILL_BATCH_BLOCKS, budget);
    RollbackKeeps(before, first, ancestor, DEFAULT_BACKFILL_BATCH_BLOCKS, steps);
    RollbackKeepsAncestor(before, ancestor, DEFAULT_BACKFILL_BATCH_BLOCKS, steps);
    done := r.Done?;
  }

  lemma KeptIsMirrored(ix: Index, first: nat)
    requires Keeps(ix, first)
    ensures Mirrored(ix)
  {
    var chain :| Exact(ix, first, chain);
    ExactIsMirrored(ix, first, chain);
  }

  method CommitRead(db: ReferenceIndexDb, first: nat, start: nat, end: nat, blocks: seq<IndexBlock>,
                    finalized: Option<nat>, ghost recheck: nat -> Option<Hash>)
    requires db.durable == EMPTY_INDEX || Keeps(db.durable, first)
    requires first <= U64_MAX && start == Start(db.durable, first) <= end < U64_MAX
    requires ReadWell(start, end, blocks, recheck)
    modifies db
    ensures Keeps(db.durable, first) && db.durable.indexedTo == Some(end) && Agrees(db.durable, recheck, end)
  {
    ghost var before := db.durable;
    assert forall i | 0 <= i < |blocks| :: SaturatingAdd(start, i) == start + i;
    var r := db.CommitCanonicalBatch(first, start, blocks, finalized);
    CommitKeeps(before, first, blocks, finalized, db.durable);
    CursorCrumbIsThere(before, first, blocks, finalized, db.durable);
  }
}
