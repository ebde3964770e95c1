/** The durable index of transaction references: block writes and deletes, the batch commit and the
    bounded rollback. */
module ReferenceIndexes {
  import opened Blocks

  const DEFAULT_BACKFILL_BATCH_BLOCKS: nat := 512

  function SaturatingAdd(a: nat, b: nat): nat {
    if a + b > U64_MAX then U64_MAX else a + b
  }

  function SaturatingSub(a: nat, b: nat): nat {
    if a < b then 0 else a - b
  }

  datatype Transaction = Transaction(reference: Option<nat>, hash: Hash)
  datatype IndexBlock = IndexBlock(number: nat, hash: Hash, timestamp: nat, transactions: seq<Transaction>)

  datatype ReferenceKey = ReferenceKey(reference: nat, number: nat, index: nat, hash: Hash)
  datatype BlockKey = BlockKey(number: nat, index: nat, hash: Hash)

  /** The tables: references to timestamps, the same rows by block, the hashes of indexed blocks, the
      cursor and the first Jade block. */
  datatype Index = Index(
    references: map<ReferenceKey, nat>,
    byBlock: map<BlockKey, nat>,
    crumbs: map<nat, Hash>,
    indexedTo: Option<nat>,
    jadeFirst: Option<nat>)

  function ByBlock(k: ReferenceKey): BlockKey {
    BlockKey(k.number, k.index, k.hash)
  }

  function ByReference(k: BlockKey, reference: nat): ReferenceKey {
    ReferenceKey(reference, k.number, k.index, k.hash)
  }

  // ---------------------------------------------------------------------------------------------
  // One block
  // ---------------------------------------------------------------------------------------------

  /** The transaction at `k.index` of the block is the one `k` names. */
  predicate Carries(b: IndexBlock, k: BlockKey) {
    k.number == b.number && k.index < |b.transactions| && b.transactions[k.index].hash == k.hash
      && b.transactions[k.index].reference.Some?
  }

  predicate HasReference(b: IndexBlock, k: ReferenceKey) {
    Carries(b, ByBlock(k)) && b.transactions[k.index].reference == Some(k.reference)
  }

  /** The rows with those of the first `n` transactions of the block. */
  function WithReferences(rows: map<ReferenceKey, nat>, b: IndexBlock, n: nat): map<ReferenceKey, nat>
    requires n <= |b.transactions|
  {
    if n == 0 then rows
    else
      var t, before := b.transactions[n - 1], WithReferences(rows, b, n - 1);
      if t.reference.Some? then before[ReferenceKey(t.reference.value, b.number, n - 1, t.hash) := b.timestamp]
        else before
  }

  function WithByBlock(rows: map<BlockKey, nat>, b: IndexBlock, n: nat): map<BlockKey, nat>
    requires n <= |b.transactions|
  {
    if n == 0 then rows
    else
      var t, before := b.transactions[n - 1], WithByBlock(rows, b, n - 1);
      if t.reference.Some? then before[BlockKey(b.number, n - 1, t.hash) := t.reference.value] else before
  }

  /** The index with the rows and the crumb of one block. */
  function WithBlock(ix: Index, b: IndexBlock): Index {
    ix.(references := WithReferences(ix.references, b, |b.transactions|),
        byBlock := WithByBlock(ix.byBlock, b, |b.transactions|),
        crumbs := ix.crumbs[b.number := b.hash])
  }

  function WithBlocks(ix: Index, blocks: seq<IndexBlock>): Index {
    if blocks == [] then ix else WithBlock(WithBlocks(ix, blocks[..|blocks| - 1]), blocks[|blocks| - 1])
  }

  function CountReferences(transactions: seq<Transaction>): nat {
    if transactions == [] then 0
    else
      var before := CountReferences(transactions[..|transactions| - 1]);
      if transactions[|transactions| - 1].reference.Some? then before + 1 else before
  }

  /** The references of all the blocks. */
  function CountAll(blocks: seq<IndexBlock>): nat {
    if blocks == [] then 0 else CountAll(blocks[..|blocks| - 1]) + CountReferences(blocks[|blocks| - 1].transactions)
  }

  method WriteBlock(ix: Index, b: IndexBlock) returns (next: Index, written: nat)
    ensures next == WithBlock(ix, b) && written == CountReferences(b.transactions)
  {
    var references, byBlock := ix.references, ix.byBlock;
    written := 0;
    for i := 0 to |b.transactions|
      invariant references == WithReferences(ix.references, b, i) && byBlock == WithByBlock(ix.byBlock, b, i)
      invariant written == CountReferences(b.transactions[..i])
    {
      var t := b.transactions[i];
      assert b.transactions[..i + 1][..i] == b.transactions[..i];
      if t.reference.Some? {
        references := references[ReferenceKey(t.reference.value, b.number, i, t.hash) := b.timestamp];
        byBlock := byBlock[BlockKey(b.number, i, t.hash) := t.reference.value];
        written := written + 1;
      }
    }
    assert b.transactions[..|b.transactions|] == b.transactions;
    next := ix.(references := references, byBlock := byBlock, crumbs := ix.crumbs[b.number := b.hash]);
  }

  /** Each reference row has its row by block. */
  ghost predicate Mirrored(ix: Index) {
    forall k | k in ix.references :: ByBlock(k) in ix.byBlock && ix.byBlock[ByBlock(k)] == k.reference
  }

  /** The index without anything of the blocks from `low` to `high`. */
  function Erased(ix: Index, low: nat, high: int): Index {
    ix.(references := map k | k in ix.references && !(low <= k.number <= high) :: ix.references[k],
        byBlock := map k | k in ix.byBlock && !(low <= k.number <= high) :: ix.byBlock[k],
        crumbs := map n | n in ix.crumbs && !(low <= n <= high) :: ix.crumbs[n])
  }

  /** Deletes the rows of one block: the reference rows are found through the rows by block, so all of
      them go if those mirror them. */
  method DeleteBlock(ix: Index, n: nat) returns (next: Index)
    requires Mirrored(ix)
    ensures next == Erased(ix, n, n) && Mirrored(next)
  {
    var entries := set k | k in ix.byBlock && k.number == n;
    var references, byBlock := ix.references, ix.byBlock;
    while entries != {}
      invariant forall k | k in entries :: k in ix.byBlock && k.number == n
      invariant forall k | k in references :: k in ix.references && references[k] == ix.references[k]
      invariant forall k | k in ix.references :: k in references || (k.number == n && ByBlock(k) !in entries)
      invariant forall k | k in references && k.number == n :: ByBlock(k) in entries
      invariant forall k | k in byBlock ::
                 k in ix.byBlock && byBlock[k] == ix.byBlock[k] && (k.number == n ==> k in entries)
      invariant forall k | k in ix.byBlock :: k in byBlock || (k.number == n && k !in entries)
      decreases entries
    {
      var k :| k in entries;
      references := references - {ByReference(k, ix.byBlock[k])};
      byBlock := byBlock - {k};
      entries := entries - {k};
    }
    next := ix.(references := references, byBlock := byBlock, crumbs := ix.crumbs - {n});
    assert next == Erased(ix, n, n);
  }

  // ---------------------------------------------------------------------------------------------
  // Rolling back a suffix
  // ---------------------------------------------------------------------------------------------

  /** The lowest block a rollback to `ancestor` removes. */
  function LowerBound(ancestor: Option<nat>): nat {
    if ancestor.Some? then SaturatingAdd(ancestor.value, 1) else 0
  }

  /** Where the next rollback transaction starts. */
  function BatchStart(cursor: nat, ancestor: Option<nat>, batchSize: nat): nat {
    Max(SaturatingSub(cursor, SaturatingSub(batchSize, 1)), LowerBound(ancestor))
  }

  /** There is nothing left to roll back. */
  predicate RolledBack(ix: Index, ancestor: Option<nat>) {
    ix.indexedTo.None? || (ancestor.Some? && ix.indexedTo.value <= ancestor.value)
  }

  /** One rollback transaction: the last blocks go, and the cursor moves below them. */
  function RollbackStep(ix: Index, ancestor: Option<nat>, batchSize: nat): Index
    requires !RolledBack(ix, ancestor)
  {
    var cursor := ix.indexedTo.value;
    var start := BatchStart(cursor, ancestor, batchSize);
    Erased(ix, start, cursor).(indexedTo := if start == LowerBound(ancestor) then ancestor else Some(start - 1))
  }

  /** Deletes the blocks from `low` to `high` one by one. */
  method DeleteBlocks(ix: Index, low: nat, high: nat) returns (next: Index)
    requires Mirrored(ix) && low <= high + 1
    ensures next == Erased(ix, low, high) && Mirrored(next)
  {
    next := ix;
    ErasedNothing(ix, low);
    for n := low to high + 1
      invariant next == Erased(ix, low, n - 1) && Mirrored(next)
    {
      next := DeleteBlock(next, n);
      ErasedOneMore(ix, low, n);
    }
  }

  lemma ErasedNothing(ix: Index, low: nat)
    ensures Erased(ix, low, low - 1) == ix
  {
    var e := Erased(ix, low, low - 1);
    assert e.references == ix.references && e.byBlock == ix.byBlock && e.crumbs == ix.crumbs;
  }

  lemma ErasedOneMore(ix: Index, low: nat, n: nat)
    requires low <= n
    ensures Erased(Erased(ix, low, n - 1), n, n) == Erased(ix, low, n)
  {
    var e, f := Erased(Erased(ix, low, n - 1), n, n), Erased(ix, low, n);
    assert e.references == f.references && e.byBlock == f.byBlock && e.crumbs == f.crumbs;
  }

  /** The cursor is a 64-bit number. */
  predicate CursorFits(ix: Index) {
    ix.indexedTo.Some? ==> ix.indexedTo.value <= U64_MAX
  }

  datatype RollbackResult = Done | Stopped | InvalidBatchSize

  // ---------------------------------------------------------------------------------------------
  // Committing a batch
  // ---------------------------------------------------------------------------------------------

  /** The numbers are checked against the expected ones, which saturate. */
  predicate Contiguous(start: nat, blocks: seq<IndexBlock>) {
    forall i | 0 <= i < |blocks| :: blocks[i].number == SaturatingAdd(start, i)
  }

  /** Pruning keeps the crumbs from the floor on, and changes none. */
  predicate PrunedCrumbs(before: map<nat, Hash>, floor: nat, after: map<nat, Hash>) {
    && (forall n | n in after :: n in before && after[n] == before[n])
    && (forall n | n in before && n >= floor :: n in after)
    && |before| <= |after| + DEFAULT_BACKFILL_BATCH_BLOCKS
  }

  /** Removes the lowest crumbs below the floor, at most one batch of them. */
  method PruneCrumbs(crumbs: map<nat, Hash>, floor: nat) returns (next: map<nat, Hash>)
    ensures PrunedCrumbs(crumbs, floor, next)
    ensures forall n, m | n in crumbs && n !in next && m in next :: n < m
    ensures |crumbs| == |next| + DEFAULT_BACKFILL_BATCH_BLOCKS || forall n | n in next :: n >= floor
  {
    next := crumbs;
    for removed := 0 to DEFAULT_BACKFILL_BATCH_BLOCKS
      invariant |crumbs| == |next| + removed
      invariant forall n | n in next :: n in crumbs && next[n] == crumbs[n]
      invariant forall n | n in crumbs && n !in next :: n < floor
      invariant forall n, m | n in crumbs && n !in next && m in next :: n < m
    {
      if next == map[] {
        return;
      }
      LeastExists(next.Keys);
      var n :| n in next && forall m | m in next :: n <= m;
      if n >= floor {
        return;
      }
      RemovedOne(next, n);
      next := next - {n};
    }
  }

  lemma RemovedOne(crumbs: map<nat, Hash>, n: nat)
    requires n in crumbs
    ensures |crumbs - {n}| == |crumbs| - 1
  {
    assert (crumbs - {n}).Keys == crumbs.Keys - {n};
  }

  /** One batch commit: the rows, the metadata, then the crumbs. */
  predicate Committed(before: Index, jadeFirst: nat, blocks: seq<IndexBlock>, finalized: Option<nat>, after: Index)
    requires blocks != []
  {
    var last, full := blocks[|blocks| - 1].number, WithBlocks(before, blocks);
    && after == full.(crumbs := after.crumbs, indexedTo := Some(last), jadeFirst := Some(jadeFirst))
    && if finalized.Some? && Max(finalized.value, jadeFirst) <= last
       then PrunedCrumbs(full.crumbs, Max(finalized.value, jadeFirst), after.crumbs)
       else after.crumbs == full.crumbs
  }

  method WriteBlocks(ix: Index, blocks: seq<IndexBlock>) returns (next: Index, written: nat)
    ensures next == WithBlocks(ix, blocks) && written == CountAll(blocks)
  {
    next, written := ix, 0;
    for i := 0 to |blocks|
      invariant next == WithBlocks(ix, blocks[..i]) && written == CountAll(blocks[..i])
    {
      assert blocks[..i + 1][..i] == blocks[..i];
      var count;
      next, count := WriteBlock(next, blocks[i]);
      written := written + count;
    }
    assert blocks[..|blocks|] == blocks;
  }

  datatype CommitResult = Empty | NotContiguous | Written(references: nat)

  class ReferenceIndexDb {
    var durable: Index

    constructor ()
      ensures durable == Index(map[], map[], map[], None, None)
    {
      durable := Index(map[], map[], map[], None, None);
    }

    /** Bounded transactions until the suffix is gone; `budget` of them commit before the process
        stops. */
    method RollbackSuffix(ancestor: Option<nat>, batchSize: nat, budget: nat)
      returns (r: RollbackResult, ghost steps: nat)
      requires Mirrored(durable) && CursorFits(durable)
      modifies this
      ensures Mirrored(durable) && CursorFits(durable) && steps <= budget
      ensures durable == RollbackSteps(old(durable), ancestor, batchSize, steps)
      ensures r.InvalidBatchSize? <==> batchSize == 0
      ensures r.Done? ==> RolledBack(durable, ancestor)
      ensures r.Done? && !RolledBack(old(durable), ancestor) ==> durable.indexedTo == ancestor
      ensures r.Stopped? ==> steps == budget && !RolledBack(durable, ancestor)
    {
      steps := 0;
      if batchSize == 0 {
        return InvalidBatchSize, 0;
      }
      var left := budget;
      while !RolledBack(durable, ancestor)
        invariant Mirrored(durable) && CursorFits(durable) && steps + left == budget
        invariant durable == RollbackSteps(old(durable), ancestor, batchSize, steps)
        invariant RolledBack(durable, ancestor) && !RolledBack(old(durable), ancestor) ==> durable.indexedTo == ancestor
        decreases if durable.indexedTo.Some? then durable.indexedTo.value + 1 else 0
      {
        if left == 0 {
          return Stopped, steps;
        }
        var cursor := durable.indexedTo.value;
        var start := BatchStart(cursor, ancestor, batchSize);
        var tx := DeleteBlocks(durable, start, cursor);
        if start == LowerBound(ancestor) {
          tx := tx.(indexedTo := ancestor);
        } else {
          tx := tx.(indexedTo := Some(start - 1));
        }
        durable, left := tx, left - 1;
        steps := steps + 1;
      }
      r := Done;
    }

    method CommitCanonicalBatch(jadeFirst: nat, expectedStart: nat, blocks: seq<IndexBlock>, finalized: Option<nat>)
      returns (r: CommitResult)
      modifies this
      ensures r.Empty? <==> blocks == []
      ensures r.NotContiguous? <==> blocks != [] && !Contiguous(expectedStart, blocks)
      ensures !r.Written? ==> durable == old(durable)
      ensures r.Written? ==>
                Committed(old(durable), jadeFirst, blocks, finalized, durable) && r.references == CountAll(blocks)
    {
      if blocks == [] {
        return Empty;
      }
      for i := 0 to |blocks|
        invariant durable == old(durable)
        invariant forall j | 0 <= j < i :: blocks[j].number == SaturatingAdd(expectedStart, j)
      {
        if blocks[i].number != SaturatingAdd(expectedStart, i) {
          return NotContiguous;
        }
      }
      var last := blocks[|blocks| - 1].number;
      var tx, written := WriteBlocks(durable, blocks);
      tx := tx.(jadeFirst := Some(jadeFirst), indexedTo := Some(last));
      if finalized.Some? {
        var floor := Max(finalized.value, jadeFirst);
        if floor <= last {
          var crumbs := PruneCrumbs(tx.crumbs, floor);
          tx := tx.(crumbs := crumbs);
        }
      }
      durable := tx;
      r := Written(written);
    }
  }

  /** So many rollback transactions, as far as there is something to roll back. */
  function RollbackSteps(ix: Index, ancestor: Option<nat>, batchSize: nat, steps: nat): Index
    decreases steps
  {
    if steps == 0 then ix
    else
      var before := RollbackSteps(ix, ancestor, batchSize, steps - 1);
      if RolledBack(before, ancestor) then before else RollbackStep(before, ancestor, batchSize)
  }
}
