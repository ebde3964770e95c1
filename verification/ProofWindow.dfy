/** The stored proof window as the sync worker sees it: the blocks whose versions are kept, the
    earliest block number, and the recorded hash of the tip. The tip hash is a record of its own,
    because an unwind writes it from the revert target instead of reading it from the history. */
module ProofWindows {
  import opened Blocks

  /** `blocks[i]` is the block stored at height `earliest + i`. */
  datatype Window = Window(earliest: nat, blocks: seq<Block>, tipHash: Hash)

  /** Contiguous and non-empty: an initialized store always holds at least its anchor. */
  predicate Contiguous(w: Window) {
    |w.blocks| > 0 && Numbered(w.blocks, w.earliest)
  }

  function Latest(w: Window): nat
    requires |w.blocks| > 0
  {
    w.earliest + |w.blocks| - 1
  }

  /** The block stored at height `n`. */
  function StoredAt(w: Window, n: nat): Block
    requires w.earliest <= n < w.earliest + |w.blocks|
  {
    w.blocks[n - w.earliest]
  }

  /** One branch only: each stored block names the one before it, and the recorded tip hash is
      the hash of the last one. */
  predicate Linked(w: Window) {
    && Contiguous(w)
    && (forall i | 0 < i < |w.blocks| :: w.blocks[i].parent == w.blocks[i - 1].hash)
    && w.tipHash == w.blocks[|w.blocks| - 1].hash
  }

  /** A batch is accepted when every block names the tip it lands on. */
  predicate Accepts(w: Window, batch: seq<Block>) {
    LinksTo(w.tipHash, batch)
  }

  /** The window after a whole batch is committed. */
  function Appended(w: Window, batch: seq<Block>): Window
    requires |batch| > 0
  {
    Window(w.earliest, w.blocks + batch, batch[|batch| - 1].hash)
  }

  /** The store refuses to unwind its earliest block. */
  predicate UnwindRefused(w: Window, to: Block)
    requires |w.blocks| > 0
  {
    Latest(w) >= to.number && to.number <= w.earliest
  }

  /** The unwind really removes blocks. */
  predicate UnwindRemoves(w: Window, to: Block)
    requires |w.blocks| > 0
  {
    w.earliest < to.number <= Latest(w)
  }

  /** The window after `handle_revert`: a target above the tip changes nothing; otherwise the
      blocks from `to` on go, and the recorded tip becomes `to`'s parent. */
  function Unwound(w: Window, to: Block): Window
    requires |w.blocks| > 0 && !UnwindRefused(w, to)
  {
    if Latest(w) < to.number then w
    else Window(w.earliest, w.blocks[..to.number - w.earliest], to.parent)
  }

  /** The window after the pruner raises the earliest block to `e`. */
  function Pruned(w: Window, e: nat): Window
    requires |w.blocks| > 0 && w.earliest <= e <= Latest(w)
  {
    Window(e, w.blocks[e - w.earliest..], w.tipHash)
  }

  /** Exactly when an unwind keeps the history on one branch: the stored block below the target
      must be the parent the target names. */
  predicate AnchoredUnwind(w: Window, to: Block)
    requires |w.blocks| > 0
  {
    UnwindRemoves(w, to) ==> StoredAt(w, to.number - 1).hash == to.parent
  }

  lemma UnwindKeepsBranchIffAnchored(w: Window, to: Block)
    requires Linked(w) && !UnwindRefused(w, to)
    ensures Linked(Unwound(w, to)) <==> AnchoredUnwind(w, to)
  {
    if UnwindRemoves(w, to) {
      var kept := Unwound(w, to).blocks;
      assert kept[|kept| - 1] == StoredAt(w, to.number - 1);
    }
  }

  lemma AppendKeepsBranch(w: Window, batch: seq<Block>)
    requires Linked(w) && |batch| > 0 && Numbered(batch, Latest(w) + 1)
    ensures Linked(Appended(w, batch)) <==> Accepts(w, batch)
  {
    var all := Appended(w, batch).blocks;
    var k := |w.blocks|;
    assert forall i | 0 <= i < |batch| :: all[k + i] == batch[i];
    if Linked(Appended(w, batch)) {
      assert all[k].parent == all[k - 1].hash;
      forall i | 0 < i < |batch| ensures batch[i].parent == batch[i - 1].hash {
        assert all[k + i].parent == all[k + i - 1].hash;
      }
    }
  }

  lemma PruneKeepsBranch(w: Window, e: nat)
    requires Linked(w) && w.earliest <= e <= Latest(w)
    ensures Linked(Pruned(w, e))
  {
    var kept := Pruned(w, e).blocks;
    assert forall i | 0 <= i < |kept| :: kept[i] == w.blocks[e - w.earliest + i];
  }

  /** After a landed revert, a revert it covers has nothing left to do: running it would change
      neither the window nor fail. */
  lemma CoveredRevertIsIdle(w: Window, done: Block, covered: Block)
    requires |w.blocks| > 0 && Latest(w) < done.number <= covered.number
    ensures !UnwindRefused(w, covered) && Unwound(w, covered) == w
  {
  }
}
