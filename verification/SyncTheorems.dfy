/** What the sync protocol guarantees over whole runs, for every interleaving. */
module SyncTheorems {
  import opened Blocks
  import opened SyncTargets
  import opened ProofWindows
  import opened SyncProtocol
  import opened SyncInvariant
  import opened SyncTaskSteps
  import opened SyncWorkerSteps

  lemma InitialInv(s: State)
    requires Initial(s)
    ensures Inv(s)
  {
    var w := s.window;
    assert w.blocks[|w.blocks| - 1] in w.blocks;
  }

  lemma StepKeepsInv(s: State, a: Action)
    requires Inv(s) && Enabled(s, a)
    ensures Inv(Apply(s, a))
  {
    match a
    case Commit(_) => NodeKeepsInv(s, a);
    case Reorg(_, _) => NodeKeepsInv(s, a);
    case RevertChain(_) => NodeKeepsInv(s, a);
    case Prune(e) => PruneKeepsInv(s, e);
    case ReadBest => ReadBestKeepsInv(s);
    case Start => StartKeepsInv(s);
    case Receive => ReceiveKeepsInv(s);
    case ClearCache => ClearCacheKeepsInv(s);
    case CacheBlock => CacheBlockKeepsInv(s);
    case Deliver => DeliverKeepsInv(s);
    case Announce => AnnounceKeepsInv(s);
    case Take => TakeKeepsInv(s);
    case Wait => WaitKeepsInv(s);
    case RunRevert(o) => RunRevertKeepsInv(s, o);
    case MarkComplete => MarkCompleteKeepsInv(s);
    case CheckPending => CheckPendingKeepsInv(s);
    case ReadLatest(r) => ReadLatestKeepsInv(s, r);
    case TakeCached => TakeCachedKeepsInv(s);
    case Fetch(f) => FetchKeepsInv(s, f);
    case StoreBatch(o) => StoreBatchKeepsInv(s, o);
    case Rearm => RearmKeepsInv(s);
  }

  lemma {:induction false} RunKeepsInv(s: State, run: seq<Action>)
    requires Inv(s) && Feasible(s, run)
    ensures Inv(After(s, run))
    decreases |run|
  {
    if run != [] {
      StepKeepsInv(s, run[0]);
      RunKeepsInv(Apply(s, run[0]), run[1..]);
    }
  }

  /** A state some feasible schedule of a started node leads to. */
  ghost predicate Reachable(t: State) {
    exists s: State, run: seq<Action> :: Initial(s) && Feasible(s, run) && After(s, run) == t
  }

  lemma ReachableInv(t: State)
    requires Reachable(t)
    ensures Inv(t)
  {
    var s: State, run: seq<Action> :| Initial(s) && Feasible(s, run) && After(s, run) == t;
    InitialInv(s);
    RunKeepsInv(s, run);
  }

  // ---------------------------------------------------------------------------------------------
  // Safety
  // ---------------------------------------------------------------------------------------------

  /** In every interleaving, a stored block below every outstanding revert and below the suspect height
      is the canonical block at its height. */
  lemma StoredBlocksAreCanonical(t: State, k: nat)
    requires Reachable(t) && Trusted(k, t) && Below(k, t)
    requires t.window.earliest <= k < t.window.earliest + |t.window.blocks|
    ensures k < |t.chain| && StoredAt(t.window, k) == t.chain[k]
  {
    ReachableInv(t);
    assert StoredAt(t.window, k) in t.window.blocks;
  }

  /** With nothing outstanding the stored window is a hash-linked piece of the canonical chain, and
      the recorded tip is canonical. */
  lemma QuietStoreIsCanonical(t: State)
    requires Reachable(t) && |t.window.blocks| > 0 && Trusted(Latest(t.window), t) && NothingOutstanding(t)
    ensures Linked(t.window) && Latest(t.window) < |t.chain|
    ensures t.window.blocks == t.chain[t.window.earliest..Latest(t.window) + 1]
    ensures t.window.tipHash == t.chain[Latest(t.window)].hash
  {
    ReachableInv(t);
    NothingOutstandingIsBelow(t, Latest(t.window));
    WindowIsCanonical(t);
    var w := t.window;
    forall i | 0 <= i < |w.blocks| ensures w.blocks[i] == t.chain[w.earliest + i] {
      assert w.blocks[i] in w.blocks;
    }
  }

  /** A revert at or below height `end` is pending or undelivered. */
  predicate RevertComing(t: State, end: nat) {
    || (exists n | n in t.queue :: CarriesRevert(n) && n.firstOld.number <= end)
    || (t.pending.Some? && RevertOf(t.pending.value).Some? && RevertOf(t.pending.value).value.number <= end)
  }

  /** On a tip below the suspect height a batch fails the parent check only while a revert that reaches
      into the batch or the window is still pending or undelivered, whatever mix of cached and fetched
      blocks it holds. */
  lemma MisfitMeansRevertComing(t: State)
    requires Reachable(t) && |t.window.blocks| > 0 && Trusted(Latest(t.window), t)
    requires t.worker.Collecting? && |t.worker.batch| > 0 && !Accepts(t.window, t.worker.batch)
    ensures RevertComing(t, Latest(t.window) + |t.worker.batch|)
  {
    ReachableInv(t);
    if Below(Latest(t.window) + |t.worker.batch|, t) {
      BatchIsAccepted(t);
      assert false;
    }
  }

  /** Hashes name blocks: a stored and a canonical block with the same hash are the same. */
  predicate HashesNameBlocks(stored: seq<Block>, chain: seq<Block>) {
    forall i, j | 0 <= i < |stored| && 0 <= j < |chain| && stored[i].hash == chain[j].hash :: stored[i] == chain[j]
  }

  /** The recorded tip hash is the canonical one at its height. */
  predicate AnchorAgrees(w: Window, chain: seq<Block>)
    requires |w.blocks| > 0
  {
    Latest(w) < |chain| && w.tipHash == chain[Latest(w)].hash
  }

  /** The stored blocks are the canonical ones, and the recorded tip hash is that of the last one. */
  predicate WindowCanonical(w: Window, chain: seq<Block>)
    requires |w.blocks| > 0
  {
    && Latest(w) < |chain| && w.blocks == chain[w.earliest..Latest(w) + 1]
    && w.tipHash == w.blocks[|w.blocks| - 1].hash
  }

  /** In every reachable state, whatever failed and however the node started: all stored blocks are
      canonical if and only if the history is on one branch and its recorded tip agrees with the chain. */
  lemma StoreCanonicalIff(t: State)
    requires Reachable(t) && HashesNameBlocks(t.window.blocks, t.chain)
    ensures Contiguous(t.window)
    ensures WindowCanonical(t.window, t.chain) <==> Linked(t.window) && AnchorAgrees(t.window, t.chain)
  {
    ReachableInv(t);
    if Linked(t.window) && AnchorAgrees(t.window, t.chain) {
      LinkedToCanonical(t.window, t.chain);
    }
    if WindowCanonical(t.window, t.chain) {
      CanonicalIsLinked(t.window, t.chain);
    }
  }

  lemma LinkedToCanonical(w: Window, chain: seq<Block>)
    requires Linked(w) && AnchorAgrees(w, chain) && ValidChain(chain) && HashesNameBlocks(w.blocks, chain)
    ensures WindowCanonical(w, chain)
  {
    forall i | 0 <= i < |w.blocks| ensures w.blocks[i] == chain[w.earliest + i] {
      CanonicalBelowTip(w, chain, i);
    }
  }

  lemma CanonicalIsLinked(w: Window, chain: seq<Block>)
    requires Contiguous(w) && WindowCanonical(w, chain) && ValidChain(chain)
    ensures Linked(w) && AnchorAgrees(w, chain)
  {
    forall i | 0 < i < |w.blocks| ensures w.blocks[i].parent == w.blocks[i - 1].hash {
      assert w.blocks[i] == chain[w.earliest + i] && w.blocks[i - 1] == chain[w.earliest + i - 1];
    }
  }

  lemma {:induction false} CanonicalBelowTip(w: Window, chain: seq<Block>, i: nat)
    requires Linked(w) && AnchorAgrees(w, chain) && ValidChain(chain) && HashesNameBlocks(w.blocks, chain)
    requires i < |w.blocks|
    ensures w.blocks[i] == chain[w.earliest + i]
    decreases |w.blocks| - i
  {
    if i + 1 < |w.blocks| {
      CanonicalBelowTip(w, chain, i + 1);
      assert w.blocks[i + 1].parent == w.blocks[i].hash;
      assert chain[w.earliest + i + 1].parent == chain[w.earliest + i].hash;
    }
  }

  /** In every run the stored numbers are contiguous and the cache stays
      bounded with every entry under its own number. */
  lemma AlwaysContiguous(t: State)
    requires Reachable(t)
    ensures Contiguous(t.window)
    ensures |t.cache| <= CACHE_CAPACITY && forall k | k in t.cache :: t.cache[k].block.number == k
  {
    ReachableInv(t);
  }

  /** An action leaves the window alone, removes an upper range, raises the lower end, or adds
      exactly one whole batch; a batch of at most fifty blocks that ends at or below the goal. */
  lemma WindowChangesWhole(t: State, a: Action)
    requires Reachable(t) && Enabled(t, a)
    ensures Contiguous(t.window) && Contiguous(Apply(t, a).window)
    ensures var w, v := t.window, Apply(t, a).window;
            || v == w
            || (a.Prune? && v.blocks == w.blocks[v.earliest - w.earliest..] && v.tipHash == w.tipHash)
            || (a.RunRevert? && v.blocks == w.blocks[..t.worker.to.number - w.earliest]
                && v.tipHash == t.worker.to.parent)
            || (a.StoreBatch? && v.blocks == w.blocks + t.worker.batch
                && v.tipHash == t.worker.batch[|t.worker.batch| - 1].hash
                && Latest(w) < Latest(v) == TurnEnd(Latest(w), t.worker.goal) <= Latest(w) + SYNC_BLOCKS_PER_TURN)
  {
    ReachableInv(t);
    match a
    case StoreBatch(o) => BatchChangesWhole(t, o);
    case Prune(e) => PruneChangesWhole(t, e);
    case RunRevert(o) => RevertChangesWhole(t, o);
    case _ => WindowUntouched(t, a);
  }

  lemma PruneChangesWhole(t: State, e: nat)
    requires Contiguous(t.window) && Enabled(t, Prune(e))
    ensures var w, v := t.window, Apply(t, Prune(e)).window;
            Contiguous(v) && w.earliest <= v.earliest <= w.earliest + |w.blocks|
              && v.blocks == w.blocks[v.earliest - w.earliest..] && v.tipHash == w.tipHash
  {
  }

  lemma RevertChangesWhole(t: State, o: RevertOutcome)
    requires Inv(t) && Enabled(t, RunRevert(o))
    ensures var w, v := t.window, Apply(t, RunRevert(o)).window;
            && Contiguous(v)
            && (v == w || (w.earliest <= t.worker.to.number <= w.earliest + |w.blocks|
                && v.blocks == w.blocks[..t.worker.to.number - w.earliest] && v.tipHash == t.worker.to.parent))
  {
    StepKeepsInv(t, RunRevert(o));
  }

  lemma BatchChangesWhole(t: State, o: BatchOutcome)
    requires Inv(t) && Enabled(t, StoreBatch(o))
    ensures Contiguous(t.window) && Contiguous(Apply(t, StoreBatch(o)).window)
    ensures var w, v := t.window, Apply(t, StoreBatch(o)).window;
            || v == w
            || (v.blocks == w.blocks + t.worker.batch && v.tipHash == t.worker.batch[|t.worker.batch| - 1].hash
                && Latest(w) < Latest(v) == TurnEnd(Latest(w), t.worker.goal) <= Latest(w) + SYNC_BLOCKS_PER_TURN)
  {
    StepKeepsInv(t, StoreBatch(o));
  }

  // ---------------------------------------------------------------------------------------------
  // Catch-up and wake-up
  // ---------------------------------------------------------------------------------------------

  /** Nothing is undelivered, pending or in flight. */
  predicate AtRest(t: State) {
    && t.queue == [] && t.pending.None?
    && (t.worker.Deciding? || t.worker.Waiting? || t.worker.Parked?)
  }

  /** A node at rest whose newest notification moved the chain forward, and whose goal was not dropped,
      has stored at least up to the canonical tip, and exactly up to it below the suspect height. */
  lemma CaughtUp(t: State)
    requires Reachable(t) && !t.gaveUp && AtRest(t) && t.newest.Forward?
    ensures Contiguous(t.window) && Latest(t.window) >= |t.chain| - 1
    ensures Trusted(Latest(t.window), t) ==>
              Latest(t.window) == |t.chain| - 1 && t.window.tipHash == t.chain[|t.chain| - 1].hash
  {
    ReachableInv(t);
    if Trusted(Latest(t.window), t) {
      QuietStoreIsCanonical(t);
    }
  }

  /** A goal is dropped only by a revert that reports an error or by a refused batch, and only with nothing
      newer on its way. */
  lemma GoalDroppedByError(t: State, a: Action)
    requires Enabled(t, a) && !t.gaveUp && Apply(t, a).gaveUp
    ensures NothingNewer(t) && ((a.RunRevert? && !a.revert.RevertLands?) || a == StoreBatch(BatchRefused))
  {
  }

  /** Recovery: once a revert at or below the suspect height has landed, every stored block below the
      outstanding reverts is canonical again, whatever failed before. */
  lemma LandedRevertRecovers(t: State, o: RevertOutcome, k: nat)
    requires Reachable(t) && Enabled(t, RunRevert(o)) && !o.RevertFails? && Trusted(t.worker.to.number - 1, t)
    requires var w := Apply(t, RunRevert(o)).window; w.earliest <= k < w.earliest + |w.blocks|
    requires Below(k, Apply(t, RunRevert(o)))
    ensures k < |t.chain| && StoredAt(Apply(t, RunRevert(o)).window, k) == t.chain[k]
  {
    ReachableInv(t);
    StepKeepsInv(t, RunRevert(o));
    var next := Apply(t, RunRevert(o));
    assert StoredAt(next.window, k) in next.window.blocks;
  }

  /** With no revert outstanding, the parent check accepts a collected batch if and only if the recorded
      tip is the canonical hash at its height, suspect or not. */
  lemma QuietAcceptedIff(t: State)
    requires Inv(t) && NothingOutstanding(t) && t.worker.Collecting? && |t.worker.batch| > 0
    ensures Contiguous(t.window) && Latest(t.window) + |t.worker.batch| < |t.chain|
    ensures Accepts(t.window, t.worker.batch) <==> AnchorAgrees(t.window, t.chain)
  {
    var batch, first := t.worker.batch, Latest(t.window) + 1;
    forall i | 0 <= i < |batch|
      ensures first + i < |t.chain| && batch[i] == t.chain[first + i]
      ensures t.chain[first + i].parent == t.chain[first + i - 1].hash
    {
      QuietBatchBlock(t, i);
    }
    QuietBatchBlock(t, |batch| - 1);
  }

  lemma QuietBatchBlock(t: State, i: nat)
    requires Inv(t) && NothingOutstanding(t) && t.worker.Collecting? && i < |t.worker.batch|
    ensures var k := Latest(t.window) + 1 + i;
            k < |t.chain| && t.worker.batch[i] == t.chain[k] && t.chain[k].parent == t.chain[k - 1].hash
  {
    assert t.worker.batch[i] in t.worker.batch;
    NothingOutstandingIsBelow(t, Latest(t.window) + 1 + i);
  }

  /** Each stored turn shrinks the gap to the goal, and the forward loop goes on with that goal. */
  lemma GapFalls(t: State)
    requires Reachable(t) && Enabled(t, StoreBatch(BatchStored))
    ensures Contiguous(t.window) && Contiguous(Apply(t, StoreBatch(BatchStored)).window)
    ensures Apply(t, StoreBatch(BatchStored)).worker == TurnStart(t.worker.goal)
    ensures 0 <= t.worker.goal - Latest(Apply(t, StoreBatch(BatchStored)).window) < t.worker.goal - Latest(t.window)
  {
    WindowChangesWhole(t, StoreBatch(BatchStored));
  }

  /** No lost wake-up: a parked worker never sleeps on a pending state unless a permit is stored or
      the updater has yet to notify, and that notification wakes it. */
  lemma NoLostWakeUp(t: State)
    requires Reachable(t) && t.worker.Parked? && t.pending.Some?
    ensures t.permit || (Enabled(t, Announce) && Apply(t, Announce).worker.Deciding?)
  {
    ReachableInv(t);
  }

  /** Stripping a covered revert after a landed one is what running it would have done: the window
      would not change, the revert would not fail, and the same forward target remains. */
  lemma StripEqualsRun(t: State)
    requires Reachable(t) && t.worker.Landed? && t.pending.Some? && RevertOf(t.pending.value).Some?
    requires RevertIsCovered(RevertOf(t.pending.value).value, t.worker.to)
    ensures var r := RevertOf(t.pending.value).value;
            && Contiguous(t.window) && !UnwindRefused(t.window, r) && Unwound(t.window, r) == t.window
            && Apply(t, MarkComplete).window == t.window
            && Apply(t, MarkComplete).pending ==
               (if SyncOf(t.pending.value).Some? then Some(SyncUpTo(SyncOf(t.pending.value).value)) else None)
  {
    ReachableInv(t);
    CoveredRevertIsIdle(t.window, t.worker.to, RevertOf(t.pending.value).value);
  }

  // ---------------------------------------------------------------------------------------------
  // When the history stays on one branch
  // ---------------------------------------------------------------------------------------------

  /** The action does not unwind to a target whose parent is not the stored block below it. */
  predicate KeepsAnchor(s: State, a: Action)
    requires Enabled(s, a)
  {
    a.RunRevert? && !a.revert.RevertFails? ==> AnchoredUnwind(s.window, s.worker.to)
  }

  predicate UnwindsAnchored(s: State, run: seq<Action>)
    requires Feasible(s, run)
    decreases |run|
  {
    run != [] ==> KeepsAnchor(s, run[0]) && UnwindsAnchored(Apply(s, run[0]), run[1..])
  }

  predicate AlwaysLinked(s: State, run: seq<Action>)
    requires Feasible(s, run)
    decreases |run|
  {
    Linked(s.window) && (run != [] ==> AlwaysLinked(Apply(s, run[0]), run[1..]))
  }

  lemma StepLinkedIffAnchored(s: State, a: Action)
    requires Inv(s) && Linked(s.window) && Enabled(s, a)
    ensures Linked(Apply(s, a).window) <==> KeepsAnchor(s, a)
  {
    if a.Prune? {
      PruneKeepsBranch(s.window, a.earliest);
    } else if a.RunRevert? {
      RevertLinkedIffAnchored(s, a.revert);
    } else if a.StoreBatch? {
      if a.batch.BatchStored? || a.batch.BatchStoredUnreported? {
        AppendKeepsBranch(s.window, s.worker.batch);
      }
    } else {
      WindowUntouched(s, a);
    }
  }

  lemma WindowUntouched(s: State, a: Action)
    requires Enabled(s, a) && !a.Prune? && !a.RunRevert? && !a.StoreBatch?
    ensures Apply(s, a).window == s.window
  {
  }

  lemma RevertLinkedIffAnchored(s: State, o: RevertOutcome)
    requires Linked(s.window) && Enabled(s, RunRevert(o))
    ensures Linked(RevertStep(s, o).window) <==> KeepsAnchor(s, RunRevert(o))
  {
    if !o.RevertFails? {
      UnwindKeepsBranchIffAnchored(s.window, s.worker.to);
    }
  }

  /** Over any run, failed reverts included, the stored history stays on one branch at every point
      exactly when every unwind that removes blocks names the stored block below it as its parent. */
  lemma {:induction false} OneBranchIffAnchored(s: State, run: seq<Action>)
    requires Inv(s) && Linked(s.window) && Feasible(s, run)
    ensures AlwaysLinked(s, run) <==> UnwindsAnchored(s, run)
    decreases |run|
  {
    if run != [] {
      var t := Apply(s, run[0]);
      StepLinkedIffAnchored(s, run[0]);
      StepKeepsInv(s, run[0]);
      if Linked(t.window) {
        OneBranchIffAnchored(t, run[1..]);
      } else {
        NotLinkedNow(t, run[1..]);
      }
    }
  }

  lemma NotLinkedNow(t: State, run: seq<Action>)
    requires Feasible(t, run) && !Linked(t.window)
    ensures !AlwaysLinked(t, run)
  {
  }

  /** In particular from a started node whose store is not stale. */
  lemma StartedStaysLinkedIffAnchored(s: State, run: seq<Action>)
    requires Initial(s) && Trusted(Latest(s.window), s) && Feasible(s, run)
    ensures AlwaysLinked(s, run) <==> UnwindsAnchored(s, run)
  {
    InitialInv(s);
    WindowIsCanonical(s);
    OneBranchIffAnchored(s, run);
  }

  /** The check made before proofs are served, which compares only the tip: after any run from a node
      whose store was not stale, and as long as every removing unwind was anchored, it passes if and only
      if every stored block is canonical. */
  lemma AnchorCheckIsExact(s: State, run: seq<Action>)
    requires Initial(s) && Trusted(Latest(s.window), s) && Feasible(s, run) && UnwindsAnchored(s, run)
    requires HashesNameBlocks(After(s, run).window.blocks, After(s, run).chain)
    ensures var t := After(s, run);
            Contiguous(t.window) && (AnchorAgrees(t.window, t.chain) <==> WindowCanonical(t.window, t.chain))
  {
    StartedStaysLinkedIffAnchored(s, run);
    LinkedAtTheEnd(s, run);
    StoreCanonicalIff(After(s, run));
  }

  lemma {:induction false} LinkedAtTheEnd(s: State, run: seq<Action>)
    requires Feasible(s, run) && AlwaysLinked(s, run)
    ensures Linked(After(s, run).window)
    decreases |run|
  {
    if run != [] {
      LinkedAtTheEnd(Apply(s, run[0]), run[1..]);
    }
  }
}
