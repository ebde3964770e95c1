/** The background worker keeps the protocol invariant. */
module SyncWorkerSteps {
  import opened Blocks
  import opened SyncTargets
  import opened ProofWindows
  import opened SyncProtocol
  import opened SyncInvariant

  /** A step that only moves the worker (and the slots beside it) keeps what does not mention it. */
  lemma WorkerMoved(s: State, t: State)
    requires Inv(s)
    requires t == s.(worker := t.worker, pending := t.pending, permit := t.permit)
    requires PendingHolds(t) && WorkerHolds(t) && WakeHolds(t)
    requires forall k :: Below(k, s) <==> Below(k, t)
    requires GoalHolds(t)
    ensures Inv(t)
  {
    assert Unseen(t) == Unseen(s);
  }

  lemma TakeKeepsInv(s: State)
    requires Inv(s) && Enabled(s, Take)
    ensures Inv(TakeStep(s))
  {
    match s.pending
    case None => WorkerMoved(s, s.(worker := Waiting));
    case Some(SyncUpTo(g)) => WorkerMoved(s, s.(pending := None, worker := TurnStart(g)));
    case Some(RevertThenSync(r, g)) => TakeRevertKeepsInv(s, r, Some(g));
    case Some(Revert(r)) => TakeRevertKeepsInv(s, r, None);
  }

  lemma TakeRevertKeepsInv(s: State, r: Block, sync: Option<nat>)
    requires Inv(s) && s.worker.Deciding? && s.pending.Some?
    requires RevertOf(s.pending.value) == Some(r) && SyncOf(s.pending.value) == sync
    ensures Inv(s.(pending := None, worker := Reverting(r, sync)))
  {
    WorkerMoved(s, s.(pending := None, worker := Reverting(r, sync)));
  }

  lemma WaitKeepsInv(s: State)
    requires Inv(s) && Enabled(s, Wait)
    ensures Inv(Apply(s, Wait))
  {
    var t := Apply(s, Wait);
    assert forall k :: Below(k, s) <==> Below(k, t);
  }

  lemma RearmKeepsInv(s: State)
    requires Inv(s) && Enabled(s, Rearm)
    ensures Inv(Apply(s, Rearm))
  {
    var t := Apply(s, Rearm);
    assert forall k :: Below(k, s) <==> Below(k, t);
  }

  /** Requeueing the forward goal keeps the outstanding reverts and the goal. */
  lemma RequeueKeepsInv(s: State, goal: nat)
    requires Inv(s) && GoalOf(s.worker) == Some(goal) && !s.worker.Reverting?
    ensures Inv(Requeue(s, goal))
  {
    var t := Requeue(s, goal);
    assert forall k :: Below(k, s) <==> Below(k, t);
  }

  lemma CheckPendingKeepsInv(s: State)
    requires Inv(s) && Enabled(s, CheckPending)
    ensures Inv(Apply(s, CheckPending))
  {
    var t := Apply(s, CheckPending);
    assert forall k :: Below(k, s) <==> Below(k, t);
  }

  lemma ReadLatestKeepsInv(s: State, readable: bool)
    requires Inv(s) && Enabled(s, ReadLatest(readable))
    ensures Inv(Apply(s, ReadLatest(readable)))
  {
    if readable {
      WorkerMoved(s, Apply(s, ReadLatest(true)));
    } else {
      RequeueKeepsInv(s, s.worker.goal);
    }
  }

  /** One more block in the batch, canonical below every outstanding revert. */
  lemma GrownBatch(s: State, t: State, b: Block)
    requires Inv(s) && s.worker.Collecting? && !BatchComplete(s.worker)
    requires b.number == NextNumber(s.worker)
    requires Below(b.number, s) ==> OnChain(s.chain, b)
    requires t == s.(worker := s.worker.(batch := s.worker.batch + [b], fetch := false))
    ensures Inv(t)
  {
    assert forall k :: Below(k, s) <==> Below(k, t);
  }

  lemma SmallerCache(s: State, n: nat)
    requires Inv(s)
    ensures Inv(s.(cache := s.cache - {n}))
  {
    var t := s.(cache := s.cache - {n});
    SubMapIsSmaller(t.cache, s.cache);
    assert Unseen(t) == Unseen(s);
    CacheMoved(s, t);
  }

  lemma CacheMoved(s: State, t: State)
    requires Inv(s) && t == s.(cache := t.cache) && CacheHolds(t)
    ensures Inv(t)
  {
    assert forall k :: Below(k, s) <==> Below(k, t);
  }

  lemma TakeCachedKeepsInv(s: State)
    requires Inv(s) && Enabled(s, TakeCached)
    ensures Inv(TakeCachedStep(s))
  {
    var n := NextNumber(s.worker);
    if n in s.cache && !MustVerify(s.interval, n) {
      TakeHitKeepsInv(s, n);
    } else {
      TakeMissKeepsInv(s, n);
    }
  }

  lemma TakeMissKeepsInv(s: State, n: nat)
    requires Inv(s) && Enabled(s, TakeCached)
    ensures Inv(s.(cache := s.cache - {n}, worker := s.worker.(fetch := true)))
  {
    var rest := s.(cache := s.cache - {n});
    SmallerCache(s, n);
    WorkerMoved(rest, rest.(worker := s.worker.(fetch := true)));
  }

  lemma TakeHitKeepsInv(s: State, n: nat)
    requires Inv(s) && Enabled(s, TakeCached) && n == NextNumber(s.worker) && n in s.cache
    ensures var rest := s.(cache := s.cache - {n});
            Inv(rest.(worker := s.worker.(batch := s.worker.batch + [s.cache[n].block])))
  {
    var rest := s.(cache := s.cache - {n});
    SmallerCache(s, n);
    CachedBlockIsCanonical(s, n);
    GrownBatch(rest, rest.(worker := s.worker.(batch := s.worker.batch + [s.cache[n].block])), s.cache[n].block);
  }

  lemma CachedBlockIsCanonical(s: State, n: nat)
    requires CacheHolds(s) && n in s.cache
    ensures s.cache[n].block.number == n && (Below(n, s) ==> OnChain(s.chain, s.cache[n].block))
  {
    if Below(n, s) {
      UnseenIsBelow(s, n);
    }
  }

  lemma UnseenIsBelow(s: State, k: int)
    requires BelowQueue(k, s.queue)
    ensures BelowQueue(k, Unseen(s))
  {
    assert forall n | n in Unseen(s) :: n in s.queue;
  }

  lemma FetchKeepsInv(s: State, found: bool)
    requires Inv(s) && Enabled(s, Fetch(found))
    ensures Inv(Apply(s, Fetch(found)))
  {
    if found {
      var b := s.chain[NextNumber(s.worker)];
      GrownBatch(s, Apply(s, Fetch(true)), b);
    } else {
      RequeueKeepsInv(s, s.worker.goal);
    }
  }

  // ---------------------------------------------------------------------------------------------
  // Reverts
  // ---------------------------------------------------------------------------------------------

  lemma UnwoundShape(w: Window, to: Block)
    requires Contiguous(w) && !UnwindRefused(w, to)
    ensures Contiguous(Unwound(w, to)) && Latest(Unwound(w, to)) < to.number
    ensures forall b | b in Unwound(w, to).blocks :: b in w.blocks && b.number < to.number
    ensures Latest(Unwound(w, to)) == if Latest(w) < to.number then Latest(w) else to.number - 1
  {
    var u := Unwound(w, to);
    forall b | b in u.blocks ensures b in w.blocks && b.number < to.number {
      var i :| 0 <= i < |u.blocks| && u.blocks[i] == b;
      assert w.blocks[i] == b;
    }
  }

  /** Below its target an unwind neither adds nor removes; at the new tip the target names the hash. */
  lemma LandedKeepsStore(s: State, o: RevertOutcome)
    requires Inv(s) && Enabled(s, RunRevert(o)) && !o.RevertFails?
    ensures Contiguous(Apply(s, RunRevert(o)).window) && StoreHolds(Apply(s, RunRevert(o)))
  {
    var t := Apply(s, RunRevert(o));
    var to := s.worker.to;
    UnwoundShape(s.window, to);
    assert forall k :: Below(k, t) && k < to.number ==> Below(k, s);
    assert forall k :: Trusted(k, t) && k < to.number ==> Trusted(k, s);
  }

  lemma FailedKeepsStore(s: State)
    requires Inv(s) && Enabled(s, RunRevert(RevertFails))
    ensures StoreHolds(Apply(s, RunRevert(RevertFails)))
  {
    var t := Apply(s, RunRevert(RevertFails));
    var to := s.worker.to;
    forall k: nat | k <= Latest(s.window) && Trusted(k, t) && Below(k, t) ensures Trusted(k, s) && Below(k, s) {
    }
  }

  lemma RunRevertKeepsSound(s: State, o: RevertOutcome)
    requires Inv(s) && Enabled(s, RunRevert(o))
    ensures Sound(Apply(s, RunRevert(o))) && WakeHolds(Apply(s, RunRevert(o))) && GoalHolds(Apply(s, RunRevert(o)))
  {
    var t := Apply(s, RunRevert(o));
    if !UnwindRefused(s.window, s.worker.to) {
      UnwoundShape(s.window, s.worker.to);
    }
    assert Unseen(t) == Unseen(s);
  }

  lemma RunRevertKeepsInv(s: State, o: RevertOutcome)
    requires Inv(s) && Enabled(s, RunRevert(o))
    ensures Inv(Apply(s, RunRevert(o)))
  {
    RunRevertKeepsSound(s, o);
    if o.RevertFails? {
      FailedKeepsStore(s);
    } else {
      LandedKeepsStore(s, o);
    }
  }

  lemma MarkCompleteKeepsInv(s: State)
    requires Inv(s) && Enabled(s, MarkComplete)
    ensures Inv(Apply(s, MarkComplete))
  {
    var t := Apply(s, MarkComplete);
    MarkCompleteKeepsSound(s, t);
    MarkCompleteKeepsStore(s, t);
  }

  lemma MarkCompleteKeepsSound(s: State, t: State)
    requires Inv(s) && Enabled(s, MarkComplete) && t == Apply(s, MarkComplete)
    ensures Sound(t) && WakeHolds(t)
  {
    assert Unseen(t) == Unseen(s);
  }

  lemma MarkCompleteKeepsStore(s: State, t: State)
    requires Inv(s) && Enabled(s, MarkComplete) && t == Apply(s, MarkComplete)
    ensures Contiguous(t.window) && StoreHolds(t) && GoalHolds(t)
  {
    var to := s.worker.to;
    assert forall k :: Below(k, t) && k < to.number ==> Below(k, s);
    assert forall b | b in s.window.blocks :: b.number < to.number;
  }

  // ---------------------------------------------------------------------------------------------
  // Batches
  // ---------------------------------------------------------------------------------------------

  lemma AppendedShape(w: Window, batch: seq<Block>)
    requires Contiguous(w) && |batch| > 0 && Numbered(batch, Latest(w) + 1)
    ensures Contiguous(Appended(w, batch)) && Latest(Appended(w, batch)) == Latest(w) + |batch|
    ensures batch[|batch| - 1] in batch
  {
  }

  lemma StoredKeepsInv(s: State)
    requires Inv(s) && Enabled(s, StoreBatch(BatchStored))
    ensures Inv(Apply(s, StoreBatch(BatchStored)))
  {
    var t := s.(window := Appended(s.window, s.worker.batch), worker := TurnStart(s.worker.goal));
    AppendedShape(s.window, s.worker.batch);
    assert forall k :: Below(k, s) <==> Below(k, t);
    StoredKeepsStore(s, t);
    assert Unseen(t) == Unseen(s);
  }

  lemma StoredKeepsStore(s: State, t: State)
    requires Inv(s) && s.worker.Collecting? && |s.worker.batch| > 0
    requires t == s.(window := Appended(s.window, s.worker.batch), worker := TurnStart(s.worker.goal))
    ensures Contiguous(t.window) && StoreHolds(t)
  {
    var batch := s.worker.batch;
    AppendedShape(s.window, batch);
    assert forall k :: Below(k, s) <==> Below(k, t);
    if Below(Latest(t.window), t) {
      var last := batch[|batch| - 1];
      assert last.number == Latest(t.window) && OnChain(s.chain, last);
    }
  }

  /** Below the suspect height and the outstanding reverts the whole window is a piece of the canonical
      chain. */
  lemma WindowIsCanonical(s: State)
    requires Inv(s) && Trusted(Latest(s.window), s) && Below(Latest(s.window), s)
    ensures Linked(s.window) && Latest(s.window) < |s.chain|
    ensures forall b | b in s.window.blocks :: OnChain(s.chain, b)
    ensures s.window.tipHash == s.chain[Latest(s.window)].hash
  {
    var w := s.window;
    forall b | b in w.blocks ensures OnChain(s.chain, b) {
      LowerIsBelow(s, b.number, Latest(w));
    }
    forall i | 0 <= i < |w.blocks| ensures w.blocks[i] == s.chain[w.earliest + i] {
      assert w.blocks[i] in w.blocks;
    }
    forall i | 0 < i < |w.blocks| ensures w.blocks[i].parent == w.blocks[i - 1].hash {
      assert s.chain[w.earliest + i].parent == s.chain[w.earliest + i - 1].hash;
    }
  }

  lemma LowerIsBelow(s: State, j: int, k: int)
    requires j <= k && Below(k, s)
    ensures Below(j, s)
  {
  }

  /** A batch that ends below the outstanding reverts always fits a tip below the suspect height. */
  lemma BatchIsAccepted(s: State)
    requires Inv(s) && Trusted(Latest(s.window), s) && s.worker.Collecting? && |s.worker.batch| > 0
    requires Below(Latest(s.window) + |s.worker.batch|, s)
    ensures Accepts(s.window, s.worker.batch)
  {
    var batch := s.worker.batch;
    var first := Latest(s.window) + 1;
    LowerIsBelow(s, Latest(s.window), Latest(s.window) + |batch|);
    WindowIsCanonical(s);
    forall i | 0 <= i < |batch|
      ensures first + i < |s.chain| && batch[i] == s.chain[first + i]
      ensures s.chain[first + i].parent == s.chain[first + i - 1].hash
    {
      assert batch[i] in batch && batch[i].number == first + i;
      LowerIsBelow(s, first + i, Latest(s.window) + |batch|);
    }
  }

  lemma RefusedKeepsInv(s: State)
    requires Inv(s) && Enabled(s, StoreBatch(BatchRefused))
    ensures Inv(Apply(s, StoreBatch(BatchRefused)))
  {
    var t := Apply(s, StoreBatch(BatchRefused));
    SameStoreHolds(s, t);
  }

  lemma StoreBatchKeepsInv(s: State, o: BatchOutcome)
    requires Inv(s) && Enabled(s, StoreBatch(o))
    ensures Inv(Apply(s, StoreBatch(o)))
  {
    match o
    case BatchStored => StoredKeepsInv(s);
    case BatchStoredUnreported =>
      StoredKeepsInv(s);
      var t := Apply(s, StoreBatch(BatchStored));
      RequeueKeepsInv(t, s.worker.goal);
      assert Requeue(t, s.worker.goal) == Apply(s, StoreBatch(o));
    case BatchRefused => RefusedKeepsInv(s);
    case BatchTransient => RequeueKeepsInv(s, s.worker.goal);
  }
}
