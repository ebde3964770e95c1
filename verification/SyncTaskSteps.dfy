/** The notification task and the pruner keep the protocol invariant. */
module SyncTaskSteps {
  import opened Blocks
  import opened SyncTargets
  import opened ProofWindows
  import opened SyncProtocol
  import opened SyncInvariant

  lemma BelowHeadAndRest(k: int, q: seq<Notification>)
    requires q != []
    ensures BelowQueue(k, q) <==> BelowNotice(k, q[0]) && BelowQueue(k, q[1..])
  {
    assert q == [q[0]] + q[1..];
  }

  lemma PruneKeepsInv(s: State, e: nat)
    requires Inv(s) && Enabled(s, Prune(e))
    ensures Inv(Apply(s, Prune(e)))
  {
    var t := Apply(s, Prune(e));
    assert Latest(t.window) == Latest(s.window);
    assert forall b | b in t.window.blocks :: b in s.window.blocks;
    assert forall k :: Below(k, t) <==> Below(k, s);
  }

  lemma StartedSyncKeepsInv(s: State, t: State)
    requires Inv(s) && s.task.Launching?
    requires t == s.(pending := Some(Updated(s.pending, SyncUpTo(s.task.best))), task := Announcing)
    ensures Inv(t)
  {
    assert Unseen(t) == Unseen(s);
    assert forall k :: BelowState(k, t.pending) <==> BelowState(k, s.pending);
    assert forall k :: Below(k, s) <==> Below(k, t);
    assert WorkerHolds(t);
  }

  lemma StartingKeepsInv(s: State, t: State)
    requires Inv(s) && t == s.(task := t.task)
    requires (s.task.Starting? && t.task.Launching?) || (s.task.Launching? && t.task.Idle?)
    ensures Inv(t)
  {
    assert Unseen(t) == Unseen(s);
    assert forall k :: Below(k, s) <==> Below(k, t);
  }

  lemma ReadBestKeepsInv(s: State)
    requires Inv(s) && Enabled(s, ReadBest)
    ensures Inv(Apply(s, ReadBest))
  {
    StartingKeepsInv(s, Apply(s, ReadBest));
  }

  lemma StartKeepsInv(s: State)
    requires Inv(s) && Enabled(s, Start)
    ensures Inv(Apply(s, Start))
  {
    var t := Apply(s, Start);
    if t.task.Idle? {
      StartingKeepsInv(s, t);
    } else {
      StartedSyncKeepsInv(s, t);
    }
  }

  lemma ReceiveKeepsInv(s: State)
    requires Inv(s) && Enabled(s, Receive)
    ensures Inv(Apply(s, Receive))
  {
    var t := Apply(s, Receive);
    assert forall k :: Below(k, s) <==> Below(k, t);
    forall k | k in t.cache && BelowQueue(k, Unseen(t)) ensures OnChain(t.chain, t.cache[k].block) {
      BelowHeadAndRest(k, s.queue);
    }
  }

  lemma ClearCacheKeepsInv(s: State)
    requires Inv(s) && Enabled(s, ClearCache)
    ensures Inv(Apply(s, ClearCache))
  {
    var t := Apply(s, ClearCache);
    assert forall k :: Below(k, s) <==> Below(k, t);
    assert t.cache.Keys <= s.cache.Keys;
    assert |t.cache| <= |s.cache| by { SubMapIsSmaller(t.cache, s.cache); }
    forall k | k in t.cache && BelowQueue(k, Unseen(t)) ensures OnChain(t.chain, t.cache[k].block) {
      BelowHeadAndRest(k, s.queue);
    }
  }

  lemma CacheBlockKeepsCache(s: State)
    requires Sound(s) && Enabled(s, CacheBlock)
    ensures CacheHolds(CacheBlockStep(s))
  {
    var t := CacheBlockStep(s);
    var f := AddedOf(s.queue[0])[s.task.done];
    assert Unseen(s) == Unseen(t) == s.queue[1..];
    assert f in AddedOf(s.queue[0]);
    if f.trie.Some? {
      var grown := s.cache[f.block.number := CachedBlock(f.block, f.trie.value)];
      EvictionIsLowestFirst(grown);
      assert forall k | k in t.cache :: k in grown && t.cache[k] == grown[k];
    }
  }

  lemma CacheBlockKeepsInv(s: State)
    requires Inv(s) && Enabled(s, CacheBlock)
    ensures Inv(CacheBlockStep(s))
  {
    var t := CacheBlockStep(s);
    CacheBlockKeepsCache(s);
    assert t == s.(cache := t.cache, task := t.task);
    SameStoreHolds(s, t);
    SameWorkerHolds(s, t);
  }

  lemma SameWorkerHolds(s: State, t: State)
    requires Contiguous(s.window) && WorkerHolds(s) && t == s.(cache := t.cache, task := t.task)
    ensures WorkerHolds(t)
  {
    assert forall k :: Below(k, s) <==> Below(k, t);
  }

  lemma AnnounceKeepsInv(s: State)
    requires Inv(s) && Enabled(s, Announce)
    ensures Inv(Apply(s, Announce))
  {
    if s.worker.Parked? {
      AnnouncedKeepsInv(s, s.(task := Idle, worker := Deciding));
    } else {
      AnnouncedKeepsInv(s, s.(task := Idle, permit := true));
    }
  }

  lemma AnnouncedKeepsInv(s: State, t: State)
    requires Inv(s) && s.task.Announcing?
    requires t == if s.worker.Parked? then s.(task := Idle, worker := Deciding) else s.(task := Idle, permit := true)
    ensures Inv(t)
  {
    assert Unseen(t) == Unseen(s);
    assert forall k :: Below(k, s) <==> Below(k, t);
  }

  /** Delivery moves the head's revert from the queue into the pending state, so the outstanding
      reverts stay the same as a whole. */
  lemma DeliverKeepsFloors(s: State, k: nat)
    requires Enabled(s, Deliver)
    ensures Below(k, s) <==> Below(k, Apply(s, Deliver))
    ensures BelowQueue(k, s.queue) && BelowState(k, s.pending) <==>
            BelowQueue(k, s.queue[1..]) && BelowState(k, Apply(s, Deliver).pending)
  {
    BelowHeadAndRest(k, s.queue);
    var n := StateOf(s.queue[0]);
    assert BelowState(k, Some(n)) <==> BelowNotice(k, s.queue[0]);
    if s.pending.Some? {
      MergeKeepsFloor(s.pending.value, n, k);
    }
  }

  lemma DeliverKeepsPending(s: State)
    requires Inv(s) && Enabled(s, Deliver)
    ensures PendingHolds(Apply(s, Deliver))
  {
    var t := Apply(s, Deliver);
    var n := s.queue[0];
    assert NoticeHolds(n, s.queue[1..], s.chain);
    if RevertOf(t.pending.value).Some? {
      var r := RevertOf(t.pending.value).value;
      if BelowQueue(r.number - 1, t.queue) {
        BelowHeadAndRest(r.number - 1, s.queue);
      }
    }
  }

  lemma DeliverKeepsWorker(s: State)
    requires Inv(s) && Enabled(s, Deliver)
    ensures WorkerHolds(Apply(s, Deliver))
  {
    var t := Apply(s, Deliver);
    match s.worker {
      case Reverting(to, _) => DeliverKeepsFloors(s, to.number - 1);
      case Collecting(_, _, batch, _) =>
        forall b | b in batch && Below(b.number, t) ensures OnChain(t.chain, b) {
          DeliverKeepsFloors(s, b.number);
        }
      case _ =>
    }
  }

  lemma DeliverKeepsStore(s: State)
    requires Inv(s) && Enabled(s, Deliver)
    ensures StoreHolds(Apply(s, Deliver)) && GoalHolds(Apply(s, Deliver))
  {
    var t := Apply(s, Deliver);
    forall b | b in t.window.blocks && Trusted(b.number, t) && Below(b.number, t) ensures OnChain(t.chain, b) {
      DeliverKeepsFloors(s, b.number);
    }
    DeliverKeepsFloors(s, Latest(s.window));
    if t.queue == [] {
      assert |s.queue| == 1;
    }
  }

  lemma DeliverKeepsInv(s: State)
    requires Inv(s) && Enabled(s, Deliver)
    ensures Inv(Apply(s, Deliver))
  {
    var t := Apply(s, Deliver);
    DeliverKeepsPending(s);
    DeliverKeepsWorker(s);
    assert Unseen(t) == Unseen(s);
    if t.queue != [] {
      assert t.queue[|t.queue| - 1] == s.queue[|s.queue| - 1];
    }
    DeliverKeepsStore(s);
  }
}
