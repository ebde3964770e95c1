/** Runs on which the sync protocol does less than its comments promise. */
module SyncFindings {
  import opened Blocks
  import opened SyncTargets
  import opened ProofWindows
  import opened SyncProtocol
  import opened SyncInvariant
  import opened SyncTheorems
  import opened SyncProgress
  import opened SyncWorkers

  const G := Block(0, 100, 99)
  const A1 := Block(1, 101, 100)
  const A2 := Block(2, 102, 101)
  const A3 := Block(3, 103, 102)
  const B2 := Block(2, 202, 101)
  const B3 := Block(3, 203, 202)
  const C3 := Block(3, 303, 202)

  function Started(chain: seq<Block>, stored: seq<Block>): State
    requires |stored| > 0
  {
    State(chain, [], Starting, map[], None, false, Deciding,
          Window(stored[0].number, stored, stored[|stored| - 1].hash), 0, None, false, Quiet)
  }

  // ---------------------------------------------------------------------------------------------
  // A failed revert followed by a shallower one mixes two branches
  // ---------------------------------------------------------------------------------------------

  /** A lone revert notification goes through the task with an empty cache. */
  lemma RevertDelivered(s0: State, run: seq<Action>, s: State, first: Block) returns (longer: seq<Action>, t: State)
    requires Feasible(s0, run) && s == After(s0, run)
    requires s.queue == [ChainReverted(first)] && s.task.Idle? && s.pending.None?
    ensures Feasible(s0, longer) && t == After(s0, longer)
    ensures t == s.(queue := [], task := Announcing, cache := ClearedFrom(s.cache, first.number),
                    pending := Some(Revert(first)))
  {
    longer, t := Do(s0, run, s, Receive);
    longer, t := Do(s0, longer, t, ClearCache);
    longer, t := Do(s0, longer, t, Deliver);
    assert s.queue[1..] == [];
  }

  /** The store holds G, A1, A2, A3. The chain drops A2 and A3, and the revert for it fails. */
  lemma RevertFailsFirst() returns (s0: State, run: seq<Action>, s: State)
    ensures Initial(s0) && Feasible(s0, run) && s == After(s0, run)
    ensures s == Started([G, A1], [G, A1, A2, A3])
                 .(task := Announcing, suspect := Some(2), gaveUp := true, newest := Backward)
  {
    s0 := Started([G, A1, A2, A3], [G, A1, A2, A3]);
    StartedIsInitial(s0);
    run, s := Do(s0, [], s0, RevertChain(2));
    assert s.chain == [G, A1] && s.queue == [ChainReverted(A2)];
    run, s := Starts(s0, run, s);
    run, s := RevertDelivered(s0, run, s, A2);
    assert ClearedFrom(map[], 2) == map[];
    run, s := Do(s0, run, s, Take);
    run, s := Do(s0, run, s, RunRevert(RevertFails));
  }

  lemma StartedIsInitial(s: State)
    requires s == Started([G, A1, A2, A3], [G, A1, A2, A3])
    ensures Initial(s)
  {
  }

  /** The chain grows B2, B3 and then swaps B3 for C3; both notifications reach the worker. */
  lemma ShallowReorgArrives(s0: State, run: seq<Action>, s: State) returns (longer: seq<Action>, t: State)
    requires Feasible(s0, run) && s == After(s0, run)
    requires s == Started([G, A1], [G, A1, A2, A3])
                  .(task := Announcing, suspect := Some(2), gaveUp := true, newest := Backward)
    ensures Feasible(s0, longer) && t == After(s0, longer)
    ensures t == Started([G, A1, B2, C3], [G, A1, A2, A3])
                 .(task := Announcing, suspect := Some(2), newest := Forward, permit := true,
                   cache := map[3 := CachedBlock(C3, 0)], pending := Some(RevertThenSync(B3, 3)))
  {
    longer, t := Do(s0, run, s, Announce);
    longer, t := Do(s0, longer, t, Commit([NewBlock(B2, None), NewBlock(B3, None)]));
    assert t.chain == [G, A1, B2, B3];
    longer, t := CommitHandled(s0, longer, t);
    longer, t := Do(s0, longer, t, Announce);
    longer, t := ReorgDelivered(s0, longer, t);
  }

  lemma CommitHandled(s0: State, run: seq<Action>, s: State) returns (longer: seq<Action>, t: State)
    requires Feasible(s0, run) && s == After(s0, run)
    requires s.queue == [ChainCommitted([NewBlock(B2, None), NewBlock(B3, None)])] && s.cache == map[] && s.task.Idle?
    requires s.pending.None?
    ensures Feasible(s0, longer) && t == After(s0, longer)
    ensures t == s.(queue := [], task := Announcing, pending := Some(SyncUpTo(3)))
  {
    longer, t := Do(s0, run, s, Receive);
    longer, t := Do(s0, longer, t, CacheBlock);
    longer, t := Do(s0, longer, t, CacheBlock);
    longer, t := Do(s0, longer, t, Deliver);
    assert t.queue == [];
  }

  lemma ReorgDelivered(s0: State, run: seq<Action>, s: State) returns (longer: seq<Action>, t: State)
    requires Feasible(s0, run) && s == After(s0, run)
    requires s.chain == [G, A1, B2, B3] && s.queue == [] && s.cache == map[] && s.task.Idle?
    requires s.pending == Some(SyncUpTo(3))
    ensures Feasible(s0, longer) && t == After(s0, longer)
    ensures t == s.(chain := [G, A1, B2, C3], task := Announcing, newest := Forward, gaveUp := false,
                    cache := map[3 := CachedBlock(C3, 0)], pending := Some(RevertThenSync(B3, 3)))
  {
    longer, t := Do(s0, run, s, Reorg(3, [NewBlock(C3, Some(0))]));
    assert t.chain == [G, A1, B2, C3] && t.queue == [ChainReorged(B3, [NewBlock(C3, Some(0))])];
    longer, t := ReorgHandled(s0, longer, t);
  }

  lemma ReorgHandled(s0: State, run: seq<Action>, s: State) returns (longer: seq<Action>, t: State)
    requires Feasible(s0, run) && s == After(s0, run)
    requires s.queue == [ChainReorged(B3, [NewBlock(C3, Some(0))])] && s.cache == map[] && s.task.Idle?
    requires s.pending == Some(SyncUpTo(3))
    ensures Feasible(s0, longer) && t == After(s0, longer)
    ensures t == s.(queue := [], task := Announcing, cache := map[3 := CachedBlock(C3, 0)],
                    pending := Some(RevertThenSync(B3, 3)))
  {
    longer, t := Do(s0, run, s, Receive);
    longer, t := Do(s0, longer, t, ClearCache);
    assert t.cache == map[];
    longer, t := Do(s0, longer, t, CacheBlock);
    assert t.cache == map[3 := CachedBlock(C3, 0)];
    longer, t := Do(s0, longer, t, Deliver);
    assert t.queue == [];
  }

  /** The worker takes a revert with a forward goal, unwinds, and starts its forward loop. */
  lemma WorkerUnwinds(s0: State, run: seq<Action>, s: State) returns (longer: seq<Action>, t: State)
    requires Feasible(s0, run) && s == After(s0, run) && s.worker.Deciding?
    requires s.pending.Some? && s.pending.value.RevertThenSync?
    requires |s.window.blocks| > 0 && UnwindRemoves(s.window, s.pending.value.revertTo)
    ensures Feasible(s0, longer) && t == After(s0, longer)
    ensures t == s.(pending := None, worker := TurnStart(s.pending.value.syncTo),
                    suspect := Lifted(s.suspect, s.pending.value.revertTo.number),
                    window := Unwound(s.window, s.pending.value.revertTo))
  {
    longer, t := Do(s0, run, s, Take);
    longer, t := Do(s0, longer, t, RunRevert(RevertLands));
    longer, t := Do(s0, longer, t, MarkComplete);
  }

  /** One forward turn that stores the single cached block it needs. */
  lemma WorkerStoresCached(s0: State, run: seq<Action>, s: State, c: Block) returns (longer: seq<Action>, t: State)
    requires Feasible(s0, run) && s == After(s0, run) && s.pending.None?
    requires s.window.earliest == 0 && |s.window.blocks| == c.number && s.worker == TurnStart(c.number)
    requires s.cache == map[c.number := CachedBlock(c, 0)] && s.interval == 0 && c.parent == s.window.tipHash
    requires c.number > 0
    ensures Feasible(s0, longer) && t == After(s0, longer)
    ensures t == s.(cache := map[], window := Window(0, s.window.blocks + [c], c.hash))
  {
    longer, t := Do(s0, run, s, CheckPending);
    longer, t := Do(s0, longer, t, ReadLatest(true));
    longer, t := StoresTheCached(s0, longer, t, c);
  }

  lemma StoresTheCached(s0: State, run: seq<Action>, s: State, c: Block) returns (longer: seq<Action>, t: State)
    requires Feasible(s0, run) && s == After(s0, run)
    requires s.window.earliest == 0 && |s.window.blocks| == c.number > 0
    requires s.worker == Collecting(c.number, c.number - 1, [], false)
    requires s.cache == map[c.number := CachedBlock(c, 0)] && s.interval == 0 && c.parent == s.window.tipHash
    ensures Feasible(s0, longer) && t == After(s0, longer)
    ensures t == s.(cache := map[], window := Window(0, s.window.blocks + [c], c.hash), worker := TurnStart(c.number))
  {
    longer, t := Do(s0, run, s, TakeCached);
    assert t.worker == Collecting(c.number, c.number - 1, [c], false) && t.cache == map[];
    longer, t := Do(s0, longer, t, StoreBatch(BatchStored));
  }

  /** The worker reverts to height three, then appends the cached replacement. */
  lemma WorkerAppends(s0: State, run: seq<Action>, s: State, c: Block) returns (longer: seq<Action>, t: State)
    requires Feasible(s0, run) && s == After(s0, run) && s.worker.Deciding? && c.number == 3
    requires s.window.earliest == 0 && |s.window.blocks| > 3
    requires s.pending.Some? && s.pending.value.RevertThenSync?
    requires s.pending.value.revertTo.number == 3 && s.pending.value.syncTo == 3
    requires s.cache == map[3 := CachedBlock(c, 0)] && s.interval == 0 && c.parent == s.pending.value.revertTo.parent
    ensures Feasible(s0, longer) && t == After(s0, longer)
    ensures t == s.(pending := None, cache := map[], worker := Deciding, suspect := Lifted(s.suspect, 3),
                    window := Window(0, s.window.blocks[..3] + [c], c.hash))
  {
    longer, t := WorkerUnwinds(s0, run, s);
    longer, t := WorkerStoresCached(s0, longer, t, c);
    longer, t := Do(s0, longer, t, CheckPending);
    longer, t := Do(s0, longer, t, ReadLatest(true));
  }

  lemma MixedAtRest() returns (s0: State, run: seq<Action>, s: State)
    ensures Initial(s0) && Feasible(s0, run) && s == After(s0, run)
    ensures s == Started([G, A1, B2, C3], [G, A1, A2, C3])
                 .(task := Announcing, suspect := Some(2), newest := Forward, permit := true)
  {
    s0, run, s := RevertFailsFirst();
    run, s := ShallowReorgArrives(s0, run, s);
    run, s := WorkerAppends(s0, run, s, C3);
    assert s.window.blocks == [G, A1, A2, C3];
  }

  /** After one failed revert the parent check does not protect the store: the run ends at rest with
      A2 of the abandoned branch below C3 of the canonical one, and nothing left to repair it. */
  lemma FailedRevertMixesBranches() returns (t: State)
    ensures Reachable(t) && AtRest(t) && NothingOutstanding(t) && t.newest.Forward? && !t.gaveUp
    ensures t.chain == [G, A1, B2, C3] && t.window.blocks == [G, A1, A2, C3]
    ensures C3.parent != A2.hash && !Linked(t.window)
  {
    var s0, run, s := MixedAtRest();
    assert s.window.blocks[3].parent != s.window.blocks[2].hash;
    t := s;
  }

  const D4 := Block(4, 904, 303)

  /** The run goes on with D4. Nothing is outstanding, the recorded tip is canonical and the parent check
      accepts the batch, and yet the store holds A2 where B2 is canonical. */
  lemma MixedStoreWithCanonicalTip() returns (t: State)
    ensures Reachable(t) && NothingOutstanding(t) && t.queue == [] && t.pending.None? && !t.gaveUp
    ensures t.chain == [G, A1, B2, C3, D4] && t.window.blocks == [G, A1, A2, C3]
    ensures t.worker == Collecting(4, 3, [D4], false)
    ensures AnchorAgrees(t.window, t.chain) && Accepts(t.window, t.worker.batch) && Enabled(t, StoreBatch(BatchRefused))
    ensures !Linked(t.window) && !WindowCanonical(t.window, t.chain)
  {
    var s0, run, s := MixedTurnOpens();
    run, s := FetchesCanonical(s0, run, s, D4);
    t := s;
    MixedWindow(t);
  }

  lemma MixedTurnOpens() returns (s0: State, run: seq<Action>, s: State)
    ensures Initial(s0) && Feasible(s0, run) && s == After(s0, run)
    ensures s == Started([G, A1, B2, C3, D4], [G, A1, A2, C3])
                 .(task := Announcing, suspect := Some(2), newest := Forward, permit := true,
                   worker := Collecting(4, 3, [], false))
  {
    s0, run, s := MixedAtRest();
    run, s := CommitsD4(s0, run, s);
    run, s := HandledPlainly(s0, run, s);
    run, s := OpensTurn(s0, run, s, 4);
  }

  lemma CommitsD4(s0: State, run: seq<Action>, s: State) returns (longer: seq<Action>, t: State)
    requires Feasible(s0, run) && s == After(s0, run) && s.chain == [G, A1, B2, C3] && s.queue == []
    requires s.task.Announcing? && !s.worker.Parked? && !s.gaveUp
    ensures Feasible(s0, longer) && t == After(s0, longer)
    ensures t == s.(chain := [G, A1, B2, C3, D4], queue := [ChainCommitted([NewBlock(D4, None)])], task := Idle,
                    permit := true, newest := Forward)
  {
    longer, t := Do(s0, run, s, Announce);
    longer, t := Do(s0, longer, t, Commit([NewBlock(D4, None)]));
    assert t.chain == [G, A1, B2, C3, D4];
  }

  lemma MixedWindow(t: State)
    requires t.chain == [G, A1, B2, C3, D4] && t.window == Window(0, [G, A1, A2, C3], 303)
    ensures AnchorAgrees(t.window, t.chain) && !Linked(t.window) && !WindowCanonical(t.window, t.chain)
  {
    assert t.window.blocks[3].parent != t.window.blocks[2].hash;
    assert t.chain[0..4][2] == B2;
  }

  // ---------------------------------------------------------------------------------------------
  // Without any failed revert the history may be mixed while a deeper revert is on its way
  // ---------------------------------------------------------------------------------------------

  const Y1 := Block(1, 401, 100)
  const Y2 := Block(2, 402, 401)
  const Y3 := Block(3, 403, 402)
  const Z3 := Block(3, 503, 102)

  const SWAP_TIP := ChainReorged(A3, [NewBlock(Z3, Some(0))])
  const SWAP_ALL := ChainReorged(A1, [NewBlock(Y1, None), NewBlock(Y2, None), NewBlock(Y3, None)])

  lemma TurnTowardThree() returns (s0: State, run: seq<Action>, s: State)
    ensures Initial(s0) && Feasible(s0, run) && s == After(s0, run)
    ensures s == Started([G, A1, A2, A3], [G]).(task := Announcing, worker := Collecting(3, 0, [], false))
  {
    s0 := Started([G, A1, A2, A3], [G]);
    run, s := Starts(s0, [], s0);
    run, s := Do(s0, run, s, Take);
    run, s := Do(s0, run, s, CheckPending);
    run, s := Do(s0, run, s, ReadLatest(true));
  }

  /** The worker starts a turn toward block three; meanwhile the chain swaps its tip, then all of it. */
  lemma TwoReorgsDuringTurn() returns (s0: State, run: seq<Action>, s: State)
    ensures Initial(s0) && Feasible(s0, run) && s == After(s0, run)
    ensures s == Started([G, Y1, Y2, Y3], [G]).(queue := [SWAP_TIP, SWAP_ALL], task := Announcing, newest := Forward,
                   worker := Collecting(3, 0, [], false))
  {
    s0, run, s := TurnTowardThree();
    run, s := Do(s0, run, s, Reorg(3, [NewBlock(Z3, Some(0))]));
    assert s.chain == [G, A1, A2, Z3] && s.queue == [SWAP_TIP];
    run, s := Do(s0, run, s, Reorg(1, [NewBlock(Y1, None), NewBlock(Y2, None), NewBlock(Y3, None)]));
    assert s.chain == [G, Y1, Y2, Y3] && s.queue == [SWAP_TIP, SWAP_ALL];
  }

  /** The worker misses the empty cache and reads the block from the provider. */
  lemma FetchesOne(s0: State, run: seq<Action>, s: State) returns (longer: seq<Action>, t: State)
    requires Feasible(s0, run) && s == After(s0, run) && s.cache == map[]
    requires Enabled(s, TakeCached) && NextNumber(s.worker) < |s.chain|
    ensures Feasible(s0, longer) && t == After(s0, longer)
    ensures t == s.(worker := s.worker.(batch := s.worker.batch + [s.chain[NextNumber(s.worker)]]))
  {
    longer, t := Do(s0, run, s, TakeCached);
    assert t.cache == map[];
    longer, t := Do(s0, longer, t, Fetch(true));
  }

  lemma FetchesNewBranch(s0: State, run: seq<Action>, s: State) returns (longer: seq<Action>, t: State)
    requires Feasible(s0, run) && s == After(s0, run)
    requires s.chain == [G, Y1, Y2, Y3] && s.cache == map[] && s.worker == Collecting(3, 0, [], false)
    ensures Feasible(s0, longer) && t == After(s0, longer)
    ensures t == s.(worker := Collecting(3, 0, [Y1, Y2, Y3], false))
  {
    longer, t := FetchesOne(s0, run, s);
    assert t.worker.batch == [Y1];
    longer, t := FetchesOne(s0, longer, t);
    assert t.worker.batch == [Y1, Y2];
    longer, t := FetchesOne(s0, longer, t);
    assert t.worker.batch == [Y1, Y2, Y3];
  }

  /** The worker fetches the newest branch from the provider and stores it. */
  lemma StoresNewBranch(s0: State, run: seq<Action>, s: State) returns (longer: seq<Action>, t: State)
    requires Feasible(s0, run) && s == After(s0, run)
    requires s.chain == [G, Y1, Y2, Y3] && s.window == Window(0, [G], 100) && s.cache == map[]
    requires s.worker == Collecting(3, 0, [], false) && s.pending.None?
    ensures Feasible(s0, longer) && t == After(s0, longer)
    ensures t == s.(window := Window(0, [G, Y1, Y2, Y3], 403), worker := Deciding)
  {
    longer, t := FetchesNewBranch(s0, run, s);
    longer, t := Do(s0, longer, t, StoreBatch(BatchStored));
    assert t.window.blocks == [G, Y1, Y2, Y3];
    longer, t := Do(s0, longer, t, CheckPending);
    longer, t := Do(s0, longer, t, ReadLatest(true));
  }

  /** The older notification about the tip reaches the worker first. */
  lemma OldTipSwapDelivered(s0: State, run: seq<Action>, s: State) returns (longer: seq<Action>, t: State)
    requires Feasible(s0, run) && s == After(s0, run)
    requires s.queue == [SWAP_TIP, SWAP_ALL] && s.task.Announcing? && !s.worker.Parked? && s.cache == map[]
    requires s.pending.None?
    ensures Feasible(s0, longer) && t == After(s0, longer)
    ensures t == s.(queue := [SWAP_ALL], task := Announcing, permit := true, cache := map[3 := CachedBlock(Z3, 0)],
                    pending := Some(RevertThenSync(A3, 3)))
  {
    longer, t := Do(s0, run, s, Announce);
    longer, t := Do(s0, longer, t, Receive);
    longer, t := Do(s0, longer, t, ClearCache);
    longer, t := OldTipCached(s0, longer, t);
    longer, t := Do(s0, longer, t, Deliver);
    assert t.queue == [SWAP_ALL];
  }

  lemma OldTipCached(s0: State, run: seq<Action>, s: State) returns (longer: seq<Action>, t: State)
    requires Feasible(s0, run) && s == After(s0, run) && s.queue == [SWAP_TIP, SWAP_ALL] && s.cache == map[]
    requires s.task == Handling(true, 0)
    ensures Feasible(s0, longer) && t == After(s0, longer)
    ensures t == s.(cache := map[3 := CachedBlock(Z3, 0)], task := Handling(true, 1))
  {
    longer, t := Do(s0, run, s, CacheBlock);
    assert t.cache == map[3 := CachedBlock(Z3, 0)];
  }

  /** No revert has failed, and yet the store holds Y2 below Z3, whose parent is A2: the unwind took
      the tip hash from its target. Only the deeper revert still undelivered repairs it. */
  lemma MixedWhileRevertComing() returns (t: State)
    ensures Reachable(t) && t.suspect.None? && t.queue == [SWAP_ALL]
    ensures t.window.blocks == [G, Y1, Y2, Z3] && Z3.parent != Y2.hash && !Linked(t.window)
  {
    var s0, run, s := TwoReorgsDuringTurn();
    run, s := StoresNewBranch(s0, run, s);
    run, s := OldTipSwapDelivered(s0, run, s);
    run, s := WorkerAppends(s0, run, s, Z3);
    assert s.window.blocks == [G, Y1, Y2, Z3];
    assert s.window.blocks[3].parent != s.window.blocks[2].hash;
    t := s;
  }

  // ---------------------------------------------------------------------------------------------
  // A stale goal stalls the worker, and the stall outlasts a commit
  // ---------------------------------------------------------------------------------------------

  const X1 := Block(1, 701, 100)
  const X2 := Block(2, 702, 701)
  const X3 := Block(3, 703, 702)
  const E2 := Block(2, 802, 701)

  /** A notification without trie data goes through the task with an empty cache. */
  lemma HandledPlainly(s0: State, run: seq<Action>, s: State) returns (longer: seq<Action>, t: State)
    requires Feasible(s0, run) && s == After(s0, run) && s.task.Idle? && s.cache == map[]
    requires |s.queue| == 1 && ValidNotification(s.queue[0]) && forall f | f in AddedOf(s.queue[0]) :: f.trie.None?
    ensures Feasible(s0, longer) && t == After(s0, longer)
    ensures t == s.(queue := [], task := Announcing, pending := Some(Updated(s.pending, StateOf(s.queue[0]))))
  {
    longer := HandlerIsASchedule(s0, run, s);
    t := After(s0, longer);
    var n := s.queue[0];
    NothingCached(map[], AddedOf(n));
    assert CarriesRevert(n) ==> ClearedFrom(map[], n.firstOld.number) == map[];
    assert s.queue[1..] == [];
  }

  lemma {:induction false} NothingCached(cache: Cache, added: seq<NewBlock>)
    requires forall f | f in added :: f.trie.None?
    ensures CachedAll(cache, added) == cache
  {
    if added != [] {
      NothingCached(cache, added[..|added| - 1]);
    }
  }

  /** The worker has taken a reorg to three new blocks when the chain drops the upper two again. */
  lemma DeepReorgTaken() returns (s0: State, run: seq<Action>, s: State)
    ensures Initial(s0) && Feasible(s0, run) && s == After(s0, run)
    ensures s == Started([G, X1], [G, A1])
                 .(queue := [ChainReverted(X2)], task := Idle, permit := true, newest := Backward,
                   worker := Reverting(A1, Some(3)))
  {
    s0 := Started([G, A1], [G, A1]);
    var added := [NewBlock(X1, None), NewBlock(X2, None), NewBlock(X3, None)];
    run, s := Do(s0, [], s0, Reorg(1, added));
    assert s.chain == [G, X1, X2, X3] && s.queue == [ChainReorged(A1, added)];
    run, s := Starts(s0, run, s);
    run, s := Do(s0, run, s, Announce);
    run, s := HandledPlainly(s0, run, s);
    run, s := DropUpperTwo(s0, run, s);
  }

  lemma DropUpperTwo(s0: State, run: seq<Action>, s: State) returns (longer: seq<Action>, t: State)
    requires Feasible(s0, run) && s == After(s0, run)
    requires s == Started([G, X1, X2, X3], [G, A1])
                  .(task := Announcing, permit := true, newest := Forward, pending := Some(RevertThenSync(A1, 3)))
    ensures Feasible(s0, longer) && t == After(s0, longer)
    ensures t == Started([G, X1], [G, A1])
                 .(queue := [ChainReverted(X2)], task := Idle, permit := true, newest := Backward,
                   worker := Reverting(A1, Some(3)))
  {
    longer, t := Do(s0, run, s, Take);
    longer, t := Do(s0, longer, t, Announce);
    longer, t := Do(s0, longer, t, RevertChain(2));
    assert t.chain == [G, X1] && t.queue == [ChainReverted(X2)];
  }

  /** The revert of the upper two blocks is stripped. */
  lemma StrippedRevert() returns (s0: State, run: seq<Action>, s: State)
    ensures Initial(s0) && Feasible(s0, run) && s == After(s0, run)
    ensures s == Started([G, X1], [G]).(task := Announcing, permit := true, newest := Backward, worker := TurnStart(3))
  {
    s0, run, s := DeepReorgTaken();
    run, s := HandledPlainly(s0, run, s);
    run, s := Do(s0, run, s, RunRevert(RevertLands));
    assert s.window == Window(0, [G], 100);
    run, s := Do(s0, run, s, MarkComplete);
  }

  /** Stripping a covered revert that carried no forward target leaves the worker with a goal above
      the canonical tip. The run reaches a stall without any failed revert: block X1 is canonical and
      available, but the worker keeps asking for a turn up to a dropped block. */
  lemma StaleGoalStalls() returns (t: State)
    ensures Reachable(t) && t.suspect.None? && NothingOutstanding(t) && Stalled(t, 3)
    ensures Latest(t.window) == 0 && t.chain == [G, X1]
  {
    var s0, run, s := StrippedRevert();
    t := s;
  }

  /** The first turn fails at the dropped block. */
  lemma FailedTurn() returns (s0: State, run: seq<Action>, s: State)
    ensures Initial(s0) && Feasible(s0, run) && s == After(s0, run)
    ensures s == Started([G, X1], [G]).(task := Announcing, permit := true, newest := Backward, worker := Rearming,
                                        pending := Some(SyncUpTo(3)))
  {
    s0, run, s := StrippedRevert();
    run, s := Do(s0, run, s, CheckPending);
    run, s := Do(s0, run, s, ReadLatest(true));
    run, s := FetchesCanonical(s0, run, s, X1);
    run, s := MissesNext(s0, run, s);
  }

  /** The block after the canonical tip is neither cached nor found, so the turn is handed back. */
  lemma MissesNext(s0: State, run: seq<Action>, s: State) returns (longer: seq<Action>, t: State)
    requires Feasible(s0, run) && s == After(s0, run) && s.cache == map[] && s.worker.Collecting? && !s.worker.fetch
    requires !BatchComplete(s.worker) && s.pending.None?
    ensures Feasible(s0, longer) && t == After(s0, longer)
    ensures t == s.(worker := Rearming, pending := Some(SyncUpTo(s.worker.goal)))
  {
    longer, t := Do(s0, run, s, TakeCached);
    assert t.cache == map[];
    longer, t := Do(s0, longer, t, Fetch(false));
  }

  /** With an empty cache the next block comes from the provider. */
  lemma FetchesCanonical(s0: State, run: seq<Action>, s: State, b: Block) returns (longer: seq<Action>, t: State)
    requires Feasible(s0, run) && s == After(s0, run) && s.cache == map[] && s.worker.Collecting? && !s.worker.fetch
    requires !BatchComplete(s.worker) && NextNumber(s.worker) < |s.chain| && b == s.chain[NextNumber(s.worker)]
    ensures Feasible(s0, longer) && t == After(s0, longer)
    ensures t == s.(worker := s.worker.(batch := s.worker.batch + [b]))
  {
    longer, t := Do(s0, run, s, TakeCached);
    assert t.cache == map[];
    longer, t := Do(s0, longer, t, Fetch(true));
  }

  /** A later commit is merged into the dropped goal and does not end the stall: two canonical blocks
      are available, nothing is outstanding, and the worker still asks for three. */
  lemma StallOutlastsCommit() returns (t: State)
    ensures Reachable(t) && t.suspect.None? && NothingOutstanding(t) && t.queue == [] && t.newest.Forward? && !t.gaveUp
    ensures Stalled(t, 3) && Latest(t.window) == 0 && t.chain == [G, X1, E2]
  {
    var s0, run, s := FailedTurn();
    run, s := Do(s0, run, s, Announce);
    run, s := Do(s0, run, s, Commit([NewBlock(E2, None)]));
    assert s.chain == [G, X1, E2] && s.queue == [ChainCommitted([NewBlock(E2, None)])];
    run, s := HandledPlainly(s0, run, s);
    t := s;
  }

  // ---------------------------------------------------------------------------------------------
  // A store ahead of the chain at the start
  // ---------------------------------------------------------------------------------------------

  const N3 := Block(3, 603, 202)

  /** After an ungraceful stop the store is ahead of the chain with A2. When the chain goes on with B2
      and N3, nothing is outstanding and no revert has failed, and yet the batch is refused, the goal is
      dropped, and A2 stays where B2 is canonical. */
  lemma AheadStartIsRefused() returns (t: State)
    ensures Reachable(t) && NothingOutstanding(t) && t.suspect == Some(2) && !t.gaveUp
    ensures t.chain == [G, A1, B2, N3] && t.window.blocks == [G, A1, A2]
    ensures Enabled(t, StoreBatch(BatchRefused)) && !Accepts(t.window, t.worker.batch)
    ensures AtRest(Apply(t, StoreBatch(BatchRefused))) && Apply(t, StoreBatch(BatchRefused)).gaveUp
  {
    var s0, run, s := AheadTurnOpens();
    run, s := FetchesCanonical(s0, run, s, N3);
    t := s;
  }

  lemma AheadTurnOpens() returns (s0: State, run: seq<Action>, s: State)
    ensures Initial(s0) && Feasible(s0, run) && s == After(s0, run)
    ensures s == Started([G, A1, B2, N3], [G, A1, A2])
                 .(suspect := Some(2), task := Announcing, newest := Forward, worker := Collecting(3, 2, [], false))
  {
    s0 := Started([G, A1], [G, A1, A2]).(suspect := Some(2));
    run, s := Starts(s0, [], s0);
    run, s := Do(s0, run, s, Commit([NewBlock(B2, None), NewBlock(N3, None)]));
    assert s.chain == [G, A1, B2, N3] && s.queue == [ChainCommitted([NewBlock(B2, None), NewBlock(N3, None)])];
    run, s := HandledPlainly(s0, run, s);
    run, s := OpensTurn(s0, run, s, 3);
  }

  lemma OpensTurn(s0: State, run: seq<Action>, s: State, goal: nat) returns (longer: seq<Action>, t: State)
    requires Feasible(s0, run) && s == After(s0, run) && s.worker.Deciding? && s.pending == Some(SyncUpTo(goal))
    requires |s.window.blocks| > 0 && Latest(s.window) < goal
    ensures Feasible(s0, longer) && t == After(s0, longer)
    ensures t == s.(pending := None, worker := Collecting(goal, Latest(s.window), [], false))
  {
    longer, t := Do(s0, run, s, Take);
    longer, t := Do(s0, longer, t, CheckPending);
    longer, t := Do(s0, longer, t, ReadLatest(true));
  }
}
