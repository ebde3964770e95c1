/** The notification handlers and the worker's forward loop, run without interruption. */
module SyncWorkers {
  import opened Blocks
  import opened SyncTargets
  import opened ProofWindows
  import opened SyncProtocol

  // ---------------------------------------------------------------------------------------------
  // Notification handlers
  // ---------------------------------------------------------------------------------------------

  /** The cache after the trie data of all `added` blocks that have some is inserted in order. */
  function CachedAll(cache: Cache, added: seq<NewBlock>): Cache {
    if added == [] then cache
    else
      var front := CachedAll(cache, added[..|added| - 1]);
      var b := added[|added| - 1];
      if b.trie.Some? then Inserted(front, b.block.number, CachedBlock(b.block, b.trie.value)) else front
  }

  /** The cache after a notification is handled. */
  function Handled(cache: Cache, n: Notification): Cache {
    if CarriesRevert(n) then CachedAll(ClearedFrom(cache, n.firstOld.number), AddedOf(n))
    else CachedAll(cache, AddedOf(n))
  }

  method CacheAll(target: SyncTarget, added: seq<NewBlock>)
    modifies target`cache
    ensures target.cache == CachedAll(old(target.cache), added)
  {
    for i := 0 to |added|
      invariant target.cache == CachedAll(old(target.cache), added[..i])
    {
      var b := added[i];
      assert added[..i + 1][..i] == added[..i];
      if b.trie.Some? {
        target.Insert(b.block.number, CachedBlock(b.block, b.trie.value));
      }
    }
    assert added[..|added|] == added;
  }

  method HandleChainCommitted(target: SyncTarget, added: seq<NewBlock>)
    requires |added| > 0
    modifies target
    ensures target.cache == Handled(old(target.cache), ChainCommitted(added))
    ensures target.state == Some(Updated(old(target.state), StateOf(ChainCommitted(added))))
  {
    CacheAll(target, added);
    target.UpdateState(SyncUpTo(added[|added| - 1].block.number));
  }

  /** The block the branch forks from: its number saturates at zero. */
  function ForkOf(first: Block): (nat, Hash) {
    (if first.number == 0 then 0 else first.number - 1, first.parent)
  }

  /** A reorg whose two branches fork from different blocks is an error that changes nothing. */
  method HandleChainReorged(target: SyncTarget, firstOld: Block, added: seq<NewBlock>) returns (ok: bool)
    requires |added| > 0
    modifies target
    ensures ok <==> ForkOf(firstOld) == ForkOf(added[0].block)
    ensures ok ==> target.cache == Handled(old(target.cache), ChainReorged(firstOld, added))
    ensures ok ==> target.state == Some(Updated(old(target.state), StateOf(ChainReorged(firstOld, added))))
    ensures !ok ==> unchanged(target)
  {
    if ForkOf(firstOld) != ForkOf(added[0].block) {
      return false;
    }
    target.ClearFrom(firstOld.number);
    CacheAll(target, added);
    target.UpdateState(RevertThenSync(firstOld, added[|added| - 1].block.number));
    ok := true;
  }

  method HandleChainReverted(target: SyncTarget, firstOld: Block)
    modifies target
    ensures target.cache == Handled(old(target.cache), ChainReverted(firstOld))
    ensures target.state == Some(Updated(old(target.state), Revert(firstOld)))
  {
    target.ClearFrom(firstOld.number);
    target.UpdateState(Revert(firstOld));
  }

  /** The handler after `k` inserts. */
  function AfterInserts(s: State, k: nat): State
    requires s.queue != [] && k <= |AddedOf(s.queue[0])|
  {
    s.(cache := CachedAll(s.cache, AddedOf(s.queue[0])[..k]), task := Handling(true, k))
  }

  lemma InsertStep(s: State, k: nat)
    requires s.queue != [] && k < |AddedOf(s.queue[0])|
    ensures Enabled(AfterInserts(s, k), CacheBlock) && Apply(AfterInserts(s, k), CacheBlock) == AfterInserts(s, k + 1)
  {
    var added := AddedOf(s.queue[0]);
    assert added[..k + 1][..k] == added[..k];
  }

  /** The inserts of a handler, taken as separate steps of the protocol without anything between. */
  lemma {:induction false} InsertSteps(s0: State, run: seq<Action>, s: State, k: nat) returns (longer: seq<Action>)
    requires Feasible(s0, run) && After(s0, run) == s
    requires s.task == Handling(true, 0) && s.queue != [] && k <= |AddedOf(s.queue[0])|
    ensures Feasible(s0, longer)
    ensures After(s0, longer) == AfterInserts(s, k)
  {
    longer := run;
    if k > 0 {
      longer := InsertSteps(s0, run, s, k - 1);
      InsertStep(s, k - 1);
      OneMore(s0, longer, CacheBlock);
      longer := longer + [CacheBlock];
    }
  }

  /** A handler is one uninterrupted schedule of the protocol's steps. */
  lemma HandlerIsASchedule(s0: State, prefix: seq<Action>, s: State) returns (run: seq<Action>)
    requires Feasible(s0, prefix) && After(s0, prefix) == s
    requires s.task.Idle? && s.queue != [] && ValidNotification(s.queue[0])
    ensures Feasible(s0, run)
    ensures After(s0, run) == s.(cache := Handled(s.cache, s.queue[0]), queue := s.queue[1..], task := Announcing,
                                pending := Some(Updated(s.pending, StateOf(s.queue[0]))))
  {
    var n := s.queue[0];
    OneMore(s0, prefix, Receive);
    run := prefix + [Receive];
    if CarriesRevert(n) {
      OneMore(s0, run, ClearCache);
      run := run + [ClearCache];
    }
    run := InsertSteps(s0, run, After(s0, run), |AddedOf(n)|);
    assert AddedOf(n)[..|AddedOf(n)|] == AddedOf(n);
    OneMore(s0, run, Deliver);
    run := run + [Deliver];
  }

  // ---------------------------------------------------------------------------------------------
  // The cache follows the notified chain
  // ---------------------------------------------------------------------------------------------

  /** Every entry sits under its own number and is the block the notified chain holds there. */
  predicate CacheOn(cache: Cache, chain: seq<Block>) {
    && |cache| <= CACHE_CAPACITY
    && forall k | k in cache :: cache[k].block.number == k && OnChain(chain, cache[k].block)
  }

  /** What touches the cache: a handled notification, or the worker taking an entry. */
  datatype CacheCall = Notice(n: Notification) | TakeAt(number: nat)

  /** The notification describes a change of `chain`. */
  predicate Describes(chain: seq<Block>, n: Notification) {
    match n
    case ChainCommitted(added) => Extends(chain, |chain|, added)
    case ChainReorged(first, added) => first.number < |chain| && first == chain[first.number]
      && Extends(chain, first.number, added)
    case ChainReverted(first) => 0 < first.number < |chain| && first == chain[first.number]
  }

  function Notified(chain: seq<Block>, n: Notification): seq<Block>
    requires Describes(chain, n)
  {
    chain[..if CarriesRevert(n) then n.firstOld.number else |chain|] + BlocksOf(AddedOf(n))
  }

  predicate CallsDescribe(chain: seq<Block>, calls: seq<CacheCall>)
    decreases |calls|
  {
    calls != [] ==>
      match calls[0]
      case Notice(n) => Describes(chain, n) && CallsDescribe(Notified(chain, n), calls[1..])
      case TakeAt(_) => CallsDescribe(chain, calls[1..])
  }

  /** The cache and the notified chain after a series of calls. */
  function AfterCalls(cache: Cache, chain: seq<Block>, calls: seq<CacheCall>): (Cache, seq<Block>)
    requires CallsDescribe(chain, calls)
    decreases |calls|
  {
    if calls == [] then (cache, chain)
    else match calls[0]
      case Notice(n) => AfterCalls(Handled(cache, n), Notified(chain, n), calls[1..])
      case TakeAt(k) => AfterCalls(cache - {k}, chain, calls[1..])
  }

  lemma {:induction false} CachingKeepsCacheOn(cache: Cache, chain: seq<Block>, added: seq<NewBlock>)
    requires CacheOn(cache, chain) && forall f | f in added :: OnChain(chain, f.block)
    ensures CacheOn(CachedAll(cache, added), chain)
  {
    if added != [] {
      var front := added[..|added| - 1];
      var b := added[|added| - 1];
      assert forall f | f in front :: f in added;
      CachingKeepsCacheOn(cache, chain, front);
      if b.trie.Some? {
        assert b in added;
        var grown := CachedAll(cache, front)[b.block.number := CachedBlock(b.block, b.trie.value)];
        EvictionIsLowestFirst(grown);
      }
    }
  }

  lemma NoticeKeepsCacheOn(cache: Cache, chain: seq<Block>, n: Notification)
    requires CacheOn(cache, chain) && Describes(chain, n)
    ensures CacheOn(Handled(cache, n), Notified(chain, n))
  {
    var from := if CarriesRevert(n) then n.firstOld.number else |chain|;
    var kept := if CarriesRevert(n) then ClearedFrom(cache, from) else cache;
    var next := Notified(chain, n);
    SubMapIsSmaller(kept, cache);
    forall k | k in kept ensures OnChain(next, kept[k].block) {
      assert next[k] == chain[k];
    }
    forall f | f in AddedOf(n) ensures OnChain(next, f.block) {
      var i :| 0 <= i < |AddedOf(n)| && AddedOf(n)[i] == f;
      assert BlocksOf(AddedOf(n))[i].number == from + i;
      assert next[from + i] == BlocksOf(AddedOf(n))[i];
    }
    CachingKeepsCacheOn(kept, next, AddedOf(n));
  }

  /** Over every series of commits, reorgs, reverts and takes the cache stays bounded and holds only
      blocks of the notified chain, each under its own number. */
  lemma {:induction false} CacheFollowsNotifications(cache: Cache, chain: seq<Block>, calls: seq<CacheCall>)
    requires CacheOn(cache, chain) && CallsDescribe(chain, calls)
    ensures CacheOn(AfterCalls(cache, chain, calls).0, AfterCalls(cache, chain, calls).1)
    decreases |calls|
  {
    if calls != [] {
      match calls[0]
      case Notice(n) =>
        NoticeKeepsCacheOn(cache, chain, n);
        CacheFollowsNotifications(Handled(cache, n), Notified(chain, n), calls[1..]);
      case TakeAt(k) =>
        SubMapIsSmaller(cache - {k}, cache);
        CacheFollowsNotifications(cache - {k}, chain, calls[1..]);
    }
  }

  // ---------------------------------------------------------------------------------------------
  // The worker
  // ---------------------------------------------------------------------------------------------

  /** The proof storage as the worker drives it. */
  class ProofStorage {
    var window: Window

    /** Reports whether the revert landed. */
    method HandleRevert(to: Block) returns (landed: bool)
      requires Contiguous(window)
      modifies this
      ensures landed <==> !UnwindRefused(old(window), to)
      ensures window == if landed then Unwound(old(window), to) else old(window)
      ensures Contiguous(window) && (landed ==> Latest(window) < to.number)
    {
      var latest := Latest(window);
      if latest >= to.number {
        if to.number <= window.earliest {
          return false;
        }
        window := Window(window.earliest, window.blocks[..to.number - window.earliest], to.parent);
      }
      landed := true;
    }

    /** Stages the batch block by block; the first block that does not name the staged tip aborts
        the whole batch. */
    method StoreBatch(batch: seq<Block>) returns (stored: bool)
      requires Contiguous(window) && |batch| > 0
      modifies this
      ensures stored <==> Accepts(old(window), batch)
      ensures window == if stored then Appended(old(window), batch) else old(window)
    {
      var staged := window;
      for i := 0 to |batch|
        invariant window == old(window)
        invariant LinksTo(window.tipHash, batch[..i])
        invariant staged == if i == 0 then window else Appended(window, batch[..i])
      {
        if batch[i].parent != staged.tipHash {
          if i > 0 { assert batch[..i][i - 1] == batch[i - 1]; }
          assert !LinksTo(window.tipHash, batch);
          return false;
        }
        staged := Window(staged.earliest, staged.blocks + [batch[i]], batch[i].hash);
        assert batch[..i + 1] == batch[..i] + [batch[i]];
        assert window.blocks + batch[..i] + [batch[i]] == window.blocks + batch[..i + 1];
      }
      assert batch[..|batch|] == batch;
      window := staged;
      stored := true;
    }
  }

  /** The entry the forward loop uses for block `n`, if it can be had. */
  function EntryAt(cache: Cache, chain: seq<Block>, interval: nat, n: nat): Option<Block> {
    if n in cache && !MustVerify(interval, n) then Some(cache[n].block)
    else if n < |chain| then Some(chain[n])
    else None
  }

  /** Collects the blocks of one turn, stopping at the first that neither the cache nor the
      provider has. Every cache entry looked at is consumed. */
  method CollectTurn(target: SyncTarget, chain: seq<Block>, interval: nat, latest: nat, end: nat)
    returns (batch: seq<Block>, complete: bool)
    requires latest <= end
    modifies target`cache
    ensures |batch| <= end - latest && (complete <==> |batch| == end - latest)
    ensures forall i | 0 <= i < |batch| :: EntryAt(old(target.cache), chain, interval, latest + 1 + i) == Some(batch[i])
    ensures !complete ==> EntryAt(old(target.cache), chain, interval, latest + 1 + |batch|) == None
    ensures target.cache == map k | k in old(target.cache) &&
              !(latest < k <= latest + |batch| + (if complete then 0 else 1)) :: old(target.cache)[k]
  {
    batch := [];
    complete := true;
    while latest + |batch| < end
      invariant |batch| <= end - latest
      invariant forall i | 0 <= i < |batch| ::
                 EntryAt(old(target.cache), chain, interval, latest + 1 + i) == Some(batch[i])
      invariant target.cache == map k | k in old(target.cache) && !(latest < k <= latest + |batch|) ::
                 old(target.cache)[k]
      decreases end - latest - |batch|
    {
      var n := latest + |batch| + 1;
      var hit := target.Take(n);
      if hit.Some? && !MustVerify(interval, n) {
        batch := batch + [hit.value.block];
      } else if n < |chain| {
        batch := batch + [chain[n]];
      } else {
        return batch, false;
      }
    }
  }

  datatype Outcome = Interrupted | Reached | Requeued | Refused

  /** The store, the cache and the provider agree on one canonical chain. */
  predicate InStep(cache: Cache, chain: seq<Block>, w: Window) {
    && ValidChain(chain) && Contiguous(w)
    && (forall b | b in w.blocks :: OnChain(chain, b))
    && w.tipHash == w.blocks[|w.blocks| - 1].hash
    && (forall k | k in cache :: cache[k].block.number == k && OnChain(chain, cache[k].block))
  }

  /** A complete turn in step with the chain continues it, so the store accepts it. */
  lemma TurnContinues(cache: Cache, chain: seq<Block>, interval: nat, w: Window, batch: seq<Block>)
    requires InStep(cache, chain, w) && |batch| > 0 && Latest(w) + |batch| < |chain|
    requires forall i | 0 <= i < |batch| :: EntryAt(cache, chain, interval, Latest(w) + 1 + i) == Some(batch[i])
    ensures Accepts(w, batch) && InStep(cache, chain, Appended(w, batch))
  {
    var first := Latest(w) + 1;
    assert w.blocks[|w.blocks| - 1] in w.blocks;
    forall i | 0 <= i < |batch|
      ensures batch[i] == chain[first + i] && chain[first + i].parent == chain[first + i - 1].hash
    {
      assert EntryAt(cache, chain, interval, first + i) == Some(batch[i]);
    }
  }

  datatype Turn = Advanced | Short | NotTaken

  /** One turn: collects at most fifty blocks and stores them whole, unless one of them cannot be had. */
  method ForwardTurn(target: SyncTarget, storage: ProofStorage, chain: seq<Block>, interval: nat, goal: nat)
    returns (turn: Turn)
    requires Contiguous(storage.window) && Latest(storage.window) < goal && ValidChain(chain)
    requires forall k | k in target.cache :: target.cache[k].block.number == k
    modifies target`cache, storage
    ensures Contiguous(storage.window) && forall k | k in target.cache :: target.cache[k].block.number == k
    ensures turn.Advanced? ==>
            old(storage.window.blocks) <= storage.window.blocks
            && Latest(storage.window) == TurnEnd(Latest(old(storage.window)), goal)
    ensures !turn.Advanced? ==> storage.window == old(storage.window)
    ensures turn.Short? ==> |chain| <= TurnEnd(Latest(storage.window), goal)
    ensures InStep(old(target.cache), chain, old(storage.window)) ==>
              !turn.NotTaken? && InStep(target.cache, chain, storage.window)
  {
    var latest := Latest(storage.window);
    ghost var before := target.cache;
    var batch, complete := CollectTurn(target, chain, interval, latest, TurnEnd(latest, goal));
    assert forall k | k in target.cache :: k in before && target.cache[k] == before[k];
    if !complete {
      return Short;
    }
    EntriesAreNumbered(before, chain, interval, latest, batch);
    if InStep(before, chain, storage.window) {
      assert storage.window.blocks[|storage.window.blocks| - 1] in storage.window.blocks;
      TurnEndsOnChain(before, chain, interval, latest, batch);
      TurnContinues(before, chain, interval, storage.window, batch);
    }
    var stored := storage.StoreBatch(batch);
    turn := if stored then Advanced else NotTaken;
  }

  /** What other tasks hand over before each turn. */
  type Arrivals = nat -> Option<SyncTargetState>

  /** The pending state at the top of a turn that starts with `state`. */
  function Merged(state: Option<SyncTargetState>, arrived: Option<SyncTargetState>): Option<SyncTargetState> {
    if arrived.Some? then Some(Updated(state, arrived.value)) else state
  }

  /** The forward loop. It gives way to pending work at the top of every turn; each turn it goes on
      shrinks the gap to the goal. */
  method SyncForward(target: SyncTarget, storage: ProofStorage, chain: seq<Block>, interval: nat, goal: nat,
                     arrivals: Arrivals)
    returns (outcome: Outcome, turns: nat)
    requires Contiguous(storage.window) && ValidChain(chain)
    requires forall k | k in target.cache :: target.cache[k].block.number == k
    modifies target, storage
    ensures Contiguous(storage.window) && old(storage.window.blocks) <= storage.window.blocks
    ensures Latest(old(storage.window)) >= goal ==> turns == 0 && storage.window == old(storage.window)
    ensures Latest(old(storage.window)) < goal ==> Latest(old(storage.window)) + turns <= Latest(storage.window) <= goal
    ensures forall i | 0 <= i < turns :: arrivals(i).None?
    ensures var state := Merged(if turns == 0 then old(target.state) else None, arrivals(turns));
            && (outcome.Interrupted? <==> state.Some?)
            && (turns > 0 ==> old(target.state).None?)
            && target.state == if outcome.Requeued? then Some(SyncUpTo(goal)) else state
    ensures outcome.Reached? ==> Latest(storage.window) >= goal
    ensures outcome.Requeued? ==> |chain| <= TurnEnd(Latest(storage.window), goal)
    ensures InStep(old(target.cache), chain, old(storage.window)) ==>
              !outcome.Refused? && InStep(target.cache, chain, storage.window)
                && (goal < |chain| ==> !outcome.Requeued?)
  {
    ghost var inStep := InStep(target.cache, chain, storage.window);
    turns := 0;
    while true
      invariant Contiguous(storage.window) && old(storage.window.blocks) <= storage.window.blocks
      invariant Latest(old(storage.window)) >= goal ==> turns == 0 && storage.window == old(storage.window)
      invariant Latest(old(storage.window)) < goal ==>
                Latest(old(storage.window)) + turns <= Latest(storage.window) <= goal
      invariant target.state == (if turns == 0 then old(target.state) else None)
      invariant (turns > 0 ==> old(target.state).None?)
      invariant forall i | 0 <= i < turns :: arrivals(i).None?
      invariant forall k | k in target.cache :: target.cache[k].block.number == k
      invariant inStep ==> InStep(target.cache, chain, storage.window)
      decreases goal - Latest(storage.window)
    {
      if arrivals(turns).Some? {
        target.UpdateState(arrivals(turns).value);
      }
      var pending := target.HasPendingState();
      if pending {
        return Interrupted, turns;
      }
      if Latest(storage.window) >= goal {
        return Reached, turns;
      }
      var turn := ForwardTurn(target, storage, chain, interval, goal);
      if turn.Short? {
        target.RequeueState(SyncUpTo(goal));
        return Requeued, turns;
      }
      if turn.NotTaken? {
        return Refused, turns;
      }
      turns := turns + 1;
    }
  }

  lemma EntriesAreNumbered(cache: Cache, chain: seq<Block>, interval: nat, latest: nat, batch: seq<Block>)
    requires ValidChain(chain) && forall k | k in cache :: cache[k].block.number == k
    requires forall i | 0 <= i < |batch| :: EntryAt(cache, chain, interval, latest + 1 + i) == Some(batch[i])
    ensures Numbered(batch, latest + 1)
  {
    forall i | 0 <= i < |batch| ensures batch[i].number == latest + 1 + i {
      assert EntryAt(cache, chain, interval, latest + 1 + i) == Some(batch[i]);
    }
  }

  /** A cache in step with the chain holds nothing above its tip, so a complete turn ends there. */
  lemma TurnEndsOnChain(cache: Cache, chain: seq<Block>, interval: nat, latest: nat, batch: seq<Block>)
    requires forall k | k in cache :: cache[k].block.number == k && OnChain(chain, cache[k].block)
    requires latest < |chain|
    requires forall i | 0 <= i < |batch| :: EntryAt(cache, chain, interval, latest + 1 + i) == Some(batch[i])
    ensures latest + |batch| < |chain|
  {
    if |batch| > 0 {
      var last := |batch| - 1;
      assert EntryAt(cache, chain, interval, latest + 1 + last) == Some(batch[last]);
    }
  }
}
