/** When the worker can go on, and when it stalls. */
module SyncProgress {
  import opened Blocks
  import opened SyncTargets
  import opened ProofWindows
  import opened SyncProtocol
  import opened SyncInvariant
  import opened SyncWorkerSteps
  import opened SyncTheorems

  /** Extends a schedule by one action. */
  lemma Do(s0: State, run: seq<Action>, s: State, a: Action) returns (longer: seq<Action>, t: State)
    requires Feasible(s0, run) && After(s0, run) == s && Enabled(s, a)
    ensures longer == run + [a] && Feasible(s0, longer) && t == After(s0, longer) == Apply(s, a)
  {
    OneMore(s0, run, a);
    longer, t := run + [a], Apply(s, a);
  }

  /** The start of the task: it reads the chain, then the store, and hands over the goal if that is behind. */
  lemma Starts(s0: State, run: seq<Action>, s: State) returns (longer: seq<Action>, t: State)
    requires Feasible(s0, run) && s == After(s0, run) && s.task.Starting? && |s.chain| > 0 && |s.window.blocks| > 0
    ensures Feasible(s0, longer) && t == After(s0, longer)
    ensures t == if Latest(s.window) < |s.chain| - 1
                 then s.(pending := Some(Updated(s.pending, SyncUpTo(|s.chain| - 1))), task := Announcing)
                 else s.(task := Idle)
  {
    longer, t := Do(s0, run, s, ReadBest);
    longer, t := Do(s0, longer, t, Start);
  }

  predicate NodeAction(a: Action) {
    a.Commit? || a.Reorg? || a.RevertChain?
  }

  /** The node does not move during the schedule. */
  predicate NodeStill(run: seq<Action>) {
    forall a | a in run :: !NodeAction(a)
  }

  /** Everything is delivered and taken, and the worker is about to start a turn toward `goal`. */
  predicate Poised(s: State, goal: nat) {
    s.queue == [] && s.pending.None? && s.worker == TurnStart(goal) && (s.task.Idle? || s.task.Announcing?)
  }

  // ---------------------------------------------------------------------------------------------
  // Stalling
  // ---------------------------------------------------------------------------------------------

  /** A commit of blocks within the canonical chain. */
  predicate PlainCommit(n: Notification, length: nat) {
    n.ChainCommitted? && |n.added| > 0 && forall f | f in n.added :: f.block.number < length
  }

  /** The goal asks for a turn that ends above the canonical tip; only commits are undelivered, and the
      cache holds none of the missing blocks. */
  predicate Stalled(s: State, goal: nat) {
    && Contiguous(s.window) && Latest(s.window) < |s.chain| <= TurnEnd(Latest(s.window), goal)
    && !s.task.Starting? && !s.task.Launching? && (forall n | n in s.queue :: PlainCommit(n, |s.chain|))
    && (forall k | k in s.cache :: k < |s.chain|)
    && (s.pending.Some? ==> s.pending.value.SyncUpTo? && s.pending.value.to <= goal)
    && match s.worker
       case TurnStart(g) => s.pending.None? && g == goal
       case TurnOpen(g) => g == goal
       case Collecting(g, latest, batch, _) => g == goal && latest == Latest(s.window) && latest + |batch| < |s.chain|
       case Reverting(_, _) => false
       case Landed(_, _) => false
       case _ => s.pending == Some(SyncUpTo(goal))
  }

  /** The chain only grows, and not past the end of the turn; and no commit is handed over just when the
      worker looks for newer work. */
  predicate KeepsStall(s: State, goal: nat, a: Action)
    requires Contiguous(s.window)
  {
    match a
    case Commit(added) => |s.chain| + |added| <= TurnEnd(Latest(s.window), goal)
    case Reorg(_, _) => false
    case RevertChain(_) => false
    case Deliver => !s.worker.TurnStart?
    case _ => true
  }

  lemma CommitKeepsStall(s: State, goal: nat, added: seq<NewBlock>)
    requires Stalled(s, goal) && Enabled(s, Commit(added)) && KeepsStall(s, goal, Commit(added))
    ensures Stalled(Apply(s, Commit(added)), goal)
  {
    var t := Apply(s, Commit(added));
    forall f | f in added ensures f.block.number < |t.chain| {
      var i :| 0 <= i < |added| && added[i] == f;
      assert BlocksOf(added)[i].number == |s.chain| + i;
    }
  }

  lemma CacheBlockKeepsStall(s: State, goal: nat)
    requires Stalled(s, goal) && Enabled(s, CacheBlock)
    ensures Stalled(CacheBlockStep(s), goal)
  {
    var f := AddedOf(s.queue[0])[s.task.done];
    assert PlainCommit(s.queue[0], |s.chain|) && f in s.queue[0].added;
    if f.trie.Some? {
      EvictionIsLowestFirst(s.cache[f.block.number := CachedBlock(f.block, f.trie.value)]);
    }
  }

  lemma DeliverKeepsStall(s: State, goal: nat)
    requires Stalled(s, goal) && Enabled(s, Deliver) && !s.worker.TurnStart?
    ensures Stalled(Apply(s, Deliver), goal)
  {
    var n := s.queue[0];
    assert PlainCommit(n, |s.chain|) && n.added[|n.added| - 1] in n.added;
    assert TipOf(n) < |s.chain|;
  }

  lemma StalledStep(s: State, goal: nat, a: Action)
    requires Stalled(s, goal) && Enabled(s, a) && KeepsStall(s, goal, a)
    ensures Stalled(Apply(s, a), goal) && Latest(Apply(s, a).window) == Latest(s.window)
  {
    match a
    case Commit(added) => CommitKeepsStall(s, goal, added);
    case CacheBlock => CacheBlockKeepsStall(s, goal);
    case Deliver => DeliverKeepsStall(s, goal);
    case Fetch(_) => CollectingKeepsStall(s, goal, a);
    case TakeCached => CollectingKeepsStall(s, goal, a);
    case StoreBatch(_) => CollectingKeepsStall(s, goal, a);
    case _ => OtherKeepsStall(s, goal, a);
  }

  lemma CollectingKeepsStall(s: State, goal: nat, a: Action)
    requires Stalled(s, goal) && Enabled(s, a) && (a.Fetch? || a.TakeCached? || a.StoreBatch?)
    ensures Stalled(Apply(s, a), goal) && Latest(Apply(s, a).window) == Latest(s.window)
  {
  }

  lemma OtherKeepsStall(s: State, goal: nat, a: Action)
    requires Stalled(s, goal) && Enabled(s, a) && !NodeAction(a) && !a.CacheBlock? && !a.Deliver?
    requires !a.Fetch? && !a.TakeCached? && !a.StoreBatch?
    ensures Stalled(Apply(s, a), goal) && Latest(Apply(s, a).window) == Latest(s.window)
  {
  }

  predicate AllKeepStall(s: State, goal: nat, run: seq<Action>)
    requires Feasible(s, run)
    decreases |run|
  {
    run != [] ==> Contiguous(s.window) && KeepsStall(s, goal, run[0]) && AllKeepStall(Apply(s, run[0]), goal, run[1..])
  }

  /** However the tasks are scheduled, and even while the chain grows up to the end of the turn, a
      stalled worker stores nothing. */
  lemma {:induction false} StallLasts(s: State, goal: nat, run: seq<Action>)
    requires Stalled(s, goal) && Feasible(s, run) && AllKeepStall(s, goal, run)
    ensures Stalled(After(s, run), goal) && Latest(After(s, run).window) == Latest(s.window)
    decreases |run|
  {
    if run != [] {
      StalledStep(s, goal, run[0]);
      StallLasts(Apply(s, run[0]), goal, run[1..]);
    }
  }

  /** With nothing undelivered and the node still, every schedule keeps the stall. */
  lemma {:induction false} StillNodeKeepsStall(s: State, goal: nat, run: seq<Action>)
    requires Stalled(s, goal) && s.queue == [] && Feasible(s, run) && NodeStill(run)
    ensures AllKeepStall(s, goal, run)
    decreases |run|
  {
    if run != [] {
      assert run[0] in run;
      StalledStep(s, goal, run[0]);
      QueueStaysEmpty(s, run[0]);
      StillNodeKeepsStall(Apply(s, run[0]), goal, run[1..]);
    }
  }

  lemma QueueStaysEmpty(s: State, a: Action)
    requires s.queue == [] && Enabled(s, a) && !NodeAction(a)
    ensures Apply(s, a).queue == [] && Apply(s, a).chain == s.chain
  {
  }

  /** A turn that would end above the canonical tip is a stall. */
  lemma PoisedStalls(s: State, goal: nat)
    requires Inv(s) && Poised(s, goal) && Trusted(Latest(s.window), s) && |s.chain| <= TurnEnd(Latest(s.window), goal)
    ensures Stalled(s, goal)
  {
    WindowIsCanonical(s);
    forall k | k in s.cache ensures k < |s.chain| {
      assert BelowQueue(k, Unseen(s));
    }
  }

  // ---------------------------------------------------------------------------------------------
  // Going on
  // ---------------------------------------------------------------------------------------------

  /** Collects the rest of a turn that ends on the canonical chain. */
  lemma {:induction false} CollectsTurn(s0: State, run: seq<Action>, s: State) returns (longer: seq<Action>, t: State)
    requires Feasible(s0, run) && NodeStill(run) && s == After(s0, run)
    requires s.worker.Collecting? && !s.worker.fetch && TurnEnd(s.worker.latest, s.worker.goal) < |s.chain|
    ensures Feasible(s0, longer) && NodeStill(longer) && t == After(s0, longer)
    ensures t == s.(cache := t.cache, worker := t.worker) && t.worker.Collecting? && !t.worker.fetch
    ensures t.worker.goal == s.worker.goal && t.worker.latest == s.worker.latest && BatchComplete(t.worker)
    decreases |s.chain| - NextNumber(s.worker)
  {
    if BatchComplete(s.worker) {
      return run, s;
    }
    var b;
    longer, t, b := CollectsOne(s0, run, s);
    longer, t := CollectsTurn(s0, longer, t);
  }

  lemma CollectsOne(s0: State, run: seq<Action>, s: State) returns (longer: seq<Action>, t: State, b: Block)
    requires Feasible(s0, run) && NodeStill(run) && s == After(s0, run)
    requires s.worker.Collecting? && !s.worker.fetch && !BatchComplete(s.worker) && NextNumber(s.worker) < |s.chain|
    ensures Feasible(s0, longer) && NodeStill(longer) && t == After(s0, longer)
    ensures t == s.(cache := t.cache, worker := s.worker.(batch := s.worker.batch + [b]))
  {
    var n := NextNumber(s.worker);
    longer, t := Do(s0, run, s, TakeCached);
    if n in s.cache && !MustVerify(s.interval, n) {
      b := s.cache[n].block;
    } else {
      b := s.chain[n];
      longer, t := Do(s0, longer, t, Fetch(true));
    }
  }

  lemma StoresTurn(s0: State, run: seq<Action>, s: State) returns (longer: seq<Action>, t: State)
    requires Inv(s0) && Feasible(s0, run) && NodeStill(run) && s == After(s0, run)
    requires s.worker.Collecting? && !s.worker.fetch && BatchComplete(s.worker) && s.queue == [] && s.pending.None?
    requires |s.window.blocks| > 0 && Trusted(Latest(s.window), s)
    ensures Feasible(s0, longer) && NodeStill(longer) && t == After(s0, longer)
    ensures t == s.(window := t.window, worker := TurnStart(s.worker.goal))
    ensures Contiguous(t.window) && Latest(t.window) == TurnEnd(Latest(s.window), s.worker.goal)
  {
    RunKeepsInv(s0, run);
    BatchIsAccepted(s);
    longer, t := Do(s0, run, s, StoreBatch(BatchStored));
    AppendedShape(s.window, s.worker.batch);
  }

  /** One whole turn. */
  lemma TakesTurn(s0: State, run: seq<Action>, s: State, goal: nat) returns (longer: seq<Action>, t: State)
    requires Inv(s0) && Feasible(s0, run) && NodeStill(run) && s == After(s0, run) && Poised(s, goal)
    requires |s.window.blocks| > 0 && Trusted(Latest(s.window), s)
    requires Latest(s.window) < goal && TurnEnd(Latest(s.window), goal) < |s.chain|
    ensures Feasible(s0, longer) && NodeStill(longer) && t == After(s0, longer) && Poised(t, goal)
    ensures t.chain == s.chain && t.suspect == s.suspect
    ensures Contiguous(t.window) && Latest(t.window) == TurnEnd(Latest(s.window), goal)
  {
    longer, t := Do(s0, run, s, CheckPending);
    longer, t := Do(s0, longer, t, ReadLatest(true));
    longer, t := CollectsTurn(s0, longer, t);
    longer, t := StoresTurn(s0, longer, t);
  }

  /** Some schedule stores something without the node. */
  ghost predicate CanAdvance(s: State)
    requires Contiguous(s.window)
  {
    exists run :: Feasible(s, run) && NodeStill(run) && Contiguous(After(s, run).window)
                  && Latest(After(s, run).window) > Latest(s.window)
  }

  /** A worker about to start a turn can store something before the node moves if and only if the turn
      ends on the canonical chain. */
  lemma AdvancesIff(s: State, goal: nat)
    requires Reachable(s) && Poised(s, goal) && Contiguous(s.window)
    requires Trusted(Latest(s.window), s) && Latest(s.window) < goal
    ensures CanAdvance(s) <==> TurnEnd(Latest(s.window), goal) < |s.chain|
  {
    ReachableInv(s);
    if TurnEnd(Latest(s.window), goal) < |s.chain| {
      var run, t := TakesTurn(s, [], s, goal);
    } else {
      PoisedStalls(s, goal);
      forall run | Feasible(s, run) && NodeStill(run)
        ensures Contiguous(After(s, run).window) && Latest(After(s, run).window) == Latest(s.window)
      {
        StillNodeKeepsStall(s, goal, run);
        StallLasts(s, goal, run);
      }
    }
  }

  // ---------------------------------------------------------------------------------------------
  // Catching up
  // ---------------------------------------------------------------------------------------------

  lemma {:induction false} ReachesGoal(s0: State, run: seq<Action>, s: State, goal: nat)
    returns (longer: seq<Action>, t: State)
    requires Inv(s0) && Feasible(s0, run) && NodeStill(run) && s == After(s0, run) && Poised(s, goal)
    requires Contiguous(s.window) && Trusted(goal, s) && Latest(s.window) <= goal < |s.chain|
    ensures Feasible(s0, longer) && NodeStill(longer) && t == After(s0, longer)
    ensures Contiguous(t.window) && Latest(t.window) == goal
    decreases goal - Latest(s.window)
  {
    longer, t := run, s;
    if Latest(s.window) < goal {
      longer, t := TakesTurn(s0, run, s, goal);
      longer, t := ReachesGoal(s0, longer, t, goal);
    }
  }

  /** Nobody aims above `goal`, no revert is outstanding and none can come before the node moves. */
  predicate Forwarding(s: State, goal: nat)
    requires Contiguous(s.window)
  {
    && s.queue == [] && !s.task.Starting? && !s.task.Launching? && Trusted(goal, s) && Latest(s.window) <= goal
    && (s.pending.Some? ==> s.pending.value.SyncUpTo? && s.pending.value.to <= goal)
    && !s.worker.Reverting? && !s.worker.Landed? && (GoalOf(s.worker).Some? ==> GoalOf(s.worker).value <= goal)
  }

  lemma ForwardingStep(s: State, goal: nat, a: Action)
    requires Inv(s) && Forwarding(s, goal) && Enabled(s, a) && !NodeAction(a)
    ensures Contiguous(Apply(s, a).window) && Forwarding(Apply(s, a), goal) && Apply(s, a).chain == s.chain
  {
    match a
    case StoreBatch(o) => BatchForwarding(s, goal, o);
    case Prune(e) => PruneForwarding(s, goal, e);
    case _ => OtherForwarding(s, goal, a);
  }

  lemma BatchForwarding(s: State, goal: nat, o: BatchOutcome)
    requires Inv(s) && Forwarding(s, goal) && Enabled(s, StoreBatch(o))
    ensures var t := Apply(s, StoreBatch(o)); Contiguous(t.window) && Forwarding(t, goal) && t.chain == s.chain
  {
    BatchChangesWhole(s, o);
  }

  lemma PruneForwarding(s: State, goal: nat, e: nat)
    requires Contiguous(s.window) && Forwarding(s, goal) && Enabled(s, Prune(e))
    ensures var t := Apply(s, Prune(e)); Contiguous(t.window) && Forwarding(t, goal) && t.chain == s.chain
  {
    PruneChangesWhole(s, e);
  }

  lemma OtherForwarding(s: State, goal: nat, a: Action)
    requires Contiguous(s.window) && Forwarding(s, goal) && Enabled(s, a)
    requires !NodeAction(a) && !a.StoreBatch? && !a.Prune?
    ensures Apply(s, a).window == s.window && Forwarding(Apply(s, a), goal) && Apply(s, a).chain == s.chain
  {
    match a
    case ReadLatest(ok) => ReadLatestForwarding(s, goal, ok);
    case Fetch(ok) => FetchForwarding(s, goal, ok);
    case TakeCached => TakeCachedForwarding(s, goal);
    case _ =>
  }

  lemma ReadLatestForwarding(s: State, goal: nat, ok: bool)
    requires Contiguous(s.window) && Forwarding(s, goal) && Enabled(s, ReadLatest(ok))
    ensures var t := Apply(s, ReadLatest(ok)); t.window == s.window && Forwarding(t, goal) && t.chain == s.chain
  {
  }

  lemma FetchForwarding(s: State, goal: nat, ok: bool)
    requires Contiguous(s.window) && Forwarding(s, goal) && Enabled(s, Fetch(ok))
    ensures var t := Apply(s, Fetch(ok)); t.window == s.window && Forwarding(t, goal) && t.chain == s.chain
  {
  }

  lemma TakeCachedForwarding(s: State, goal: nat)
    requires Contiguous(s.window) && Forwarding(s, goal) && Enabled(s, TakeCached)
    ensures var t := Apply(s, TakeCached); t.window == s.window && Forwarding(t, goal) && t.chain == s.chain
  {
  }

  lemma {:induction false} ForwardingLasts(s: State, goal: nat, run: seq<Action>)
    requires Inv(s) && Forwarding(s, goal) && Feasible(s, run) && NodeStill(run)
    ensures Inv(After(s, run)) && Forwarding(After(s, run), goal) && After(s, run).chain == s.chain
    decreases |run|
  {
    if run != [] {
      assert run[0] in run;
      ForwardingStep(s, goal, run[0]);
      StepKeepsInv(s, run[0]);
      ForwardingLasts(Apply(s, run[0]), goal, run[1..]);
    }
  }

  /** Some schedule stores up to the goal without the node. */
  ghost predicate CanReach(s: State, goal: nat) {
    exists run :: Feasible(s, run) && NodeStill(run) && Contiguous(After(s, run).window)
      && Latest(After(s, run).window) >= goal
  }

  /** The worker can store up to its goal before the node moves if and only if the goal is on the
      canonical chain. */
  lemma ReachesGoalIff(s: State, goal: nat)
    requires Reachable(s) && Poised(s, goal) && Contiguous(s.window) && Trusted(goal, s) && Latest(s.window) < goal
    ensures CanReach(s, goal) <==> goal < |s.chain|
  {
    ReachableInv(s);
    if goal < |s.chain| {
      var run, t := ReachesGoal(s, [], s, goal);
    } else {
      forall run | Feasible(s, run) && NodeStill(run)
        ensures Contiguous(After(s, run).window) && Latest(After(s, run).window) < goal
      {
        ForwardingLasts(s, goal, run);
        WindowIsCanonical(After(s, run));
      }
    }
  }
}
