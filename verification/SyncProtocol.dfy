/** The proof-history sync protocol as a step system: the node that moves the canonical chain, the
    notification task, the background worker, and the pruner, interleaved in any order. */
module SyncProtocol {
  import opened Blocks
  import opened SyncTargets
  import opened ProofWindows

  const SYNC_BLOCKS_PER_TURN: nat := 50

  /** A block of a notification; `trie` is absent when its trie data was not computed. */
  datatype NewBlock = NewBlock(block: Block, trie: Option<nat>)

  datatype Notification =
    | ChainCommitted(added: seq<NewBlock>)
    | ChainReorged(firstOld: Block, added: seq<NewBlock>)
    | ChainReverted(firstOld: Block)

  /** The newly canonical blocks of a notification. */
  function AddedOf(n: Notification): seq<NewBlock> {
    match n
    case ChainCommitted(added) => added
    case ChainReorged(_, added) => added
    case ChainReverted(_) => []
  }

  predicate CarriesRevert(n: Notification) {
    !n.ChainCommitted?
  }

  /** The number of the last added block. */
  function TipOf(n: Notification): nat
    requires |AddedOf(n)| > 0
  {
    AddedOf(n)[|AddedOf(n)| - 1].block.number
  }

  predicate ValidNotification(n: Notification) {
    n.ChainReverted? || |AddedOf(n)| > 0
  }

  /** The state a notification hands to `update_state`. */
  function StateOf(n: Notification): SyncTargetState
    requires ValidNotification(n)
  {
    match n
    case ChainCommitted(_) => SyncUpTo(TipOf(n))
    case ChainReorged(first, _) => RevertThenSync(first, TipOf(n))
    case ChainReverted(first) => Revert(first)
  }

  /** Where the notification task stands. `Handling` works on the head of the queue, which counts
      as undelivered until its state is merged; `Announcing` has merged but not yet notified.
      Before that, `Launching` has read the chain and is about to read the store. */
  datatype Task = Starting | Launching(best: nat) | Idle | Handling(cleared: bool, done: nat) | Announcing

  /** Where the worker stands. */
  datatype Worker =
    | Deciding                                         // about to take the pending state
    | Waiting                                          // found none, about to await the permit
    | Parked                                           // registered as waiter
    | Reverting(to: Block, sync: Option<nat>)          // about to unwind
    | Landed(to: Block, sync: Option<nat>)             // unwound, about to mark it complete
    | TurnStart(goal: nat)                             // top of the forward loop
    | TurnOpen(goal: nat)                              // saw no pending state
    | Collecting(goal: nat, latest: nat, batch: seq<Block>, fetch: bool)
    | Rearming                                         // requeued, about to notify

  /** The direction of the newest notification the node issued. */
  datatype Direction = Quiet | Forward | Backward

  datatype State = State(
    chain: seq<Block>,
    queue: seq<Notification>,
    task: Task,
    cache: Cache,
    pending: Option<SyncTargetState>,
    permit: bool,
    worker: Worker,
    window: Window,
    interval: nat,
    suspect: Option<nat>,   // no revert will come for stored blocks at or above this height
    gaveUp: bool,           // the newest forward goal was dropped
    newest: Direction)

  /** The store is not known to be stale at height `k`. */
  predicate Trusted(k: int, s: State) {
    s.suspect.Some? ==> k < s.suspect.value
  }

  /** A landed revert at or below the suspect height removes everything stale. */
  function Lifted(suspect: Option<nat>, from: nat): Option<nat> {
    if suspect.Some? && from <= suspect.value then None else suspect
  }

  /** A failed revert leaves everything from its target on. */
  function Lowered(suspect: Option<nat>, from: nat): Option<nat> {
    if suspect.Some? && suspect.value <= from then suspect else Some(from)
  }

  /** No newer work will bring a goal the worker drops now. */
  predicate NothingNewer(s: State) {
    s.queue == [] && s.pending.None?
  }

  /** `RevertLandsUnreported`: the unwind commits but the window read that follows it fails, so the
      caller sees an error. `RevertFails`: refused by the store, or a transient failure. */
  datatype RevertOutcome = RevertLands | RevertLandsUnreported | RevertFails

  /** `BatchStoredUnreported`: the batch commits but the window read that follows it fails.
      `BatchRefused`: the parent check fails, or executing a block on what is stored does not reproduce
      its state root; the window does not tell when that happens, so this step is always possible here
      and tied to execution where the tables are modelled. `BatchTransient`: an I/O failure. */
  datatype BatchOutcome = BatchStored | BatchStoredUnreported | BatchRefused | BatchTransient

  datatype Action =
    // the node
    | Commit(added: seq<NewBlock>)
    | Reorg(from: nat, added: seq<NewBlock>)
    | RevertChain(from: nat)
    // the pruner
    | Prune(earliest: nat)
    // the notification task
    | ReadBest
    | Start
    | Receive
    | ClearCache
    | CacheBlock
    | Deliver
    | Announce
    // the worker
    | Take
    | Wait
    | RunRevert(revert: RevertOutcome)
    | MarkComplete
    | CheckPending
    | ReadLatest(readable: bool)
    | TakeCached
    | Fetch(found: bool)
    | StoreBatch(batch: BatchOutcome)
    | Rearm

  /** Added blocks continue `chain[..from]` contiguously and by parent hash. */
  predicate Extends(chain: seq<Block>, from: nat, added: seq<NewBlock>) {
    && 0 < from <= |chain|
    && |added| > 0
    && Numbered(BlocksOf(added), from)
    && LinksTo(chain[from - 1].hash, BlocksOf(added))
  }

  function BlocksOf(added: seq<NewBlock>): (r: seq<Block>)
    ensures |r| == |added| && forall i | 0 <= i < |r| :: r[i] == added[i].block
  {
    seq(|added|, i requires 0 <= i < |added| => added[i].block)
  }

  /** The last block number of the turn that starts above `latest`. */
  function TurnEnd(latest: nat, goal: nat): nat {
    if latest + SYNC_BLOCKS_PER_TURN <= goal then latest + SYNC_BLOCKS_PER_TURN else goal
  }

  /** Periodic verification executes the block even when its trie data is cached. */
  predicate MustVerify(interval: nat, n: nat) {
    interval > 0 && n % interval == 0
  }

  /** The number of the block a collecting worker works on. */
  function NextNumber(w: Worker): nat
    requires w.Collecting?
  {
    w.latest + 1 + |w.batch|
  }

  predicate BatchComplete(w: Worker)
    requires w.Collecting?
  {
    NextNumber(w) > TurnEnd(w.latest, w.goal)
  }

  predicate Enabled(s: State, a: Action) {
    match a
    case Commit(added) => Extends(s.chain, |s.chain|, added)
    case Reorg(from, added) => from < |s.chain| && Extends(s.chain, from, added)
    case RevertChain(from) => 0 < from < |s.chain|
    case Prune(e) => |s.window.blocks| > 0 && s.window.earliest < e <= Latest(s.window)
    case ReadBest => s.task.Starting? && |s.chain| > 0
    case Start => s.task.Launching? && |s.window.blocks| > 0
    case Receive => s.task.Idle? && s.queue != []
    case ClearCache => s.task.Handling? && s.queue != [] && !s.task.cleared && CarriesRevert(s.queue[0])
    case CacheBlock => s.task.Handling? && s.queue != [] && s.task.cleared && s.task.done < |AddedOf(s.queue[0])|
    case Deliver =>
      && s.task.Handling? && s.queue != [] && s.task.cleared
      && s.task.done == |AddedOf(s.queue[0])| && ValidNotification(s.queue[0])
    case Announce => s.task.Announcing?
    case Take => s.worker.Deciding?
    case Wait => s.worker.Waiting?
    case RunRevert(o) =>
      && s.worker.Reverting? && |s.window.blocks| > 0
      && (o.RevertLands? ==> !UnwindRefused(s.window, s.worker.to))
      && (o.RevertLandsUnreported? ==> UnwindRemoves(s.window, s.worker.to))
    case MarkComplete => s.worker.Landed?
    case CheckPending => s.worker.TurnStart?
    case ReadLatest(_) => s.worker.TurnOpen? && |s.window.blocks| > 0
    case TakeCached => s.worker.Collecting? && !s.worker.fetch && !BatchComplete(s.worker)
    case Fetch(found) =>
      && s.worker.Collecting? && s.worker.fetch
      && (found ==> NextNumber(s.worker) < |s.chain|)
    case StoreBatch(o) =>
      && s.worker.Collecting? && !s.worker.fetch && BatchComplete(s.worker) && |s.worker.batch| > 0
      && (o.BatchStored? || o.BatchStoredUnreported? ==> Accepts(s.window, s.worker.batch))
    case Rearm => s.worker.Rearming?
  }

  /** The worker puts its forward goal back as the base of the pending state. */
  function Requeue(s: State, goal: nat): State {
    s.(pending := Some(Requeued(s.pending, SyncUpTo(goal))), worker := Rearming)
  }

  /** The node replaces the chain from `from` on and issues a notification. */
  function Issue(s: State, from: nat, n: Notification): State
    requires from <= |s.chain|
  {
    s.(chain := s.chain[..from] + BlocksOf(AddedOf(n)), queue := s.queue + [n],
       newest := if n.ChainReverted? then Backward else Forward, gaveUp := false)
  }

  function TakeStep(s: State): State {
    match s.pending
    case None => s.(worker := Waiting)
    case Some(SyncUpTo(t)) => s.(pending := None, worker := TurnStart(t))
    case Some(RevertThenSync(r, t)) => s.(pending := None, worker := Reverting(r, Some(t)))
    case Some(Revert(r)) => s.(pending := None, worker := Reverting(r, None))
  }

  function RevertStep(s: State, o: RevertOutcome): State
    requires Enabled(s, RunRevert(o))
  {
    match o
    case RevertLands =>
      s.(window := Unwound(s.window, s.worker.to), suspect := Lifted(s.suspect, s.worker.to.number),
         worker := Landed(s.worker.to, s.worker.sync))
    case RevertLandsUnreported =>
      s.(window := Unwound(s.window, s.worker.to), suspect := Lifted(s.suspect, s.worker.to.number),
         worker := Deciding, gaveUp := s.gaveUp || NothingNewer(s))
    case RevertFails =>
      s.(suspect := if Latest(s.window) < s.worker.to.number then s.suspect else Lowered(s.suspect, s.worker.to.number),
         worker := Deciding, gaveUp := s.gaveUp || NothingNewer(s))
  }

  function TakeCachedStep(s: State): State
    requires Enabled(s, TakeCached)
  {
    var n := NextNumber(s.worker);
    var rest := s.(cache := s.cache - {n});
    if n in s.cache && !MustVerify(s.interval, n)
    then rest.(worker := s.worker.(batch := s.worker.batch + [s.cache[n].block]))
    else rest.(worker := s.worker.(fetch := true))
  }

  function BatchStep(s: State, o: BatchOutcome): State
    requires Enabled(s, StoreBatch(o))
  {
    match o
    case BatchStored => s.(window := Appended(s.window, s.worker.batch), worker := TurnStart(s.worker.goal))
    case BatchStoredUnreported => Requeue(s.(window := Appended(s.window, s.worker.batch)), s.worker.goal)
    case BatchRefused => s.(worker := Deciding, gaveUp := s.gaveUp || NothingNewer(s))
    case BatchTransient => Requeue(s, s.worker.goal)
  }

  function CacheBlockStep(s: State): State
    requires Enabled(s, CacheBlock)
  {
    var b := AddedOf(s.queue[0])[s.task.done];
    s.(cache := if b.trie.Some? then Inserted(s.cache, b.block.number, CachedBlock(b.block, b.trie.value)) else s.cache,
       task := Handling(true, s.task.done + 1))
  }

  function Apply(s: State, a: Action): State
    requires Enabled(s, a)
  {
    match a
    case Commit(added) => Issue(s, |s.chain|, ChainCommitted(added))
    case Reorg(from, added) => Issue(s, from, ChainReorged(s.chain[from], added))
    case RevertChain(from) => Issue(s, from, ChainReverted(s.chain[from]))
    case Prune(e) => s.(window := Pruned(s.window, e))
    case ReadBest => s.(task := Launching(|s.chain| - 1))
    case Start =>
      if Latest(s.window) < s.task.best
      then s.(pending := Some(Updated(s.pending, SyncUpTo(s.task.best))), task := Announcing)
      else s.(task := Idle)
    case Receive => s.(task := Handling(!CarriesRevert(s.queue[0]), 0))
    case ClearCache => s.(cache := ClearedFrom(s.cache, s.queue[0].firstOld.number),
                          task := Handling(true, s.task.done))
    case CacheBlock => CacheBlockStep(s)
    case Deliver => s.(pending := Some(Updated(s.pending, StateOf(s.queue[0]))), queue := s.queue[1..],
                       task := Announcing)
    case Announce =>
      if s.worker.Parked? then s.(task := Idle, worker := Deciding) else s.(task := Idle, permit := true)
    case Take => TakeStep(s)
    case Wait => if s.permit then s.(permit := false, worker := Deciding) else s.(worker := Parked)
    case RunRevert(o) => RevertStep(s, o)
    case MarkComplete =>
      s.(pending := Marked(s.pending, s.worker.to),
         worker := if s.worker.sync.Some? then TurnStart(s.worker.sync.value) else Deciding)
    case CheckPending => s.(worker := if s.pending.Some? then Deciding else TurnOpen(s.worker.goal))
    case ReadLatest(readable) =>
      if !readable then Requeue(s, s.worker.goal)
      else if Latest(s.window) >= s.worker.goal then s.(worker := Deciding)
      else s.(worker := Collecting(s.worker.goal, Latest(s.window), [], false))
    case TakeCached => TakeCachedStep(s)
    case Fetch(found) =>
      if found
      then s.(worker := s.worker.(batch := s.worker.batch + [s.chain[NextNumber(s.worker)]], fetch := false))
      else Requeue(s, s.worker.goal)
    case StoreBatch(o) => BatchStep(s, o)
    case Rearm => s.(permit := true, worker := Deciding)
  }

  /** A started node. Below the suspect height the stored window is a piece of the canonical chain;
      from there on the store may hold anything, as after an ungraceful stop that left it ahead. */
  predicate Initial(s: State) {
    && ValidChain(s.chain)
    && s.queue == [] && s.task.Starting? && s.cache == map[] && s.pending.None? && !s.permit
    && s.worker.Deciding? && !s.gaveUp && s.newest.Quiet?
    && Contiguous(s.window)
    && (forall b | b in s.window.blocks && Trusted(b.number, s) :: OnChain(s.chain, b))
    && (Trusted(Latest(s.window), s) ==> s.window.tipHash == s.window.blocks[|s.window.blocks| - 1].hash)
  }

  /** A schedule every action of which is enabled when its turn comes. */
  predicate Feasible(s: State, run: seq<Action>)
    decreases |run|
  {
    run == [] || (Enabled(s, run[0]) && Feasible(Apply(s, run[0]), run[1..]))
  }

  /** The state a feasible schedule leads to. */
  function After(s: State, run: seq<Action>): State
    requires Feasible(s, run)
    decreases |run|
  {
    if run == [] then s else After(Apply(s, run[0]), run[1..])
  }

  lemma {:induction false} FeasiblePrefix(s: State, run: seq<Action>, k: nat)
    requires Feasible(s, run) && k <= |run|
    ensures Feasible(s, run[..k])
    ensures k < |run| ==> Enabled(After(s, run[..k]), run[k])
    ensures k < |run| ==> Feasible(s, run[..k + 1]) && After(s, run[..k + 1]) == Apply(After(s, run[..k]), run[k])
    decreases |run|
  {
    if k > 0 {
      FeasiblePrefix(Apply(s, run[0]), run[1..], k - 1);
      assert run[1..][..k - 1] == run[..k][1..];
      if k < |run| {
        assert run[1..][..k] == run[..k + 1][1..];
      }
    } else if |run| > 0 {
      assert run[..1] == [run[0]] && run[..0] == [];
      assert Feasible(s, run[..1]) by { assert run[..1][1..] == []; }
    }
  }

  /** One more enabled action extends a feasible schedule. */
  lemma {:induction false} OneMore(s: State, run: seq<Action>, a: Action)
    requires Feasible(s, run) && Enabled(After(s, run), a)
    ensures Feasible(s, run + [a]) && After(s, run + [a]) == Apply(After(s, run), a)
    decreases |run|
  {
    if run == [] {
      assert run + [a] == [a] && [a][1..] == [];
    } else {
      OneMore(Apply(s, run[0]), run[1..], a);
      assert (run + [a])[1..] == run[1..] + [a];
    }
  }
}
