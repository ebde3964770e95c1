/** The inductive invariant of the sync protocol and its preservation by every action. */
module SyncInvariant {
  import opened Blocks
  import opened SyncTargets
  import opened ProofWindows
  import opened SyncProtocol

  // ---------------------------------------------------------------------------------------------
  // Outstanding reverts
  // ---------------------------------------------------------------------------------------------

  /** `k` is below the first block the notification removes. */
  predicate BelowNotice(k: int, n: Notification) {
    CarriesRevert(n) ==> k < n.firstOld.number
  }

  /** `k` is below every undelivered revert. */
  predicate BelowQueue(k: int, q: seq<Notification>) {
    forall n | n in q :: BelowNotice(k, n)
  }

  /** `k` is below the revert the worker is about to run. */
  predicate BelowWorker(k: int, w: Worker) {
    w.Reverting? ==> k < w.to.number
  }

  /** `k` is below every outstanding revert: undelivered, pending, or in flight. */
  predicate Below(k: int, s: State) {
    BelowQueue(k, s.queue) && BelowState(k, s.pending) && BelowWorker(k, s.worker)
  }

  /** No revert is undelivered, pending, or in flight. */
  predicate NothingOutstanding(s: State) {
    && (forall n | n in s.queue :: !CarriesRevert(n))
    && (s.pending.Some? ==> RevertOf(s.pending.value).None?)
    && !s.worker.Reverting?
  }

  lemma NothingOutstandingIsBelow(s: State, k: int)
    requires NothingOutstanding(s)
    ensures Below(k, s)
  {
  }

  // ---------------------------------------------------------------------------------------------
  // The invariant
  // ---------------------------------------------------------------------------------------------

  /** A notification stays true of the current chain where no later one overrules it: its revert
      target's parent is still canonical, and so are the blocks it adds. */
  predicate NoticeHolds(n: Notification, later: seq<Notification>, chain: seq<Block>) {
    && ValidNotification(n)
    && (CarriesRevert(n) ==> n.firstOld.number >= 1)
    && (CarriesRevert(n) && BelowQueue(n.firstOld.number - 1, later) ==> Anchored(chain, n.firstOld))
    && (forall f | f in AddedOf(n) && BelowQueue(f.block.number, later) :: OnChain(chain, f.block))
  }

  predicate QueueHolds(q: seq<Notification>, chain: seq<Block>)
    decreases |q|
  {
    q != [] ==> NoticeHolds(q[0], q[1..], chain) && QueueHolds(q[1..], chain)
  }

  /** The newest notification, while undelivered, names the canonical tip. */
  predicate QueueTail(s: State) {
    s.queue != [] ==>
      var n := s.queue[|s.queue| - 1];
      && (n.ChainReverted? <==> s.newest.Backward?)
      && (!n.ChainReverted? ==> |AddedOf(n)| > 0 && s.newest.Forward? && TipOf(n) == |s.chain| - 1)
  }

  /** The notifications that may still contradict the cache: a head whose removed range has been
      cleared no longer does. */
  function Unseen(s: State): seq<Notification> {
    if s.task.Handling? && s.task.cleared && s.queue != [] then s.queue[1..] else s.queue
  }

  predicate CacheHolds(s: State) {
    && |s.cache| <= CACHE_CAPACITY
    && (forall k | k in s.cache :: s.cache[k].block.number == k)
    && (forall k | k in s.cache && BelowQueue(k, Unseen(s)) :: OnChain(s.chain, s.cache[k].block))
  }

  /** Nothing is delivered before the start is over. The head being handled is still there; a commit has
      no removed range to clear. */
  predicate TaskHolds(s: State) {
    && ((s.task.Starting? || s.task.Launching?) && s.queue == [] ==> s.newest.Quiet?)
    && (s.task.Handling? ==>
          && s.queue != []
          && s.task.done <= |AddedOf(s.queue[0])|
          && (CarriesRevert(s.queue[0]) || s.task.cleared))
  }

  predicate PendingHolds(s: State) {
    s.pending.Some? && RevertOf(s.pending.value).Some? ==>
      var r := RevertOf(s.pending.value).value;
      r.number >= 1 && (BelowQueue(r.number - 1, s.queue) ==> Anchored(s.chain, r))
  }

  predicate WorkerHolds(s: State)
    requires Contiguous(s.window)
  {
    match s.worker
    case Reverting(to, _) =>
      && to.number >= 1
      && (BelowQueue(to.number - 1, s.queue) && BelowState(to.number - 1, s.pending) ==> Anchored(s.chain, to))
    case Landed(to, _) => Latest(s.window) < to.number
    case Collecting(goal, latest, batch, fetch) =>
      && latest == Latest(s.window) < goal
      && Numbered(batch, latest + 1)
      && |batch| <= TurnEnd(latest, goal) - latest
      && (fetch ==> |batch| < TurnEnd(latest, goal) - latest)
      && (forall b | b in batch && Below(b.number, s) :: OnChain(s.chain, b))
    case Rearming => s.pending.Some?
    case _ => true
  }

  /** What holds in every run. */
  predicate Sound(s: State)
  {
    && ValidChain(s.chain)
    && Contiguous(s.window)
    && QueueHolds(s.queue, s.chain)
    && QueueTail(s)
    && TaskHolds(s)
    && CacheHolds(s)
    && PendingHolds(s)
    && WorkerHolds(s)
  }

  /** Stored blocks below the suspect height and every outstanding revert are canonical, and so is the
      recorded tip. */
  predicate StoreHolds(s: State)
    requires Contiguous(s.window)
  {
    && (forall b | b in s.window.blocks && Trusted(b.number, s) && Below(b.number, s) :: OnChain(s.chain, b))
    && (Trusted(Latest(s.window), s) && Below(Latest(s.window), s) ==>
          Latest(s.window) < |s.chain| && s.window.tipHash == s.chain[Latest(s.window)].hash)
  }

  /** The forward goal the worker still carries, if any. */
  function GoalOf(w: Worker): Option<nat> {
    match w
    case Reverting(_, sync) => sync
    case Landed(_, sync) => sync
    case TurnStart(goal) => Some(goal)
    case TurnOpen(goal) => Some(goal)
    case Collecting(goal, _, _, _) => Some(goal)
    case _ => None
  }

  /** Once everything is delivered after a forward notification, and unless its goal was dropped,
      someone still aims at the canonical tip, or the store has reached it. */
  predicate GoalHolds(s: State)
    requires Contiguous(s.window)
  {
    s.queue == [] && s.newest.Forward? && !s.gaveUp ==>
      match s.pending
      case Some(p) => SyncOf(p).Some? && SyncOf(p).value >= |s.chain| - 1
      case None =>
        || (GoalOf(s.worker).Some? && GoalOf(s.worker).value >= |s.chain| - 1)
        || (GoalOf(s.worker).None? && !s.worker.Reverting? && !s.worker.Landed? && Latest(s.window) >= |s.chain| - 1)
  }

  /** A worker that is or will be asleep does not sleep on a pending state. */
  predicate WakeHolds(s: State) {
    (s.worker.Waiting? || s.worker.Parked?) && s.pending.Some? ==> s.permit || s.task.Announcing?
  }

  /** What is stored still holds if nothing of it changed and no revert is gone. */
  lemma SameStoreHolds(s: State, t: State)
    requires Contiguous(s.window) && StoreHolds(s)
    requires t.window == s.window && t.chain == s.chain && t.suspect == s.suspect
    requires forall k: int :: Below(k, t) ==> Below(k, s)
    ensures StoreHolds(t)
  {
  }

  predicate Inv(s: State) {
    Sound(s) && WakeHolds(s) && StoreHolds(s) && GoalHolds(s)
  }

  // ---------------------------------------------------------------------------------------------
  // The node issues a notification
  // ---------------------------------------------------------------------------------------------

  /** A queue that holds keeps holding when the chain changes from `from` on and the notification
      about it joins the queue. */
  lemma {:induction false} QueueSurvivesIssue(q: seq<Notification>, n: Notification, chain: seq<Block>,
                                              next: seq<Block>, from: nat)
    requires QueueHolds(q, chain) && from <= |chain| && from <= |next| && next[..from] == chain[..from]
    requires CarriesRevert(n) ==> n.firstOld.number == from
    requires !CarriesRevert(n) ==> from == |chain|
    requires NoticeHolds(n, [], next)
    ensures QueueHolds(q + [n], next)
    decreases |q|
  {
    if q == [] {
      assert q + [n] == [n] && [n][1..] == [];
    } else {
      var all := q + [n];
      assert all[0] == q[0] && all[1..] == q[1..] + [n];
      QueueSurvivesIssue(q[1..], n, chain, next, from);
      NoticeSurvivesIssue(q[0], q[1..], n, chain, next, from);
    }
  }

  lemma NoticeSurvivesIssue(m: Notification, later: seq<Notification>, n: Notification, chain: seq<Block>,
                            next: seq<Block>, from: nat)
    requires NoticeHolds(m, later, chain) && from <= |chain| && from <= |next| && next[..from] == chain[..from]
    requires CarriesRevert(n) ==> n.firstOld.number == from
    requires !CarriesRevert(n) ==> from == |chain|
    ensures NoticeHolds(m, later + [n], next)
  {
    assert n in later + [n];
    forall k | BelowQueue(k, later + [n]) ensures BelowQueue(k, later) && BelowNotice(k, n) {
      assert forall x | x in later :: x in later + [n];
    }
    forall b | OnChain(chain, b) && BelowNotice(b.number, n) ensures OnChain(next, b) {
      OnChainSurvives(chain, next, from, b);
    }
    if CarriesRevert(m) && BelowQueue(m.firstOld.number - 1, later + [n]) {
      AnchoredSurvives(chain, next, from, m.firstOld);
    }
  }

  lemma OnChainSurvives(chain: seq<Block>, next: seq<Block>, from: nat, b: Block)
    requires from <= |chain| && from <= |next| && next[..from] == chain[..from]
    requires OnChain(chain, b) && b.number < from
    ensures OnChain(next, b)
  {
    assert next[..from][b.number] == chain[..from][b.number];
  }

  lemma AnchoredSurvives(chain: seq<Block>, next: seq<Block>, from: nat, b: Block)
    requires from <= |chain| && from <= |next| && next[..from] == chain[..from]
    requires Anchored(chain, b) && b.number <= from
    ensures Anchored(next, b)
  {
    assert next[..from][b.number - 1] == chain[..from][b.number - 1];
  }

  /** The node may replace the chain from `from` on and issue `n` about it. */
  predicate MayIssue(s: State, from: nat, n: Notification) {
    && 0 < from <= |s.chain|
    && (CarriesRevert(n) ==> from < |s.chain| && n.firstOld == s.chain[from])
    && (!CarriesRevert(n) ==> from == |s.chain|)
    && (n.ChainReverted? || Extends(s.chain, from, AddedOf(n)))
  }

  lemma IssuedChainIsValid(chain: seq<Block>, from: nat, added: seq<Block>)
    requires ValidChain(chain) && 0 < from <= |chain|
    requires Numbered(added, from) && LinksTo(chain[from - 1].hash, added)
    ensures ValidChain(chain[..from] + added)
    ensures (chain[..from] + added)[..from] == chain[..from]
  {
    var next := chain[..from] + added;
    forall i | 0 < i < |next| ensures next[i].parent == next[i - 1].hash {
      if i < from {
        assert chain[i].parent == chain[i - 1].hash;
      } else if i > from {
        assert added[i - from].parent == added[i - from - 1].hash;
      }
    }
  }

  lemma IssuedNoticeHolds(s: State, from: nat, n: Notification)
    requires ValidChain(s.chain) && MayIssue(s, from, n)
    ensures NoticeHolds(n, [], Issue(s, from, n).chain)
  {
    var added := BlocksOf(AddedOf(n));
    var next := s.chain[..from] + added;
    forall f | f in AddedOf(n) ensures OnChain(next, f.block) {
      var i :| 0 <= i < |AddedOf(n)| && AddedOf(n)[i] == f;
      assert next[from + i] == added[i];
    }
    if CarriesRevert(n) {
      assert s.chain[from].parent == s.chain[from - 1].hash;
    }
  }

  lemma BelowAfterIssue(k: int, q: seq<Notification>, n: Notification)
    ensures BelowQueue(k, q + [n]) <==> BelowQueue(k, q) && BelowNotice(k, n)
  {
    assert n in q + [n];
    assert forall x | x in q :: x in q + [n];
  }

  /** What was canonical below the queue stays so below the longer queue. */
  lemma CanonicalSurvivesIssue(s: State, from: nat, n: Notification, b: Block)
    requires ValidChain(s.chain) && MayIssue(s, from, n)
    requires OnChain(s.chain, b) && BelowNotice(b.number, n)
    ensures OnChain(Issue(s, from, n).chain, b)
  {
    assert (s.chain[..from] + BlocksOf(AddedOf(n)))[..from] == s.chain[..from];
    OnChainSurvives(s.chain, Issue(s, from, n).chain, from, b);
  }

  lemma AnchorSurvivesIssue(s: State, from: nat, n: Notification, b: Block)
    requires ValidChain(s.chain) && MayIssue(s, from, n)
    requires Anchored(s.chain, b) && BelowNotice(b.number - 1, n)
    ensures Anchored(Issue(s, from, n).chain, b)
  {
    assert (s.chain[..from] + BlocksOf(AddedOf(n)))[..from] == s.chain[..from];
    AnchoredSurvives(s.chain, Issue(s, from, n).chain, from, b);
  }

  lemma IssueKeepsCache(s: State, from: nat, n: Notification)
    requires Sound(s) && MayIssue(s, from, n)
    ensures CacheHolds(Issue(s, from, n))
  {
    var t := Issue(s, from, n);
    if s.queue != [] {
      assert t.queue[1..] == s.queue[1..] + [n];
    }
    assert Unseen(t) == Unseen(s) + [n];
    forall k | k in t.cache && BelowQueue(k, Unseen(t)) ensures OnChain(t.chain, t.cache[k].block) {
      BelowAfterIssue(k, Unseen(s), n);
      CanonicalSurvivesIssue(s, from, n, s.cache[k].block);
    }
  }

  lemma IssueKeepsWorker(s: State, from: nat, n: Notification)
    requires Sound(s) && MayIssue(s, from, n)
    ensures WorkerHolds(Issue(s, from, n)) && PendingHolds(Issue(s, from, n))
  {
    var t := Issue(s, from, n);
    forall k ensures BelowQueue(k, t.queue) <==> BelowQueue(k, s.queue) && BelowNotice(k, n) {
      BelowAfterIssue(k, s.queue, n);
    }
    if s.pending.Some? && RevertOf(s.pending.value).Some? {
      var r := RevertOf(s.pending.value).value;
      if BelowQueue(r.number - 1, t.queue) { AnchorSurvivesIssue(s, from, n, r); }
    }
    match s.worker {
      case Reverting(to, _) =>
        if BelowQueue(to.number - 1, t.queue) && BelowState(to.number - 1, t.pending) {
          AnchorSurvivesIssue(s, from, n, to);
        }
      case Collecting(_, _, batch, _) =>
        forall b | b in batch && Below(b.number, t) ensures OnChain(t.chain, b) {
          assert Below(b.number, s);
          CanonicalSurvivesIssue(s, from, n, b);
        }
      case _ =>
    }
  }

  lemma IssueKeepsSound(s: State, from: nat, n: Notification)
    requires Sound(s) && MayIssue(s, from, n)
    ensures Sound(Issue(s, from, n))
  {
    var t := Issue(s, from, n);
    IssuedChainIsValid(s.chain, from, BlocksOf(AddedOf(n)));
    IssuedNoticeHolds(s, from, n);
    QueueSurvivesIssue(s.queue, n, s.chain, t.chain, from);
    IssueKeepsCache(s, from, n);
    IssueKeepsWorker(s, from, n);
  }

  lemma IssueKeepsStore(s: State, from: nat, n: Notification)
    requires Sound(s) && StoreHolds(s) && MayIssue(s, from, n)
    ensures Contiguous(Issue(s, from, n).window) && StoreHolds(Issue(s, from, n))
  {
    var t := Issue(s, from, n);
    forall k ensures Below(k, t) <==> Below(k, s) && BelowNotice(k, n) {
      BelowAfterIssue(k, s.queue, n);
    }
    forall b | b in t.window.blocks && Trusted(b.number, t) && Below(b.number, t) ensures OnChain(t.chain, b) {
      CanonicalSurvivesIssue(s, from, n, b);
    }
    if Trusted(Latest(t.window), t) && Below(Latest(t.window), t) {
      var tip := s.chain[Latest(s.window)];
      CanonicalSurvivesIssue(s, from, n, tip);
    }
  }

  lemma NodeKeepsInv(s: State, a: Action)
    requires Inv(s) && (a.Commit? || a.Reorg? || a.RevertChain?) && Enabled(s, a)
    ensures Inv(Apply(s, a))
  {
    var from, n;
    match a {
      case Commit(added) => from, n := |s.chain|, ChainCommitted(added);
      case Reorg(f, added) => from, n := f, ChainReorged(s.chain[f], added);
      case RevertChain(f) => from, n := f, ChainReverted(s.chain[f]);
    }
    assert Apply(s, a) == Issue(s, from, n);
    IssueKeepsSound(s, from, n);
    IssueKeepsStore(s, from, n);
  }
}
