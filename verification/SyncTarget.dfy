/** The shared sync target: the pending state and how notifications merge into it, the bounded
    cache of trie data, and the wake-up permit of the background worker. */
module SyncTargets {
  import opened Blocks

  const CACHE_CAPACITY: nat := 1024

  /** What the worker should do next. A revert names the first block to remove. */
  datatype SyncTargetState =
    | SyncUpTo(to: nat)
    | RevertThenSync(revertTo: Block, syncTo: nat)
    | Revert(revertTo: Block)

  /** The first block a state asks to remove, if it asks for a revert. */
  function RevertOf(s: SyncTargetState): Option<Block> {
    match s
    case SyncUpTo(_) => None
    case RevertThenSync(r, _) => Some(r)
    case Revert(r) => Some(r)
  }

  /** The block number a state asks to reach, if it asks for forward sync. */
  function SyncOf(s: SyncTargetState): Option<nat> {
    match s
    case SyncUpTo(t) => Some(t)
    case RevertThenSync(_, t) => Some(t)
    case Revert(_) => None
  }

  function DeeperRevert(current: Block, next: Block): Block {
    if next.number <= current.number then next else current
  }

  function FurtherSync(current: nat, next: nat): nat {
    if next >= current then next else current
  }

  /** Merge a newly arrived state into the pending one. */
  function ApplyNext(current: SyncTargetState, next: SyncTargetState): SyncTargetState {
    match (current, next)
    case (SyncUpTo(a), SyncUpTo(b)) => SyncUpTo(FurtherSync(a, b))
    case (SyncUpTo(_), _) => next
    case (RevertThenSync(r, _), Revert(q)) => Revert(DeeperRevert(r, q))
    case (Revert(r), Revert(q)) => Revert(DeeperRevert(r, q))
    case (RevertThenSync(r, _), RevertThenSync(q, t)) => RevertThenSync(DeeperRevert(r, q), t)
    case (Revert(r), RevertThenSync(q, t)) => RevertThenSync(DeeperRevert(r, q), t)
    case (RevertThenSync(r, t), SyncUpTo(b)) => RevertThenSync(r, FurtherSync(t, b))
    case (Revert(r), SyncUpTo(b)) => RevertThenSync(r, b)
  }

  /** The pending slot after `update_state`. */
  function Updated(pending: Option<SyncTargetState>, next: SyncTargetState): SyncTargetState {
    match pending
    case None => next
    case Some(current) => ApplyNext(current, next)
  }

  /** The pending slot after `requeue_state`: the failed work is the base. */
  function Requeued(pending: Option<SyncTargetState>, failed: SyncTargetState): SyncTargetState {
    match pending
    case None => failed
    case Some(newer) => ApplyNext(failed, newer)
  }

  /** Whether the completed revert already removed everything `pending` asks for. */
  predicate RevertIsCovered(pending: Block, completed: Block) {
    || pending.number > completed.number
    || (pending.number == completed.number && pending.hash == completed.hash)
  }

  /** The pending slot after `mark_revert_complete`. */
  function Marked(pending: Option<SyncTargetState>, completed: Block): Option<SyncTargetState> {
    match pending
    case Some(RevertThenSync(r, t)) => if RevertIsCovered(r, completed) then Some(SyncUpTo(t)) else pending
    case Some(Revert(r)) => if RevertIsCovered(r, completed) then None else pending
    case _ => pending
  }

  // ---------------------------------------------------------------------------------------------
  // The merge algebra
  // ---------------------------------------------------------------------------------------------

  /** Merging is associative, so it does not matter when the worker looks. */
  lemma ApplyNextAssociative(a: SyncTargetState, b: SyncTargetState, c: SyncTargetState)
    ensures ApplyNext(ApplyNext(a, b), c) == ApplyNext(a, ApplyNext(b, c))
  {
  }

  /** All notifications of a non-empty sequence merged in arrival order. */
  function MergeAll(ns: seq<SyncTargetState>): SyncTargetState
    requires |ns| > 0
  {
    var last := |ns| - 1;
    if last == 0 then ns[0] else ApplyNext(MergeAll(ns[..last]), ns[last])
  }

  /** `i` carries the lowest revert of the sequence, and is the latest to do so. */
  predicate LowestRevertAt(ns: seq<SyncTargetState>, i: int) {
    && 0 <= i < |ns|
    && RevertOf(ns[i]).Some?
    && (forall j | 0 <= j < |ns| && RevertOf(ns[j]).Some? ::
          RevertOf(ns[i]).value.number <= RevertOf(ns[j]).value.number)
    && (forall j | i < j < |ns| && RevertOf(ns[j]).Some? ::
          RevertOf(ns[i]).value.number < RevertOf(ns[j]).value.number)
  }

  /** `from` is where the last revert-carrying notification stands, or the start if there is none. */
  predicate LastRevertAt(ns: seq<SyncTargetState>, from: int) {
    && 0 <= from < |ns|
    && (RevertOf(ns[from]).Some? || from == 0)
    && (forall j | from < j < |ns| :: RevertOf(ns[j]).None?)
  }

  /** `t` is the largest forward target among the notifications from `from` on. */
  predicate LargestTargetFrom(ns: seq<SyncTargetState>, from: int, t: nat)
    requires 0 <= from <= |ns|
  {
    && (exists j | from <= j < |ns| :: SyncOf(ns[j]) == Some(t))
    && (forall j | from <= j < |ns| && SyncOf(ns[j]).Some? :: SyncOf(ns[j]).value <= t)
  }

  /** One more notification either takes over as the lowest revert or leaves the old one. */
  lemma LowestRevertExtends(ns: seq<SyncTargetState>, i: int)
    requires |ns| > 0 && LowestRevertAt(ns[..|ns| - 1], i)
    ensures match RevertOf(ns[|ns| - 1])
            case Some(r) => LowestRevertAt(ns, if r.number <= RevertOf(ns[i]).value.number then |ns| - 1 else i)
            case None => LowestRevertAt(ns, i)
  {
    var front := ns[..|ns| - 1];
    assert forall j | 0 <= j < |front| :: front[j] == ns[j];
  }

  /** The revert half of a merged sequence. */
  lemma {:induction false} MergedRevert(ns: seq<SyncTargetState>) returns (i: int)
    requires |ns| > 0
    ensures match RevertOf(MergeAll(ns))
            case None => forall j | 0 <= j < |ns| :: RevertOf(ns[j]).None?
            case Some(r) => LowestRevertAt(ns, i) && RevertOf(ns[i]) == Some(r)
  {
    var last := |ns| - 1;
    i := last;
    if last > 0 {
      var front := ns[..last];
      var k := MergedRevert(front);
      assert forall j | 0 <= j < last :: front[j] == ns[j];
      if RevertOf(MergeAll(front)).Some? {
        LowestRevertExtends(ns, k);
        if RevertOf(ns[last]).None? || RevertOf(ns[last]).value.number > RevertOf(ns[k]).value.number {
          i := k;
        }
      }
    }
  }

  /** The forward half of a merged sequence. */
  lemma {:induction false} MergedTarget(ns: seq<SyncTargetState>)
    requires |ns| > 0
    ensures exists from ::
              && LastRevertAt(ns, from)
              && match SyncOf(MergeAll(ns))
                 case None => forall j | from <= j < |ns| :: SyncOf(ns[j]).None?
                 case Some(t) => LargestTargetFrom(ns, from, t)
  {
    var last := |ns| - 1;
    if last == 0 || RevertOf(ns[last]).Some? {
      assert LastRevertAt(ns, last);
      if SyncOf(ns[last]).Some? {
        assert LargestTargetFrom(ns, last, SyncOf(ns[last]).value);
      }
      assert SyncOf(MergeAll(ns)) == SyncOf(ns[last]);
    } else {
      var front := ns[..last];
      MergedTarget(front);
      var from :| LastRevertAt(front, from) &&
        match SyncOf(MergeAll(front))
        case None => forall j | from <= j < |front| :: SyncOf(front[j]).None?
        case Some(t) => LargestTargetFrom(front, from, t);
      assert forall j | 0 <= j < last :: front[j] == ns[j];
      assert LastRevertAt(ns, from);
      var t := SyncOf(MergeAll(ns)).value;
      if SyncOf(MergeAll(front)).Some? {
        var j :| from <= j < |front| && SyncOf(front[j]) == SyncOf(MergeAll(front));
        assert SyncOf(ns[if t == ns[last].to then last else j]) == Some(t);
      } else {
        assert SyncOf(ns[last]) == Some(t);
      }
      assert LargestTargetFrom(ns, from, t);
    }
  }

  /** The pending slot after a series of `update_state` calls. */
  function UpdatedAll(pending: Option<SyncTargetState>, ns: seq<SyncTargetState>): Option<SyncTargetState> {
    if ns == [] then pending else Some(Updated(UpdatedAll(pending, ns[..|ns| - 1]), ns[|ns| - 1]))
  }

  /** Taking the pending state, letting any notifications arrive, and requeueing what was taken
      leaves the slot as if nothing had been taken. */
  lemma {:induction false} RequeueUndoesTake(taken: SyncTargetState, ns: seq<SyncTargetState>)
    ensures Some(Requeued(UpdatedAll(None, ns), taken)) == UpdatedAll(Some(taken), ns)
  {
    if ns != [] {
      var front := ns[..|ns| - 1];
      RequeueUndoesTake(taken, front);
      var arrived := UpdatedAll(None, front);
      if arrived.Some? {
        ApplyNextAssociative(taken, arrived.value, ns[|ns| - 1]);
      }
    }
  }

  /** A pending revert survives in the merge: `k` lies below the merged revert exactly when it
      lies below both. */
  lemma MergeKeepsFloor(current: SyncTargetState, next: SyncTargetState, k: nat)
    ensures BelowState(k, Some(ApplyNext(current, next))) <==>
            BelowState(k, Some(current)) && BelowState(k, Some(next))
  {
  }

  /** `k` is below the first block the pending state asks to remove. */
  predicate BelowState(k: int, pending: Option<SyncTargetState>) {
    pending.Some? && RevertOf(pending.value).Some? ==> k < RevertOf(pending.value).value.number
  }

  // ---------------------------------------------------------------------------------------------
  // The bounded cache
  // ---------------------------------------------------------------------------------------------

  /** Cached trie data of one block; `data` stands for the diff. */
  datatype CachedBlock = CachedBlock(block: Block, data: nat)

  type Cache = map<nat, CachedBlock>

  /** The key `pop_first` removes. */
  function FirstKey(cache: Cache): (k: nat)
    requires |cache| > 0
    ensures k in cache && forall j | j in cache :: k <= j
  {
    assert |cache.Keys| == |cache|;
    LeastExists(cache.Keys);
    var k :| k in cache.Keys && forall j | j in cache.Keys :: k <= j;
    k
  }

  lemma RemoveShrinks(cache: Cache, k: nat)
    requires k in cache
    ensures |cache - {k}| == |cache| - 1
  {
    assert (cache - {k}).Keys == cache.Keys - {k};
    assert |cache.Keys| == |cache|;
  }

  lemma {:induction false} SubsetIsSmaller(a: set<nat>, b: set<nat>)
    requires a <= b
    ensures |a| <= |b|
  {
    if a != {} {
      var x :| x in a;
      SubsetIsSmaller(a - {x}, b - {x});
    }
  }

  lemma SubMapIsSmaller(a: Cache, b: Cache)
    requires a.Keys <= b.Keys
    ensures |a| <= |b|
  {
    SubsetIsSmaller(a.Keys, b.Keys);
    assert |a.Keys| == |a| && |b.Keys| == |b|;
  }

  /** The cache after evicting its lowest entries down to the capacity. */
  function Evicted(cache: Cache): (r: Cache)
    ensures |r| <= CACHE_CAPACITY
    decreases |cache|
  {
    if |cache| <= CACHE_CAPACITY then cache
    else
      var k := FirstKey(cache);
      RemoveShrinks(cache, k);
      Evicted(cache - {k})
  }

  /** Eviction keeps a sub-map, drops only entries below every kept one, and never frees more
      room than needed. */
  lemma {:induction false} EvictionIsLowestFirst(cache: Cache)
    ensures forall k | k in Evicted(cache) :: k in cache && Evicted(cache)[k] == cache[k]
    ensures forall k, j | k in cache && k !in Evicted(cache) && j in Evicted(cache) :: k < j
    ensures |Evicted(cache)| == if |cache| <= CACHE_CAPACITY then |cache| else CACHE_CAPACITY
    decreases |cache|
  {
    if |cache| > CACHE_CAPACITY {
      var k := FirstKey(cache);
      RemoveShrinks(cache, k);
      EvictionIsLowestFirst(cache - {k});
    }
  }

  function Inserted(cache: Cache, number: nat, data: CachedBlock): Cache {
    Evicted(cache[number := data])
  }

  function ClearedFrom(cache: Cache, number: nat): Cache {
    map k | k in cache && k < number :: cache[k]
  }

  // ---------------------------------------------------------------------------------------------
  // The shared object
  // ---------------------------------------------------------------------------------------------

  /** The object shared by the notification task and the worker. Each method is one critical
      section of the source; `parked` and `permit` are the two halves of the wake-up primitive. */
  class SyncTarget {
    var cache: Cache
    var state: Option<SyncTargetState>
    var permit: bool
    var parked: bool

    constructor ()
      ensures cache == map[] && state == None && !permit && !parked
    {
      cache, state, permit, parked := map[], None, false, false;
    }

    /** Wakes a parked waiter, or stores one permit for the next one. */
    method NotifyOne()
      modifies this`permit, this`parked
      ensures if old(parked) then !parked && permit == old(permit) else !parked && permit
    {
      if parked { parked := false; } else { permit := true; }
    }

    method UpdateState(next: SyncTargetState)
      modifies this`state, this`permit, this`parked
      ensures state == Some(Updated(old(state), next))
      ensures !parked && (permit || old(parked))
    {
      match state {
        case Some(current) => state := Some(ApplyNext(current, next));
        case None => state := Some(next);
      }
      NotifyOne();
    }

    method RequeueState(failed: SyncTargetState)
      modifies this`state, this`permit, this`parked
      ensures state == Some(Requeued(old(state), failed))
      ensures !parked && (permit || old(parked))
    {
      var base := failed;
      if state.Some? {
        base := ApplyNext(base, state.value);
      }
      state := Some(base);
      NotifyOne();
    }

    method TakeState() returns (taken: Option<SyncTargetState>)
      modifies this`state
      ensures taken == old(state) && state == None
    {
      taken := state;
      state := None;
    }

    method MarkRevertComplete(revertedTo: Block)
      modifies this`state
      ensures state == Marked(old(state), revertedTo)
    {
      match state {
        case Some(RevertThenSync(r, t)) =>
          if RevertIsCovered(r, revertedTo) { state := Some(SyncUpTo(t)); }
        case Some(Revert(r)) =>
          if RevertIsCovered(r, revertedTo) { state := None; }
        case _ =>
      }
    }

    method HasPendingState() returns (pending: bool)
      ensures pending <==> state.Some?
    {
      pending := state.Some?;
    }

    method Insert(number: nat, data: CachedBlock)
      modifies this`cache
      ensures cache == Inserted(old(cache), number, data)
    {
      cache := cache[number := data];
      while |cache| > CACHE_CAPACITY
        invariant Evicted(cache) == Inserted(old(cache), number, data)
        decreases |cache|
      {
        var k := FirstKey(cache);
        RemoveShrinks(cache, k);
        cache := cache - {k};
      }
    }

    method Take(number: nat) returns (hit: Option<CachedBlock>)
      modifies this`cache
      ensures hit == if number in old(cache) then Some(old(cache)[number]) else None
      ensures cache == old(cache) - {number}
    {
      hit := if number in cache then Some(cache[number]) else None;
      cache := cache - {number};
    }

    method ClearFrom(number: nat)
      modifies this`cache
      ensures cache == ClearedFrom(old(cache), number)
    {
      cache := map k | k in cache && k < number :: cache[k];
    }
  }
}
