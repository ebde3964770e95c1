/** The L1 message rules of one block and what they mean for whole chains. */
module L1Messages {
  import opened Blocks
  import opened ChainRules


  /** An L1 message carries a queue index; a malformed one carries none. */
  datatype Tx = L1(queueIndex: Option<nat>) | L2

  /** Every queue index is a 64-bit number. */
  predicate Fits(txs: seq<Tx>) {
    forall i | 0 <= i < |txs| && txs[i].L1? && txs[i].queueIndex.Some? :: txs[i].queueIndex.value <= U64_MAX
  }

  /** The number of L1 messages before the first other transaction. */
  function Leading(txs: seq<Tx>): (n: nat)
    ensures n <= |txs| && forall i | 0 <= i < n :: txs[i].L1?
    ensures n < |txs| ==> txs[n].L2?
  {
    if txs == [] || txs[0].L2? then 0 else 1 + Leading(txs[1..])
  }

  // ---------------------------------------------------------------------------------------------
  // The body check
  // ---------------------------------------------------------------------------------------------

  /** L1 messages come first, are well formed, and have consecutive queue indices. */
  predicate Ordered(txs: seq<Tx>) {
    && (forall i | 0 <= i < |txs| :: txs[i].L1? <==> i < Leading(txs))
    && (forall i | 0 <= i < Leading(txs) :: txs[i].queueIndex.Some?)
    && (forall i | 0 < i < Leading(txs) :: txs[i].queueIndex.value == txs[i - 1].queueIndex.value + 1)
  }

  /** The queue index of the last L1 message. */
  function LastIndex(txs: seq<Tx>): nat
    requires Ordered(txs) && Leading(txs) > 0
  {
    txs[Leading(txs) - 1].queueIndex.value
  }

  /** With L1 messages, the header points just past the last one; before Jade it may point further. */
  predicate PointsPast(txs: seq<Tx>, next: nat, jade: bool)
    requires Ordered(txs)
  {
    Leading(txs) > 0 ==>
      LastIndex(txs) < U64_MAX && if jade then next == LastIndex(txs) + 1 else next >= LastIndex(txs) + 1
  }

  predicate BodyOk(txs: seq<Tx>, next: nat, jade: bool) {
    Ordered(txs) && PointsPast(txs, next, jade)
  }

  datatype Verdict = Accepted | InvalidOrder | Malformed | NotInOrder | InvalidNextIndex

  /** The state of the body loop after `i` transactions: all of them leading L1 messages in order, or
      the L1 messages in order and then others. */
  ghost predicate Scanned(txs: seq<Tx>, i: nat, sawL2: bool, prev: Option<nat>) {
    && i <= |txs| && (sawL2 <==> Leading(txs) < i)
    && var n := if sawL2 then Leading(txs) else i;
       && (forall j | 0 <= j < i :: txs[j].L1? <==> j < n)
       && (forall j | 0 <= j < n :: txs[j].queueIndex.Some?)
       && (forall j | 0 < j < n :: txs[j].queueIndex.value == txs[j - 1].queueIndex.value + 1)
       && prev == if n == 0 then None else txs[n - 1].queueIndex
  }

  lemma LeadingIs(txs: seq<Tx>, n: nat)
    requires n <= |txs| && (forall j | 0 <= j < n :: txs[j].L1?) && (n < |txs| ==> txs[n].L2?)
    ensures Leading(txs) == n
  {
  }

  lemma ScanMessage(txs: seq<Tx>, i: nat, prev: Option<nat>)
    requires Scanned(txs, i, false, prev) && i < |txs| && txs[i].L1? && txs[i].queueIndex.Some?
    requires prev.Some? ==> txs[i].queueIndex.value == prev.value + 1
    ensures Scanned(txs, i + 1, false, txs[i].queueIndex)
  {
  }

  lemma ScanOther(txs: seq<Tx>, i: nat, sawL2: bool, prev: Option<nat>)
    requires Scanned(txs, i, sawL2, prev) && i < |txs| && txs[i].L2?
    ensures Scanned(txs, i + 1, true, prev)
  {
    if !sawL2 {
      LeadingIs(txs, i);
    }
  }

  lemma ScanEnd(txs: seq<Tx>, sawL2: bool, prev: Option<nat>)
    requires Scanned(txs, |txs|, sawL2, prev)
    ensures Ordered(txs) && prev == if Leading(txs) == 0 then None else Some(LastIndex(txs))
  {
    if !sawL2 {
      LeadingIs(txs, |txs|);
    }
  }

  /** What a rejection by the loop points at. */
  ghost predicate Offends(txs: seq<Tx>, i: nat, r: Verdict) {
    && i < |txs| && txs[i].L1?
    && match r
       case InvalidOrder => i > Leading(txs)
       case Malformed => i < Leading(txs) && txs[i].queueIndex.None?
       case NotInOrder => 0 < i < Leading(txs) && txs[i].queueIndex.Some? && txs[i - 1].queueIndex.Some?
                          && txs[i].queueIndex.value != txs[i - 1].queueIndex.value + 1
       case _ => false
  }

  method ValidateL1MessagesInBlock(txs: seq<Tx>, next: nat, jade: bool) returns (r: Verdict, ghost at: nat)
    requires Fits(txs)
    ensures r.Accepted? <==> BodyOk(txs, next, jade)
    ensures r.InvalidNextIndex? <==> Ordered(txs) && !PointsPast(txs, next, jade)
    ensures !r.Accepted? && !r.InvalidNextIndex? ==> Offends(txs, at, r)
  {
    var sawL2, prev := false, None;
    var count := 0;
    at := 0;
    for i := 0 to |txs|
      invariant Scanned(txs, i, sawL2, prev)
      invariant count > 0 <==> prev.Some?
    {
      if txs[i].L1? {
        if sawL2 {
          return InvalidOrder, i;
        }
        StillLeading(txs, i);
        var index := txs[i].queueIndex;
        if index.None? {
          return Malformed, i;
        }
        if prev.Some? {
          if prev.value == U64_MAX || index.value != prev.value + 1 {
            return NotInOrder, i;
          }
        }
        ScanMessage(txs, i, prev);
        prev, count := index, count + 1;
      } else {
        ScanOther(txs, i, sawL2, prev);
        sawL2 := true;
      }
    }
    ScanEnd(txs, sawL2, prev);
    if count > 0 {
      var last := prev.value;
      if last == U64_MAX || (if jade then next != last + 1 else next < last + 1) {
        return InvalidNextIndex, 0;
      }
    }
    r := Accepted;
  }

  lemma StillLeading(txs: seq<Tx>, i: nat)
    requires i < |txs| && Leading(txs) >= i && txs[i].L1?
    ensures Leading(txs) > i
  {
  }

  // ---------------------------------------------------------------------------------------------
  // The engine check
  // ---------------------------------------------------------------------------------------------

  /** What the header should say: just past the last leading L1 message, else what the parent says. */
  function Derived(parentNext: nat, txs: seq<Tx>): Option<nat> {
    if Leading(txs) == 0 then Some(parentNext)
    else if exists i | 0 <= i < Leading(txs) :: txs[i].queueIndex.None? || txs[i].queueIndex.value >= U64_MAX then None
    else Some(txs[Leading(txs) - 1].queueIndex.value + 1)
  }

  /** Before Jade, or without the parent, there is nothing to check. */
  predicate EngineOk(txs: seq<Tx>, next: nat, jade: bool, parentNext: Option<nat>) {
    jade && parentNext.Some? ==> Derived(parentNext.value, txs) == Some(next)
  }

  method ValidateNextL1MsgIndex(txs: seq<Tx>, next: nat, jade: bool, parentNext: Option<nat>) returns (ok: bool)
    requires Fits(txs)
    ensures ok <==> EngineOk(txs, next, jade, parentNext)
  {
    if !jade || parentNext.None? {
      return true;
    }
    var expected := parentNext.value;
    var i := 0;
    while i < |txs| && txs[i].L1?
      invariant 0 <= i <= Leading(txs)
      invariant forall j | 0 <= j < i :: txs[j].queueIndex.Some? && txs[j].queueIndex.value < U64_MAX
      invariant expected == if i == 0 then parentNext.value else txs[i - 1].queueIndex.value + 1
    {
      StillLeading(txs, i);
      if txs[i].queueIndex.None? || txs[i].queueIndex.value == U64_MAX {
        return false;
      }
      expected := txs[i].queueIndex.value + 1;
      i := i + 1;
    }
    return next == expected;
  }

  /** On a block whose body is accepted after Jade, the two loops derive the same value whenever there
      are L1 messages, so the engine check adds exactly that a block without them inherits. */
  lemma LoopsAgree(txs: seq<Tx>, next: nat, parentNext: nat)
    requires Fits(txs) && BodyOk(txs, next, true)
    ensures Leading(txs) > 0 ==> Derived(parentNext, txs) == Some(LastIndex(txs) + 1) == Some(next)
    ensures EngineOk(txs, next, true, Some(parentNext)) <==> Leading(txs) > 0 || next == parentNext
  {
    if Leading(txs) > 0 {
      forall i | 0 <= i < Leading(txs) ensures txs[i].queueIndex.value <= txs[Leading(txs) - 1].queueIndex.value {
        IndicesRise(txs, i, Leading(txs) - 1);
      }
    }
  }

  lemma {:induction false} IndicesRise(txs: seq<Tx>, i: nat, j: nat)
    requires Ordered(txs) && i <= j < Leading(txs)
    ensures txs[i].queueIndex.value + (j - i) == txs[j].queueIndex.value
  {
    if i < j {
      IndicesRise(txs, i, j - 1);
    }
  }

  // ---------------------------------------------------------------------------------------------
  // Chains
  // ---------------------------------------------------------------------------------------------

  datatype Sealed = Sealed(timestamp: nat, next: nat, txs: seq<Tx>)

  /** A block passes the body check, and against its parent the timestamp rule, the monotonicity check
      and the engine check. */
  predicate BlockOk(b: Sealed, jadeTime: nat) {
    Fits(b.txs) && BodyOk(b.txs, b.next, b.timestamp >= jadeTime)
  }

  predicate ChildOk(b: Sealed, parent: Sealed, jadeTime: nat, emeraldTime: nat) {
    && TimestampOk(b.timestamp, parent.timestamp, emeraldTime)
    && b.next >= parent.next && EngineOk(b.txs, b.next, b.timestamp >= jadeTime, Some(parent.next))
  }

  predicate ChainOk(chain: seq<Sealed>, jadeTime: nat, emeraldTime: nat) {
    && (forall i | 0 <= i < |chain| :: BlockOk(chain[i], jadeTime))
    && (forall i | 0 < i < |chain| :: ChildOk(chain[i], chain[i - 1], jadeTime, emeraldTime))
  }

  lemma {:induction false} NextNeverDecreases(chain: seq<Sealed>, jadeTime: nat, emeraldTime: nat, i: nat, j: nat)
    requires ChainOk(chain, jadeTime, emeraldTime) && i <= j < |chain|
    ensures chain[i].next <= chain[j].next && chain[i].timestamp <= chain[j].timestamp
  {
    if i < j {
      NextNeverDecreases(chain, jadeTime, emeraldTime, i, j - 1);
      assert ChildOk(chain[j], chain[j - 1], jadeTime, emeraldTime);
    }
  }

  /** The index of a block exceeds every queue index in the chain up to it. */
  lemma NextExceedsIncluded(chain: seq<Sealed>, jadeTime: nat, emeraldTime: nat, i: nat, t: nat, j: nat)
    requires ChainOk(chain, jadeTime, emeraldTime) && i <= j < |chain| && t < |chain[i].txs| && chain[i].txs[t].L1?
    ensures chain[i].txs[t].queueIndex.Some? && chain[i].txs[t].queueIndex.value < chain[j].next
  {
    assert BlockOk(chain[i], jadeTime);
    IndicesRise(chain[i].txs, t, Leading(chain[i].txs) - 1);
    NextNeverDecreases(chain, jadeTime, emeraldTime, i, j);
  }

  /** From Jade on the index is one more than the last queue index of the latest block with L1
      messages, else inherited. */
  lemma {:induction false} NextIsLastPlusOne(chain: seq<Sealed>, jadeTime: nat, emeraldTime: nat, s: nat, j: nat)
    requires ChainOk(chain, jadeTime, emeraldTime) && s <= j < |chain| && (s < j ==> chain[s + 1].timestamp >= jadeTime)
    ensures chain[j].next == Expected(chain, s, j)
  {
    if s < j {
      NextIsLastPlusOne(chain, jadeTime, emeraldTime, s, j - 1);
      NextNeverDecreases(chain, jadeTime, emeraldTime, s + 1, j);
      assert BlockOk(chain[j], jadeTime) && ChildOk(chain[j], chain[j - 1], jadeTime, emeraldTime);
      LoopsAgree(chain[j].txs, chain[j].next, chain[j - 1].next);
    }
  }

  /** One more than the last queue index of the latest block after `s` with L1 messages, else what
      block `s` says. */
  function Expected(chain: seq<Sealed>, s: nat, j: nat): nat
    requires s <= j < |chain| && forall i | 0 <= i < |chain| :: Ordered(chain[i].txs)
    decreases j - s
  {
    if s == j then chain[s].next
    else if Leading(chain[j].txs) > 0 then assert Ordered(chain[j].txs); LastIndex(chain[j].txs) + 1
    else Expected(chain, s, j - 1)
  }
}
