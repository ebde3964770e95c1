/** The bounded cache of withdraw-root expectations of the engine validator. */
module Expectations {
  import opened Blocks

  const MAX_EXPECTED_WITHDRAW_TRIE_ROOTS: nat := 4096

  datatype Expectation = SkipValidation | Verify(root: Hash)

  /** The expectations by block hash, and the hashes in the order they came in. */
  datatype Cache = Cache(roots: map<Hash, Expectation>, order: seq<Hash>)

  const EMPTY_CACHE := Cache(map[], [])

  predicate Distinct(order: seq<Hash>) {
    forall i, j | 0 <= i < j < |order| :: order[i] != order[j]
  }

  /** The order is exactly the keys, each once, and there are not too many. */
  ghost predicate Consistent(c: Cache) {
    && Distinct(c.order) && (forall h | h in c.roots :: h in c.order) && (forall h | h in c.order :: h in c.roots)
    && |c.order| <= MAX_EXPECTED_WITHDRAW_TRIE_ROOTS
  }

  function Without(order: seq<Hash>, h: Hash): seq<Hash> {
    if order == [] then []
    else
      var rest := Without(order[..|order| - 1], h);
      if order[|order| - 1] == h then rest else rest + [order[|order| - 1]]
  }

  // ---------------------------------------------------------------------------------------------
  // The calls as functions
  // ---------------------------------------------------------------------------------------------

  /** A known hash keeps its place; a new one goes last, and the oldest goes when there is no room. */
  function Recorded(c: Cache, h: Hash, e: Expectation): Cache {
    if h in c.roots then Cache(c.roots[h := e], c.order)
    else if |c.order| < MAX_EXPECTED_WITHDRAW_TRIE_ROOTS || c.order == [] then Cache(c.roots[h := e], c.order + [h])
    else Cache(c.roots[h := e] - {c.order[0]}, c.order[1..] + [h])
  }

  function Taken(c: Cache, h: Hash): Cache {
    if h in c.roots then Cache(c.roots - {h}, Without(c.order, h)) else c
  }

  lemma {:induction false} WithoutKeepsOrder(order: seq<Hash>, h: Hash)
    requires Distinct(order)
    ensures Distinct(Without(order, h)) && |Without(order, h)| <= |order|
    ensures forall x :: x in Without(order, h) <==> x in order && x != h
  {
    if order != [] {
      var init, last := order[..|order| - 1], order[|order| - 1];
      assert order == init + [last] && last !in init;
      WithoutKeepsOrder(init, h);
    }
  }

  lemma {:induction false} SizeIsOrder(roots: map<Hash, Expectation>, order: seq<Hash>)
    requires Distinct(order) && (forall h | h in roots :: h in order) && (forall h | h in order :: h in roots)
    ensures |roots| == |order|
  {
    if order == [] {
      assert roots == map[];
    } else {
      var last, init := order[|order| - 1], order[..|order| - 1];
      assert order == init + [last];
      SizeIsOrder(roots - {last}, init);
      assert (roots - {last}).Keys == roots.Keys - {last};
    }
  }

  // ---------------------------------------------------------------------------------------------
  // The calls as a program
  // ---------------------------------------------------------------------------------------------

  /** Drops the oldest hash while there is no room. */
  method EvictOldest(roots: map<Hash, Expectation>, order: seq<Hash>)
    returns (kept: map<Hash, Expectation>, rest: seq<Hash>)
    requires Distinct(order) && (forall h | h in roots :: h in order) && (forall h | h in order :: h in roots)
    requires |order| <= MAX_EXPECTED_WITHDRAW_TRIE_ROOTS + 1
    ensures |order| <= MAX_EXPECTED_WITHDRAW_TRIE_ROOTS ==> kept == roots && rest == order
    ensures |order| > MAX_EXPECTED_WITHDRAW_TRIE_ROOTS ==> kept == roots - {order[0]} && rest == order[1..]
  {
    kept, rest := roots, order;
    SizeIsOrder(roots, order);
    while |kept| > MAX_EXPECTED_WITHDRAW_TRIE_ROOTS
      invariant |kept| == |rest|
      invariant || (kept == roots && rest == order)
                || (&& |order| > |rest| == MAX_EXPECTED_WITHDRAW_TRIE_ROOTS
                    && kept == roots - {order[0]} && rest == order[1..])
      decreases |rest|
    {
      var evicted := rest[0];
      assert (kept - {evicted}).Keys == kept.Keys - {evicted};
      rest, kept := rest[1..], kept - {evicted};
    }
  }

  /** A new hash goes last, and the oldest goes when there is no room. */
  method AppendAndEvict(roots: map<Hash, Expectation>, order: seq<Hash>, h: Hash)
    returns (kept: map<Hash, Expectation>, rest: seq<Hash>)
    requires Distinct(order) && h !in order && |order| <= MAX_EXPECTED_WITHDRAW_TRIE_ROOTS
    requires h in roots && (forall x | x in roots :: x in order || x == h) && (forall x | x in order :: x in roots)
    ensures if |order| < MAX_EXPECTED_WITHDRAW_TRIE_ROOTS then kept == roots && rest == order + [h]
            else kept == roots - {order[0]} && rest == order[1..] + [h]
  {
    kept, rest := EvictOldest(roots, order + [h]);
    assert |order| > 0 ==> (order + [h])[1..] == order[1..] + [h];
  }

  datatype Outcome = Valid | L1Rejected | InnerRejected | RootMismatch

  class EngineValidator {
    var roots: map<Hash, Expectation>
    var order: seq<Hash>

    function Model(): Cache
      reads this
    {
      Cache(roots, order)
    }

    constructor ()
      ensures Model() == EMPTY_CACHE
    {
      roots, order := map[], [];
    }

    method RecordExpectation(h: Hash, e: Expectation)
      requires Consistent(Model())
      modifies this
      ensures Consistent(Model()) && Model() == Recorded(old(Model()), h, e)
    {
      RecordedIsConsistent(Model(), h, e);
      var isNew := h !in roots;
      roots := roots[h := e];
      if isNew {
        roots, order := AppendAndEvict(roots, order, h);
      }
    }

    method TakeExpectation(h: Hash) returns (r: Option<Expectation>)
      requires Consistent(Model())
      modifies this
      ensures Consistent(Model()) && Model() == Taken(old(Model()), h) && h !in roots
      ensures r == if h in old(roots) then Some(old(roots)[h]) else None
    {
      TakenIsConsistent(Model(), h);
      r := None;
      if h in roots {
        r := Some(roots[h]);
        roots := roots - {h};
        order := Without(order, h);
      }
    }

    method ClearOnError(h: Hash, failed: bool)
      requires Consistent(Model())
      modifies this
      ensures Consistent(Model()) && Model() == (if failed then Taken(old(Model()), h) else old(Model()))
      ensures failed ==> h !in roots
    {
      if failed {
        var _ := TakeExpectation(h);
      }
    }

    /** Compares the expected root, if any, with the one execution wrote, if it wrote one. */
    method ValidateWithdrawTrieRootUpdate(h: Hash, actual: Option<Hash>) returns (ok: bool)
      requires Consistent(Model())
      modifies this
      ensures Consistent(Model()) && Model() == Taken(old(Model()), h) && h !in roots
      ensures ok <==> !(h in old(roots) && old(roots)[h].Verify? && actual.Some? && actual.value != old(roots)[h].root)
    {
      var expectation := TakeExpectation(h);
      if expectation.None? || expectation.value.SkipValidation? || actual.None? {
        return true;
      }
      return actual.value == expectation.value.root;
    }

    /** Both validation entry points: the L1 check, the inner validation, which may itself record an
        expectation for the block, then the root check. */
    method ValidateBlock(h: Hash, l1Ok: bool, recorded: Option<Expectation>, innerOk: bool, actual: Option<Hash>)
      returns (r: Outcome)
      requires Consistent(Model())
      modifies this
      ensures Consistent(Model()) && h !in roots && h !in order
      ensures r.L1Rejected? <==> !l1Ok
      ensures r.InnerRejected? <==> l1Ok && !innerOk
      ensures var seen := if l1Ok && recorded.Some? then Recorded(old(Model()), h, recorded.value) else old(Model());
              && Model() == Taken(seen, h)
              && (r.RootMismatch? <==>
                  l1Ok && innerOk && h in seen.roots && seen.roots[h].Verify? && actual.Some?
                  && actual.value != seen.roots[h].root)
    {
      ClearOnError(h, !l1Ok);
      if !l1Ok {
        return L1Rejected;
      }
      if recorded.Some? {
        RecordExpectation(h, recorded.value);
      }
      ClearOnError(h, !innerOk);
      if !innerOk {
        return InnerRejected;
      }
      var ok := ValidateWithdrawTrieRootUpdate(h, actual);
      return if ok then Valid else RootMismatch;
    }
  }

  lemma RecordedIsConsistent(c: Cache, h: Hash, e: Expectation)
    requires Consistent(c)
    ensures Consistent(Recorded(c, h, e)) && h in Recorded(c, h, e).roots && Recorded(c, h, e).roots[h] == e
  {
    if h !in c.roots && |c.order| >= MAX_EXPECTED_WITHDRAW_TRIE_ROOTS {
      assert c.order == [c.order[0]] + c.order[1..];
    }
  }

  lemma TakenIsConsistent(c: Cache, h: Hash)
    requires Consistent(c)
    ensures Consistent(Taken(c, h)) && h !in Taken(c, h).roots
  {
    WithoutKeepsOrder(c.order, h);
  }

  // ---------------------------------------------------------------------------------------------
  // Any sequence of calls
  // ---------------------------------------------------------------------------------------------

  datatype Call = Record(hash: Hash, expectation: Expectation) | Take(hash: Hash) | Clear(hash: Hash, failed: bool)

  function After(c: Cache, call: Call): Cache {
    match call
    case Record(h, e) => Recorded(c, h, e)
    case Take(h) => Taken(c, h)
    case Clear(h, failed) => if failed then Taken(c, h) else c
  }

  function Run(calls: seq<Call>): Cache {
    if calls == [] then EMPTY_CACHE else After(Run(calls[..|calls| - 1]), calls[|calls| - 1])
  }

  /** When each hash last entered the cache: the position of the call that put it in while it was not
      there. */
  function Entered(calls: seq<Call>): map<Hash, nat> {
    if calls == [] then map[]
    else
      var init, last := calls[..|calls| - 1], calls[|calls| - 1];
      if last.Record? && last.hash !in Run(init).roots then Entered(init)[last.hash := |init|] else Entered(init)
  }

  /** Earlier places hold hashes that entered earlier. */
  ghost predicate ByEntry(order: seq<Hash>, entered: map<Hash, nat>, now: nat) {
    && (forall h | h in order :: h in entered && entered[h] < now)
    && (forall i, j | 0 <= i < j < |order| ::
        order[i] in entered && order[j] in entered
        && entered[order[i]] < entered[order[j]])
  }

  lemma {:induction false} WithoutByEntry(order: seq<Hash>, h: Hash, entered: map<Hash, nat>, now: nat)
    requires ByEntry(order, entered, now)
    ensures ByEntry(Without(order, h), entered, now) && forall x | x in Without(order, h) :: x in order
  {
    if order != [] {
      var init, last := order[..|order| - 1], order[|order| - 1];
      assert order == init + [last];
      WithoutByEntry(init, h, entered, now);
      forall x | x in init ensures x in entered && last in entered && entered[x] < entered[last] {
        var i :| 0 <= i < |init| && init[i] == x;
        assert order[i] == x && order[|order| - 1] == last;
      }
    }
  }

  lemma RecordedByEntry(c: Cache, h: Hash, e: Expectation, entered: map<Hash, nat>, now: nat)
    requires Consistent(c) && ByEntry(c.order, entered, now)
    ensures ByEntry(Recorded(c, h, e).order, if h in c.roots then entered else entered[h := now], now + 1)
  {
  }

  /** Over any calls: the order is exactly the keys without repetition, sorted by when they entered,
      and never more than the bound. */
  lemma {:induction false} CacheIsFifo(calls: seq<Call>)
    ensures Consistent(Run(calls)) && ByEntry(Run(calls).order, Entered(calls), |calls|)
  {
    if calls != [] {
      var init, last := calls[..|calls| - 1], calls[|calls| - 1];
      CacheIsFifo(init);
      match last
      case Record(h, e) =>
        RecordedIsConsistent(Run(init), h, e);
        RecordedByEntry(Run(init), h, e, Entered(init), |init|);
      case Take(h) =>
        TakenIsConsistent(Run(init), h);
        WithoutByEntry(Run(init).order, h, Entered(init), |init|);
      case Clear(h, failed) =>
        TakenIsConsistent(Run(init), h);
        WithoutByEntry(Run(init).order, h, Entered(init), |init|);
    }
  }

  /** A hash is lost to a record of another one only when the cache is full and it is the one that
      entered first. */
  lemma EvictionIsOldestFirst(calls: seq<Call>, h: Hash, e: Expectation, lost: Hash)
    requires lost in Run(calls).roots && lost !in Recorded(Run(calls), h, e).roots
    ensures h !in Run(calls).roots && |Run(calls).roots| == MAX_EXPECTED_WITHDRAW_TRIE_ROOTS
    ensures forall x | x in Run(calls).roots && x != lost ::
              lost in Entered(calls) && x in Entered(calls) && Entered(calls)[lost] < Entered(calls)[x]
  {
    CacheIsFifo(calls);
    var c := Run(calls);
    SizeIsOrder(c.roots, c.order);
    assert lost == c.order[0];
    forall x | x in c.roots && x != lost
      ensures lost in Entered(calls) && x in Entered(calls) && Entered(calls)[lost] < Entered(calls)[x]
    {
      var j :| 0 <= j < |c.order| && c.order[j] == x;
    }
  }
}
