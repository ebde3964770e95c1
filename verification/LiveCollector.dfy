/** The collector that executes and stores batches of blocks in one session of the store. */
module LiveCollectors {
  import opened Blocks
  import opened VersionedTables
  import opened ProofStores
  import opened StoreRefinement


  /** A block with what execution needs of it. */
  datatype Body = Body(block: Block, stateRoot: nat, payload: nat)

  /** The executor: deterministic in the state it reads. No result is an execution error. */
  datatype Evm = Evm(execute: (State, Body) -> Option<Diff>, root: (State, Diff) -> nat)

  datatype BatchBlock = Cached(cached: Block, diff: Diff) | Execute(body: Body)

  datatype Error =
    | NoBlocksFound
    | UnknownParent
    | MissingParentBlock
    | ExecutionFailed
    | StateRootMismatch
    | OutOfOrder
    | KeyOrder

  datatype Result<T> = Ok(value: T) | Err(error: Error)

  /** The tables and the recorded latest block; the earliest block is among the tables. */
  datatype Db = Db(tables: Tables, recorded: Option<(nat, Hash)>)

  /** The latest block is the earliest one until a block is appended. */
  function Latest(s: Db): Option<(nat, Hash)> {
    if s.recorded.Some? then s.recorded else s.tables.earliest
  }

  // ---------------------------------------------------------------------------------------------
  // One entry
  // ---------------------------------------------------------------------------------------------

  /** The append-only write: only a child of the tip is taken, and change sets only grow. */
  function Append(s: Db, b: Block, d: Diff): Result<Db> {
    var tip := if Latest(s).Some? then Latest(s).value.1 else 0;
    if tip != b.parent then Err(OutOfOrder)
    else if exists n | n in s.tables.updates :: n >= b.number then Err(KeyOrder)
    else Ok(Db(Stored(s.tables, b.number, d), Some((b.number, b.hash))))
  }

  /** The unsigned predecessor of a block number. */
  function ParentNumber(n: nat): nat {
    if n == 0 then U64_MAX else n - 1
  }

  /** Executes a block on the view at its parent, checking the window and the state root. */
  function Executed(evm: Evm, s: Db, body: Body): Result<Diff>
    requires s.tables.earliest.Some?
  {
    var parent := ParentNumber(body.block.number);
    if parent < s.tables.earliest.value.0 then Err(UnknownParent)
    else if parent > Latest(s).value.0 then Err(MissingParentBlock)
    else
      var view := Viewed(s.tables, parent);
      match evm.execute(view, body)
      case None => Err(ExecutionFailed)
      case Some(d) => if evm.root(view, d) != body.stateRoot then Err(StateRootMismatch) else Ok(d)
  }

  /** One entry on the session; the window is read at the start of the batch and does not move. */
  function Step(evm: Evm, s: Db, entry: BatchBlock): (r: Result<Db>)
    ensures r.Ok? ==> r.value.tables.earliest == s.tables.earliest
  {
    if s.tables.earliest.None? then Err(NoBlocksFound)
    else
      match entry
      case Cached(b, d) => Append(s, b, d)
      case Execute(body) =>
        match Executed(evm, s, body)
        case Ok(d) => Append(s, body.block, d)
        case Err(e) => Err(e)
  }

  // ---------------------------------------------------------------------------------------------
  // Batches
  // ---------------------------------------------------------------------------------------------

  type Stepper<!S> = (S, BatchBlock) -> Result<S>

  function StepOn(evm: Evm): Stepper<Db> {
    (s: Db, entry: BatchBlock) => Step(evm, s, entry)
  }

  /** The entries in order, up to the first error. */
  function BatchRun<S>(f: Stepper<S>, s: S, entries: seq<BatchBlock>): Result<S>
    decreases |entries|
  {
    if entries == [] then Ok(s)
    else
      match f(s, entries[0])
      case Ok(next) => BatchRun(f, next, entries[1..])
      case Err(e) => Err(e)
  }

  /** Batches one after another, up to the first that fails; each is stored whole or not at all. */
  function BatchesRun<S>(f: Stepper<S>, s: S, batches: seq<seq<BatchBlock>>): (S, bool)
    decreases |batches|
  {
    if batches == [] then (s, true)
    else
      match BatchRun(f, s, batches[0])
      case Ok(next) => BatchesRun(f, next, batches[1..])
      case Err(_) => (s, false)
  }

  class LiveTrieCollector {
    const evm: Evm
    var store: Db

    constructor (evm: Evm, store: Db)
      ensures this.evm == evm && this.store == store
    {
      this.evm, this.store := evm, store;
    }

    /** Stages the entries one by one on a session; commits it if all succeed, drops it at the first
        error. */
    method ExecuteAndStoreBatch(entries: seq<BatchBlock>) returns (r: Result<()>)
      modifies this
      ensures r.Ok? <==> BatchRun(StepOn(evm), old(store), entries).Ok?
      ensures r.Ok? ==> store == BatchRun(StepOn(evm), old(store), entries).value
      ensures r.Err? ==> store == old(store) && r.error == BatchRun(StepOn(evm), old(store), entries).error
    {
      if entries == [] {
        return Ok(());
      }
      var session := store;
      if session.tables.earliest.None? {
        return Err(NoBlocksFound);
      }
      for i := 0 to |entries|
        invariant session.tables.earliest.Some? && store == old(store)
        invariant BatchRun(StepOn(evm), store, entries) == BatchRun(StepOn(evm), session, entries[i..])
      {
        var staged := Step(evm, session, entries[i]);
        if staged.Err? {
          return Err(staged.error);
        }
        session := staged.value;
        assert entries[i..][1..] == entries[i + 1..];
      }
      store := session;
      return Ok(());
    }
  }

  // ---------------------------------------------------------------------------------------------
  // Any mix
  // ---------------------------------------------------------------------------------------------

  function Executes(bodies: seq<Body>): seq<BatchBlock> {
    seq(|bodies|, i requires 0 <= i < |bodies| => Execute(bodies[i]))
  }

  /** The entry is the block to be executed, or carries the diff that execution on the parent view
      would produce. */
  predicate HonestEntry(evm: Evm, s: Db, entry: BatchBlock, body: Body) {
    match entry
    case Execute(b) => b == body
    case Cached(b, d) => b == body.block && s.tables.earliest.Some? && Executed(evm, s, body) == Ok(d)
  }

  /** Every entry is honest where the run of executed blocks gets to it. */
  predicate Honest(evm: Evm, s: Db, entries: seq<BatchBlock>, bodies: seq<Body>)
    decreases |entries|
  {
    && |entries| == |bodies|
    && (entries != [] ==>
          && HonestEntry(evm, s, entries[0], bodies[0])
          && var next := StepOn(evm)(s, Execute(bodies[0]));
             next.Ok? ==> Honest(evm, next.value, entries[1..], bodies[1..]))
  }

  lemma HonestStep(evm: Evm, s: Db, entry: BatchBlock, body: Body)
    requires HonestEntry(evm, s, entry, body)
    ensures StepOn(evm)(s, entry) == StepOn(evm)(s, Execute(body))
  {
  }

  lemma {:induction false} MixEqualsExecution(evm: Evm, s: Db, entries: seq<BatchBlock>, bodies: seq<Body>)
    requires Honest(evm, s, entries, bodies)
    ensures BatchRun(StepOn(evm), s, entries) == BatchRun(StepOn(evm), s, Executes(bodies))
    decreases |entries|
  {
    if entries != [] {
      assert Executes(bodies)[0] == Execute(bodies[0]) && Executes(bodies)[1..] == Executes(bodies[1..]);
      HonestStep(evm, s, entries[0], bodies[0]);
      var next := StepOn(evm)(s, Execute(bodies[0]));
      if next.Ok? {
        MixEqualsExecution(evm, next.value, entries[1..], bodies[1..]);
      }
    }
  }

  // ---------------------------------------------------------------------------------------------
  // Any split
  // ---------------------------------------------------------------------------------------------

  function Flatten<T>(parts: seq<seq<T>>): seq<T> {
    if parts == [] then [] else parts[0] + Flatten(parts[1..])
  }

  lemma {:induction false} BatchRunConcat<S>(f: Stepper<S>, s: S, a: seq<BatchBlock>, b: seq<BatchBlock>)
    ensures BatchRun(f, s, a + b)
         == (match BatchRun(f, s, a) case Ok(next) => BatchRun(f, next, b) case Err(e) => Err(e))
    decreases |a|
  {
    if a == [] {
      assert a + b == b;
    } else {
      assert (a + b)[0] == a[0] && (a + b)[1..] == a[1..] + b;
      var next := f(s, a[0]);
      if next.Ok? {
        BatchRunConcat(f, next.value, a[1..], b);
      }
    }
  }

  /** All batches succeed exactly if the blocks in one batch would, and then leave the same store. */
  lemma {:induction false} SplitEqualsOneBatch<S>(f: Stepper<S>, s: S, batches: seq<seq<BatchBlock>>)
    ensures BatchesRun(f, s, batches).1 <==> BatchRun(f, s, Flatten(batches)).Ok?
    ensures BatchesRun(f, s, batches).1 ==> BatchRun(f, s, Flatten(batches)) == Ok(BatchesRun(f, s, batches).0)
    decreases |batches|
  {
    if batches != [] {
      BatchRunConcat(f, s, batches[0], Flatten(batches[1..]));
      var next := BatchRun(f, s, batches[0]);
      if next.Ok? {
        SplitEqualsOneBatch(f, next.value, batches[1..]);
      }
    }
  }

  /** One batch for each block. */
  function Singles(bodies: seq<Body>): seq<seq<BatchBlock>> {
    seq(|bodies|, i requires 0 <= i < |bodies| => [Execute(bodies[i])])
  }

  lemma {:induction false} FlattenSingles(bodies: seq<Body>)
    ensures Flatten(Singles(bodies)) == Executes(bodies)
  {
    if bodies != [] {
      assert Singles(bodies)[1..] == Singles(bodies[1..]);
      FlattenSingles(bodies[1..]);
      assert Executes(bodies) == [Execute(bodies[0])] + Executes(bodies[1..]);
    }
  }

  /** Any mix of cached and executed entries, split into batches in any way, succeeds exactly if
      executing the blocks one at a time does, and then leaves the same store. */
  lemma MixAndSplitEqualBlockByBlock(evm: Evm, s: Db, batches: seq<seq<BatchBlock>>, bodies: seq<Body>)
    requires Honest(evm, s, Flatten(batches), bodies)
    ensures BatchesRun(StepOn(evm), s, batches).1 <==> BatchesRun(StepOn(evm), s, Singles(bodies)).1
    ensures BatchesRun(StepOn(evm), s, batches).1 ==>
              BatchesRun(StepOn(evm), s, batches) == BatchesRun(StepOn(evm), s, Singles(bodies))
  {
    SplitEqualsOneBatch(StepOn(evm), s, batches);
    SplitEqualsOneBatch(StepOn(evm), s, Singles(bodies));
    FlattenSingles(bodies);
    MixEqualsExecution(evm, s, Flatten(batches), bodies);
  }

  /** When a batch fails, the store is what the whole batches before it leave. */
  lemma {:induction false} FailureKeepsWholeBatches<S>(f: Stepper<S>, s: S, batches: seq<seq<BatchBlock>>)
    returns (k: nat)
    requires !BatchesRun(f, s, batches).1
    ensures k < |batches| && BatchRun(f, s, Flatten(batches[..k])) == Ok(BatchesRun(f, s, batches).0)
    ensures BatchRun(f, BatchesRun(f, s, batches).0, batches[k]).Err?
    decreases |batches|
  {
    match BatchRun(f, s, batches[0])
    case Ok(next) =>
      var j := FailureKeepsWholeBatches(f, next, batches[1..]);
      k := j + 1;
      assert batches[..k][0] == batches[0] && batches[..k][1..] == batches[1..][..j];
      BatchRunConcat(f, s, batches[0], Flatten(batches[1..][..j]));
    case Err(_) =>
      k := 0;
      assert batches[..0] == [];
  }

  // ---------------------------------------------------------------------------------------------
  // What a block reads
  // ---------------------------------------------------------------------------------------------

  /** The next block reads what the block before it staged: its parent view is the state below with
      the staged diff applied. */
  lemma StagedWritesAreRead(t: Tables, n: nat, d: Diff)
    requires n >= 1 && RowsBelow(t, n)
    ensures Viewed(Stored(t, n, d), n) == ApplyDiff(Viewed(t, n - 1), d)
  {
    ViewFromStored(t, n, d, n);
    SettledBelow(t, n);
  }

  lemma StagedRowsAreNewest(t: Tables, n: nat, d: Diff)
    requires RowsBelow(t, n)
    ensures RowsBelow(Stored(t, n, d), n + 1)
  {
  }

  lemma SettledBelow(t: Tables, n: nat)
    requires n >= 1 && RowsBelow(t, n)
    ensures Viewed(t, n) == Viewed(t, n - 1)
  {
    ViewSettles(t.accountBranches, n - 1, n);
    ViewSettles(t.storageBranches, n - 1, n);
    ViewSettles(t.accounts, n - 1, n);
    ViewSettles(t.storages, n - 1, n);
  }

  /** Plain execution of one block on a state, without any store. */
  function ReplayOne(evm: Evm, state: State, body: Body): Option<State> {
    match evm.execute(state, body)
    case None => None
    case Some(d) => if evm.root(state, d) != body.stateRoot then None else Some(ApplyDiff(state, d))
  }

  function Replay(evm: Evm, state: State, bodies: seq<Body>): Option<State>
    decreases |bodies|
  {
    if bodies == [] then Some(state)
    else
      match ReplayOne(evm, state, bodies[0])
      case None => None
      case Some(next) => Replay(evm, next, bodies[1..])
  }

  predicate Consecutive(n: nat, bodies: seq<Body>) {
    forall i | 0 <= i < |bodies| :: bodies[i].block.number == n + 1 + i
  }

  /** The window is in order and no row is above its latest block. */
  predicate WellFormed(s: Db) {
    && s.tables.earliest.Some? && Latest(s).Some? && s.tables.earliest.value.0 <= Latest(s).value.0
    && RowsBelow(s.tables, Latest(s).value.0 + 1)
  }

  /** How a store reads as a state: which stores are in order, their tip number and the view there. */
  datatype Reading<!S> = Reading(ok: S -> bool, number: S -> nat, state: S -> State)

  function StoreReading(): Reading<Db> {
    Reading((s: Db) => WellFormed(s),
            (s: Db) => if Latest(s).Some? then Latest(s).value.0 else 0,
            (s: Db) => if Latest(s).Some? then Viewed(s.tables, Latest(s).value.0)
              else State(map[], map[], map[], map[]))
  }

  /** If the step on the next block succeeds, it is a step of plain execution. */
  predicate StepIsReplay<S>(evm: Evm, f: Stepper<S>, read: Reading<S>, s: S, body: Body) {
    read.ok(s) && body.block.number == read.number(s) + 1 && f(s, Execute(body)).Ok? ==>
      var next := f(s, Execute(body)).value;
      && read.ok(next) && read.number(next) == body.block.number
      && ReplayOne(evm, read.state(s), body) == Some(read.state(next))
  }

  lemma {:induction false} RunIsReplay<S(!new)>(evm: Evm, f: Stepper<S>, read: Reading<S>, s: S, bodies: seq<Body>)
    requires forall s: S, body: Body :: StepIsReplay(evm, f, read, s, body)
    requires read.ok(s) && Consecutive(read.number(s), bodies) && BatchRun(f, s, Executes(bodies)).Ok?
    ensures Replay(evm, read.state(s), bodies) == Some(read.state(BatchRun(f, s, Executes(bodies)).value))
    decreases |bodies|
  {
    if bodies != [] {
      assert Executes(bodies)[0] == Execute(bodies[0]) && Executes(bodies)[1..] == Executes(bodies[1..]);
      assert StepIsReplay(evm, f, read, s, bodies[0]);
      RunIsReplay(evm, f, read, f(s, Execute(bodies[0])).value, bodies[1..]);
    }
  }

  lemma StoredStep(evm: Evm, s: Db, body: Body) returns (d: Diff)
    requires WellFormed(s) && body.block.number == Latest(s).value.0 + 1 && Step(evm, s, Execute(body)).Ok?
    ensures ReplayOne(evm, Viewed(s.tables, Latest(s).value.0), body)
            == Some(ApplyDiff(Viewed(s.tables, Latest(s).value.0), d))
    ensures Step(evm, s, Execute(body)).value
            == Db(Stored(s.tables, body.block.number, d), Some((body.block.number, body.block.hash)))
  {
    d := evm.execute(Viewed(s.tables, Latest(s).value.0), body).value;
  }

  lemma StoredStepReplays(evm: Evm, s: Db, body: Body)
    requires WellFormed(s) && body.block.number == Latest(s).value.0 + 1 && Step(evm, s, Execute(body)).Ok?
    ensures ReplayOne(evm, Viewed(s.tables, Latest(s).value.0), body)
            == Some(Viewed(Step(evm, s, Execute(body)).value.tables, body.block.number))
  {
    var d := StoredStep(evm, s, body);
    StagedWritesAreRead(s.tables, body.block.number, d);
  }

  lemma StoredStepWellFormed(evm: Evm, s: Db, body: Body)
    requires WellFormed(s) && body.block.number == Latest(s).value.0 + 1 && Step(evm, s, Execute(body)).Ok?
    ensures var next := Step(evm, s, Execute(body)).value;
            WellFormed(next) && Latest(next).value.0 == body.block.number
  {
    var d := StoredStep(evm, s, body);
    StagedRowsAreNewest(s.tables, body.block.number, d);
  }

  lemma StoredStepIsReplay(evm: Evm, s: Db, body: Body)
    ensures StepIsReplay(evm, StepOn(evm), StoreReading(), s, body)
  {
    if WellFormed(s) && body.block.number == Latest(s).value.0 + 1 && Step(evm, s, Execute(body)).Ok? {
      StoredStepReplays(evm, s, body);
      StoredStepWellFormed(evm, s, body);
    }
  }

  /** Executing on the staged tables is plain execution: whenever the blocks above the tip are stored,
      the view at the new tip is the state that replaying them on the view at the old tip gives. */
  lemma StoredExecutionIsReplay(evm: Evm, s: Db, bodies: seq<Body>)
    requires WellFormed(s) && Consecutive(Latest(s).value.0, bodies) && BatchRun(StepOn(evm), s, Executes(bodies)).Ok?
    ensures Replay(evm, StoreReading().state(s), bodies)
         == Some(StoreReading().state(BatchRun(StepOn(evm), s, Executes(bodies)).value))
  {
    forall s: Db, body: Body ensures StepIsReplay(evm, StepOn(evm), StoreReading(), s, body) {
      StoredStepIsReplay(evm, s, body);
    }
    RunIsReplay(evm, StepOn(evm), StoreReading(), s, bodies);
  }
}
