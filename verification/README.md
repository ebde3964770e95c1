# A verified model of morph-reth's proof history, reference index and chain rules

The project models the parts of morph-reth where a claim is about every interleaving, every sequence
of operations or every crash point, and proves those claims in Dafny 4.11.
`dafny verify dfyconfig.toml` checks all of it.

**The sync protocol.** A notification task and a background worker share a `SyncTarget`: one pending
state, a bounded cache of trie data and a wake-up permit. `SyncProtocol` is the step system: the node
that moves the canonical chain, the task, the worker, the pruner, with every failure the store can
report as an outcome of a step. `SyncInvariant`, `SyncTaskSteps` and `SyncWorkerSteps` hold the
inductive invariant, `SyncTheorems` what follows from it, `SyncProgress` when the worker can go on,
`SyncFindings` runs on which the code does less than its comments say. `SyncTargets` and `SyncWorkers`
hold the same code in its imperative form. `SyncStates` joins the protocol to the tables of the store.

A stored block can be stale with no revert left to remove it: the store may be ahead of the chain when
the node starts, and a failed revert is dropped. The model keeps a height from which on this may be so,
the *suspect* height. A landed revert at or below it clears it. Results about stored blocks that mention
it hold below it, in every run; the others hold everywhere.

**The versioned store.** `VersionedTables` is one table that keeps every version of every key,
`ProofStores` the in-memory store with its in-place rewrites, `StoreRefinement` the proof that its
views are an initial state with per-block diffs applied, and `Cursors` the cursors over those views.
`LiveCollectors` is the batch collector on top of the store; `SourceCursors`, `Initialization` and
`InitializationJobs` are the resumable initialization.

**The reference index and the chain rules.** `ReferenceIndexes` and `ReferenceRows` are the index with
its bounded rollback and batch commit, `ReferenceTurns` the runtime's turn made of them, `ChainRules` the timestamp rule and the search for the first
Jade block, `L1Messages` the two L1 index checks, `Expectations` the bounded cache of withdraw-root
expectations.

## What turned out not to hold

- *The stored history always stays on one branch.* `unwind_history` of the MDBX store records the
  target's parent hash as the new tip without comparing it with the stored block. The history stays
  hash-linked over a run if and only if every unwind that removes blocks names the stored block below
  it as its parent (`OneBranchIffAnchored`). `FailedRevertMixesBranches` is a run that ends at rest
  with two branches mixed after one failed revert; `MixedWhileRevertComing` is mixed without any
  failure while a deeper revert is still undelivered.
- *A stored block is canonical once nothing is outstanding.* Not from the suspect height on. In every
  reachable state the stored blocks are the canonical ones if and only if the history is on one branch and
  the recorded tip is the canonical hash at its height (`StoreCanonicalIff`). Each half can fail. After an
  ungraceful stop the store may hold a block the chain never had, and no revert comes for it
  (`AheadStartIsRefused`). After a failed revert the recorded tip may be canonical above a stale block, so
  that the parent check accepts the next batch (`MixedStoreWithCanonicalTip`). With nothing outstanding the
  store takes a batch if and only if the recorded tip is canonical and every block to be executed reproduces
  its state root on the view at the tip (`QuietBatchTakenIff`); the tip decides alone while that view is the
  state after the canonical block (`RightViewTakenIff`). A landed revert at or below the suspect height makes
  everything canonical again (`LandedRevertRecovers`). The check made before proofs are served compares only
  the tip; it passes exactly for a canonical store as long as every removing unwind named the stored block
  below it as its parent (`AnchorCheckIsExact`).
- *The worker catches up.* After a plain revert that an earlier one covers, the stripped state leaves the
  worker a goal above the canonical tip (`StaleGoalStalls`). A worker about to start a turn can store
  something before the node moves if and only if the turn ends on the canonical chain (`AdvancesIff`), and
  can reach its goal if and only if the goal is on it (`ReachesGoalIff`). The stall outlasts commits that
  are merged into the old goal, as long as the chain does not pass the end of the turn (`StallLasts`,
  `StallOutlastsCommit`).
- *The in-memory store's recorded earliest block has a correct view.* Pruning to a lower block lowers
  the pointer although the versions are gone (`PruneDownward`, `PruneDownwardMisreports`). After any allowed
  operations the view at any block shows at least the changes that prunes have folded, so it is right if and
  only if the highest folded block is not above it or nothing changed in between (`EveryViewIff`,
  `PruneDownwardIff`).
- *Index rows are exactly those of the blocks from the Jade start to the cursor, with a stop at any
  commit.* A rollback without ancestor that is stopped half-way can leave the cursor below the Jade
  start, and the next batch then begins there (`StoppedClearIndexesEarlyBlocks`). Over any transactions the
  rows are exact at every point if and only if no batch has a reference from below the Jade start
  (`ExactThroughoutIff`). With rollbacks only to ancestors not below the block before Jade that is so
  whatever the batches are (`IndexHoldsExactlyTheChain`). The runtime never asks for another rollback: each
  of its turns keeps the rows exact, whatever it reads and wherever it stops (`SynchronizeOnce`).

## Reading the model

Hashes and keys are natural numbers; keys stand for their rank in the key order. Equal hashes mean
equal blocks. 64-bit arithmetic is unbounded except where the code saturates, wraps or checks, which
is written out. Executing a block is a function of the state it reads and the block; the state root is
a function of that state and the diff. Clocks, sleeps and the network are steps that may happen at any
time. A process stop is a number of transactions after which the run ends.

The versioned table groups rows by block instead of keeping pairs of block and key in one flat map;
the order of the rows is the same, and a block may have a group without rows.

## Model

| member | source | states |
|---|---|---|
| SyncTargets.ApplyNextAssociative | crates/proofs-exex/src/sync_target.rs:71-124 | Merging pending states is associative |
| SyncTargets.MergedRevert | crates/proofs-exex/src/sync_target.rs:53-59 | The merge of any non-empty sequence of notifications carries the lowest revert target of the sequence, the latest among ties, and none only if there is none |
| SyncTargets.MergedTarget | crates/proofs-exex/src/sync_target.rs:63-124 | The merge carries the largest sync target since and including the last revert-carrying notification, or none if there is none |
| SyncTargets.RequeueUndoesTake | crates/proofs-exex/src/sync_target.rs:177-192 | Taking the state, letting any notifications arrive and requeueing gives the pending state as if nothing had been taken |
| SyncTargets.MergeKeepsFloor | crates/proofs-exex/src/sync_target.rs:71-124 | A height lies below the merged revert exactly if it lies below both |
| SyncTargets.EvictionIsLowestFirst | crates/proofs-exex/src/sync_target.rs:253-275 | Eviction keeps a part of the cache, drops only entries below every kept one, and ends exactly at the capacity |
| SyncTargets.SyncTarget.UpdateState | crates/proofs-exex/src/sync_target.rs:162-170 | The pending state becomes the merge, and a parked worker wakes or a permit is stored |
| SyncTargets.SyncTarget.RequeueState | crates/proofs-exex/src/sync_target.rs:177-185 | The failed state becomes the base of whatever arrived since |
| SyncTargets.SyncTarget.TakeState | crates/proofs-exex/src/sync_target.rs:190-192 | Takes the pending state and leaves none |
| SyncTargets.SyncTarget.MarkRevertComplete | crates/proofs-exex/src/sync_target.rs:203-230 | Strips a pending revert exactly if the landed one covers it, keeping its sync target |
| SyncTargets.SyncTarget.Insert | crates/proofs-exex/src/sync_target.rs:253-275 | Inserts and evicts lowest first down to the capacity |
| SyncTargets.SyncTarget.ClearFrom | crates/proofs-exex/src/sync_target.rs:303-314 | Removes the entries at and above a height and no others |
| ProofWindows.UnwindKeepsBranchIffAnchored | crates/proofs/src/db/store.rs:1263-1295 | An unwind keeps a linked history linked if and only if the stored block below the target is the parent the target names |
| ProofWindows.AppendKeepsBranch | crates/proofs/src/db/store.rs:846-866 | An appended batch keeps the history linked if and only if the parent check accepts it |
| ProofWindows.PruneKeepsBranch | crates/proofs/src/db/store.rs:471-490 | Raising the earliest block within the window keeps the history linked |
| ProofWindows.CoveredRevertIsIdle | crates/proofs-exex/src/lib.rs:411-439 | After a landed revert, running a covered one changes nothing and is not refused |
| SyncInvariant.NodeKeepsInv | crates/proofs-exex/src/lib.rs:629-658 | Every commit, reorg and revert of the chain keeps the protocol invariant |
| SyncTaskSteps.ReadBestKeepsInv | crates/proofs-exex/src/lib.rs:180-180 | Reading the canonical tip at the start keeps the invariant, with the chain free to move before it is used |
| SyncTaskSteps.StartKeepsInv | crates/proofs-exex/src/lib.rs:181-201 | Handing over the tip read before, if the store is behind it, keeps the invariant |
| SyncTaskSteps.DeliverKeepsInv | crates/proofs-exex/src/lib.rs:660-786 | Handing a notification's state to the worker keeps the invariant |
| SyncTaskSteps.CacheBlockKeepsInv | crates/proofs-exex/src/lib.rs:676-693 | Caching one block of a notification keeps the invariant |
| SyncTaskSteps.ClearCacheKeepsInv | crates/proofs-exex/src/lib.rs:735-755 | Clearing the removed range from the cache keeps the invariant |
| SyncWorkerSteps.RunRevertKeepsInv | crates/proofs-exex/src/lib.rs:374-439 | A revert that lands, lands unreported or fails keeps the invariant |
| SyncWorkerSteps.MarkCompleteKeepsInv | crates/proofs-exex/src/lib.rs:335-350 | Stripping covered work after a landed revert keeps the invariant |
| SyncWorkerSteps.TakeCachedKeepsInv | crates/proofs-exex/src/lib.rs:576-627 | Collecting a block from the cache keeps the invariant |
| SyncWorkerSteps.StoreBatchKeepsInv | crates/proofs-exex/src/lib.rs:529-549 | A batch that is stored, stored unreported, refused or failed keeps the invariant |
| SyncWorkerSteps.BatchIsAccepted | crates/proofs-exex/src/lib.rs:512-543 | A complete batch below every outstanding revert continues the store's tip |
| SyncTheorems.StepKeepsInv | crates/proofs-exex/src/lib.rs:314-549 | Every step of the node, the task, the worker and the pruner keeps the invariant |
| SyncTheorems.StoredBlocksAreCanonical | crates/proofs-exex/src/lib.rs:323-365 | In every interleaving, from any start and with any failed reverts, a stored block below every outstanding revert and below the suspect height is the canonical block at its height |
| SyncTheorems.QuietStoreIsCanonical | crates/proofs-exex/src/lib.rs:323-365 | With no revert outstanding and the tip below the suspect height, the stored window is a hash-linked piece of the canonical chain and its recorded tip is canonical |
| SyncTheorems.StoreCanonicalIff | crates/proofs-exex/src/lib.rs:374-439 | In every reachable state, whatever failed and however the node started, the stored blocks are the canonical ones under the recorded tip if and only if the history is hash-linked and the recorded tip is the canonical hash at its height |
| SyncTheorems.AnchorCheckIsExact | crates/rpc/src/state.rs:88-101 | After any run from a node whose store was not stale, and as long as every removing unwind was anchored, the check of the tip hash passes if and only if every stored block is canonical |
| SyncTheorems.MisfitMeansRevertComing | crates/proofs/src/db/store.rs:846-866 | On a tip below the suspect height a batch fails the parent check only while a revert reaching into the window or the batch is pending or undelivered, whatever mix of cached and fetched blocks it holds |
| SyncTheorems.QuietAcceptedIff | crates/proofs/src/db/store.rs:846-866 | With no revert outstanding a collected batch is a piece of the canonical chain, and passes the parent check if and only if the recorded tip is the canonical hash at its height |
| SyncTheorems.LandedRevertRecovers | crates/proofs-exex/src/lib.rs:387-399 | Once a revert at or below the suspect height has landed, every stored block below the outstanding reverts is canonical again, whatever failed before |
| SyncTheorems.AlwaysContiguous | crates/proofs-exex/src/lib.rs:464-549 | In every run the stored numbers are contiguous and the cache is bounded with every entry under its own number |
| SyncTheorems.WindowChangesWhole | crates/proofs/src/live.rs:297-369 | A step changes the window only by a prune, an unwind, or one whole batch of at most fifty blocks that ends at the turn's end |
| SyncTheorems.CaughtUp | crates/proofs-exex/src/lib.rs:472-560 | At rest after a commit or a reorg whose goal was not dropped, the store reaches the canonical tip, and exactly it below the suspect height |
| SyncTheorems.GoalDroppedByError | crates/proofs-exex/src/lib.rs:335-350 | A goal is dropped only by a revert that reports an error or a refused batch, and only with nothing newer on its way |
| SyncProgress.AdvancesIff | crates/proofs-exex/src/lib.rs:472-549 | With everything delivered and a trusted tip, a worker about to start a turn can store something before the node moves if and only if the turn ends on the canonical chain |
| SyncProgress.ReachesGoalIff | crates/proofs-exex/src/lib.rs:464-549 | It can store up to its goal before the node moves if and only if the goal is on the canonical chain |
| SyncProgress.StallLasts | crates/proofs-exex/src/lib.rs:472-560 | A worker whose turn ends above the canonical tip stores nothing under any schedule, also while commits arrive that do not pass the end of the turn, unless one is handed over just when it looks for newer work |
| SyncTheorems.GapFalls | crates/proofs-exex/src/lib.rs:472-549 | Every stored turn strictly shrinks the gap to the goal without overshooting it |
| SyncTheorems.NoLostWakeUp | crates/proofs-exex/src/sync_target.rs:162-248 | A parked worker with a pending state has a permit stored or an updater about to wake it |
| SyncTheorems.StripEqualsRun | crates/proofs-exex/src/sync_target.rs:203-230 | Stripping a covered revert leaves the same store and the same remaining target as running it would |
| SyncTheorems.StepLinkedIffAnchored | crates/proofs/src/db/store.rs:1263-1295 | A step keeps a linked history linked if and only if it is not an unwind to a target with another parent |
| SyncTheorems.OneBranchIffAnchored | crates/proofs/src/db/store.rs:1263-1295 | Over any run, failed reverts included, the history stays on one branch at every point if and only if every removing unwind is anchored |
| SyncTheorems.StartedStaysLinkedIffAnchored | crates/proofs/src/db/store.rs:1263-1295 | The same from every started node whose store is not stale |
| SyncFindings.FailedRevertMixesBranches | crates/proofs-exex/src/lib.rs:374-403 | A reachable state at rest whose store mixes two branches after one failed revert |
| SyncFindings.MixedWhileRevertComing | crates/proofs/src/db/store.rs:1280-1291 | A reachable state without any failed revert whose store mixes two branches while a deeper revert is undelivered |
| SyncFindings.StaleGoalStalls | crates/proofs-exex/src/sync_target.rs:203-218 | A stall is reachable without a failed revert: the stripped revert leaves the old goal |
| SyncFindings.StallOutlastsCommit | crates/proofs-exex/src/sync_target.rs:177-185 | A stall is reachable with a commit as the newest notification, everything delivered and nothing outstanding |
| SyncFindings.AheadStartIsRefused | crates/proofs-exex/src/lib.rs:194-201 | A node started with the store ahead of the chain reaches a refused batch with nothing outstanding and a stale stored block, and drops the goal |
| SyncFindings.MixedStoreWithCanonicalTip | crates/proofs/src/live.rs:417-423 | A reachable state with nothing outstanding, a canonical recorded tip and a batch the parent check accepts, on a store that holds a stale block, so that an executed block may be refused for its state root |
| SyncStates.StoredBatchCarries | crates/proofs/src/live.rs:310-346 | A stored batch of cached or executed entries keeps the views below it and carries the executed state from block to block |
| SyncStates.StepKeepsAttached | crates/proofs-exex/src/lib.rs:314-549 | Every step keeps that the tables record the window and that the view at every good height is the state after the canonical block |
| SyncStates.PostIsReplay | crates/proofs/src/live.rs:371-434 | The state after a block of a genuine chain is what executing the chain up to it gives |
| SyncStates.ViewsAreExecutedChain | crates/proofs-exex/src/lib.rs:314-549 | Through any interleaving of commits, reorgs, reverts, prunes and batches of any mix, the view at every stored height below the suspect height and the outstanding reverts is the state that executing the canonical chain gives |
| SyncStates.BatchStoredIff | crates/proofs/src/live.rs:310-434 | The store takes a batch of cached and executed entries if and only if it passes the parent check and every block to be executed reproduces its state root on the view at the tip with the entries before it applied |
| SyncStates.GoodOfferIsTaken | crates/proofs-exex/src/lib.rs:512-543 | On a tip below the suspect height the store takes every collected batch that no outstanding revert reaches |
| SyncStates.RefusalMeansRevertComing | crates/proofs-exex/src/lib.rs:512-543 | Such a batch is refused, by its parent check or for a state root, only while a revert reaching into the window or the batch is pending or undelivered |
| SyncStates.GoalDroppedOnlyByError | crates/proofs-exex/src/lib.rs:335-350 | A goal is dropped only by a revert that reports an error, or by a batch refused on a suspect tip |
| SyncStates.QuietBatchTakenIff | crates/proofs-exex/src/lib.rs:529-549 | With no revert outstanding, whatever the start and whatever failed, the store takes a collected batch if and only if the recorded tip is canonical and the blocks to be executed reproduce their state roots on the view at the tip |
| SyncStates.RightViewTakenIff | crates/proofs-exex/src/lib.rs:529-549 | While the view at the tip is the state after the canonical block there, it takes the batch if and only if the recorded tip is canonical |
| SyncWorkers.HandlerIsASchedule | crates/proofs-exex/src/lib.rs:660-786 | A whole handler call is an uninterrupted schedule of the protocol's steps with the same result |
| SyncWorkers.HandleChainCommitted | crates/proofs-exex/src/lib.rs:660-708 | Caches the blocks with trie data and merges the new tip |
| SyncWorkers.HandleChainReorged | crates/proofs-exex/src/lib.rs:710-763 | Clears, caches and merges for a proper fork, and changes nothing for a notification whose chains do not share a fork block |
| SyncWorkers.HandleChainReverted | crates/proofs-exex/src/lib.rs:765-786 | Clears from the first removed block and merges the revert |
| SyncWorkers.CacheFollowsNotifications | crates/proofs-exex/src/lib.rs:676-780 | Over any notifications and takes, every cached entry sits under its own number and is the notified-canonical block there, and the cache stays within 1024 entries |
| SyncWorkers.ProofStorage.HandleRevert | crates/proofs-exex/src/lib.rs:411-439 | Lands unless refused, leaves nothing at or above the target, and otherwise changes nothing |
| SyncWorkers.ProofStorage.StoreBatch | crates/proofs/src/db/store.rs:846-866 | Stores the whole batch exactly if each block names the staged tip, else nothing |
| SyncWorkers.CollectTurn | crates/proofs-exex/src/lib.rs:511-528 | Collects for each height the cached block unless it must be verified, else the provider's, stopping at the first that cannot be had |
| SyncWorkers.ForwardTurn | crates/proofs-exex/src/lib.rs:472-549 | A turn stores exactly up to its end or changes nothing, and is never refused while cache, store and provider agree |
| SyncWorkers.SyncForward | crates/proofs-exex/src/lib.rs:464-549 | Gives way to pending work at the top of every turn, whatever arrives in between; otherwise reaches the goal, requeues it or is refused; with everything in step it is never refused and never requeues an available goal |
| VersionedTables.ViewIsLookup | crates/proofs/src/in_memory.rs:242-302 | Overlaying the blocks in order and searching downward find the same versions |
| VersionedTables.LookupIsNewest | crates/proofs/src/in_memory.rs:242-302 | What the search finds is the newest version at or below the block, and it finds none only if there is none |
| VersionedTables.CollectNewest | crates/proofs/src/in_memory.rs:257-291 | One scan over all rows yields, for the selected keys, exactly the view as of a block |
| VersionedTables.FoldTable | crates/proofs/src/in_memory.rs:741-763 | Moving the old rows to block zero in key order leaves the fold of the table and counts each moved row |
| VersionedTables.ViewFolded | crates/proofs/src/in_memory.rs:733-818 | Folding keeps every view at or above the fold |
| VersionedTables.FoldTwice | crates/proofs/src/in_memory.rs:733-818 | Folding in two stages equals folding at once, with as many rows moved |
| ProofStores.InMemoryStorage.StoreTrieUpdates | crates/proofs/src/in_memory.rs:62-139 | Adds the rows of the diff at its block, zeroing the live slots of wiped addresses before their new slots, and counts every row written |
| ProofStores.InMemoryStorage.PruneEarliestState | crates/proofs/src/in_memory.rs:733-818 | Folds the four tables, moves the pointer, drops the old updates and counts the moved rows |
| ProofStores.InMemoryStorage.UnwindHistory | crates/proofs/src/in_memory.rs:820-845 | Removes everything at and above the block, and nothing below |
| ProofStores.InMemoryStorage.ReplaceUpdates | crates/proofs/src/in_memory.rs:847-880 | Cuts above the common block and stores the new blocks in order |
| ProofStores.InsertStorages | crates/proofs/src/in_memory.rs:96-130 | Writing the slot rows address by address, each reading the rows before the block, equals writing them together |
| ProofStores.ZeroLiveSlots | crates/proofs/src/in_memory.rs:97-121 | Finds exactly the non-zero slots of an address as of the block below |
| StoreRefinement.ViewFromStored | crates/proofs/src/in_memory.rs:62-139 | From a stored block on, the four views are the previous ones with the diff applied: wiped addresses emptied first, zero and removed entries absent |
| StoreRefinement.NonZeroOfOverlay | crates/proofs/src/in_memory.rs:96-130 | The zero rows of a wipe empty exactly the wiped addresses and the same block's slots win |
| StoreRefinement.StepRefines | crates/proofs/src/in_memory.rs:713-880 | Each store, prune, unwind and replacement refines the corresponding change of the list of diffs |
| StoreRefinement.RunRefines | crates/proofs/src/in_memory.rs:713-880 | So does any sequence of them |
| StoreRefinement.ViewsAreHistory | crates/proofs/src/in_memory.rs:242-530 | After any allowed operations on an initialized store, the four views at any block from the highest prune target on are the initial state with the surviving diffs up to that block applied in order |
| StoreRefinement.PruneTwice | crates/proofs/src/in_memory.rs:733-818 | Pruning in two stages equals pruning at once, with the same total write counts |
| StoreRefinement.PruneUnwindCommute | crates/proofs/src/in_memory.rs:733-845 | Pruning commutes with unwinding above the prune target, with the same counts |
| StoreRefinement.UnwindUndoesStore | crates/proofs/src/in_memory.rs:820-845 | Unwinding a block stored above all others restores all tables |
| StoreRefinement.ReplaceIsUnwindThenStores | crates/proofs/src/in_memory.rs:847-880 | Replacing equals unwinding above the common block and storing in order |
| StoreRefinement.FetchAfterStore | crates/proofs/src/in_memory.rs:713-731 | Stored updates come back until the block is unwound or pruned, and exactly until then |
| StoreRefinement.EarliestIsFloor | crates/proofs/src/in_memory.rs:808-811 | Over any run whose prunes never go down, the recorded earliest block is the highest prune target |
| StoreRefinement.PruneDownward | crates/proofs/src/in_memory.rs:808-811 | After a prune that goes down, the view at the recorded block is that of the higher block, so it is right exactly if nothing changed in between |
| StoreRefinement.PruneDownwardMisreports | crates/proofs/src/in_memory.rs:808-811 | A concrete store whose view at the recorded earliest block holds a later write |
| StoreRefinement.EveryViewIff | crates/proofs/src/in_memory.rs:713-880 | After any allowed operations the view at every block, below the prune targets too, is the initial state with the surviving diffs up to that block or the highest folded one applied, so it is right if and only if the folded block is not above it or nothing changed in between |
| StoreRefinement.PruneDownwardIff | crates/proofs/src/in_memory.rs:808-811 | The same for the block a prune records, after any allowed operations and to any block |
| Cursors.CollectPresent | crates/proofs/src/in_memory.rs:273-295 | The account trie and account cursors list the view in key order, without removed entries |
| Cursors.CollectPresentUnder | crates/proofs/src/in_memory.rs:254-272 | The storage trie cursor lists one address's view in key order, without removed nodes |
| Cursors.CollectNonZeroUnder | crates/proofs/src/in_memory.rs:404-446 | The slot cursor lists one address's view in key order, without zero slots |
| Cursors.Cursor.Seek | crates/proofs/src/in_memory.rs:320-332 | Yields the entry with the least key at or above the given one, and without one keeps the position |
| Cursors.Cursor.SeekExact | crates/proofs/src/in_memory.rs:306-318 | Yields the entry under the key exactly if there is one, and otherwise keeps the position |
| Cursors.Cursor.Next | crates/proofs/src/in_memory.rs:334-343 | Yields the least entry from the start, the next larger key from an entry, and nothing past the end |
| Cursors.Cursor.Current | crates/proofs/src/in_memory.rs:345-353 | Yields the key at the position, if it is on an entry |
| Cursors.Cursor.IsStorageEmpty | crates/proofs/src/in_memory.rs:480-482 | True exactly if the address has no non-zero slot |
| Cursors.Drain | crates/proofs/src/in_memory.rs:334-343 | A fresh cursor that is only moved on yields the whole listing once and in order |
| Cursors.ListingUnique | crates/proofs/src/in_memory.rs:298-300 | The sorted listing is determined by the view |
| Cursors.SlotCursorShowsHistory | crates/proofs/src/in_memory.rs:404-446 | After any allowed operations the slot cursor lists the slots of the initial state with the diffs applied |
| LiveCollectors.LiveTrieCollector.ExecuteAndStoreBatch | crates/proofs/src/live.rs:297-369 | The entries are staged one after another; all are stored on success, and on the first error nothing is, with that error returned |
| LiveCollectors.MixEqualsExecution | crates/proofs/src/live.rs:317-346 | If every cached diff is what execution on the parent view would produce, any mix of cached and executed entries has the result of executing all, errors included |
| LiveCollectors.SplitEqualsOneBatch | crates/proofs/src/live.rs:297-346 | Any split into batches succeeds exactly if one batch does, and then leaves the same store |
| LiveCollectors.MixAndSplitEqualBlockByBlock | crates/proofs/src/live.rs:297-434 | Any honest mix in any split succeeds exactly if executing block by block does, and then leaves the same store |
| LiveCollectors.FailureKeepsWholeBatches | crates/proofs/src/live.rs:310-346 | When a batch fails the store is what the whole batches before it leave |
| LiveCollectors.StagedWritesAreRead | crates/proofs/src/live.rs:371-434 | The parent view of the next block is the state below with the staged diff applied |
| LiveCollectors.StoredExecutionIsReplay | crates/proofs/src/live.rs:371-434 | Storing the blocks above the tip leaves at the new tip the state that plain execution of the blocks gives |
| SourceCursors.DupCursor.Next | crates/proofs/src/initialize.rs:66-97 | The iterator over a table with several values per key yields exactly the next row, across groups, and nothing after the last |
| SourceCursors.Collect | crates/proofs/src/initialize.rs:66-97 | From a position it yields every later row once and in order |
| SourceCursors.DupCursor.SeekByKeySubkey | crates/proofs/src/initialize.rs:273-278 | Positions on the row with the key exactly if there is one |
| Initialization.GroupEntries | crates/proofs/src/initialize.rs:427-446 | Groups consecutive entries of one address without losing, reordering or merging any |
| Initialization.StoreGrouped | crates/proofs/src/initialize.rs:427-449 | Storing the groups stores the same rows as storing the entries one by one |
| Initialization.Initialize | crates/proofs/src/initialize.rs:165-239 | Copies the remaining rows of a plain table in batches of the threshold and a last shorter one, stopping where the transactions run out |
| Initialization.InitializeDup | crates/proofs/src/initialize.rs:165-239 | Does the same for a table with several rows per address, walking it with the cursor and storing each batch in groups |
| Initialization.ResumeDup | crates/proofs/src/initialize.rs:266-339 | Positions the cursor on the greatest stored key, and refuses a key the source does not have |
| Initialization.Resume | crates/proofs/src/initialize.rs:242-339 | Starts just after the greatest stored key, from the start without one, and refuses a key the source does not have |
| Initialization.ResumeAfterPrefix | crates/proofs/src/initialize.rs:242-339 | On a copied prefix it starts at the first row not copied yet |
| Initialization.LoadExtendsPrefix | crates/proofs/src/initialize.rs:165-239 | The copy extends a prefix to a longer one, to all rows exactly if it ends, with no more transactions than rows left |
| Initialization.FullCopyIsExact | crates/proofs/src/initialize.rs:403-496 | A full copy holds every source entry with its value and no other |
| InitializationJobs.InitializationJob.Run | crates/proofs/src/initialize.rs:342-386 | Returns at once if complete, refuses another anchor, else copies the four tables in order and then marks the store complete |
| InitializationJobs.RunLands | crates/proofs/src/initialize.rs:342-386 | One run from a sound store ends in a sound store however early it stops, never refuses, and finishes exactly if the store is complete |
| InitializationJobs.InterruptedInitializationIsExact | crates/proofs/src/initialize.rs:165-386 | However often initialization is interrupted and rerun, a run with enough transactions finishes, and whenever one finishes the tables hold exactly the source |
| InitializationJobs.OnlyAnchoredAttemptsMatter | crates/proofs/src/initialize.rs:350-386 | Any mix of attempts for any anchor blocks does what the ones for the anchored block do, and none changes a complete store |
| InitializationJobs.InitializedViewsAreHistory | crates/proofs/src/initialize.rs:342-386 | After interrupted initialization and any allowed operations, the views are the source state with the diffs applied |
| ReferenceIndexes.WriteBlock | crates/reference-index/src/writer.rs:29-65 | Writes the block's rows in both tables and its hash, and counts the references |
| ReferenceIndexes.DeleteBlock | crates/reference-index/src/writer.rs:72-112 | Removes every row of the block from all three tables, finding the reference rows through the rows by block |
| ReferenceIndexes.PruneCrumbs | crates/reference-index/src/writer.rs:149-176 | Removes at most 512 hashes, the lowest ones, only below the floor, and all of those unless it hits the limit |
| ReferenceIndexes.ReferenceIndexDb.RollbackSuffix | crates/reference-index/src/reconcile.rs:11-48 | Runs bounded transactions until the cursor is exactly the ancestor or cleared; a stop leaves what the committed ones did; batch size zero is refused |
| ReferenceIndexes.ReferenceIndexDb.CommitCanonicalBatch | crates/reference-index/src/backfill.rs:49-94 | Commits rows, metadata and pruning together, or nothing for an empty or non-contiguous batch |
| ReferenceRows.RollbackErasesSuffix | crates/reference-index/src/reconcile.rs:11-48 | However many transactions a rollback gets to, it has erased everything above its cursor and nothing else |
| ReferenceRows.RollbackTerminates | crates/reference-index/src/reconcile.rs:20-47 | The cursor falls with every transaction until it is exactly the ancestor |
| ReferenceRows.BatchExactIff | crates/reference-index/src/backfill.rs:49-94 | A commit keeps the rows exact if and only if no block of the batch below the Jade start carries a reference |
| ReferenceRows.CursorCrumbIsThere | crates/reference-index/src/backfill.rs:80-91 | After each batch commit the cursor block's hash is there, whatever was pruned |
| ReferenceRows.RollbackKeepsExact | crates/reference-index/src/reconcile.rs:28-47 | A rollback transaction leaves exactly the rows of the shorter chain |
| ReferenceRows.ExactThroughoutIff | crates/reference-index/src/backfill.rs:49-94 | Over any sequence of commits and rollback transactions the rows are exactly those of the blocks from the Jade start to the cursor at every point if and only if no batch has a reference from below the Jade start |
| ReferenceRows.RollbacksToJadeQualify | crates/reference-index/src/runtime.rs:166-222 | If no rollback goes below the block before Jade, every batch that starts just after the cursor qualifies |
| ReferenceRows.IndexHoldsExactlyTheChain | crates/reference-index/src/reconcile.rs:11-48 | From the empty index, with such rollbacks, any batches and a stop between any two transactions, the rows are exactly those of the blocks from the Jade start to the cursor |
| ReferenceTurns.ReconcileCursor | crates/reference-index/src/runtime.rs:166-222 | Leaves the index alone if and only if there is no cursor or its block is the canonical one, else finds the highest indexed canonical block at or above the rewind floor, and tells a missing hash from a branch without ancestor |
| ReferenceTurns.FoundAncestorIsAtJade | crates/reference-index/src/runtime.rs:190-221 | The ancestor it finds does not let a rollback go below Jade, wherever the head is |
| ReferenceTurns.CommitKeeps | crates/reference-index/src/backfill.rs:49-94 | A commit just after the cursor keeps that the rows are exact and that no cursor or hash lies below the recorded Jade start |
| ReferenceTurns.RollbackKeeps | crates/reference-index/src/reconcile.rs:11-48 | So does a rollback to an ancestor from Jade on, however many of its transactions it gets to |
| ReferenceTurns.SynchronizeOnce | crates/reference-index/src/runtime.rs:240-310 | A whole turn keeps it on every path, whatever the provider returns and wherever the rollback stops; a refused turn changes nothing, and a committed one ends with the cursor on a block that was canonical when looked up |
| ReferenceRows.StoppedClearIndexesEarlyBlocks | crates/reference-index/src/reconcile.rs:28-45 | A stopped rollback without ancestor after which a batch brings in a row from before Jade |
| ChainRules.AcceptedIsMonotone | crates/consensus/src/validation.rs:422-436 | Timestamps never decrease along a chain accepted by the parent rule |
| ChainRules.ResolveJadeFirstBlock | crates/reference-index/src/backfill.rs:14-40 | On an accepted chain the search returns exactly the lowest block that activates Jade, nothing if the head predates it, and fails only on a missing header |
| L1Messages.ValidateL1MessagesInBlock | crates/consensus/src/validation.rs:557-643 | Accepts exactly the blocks whose L1 messages come first with consecutive indices and whose header points just past the last, or further before Jade; each rejection names an offending transaction |
| L1Messages.ValidateNextL1MsgIndex | crates/node/src/validator.rs:263-311 | Accepts exactly if Jade is not active, the parent is unknown, or the header says what the leading L1 messages or else the parent give |
| L1Messages.LoopsAgree | crates/node/src/validator.rs:284-309 | On an accepted body after Jade both loops derive the same value, so the engine check adds exactly that blocks without L1 messages inherit |
| L1Messages.NextNeverDecreases | crates/consensus/src/validation.rs:239-246 | Over an accepted chain neither the index nor the timestamp decreases |
| L1Messages.NextExceedsIncluded | crates/consensus/src/validation.rs:557-643 | The index of a block exceeds every queue index in the chain up to it |
| L1Messages.NextIsLastPlusOne | crates/node/src/validator.rs:263-311 | From Jade on the index is one more than the last queue index of the latest block with L1 messages, else inherited |
| Expectations.EngineValidator.RecordExpectation | crates/node/src/validator.rs:570-592 | A known hash keeps its place, a new one goes last, and the oldest goes when there is no room |
| Expectations.EngineValidator.TakeExpectation | crates/node/src/validator.rs:594-610 | Returns and removes the expectation, keeping the order of the others |
| Expectations.EngineValidator.ValidateWithdrawTrieRootUpdate | crates/node/src/validator.rs:640-669 | Fails exactly on a root that was written and differs from the one to verify |
| Expectations.EngineValidator.ValidateBlock | crates/node/src/validator.rs:369-404 | On every path no expectation for the block remains, and the outcome is the first check that fails |
| Expectations.CacheIsFifo | crates/node/src/validator.rs:570-620 | Over any calls the order is exactly the keys without repetition, sorted by when they entered, and never above 4096 |
| Expectations.EvictionIsOldestFirst | crates/node/src/validator.rs:584-590 | A record displaces another hash only from a full cache, and then the one that entered first |

## Left out

- The MDBX backend beyond its append check, unwind, prune bounds and atomic batches: its own cursors, history tables and change sets are not modelled.
- The outer `sync_loop` as one imperative method: its steps are the worker's steps of the protocol, where they interleave with everything else.
- ProofStores.InMemoryStorage.StoreTrieUpdates: one map stands for the two maps of trie updates and post states, which are always changed together; the deletion flag of a storage trie, which this store ignores, is not part of a diff.
- Cursors.Cursor.Seek, like the other cursor methods: the entries a population would collect are a parameter, because they are collected on first use; lock errors and the account cursor's empty `reset` are not modelled.
- LiveCollectors.Step: execution errors are one case, and the metrics read after a commit is an outcome of the protocol step instead.
- SourceCursors.DupCursor.NextDup: on an unpositioned cursor it yields nothing; a backend that yields the first row instead enumerates the same rows.
- Initialization.Initialize: progress estimates and logging are not modelled.
- ReferenceIndexes.DeleteBlock: assumes that the rows by block mirror the reference rows, which every reachable index satisfies (`ReferenceRows.ExactIsMirrored`).
- ReferenceTurns.SynchronizeOnce: the head is assumed to be below the largest 64-bit number; phases, metrics, provider errors and the read of the head after the commit are not modelled, and a stop is only modelled between rollback transactions.
- SyncFindings.MixedStoreWithCanonicalTip: the run is one of the protocol; whether the block is refused then depends on the tables as `SyncStates.QuietBatchTakenIff` says.
- ReferenceRows.Commits: block numbers are assumed to fit into 64 bits, so the saturating contiguity check cannot accept the largest number twice.
- Expectations.EngineValidator.ValidateBlock: the block the inner validation returns is the block it was given; overlapping calls are not modelled.
- SyncTheorems.StoreCanonicalIff: assumes that a stored and a canonical block with the same hash are the same block.
- SyncStates.StepKeepsAttached: each block a batch holds is taken to be the block its hash names, with the body execution reads; pruning and unwinding the tables are those of the in-memory store.
- Gaps between the queue indices of different blocks are allowed by the rules and nothing is claimed about them.
- Trie hashing, state roots, keccak, EVM execution, chain specification parsing, RPC and the command line.
