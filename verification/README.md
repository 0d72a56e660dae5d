# The go-qlc ledger, modelled and proved in Dafny

The go-qlc node keeps its ledger behind a write-back layer: six in-memory caches form a ring, writes
and tombstones go to the newest cache, a background flusher moves the oldest one into the key-value
store, and reads scan from newest to oldest before falling through to the store. On top of this
layer sit tables that must agree with something simpler: the child and link tables of confirmed
blocks, the history of token records by PoV height, cached pending totals, representative weights, and
the merged view of confirmed and unconfirmed accounts. This project models that code and proves what
it keeps, over every input, every run and every interleaving the model allows.

`dafny verify dfyconfig.toml` checks everything.

## Layout

| files | what they hold |
|---|---|
| `Ring.dfy`, `RingHistory.dfy`, `RingTheorems.dfy` | the ring of write caches as a state machine; a ghost history of epochs; refinement of one flat map, the ring invariant, crash consistency |
| `FailedFlush.dfy` | runs in which flushes fail: what a skipped cache costs at once, and when the ring returns to it |
| `ConcurrentGet.dfy` | a read split into single probes, interleaved with every other step |
| `MemoryCache.dfy`, `Ledger.dfy`, `BatchUpdate.dfy` | the classes and loops themselves, proved against the state machine |
| `MergedIteration.dfy`, `ConcurrentIteration.dfy` | prefix iteration over ring and store; the same interleaved with every other step |
| `Blocks.dfy`, `Accounts.dfy`, `MapSum.dfy` | blocks, collision-free hashes, 64-bit balances, token records, sums over maps |
| `BlockIndex.dfy`, `TokenHistory.dfy`, `PendingTotals.dfy`, `Representation.dfy`, `AccountMerge.dfy` | the indexes and summaries |
| `Conservation.dfy` | generated blocks and the value they move |
| `ResendQueue.dfy`, `PovTables.dfy`, `PovListing.dfy`, `ChainDump.dfy` | resend queues, PoV block tables, range listings, chain numbering |

Classes and methods follow the imperative code; each is proved equal to a function of its old state, and
the lemmas are about those functions and about runs of them. Runs are sequences of steps (commit of a
batch, rotation, the three phases of a flush, close, rebuild, and the index operations on top).

## Hypotheses

- A write (taking the cache, then putting one entry or copying one batch) is one step with respect to
  rotation and flush, and waiting for a quoted cache or a free slot is a guard on the step.
- `PutBatch` is atomic, and in the ring's main theorems it succeeds; `FailedFlush.dfy` is about runs in which it does not.
- The caches never evict: their bounds (100000 entries, 10000 for temporary caches) are not reached.
- A rebuild is not interleaved with the flusher or with writers.
- Keys are encoded injectively and prefix-exactly, serialization round-trips, and hashes do not collide
  (a block's hash is modelled as a constructor applied to the block, so chains are acyclic).
- Iteration uses a nil end key. Orders in which Go yields map entries are parameters, or arbitrary choices.
- The clock that decides whether a flush is due is a parameter.
- Balances are 64 bits wide; `Balance.Add` and `Balance.Sub` yield zero instead of failing
  (`common/types/balance.go`), and the exact conditions below are about that.
- Each resend queue is one object: ticks and arrivals touch only the queue of their account and token. In the
  run theorems they are serialized; `ResendQueue.RaceOverwrites` splits a tick into load, resend and store
  and says what arrivals in between come to, and `ResendQueue.AppendOverwrites` splits an append into load and
  store and says what a tick in between comes to. An arrival is one append when it is in order, and one append
  per reloaded block otherwise.
- Adds and deletes of pending entries are each in a batch of their own.

## What turned out to hold only under a condition

Each of these is stated as an if-and-only-if with a condition that can be checked before the call, and most
come with a lemma at a concrete failing input.

- Iteration compares keys case-insensitively. A key is missed exactly when a differently spelled key with
  the same folding sits in a cache that is no older (`MergedIteration.IterationExactIff`); the search of the
  token history, which iterates, misses a record on the same condition (`TokenHistory.HeightIsSearchedIff`).
- A flush whose `PutBatch` fails still advances `readIndex` and leaves the cache unpurged. At that moment the
  flat map survives exactly when every skipped entry is masked or already stored
  (`FailedFlush.FailedFlushKeepsViewIff`); but the ring turns onto the cache again, and its stale entries are
  then the newest: four writes of another key, each with the rotation it makes due, bring an overwritten value
  back (`FailedFlush.StaleEntryReturns`). The flat map is right throughout a run exactly when no
  skip loses an entry and no rotation or reset enters a cache that says something else
  (`FailedFlush.RunExactIff`); for one failure, exactly when the skip loses nothing and the cache, on the
  return, says only what the commits so far call for (`FailedFlush.SkippedCacheIff`).
- `DeleteStateBlock` of an open block erases the child entry of the send block it answered
  (`BlockIndex.DeleteKeepsIndexIff`, `BlockIndex.AddThenDeleteUndoesIff`, and the run in
  `BlockIndex.DeletedOpenBreaksIndex`).
- Nothing forces PoV heights to grow along a token chain; appending below the head's height breaks the
  history search (`TokenHistory.AppendAgreesIff`, `TokenHistory.LowerBlockIsMissed`).
- A receive whose new balance overflows 64 bits destroys value (`Conservation.ReceiveConservesIff`,
  `Conservation.OverflowDestroysValue`).
- Cached pending totals: overwriting an entry double counts (`PendingTotals.AddAgreesIff`); a fill reads the
  store only, and is right exactly when the account's entries in the ring net to nothing
  (`PendingTotals.FillIsRightIff`); an adjustment made in a batch whose callback then fails is not undone
  (`PendingTotals.AbortedAgreesIff`, `PendingTotals.AbortedMovesTotal`). Over runs, totals are right exactly when none of this happens
  (`PendingTotals.TotalsAgreeIff`).
- The block processor counts all five coins into a representative's total, the recomputation three of them,
  and a zero representative's benefit is added but never subtracted. `Representation.MoveKeepsFieldIff` gives
  the exact condition for every move, `Representation.WeightsAgreeIff` for every run. Storage and oracle are
  not recomputed at all (`Representation.RecomputeIsExactIff`, `Representation.StorageIsOmitted`).
- Deleting a token by shifting the slice being ranged over removes one occurrence only
  (`AccountMerge.DeleteIsExactIff`, `AccountMerge.SecondMatchStays`).
- At the retry limit the resend service deletes a queue and then stores it again, so the entry stays
  (`ResendQueue.ForgottenIff`, `ResendQueue.GivenUpEntryStays`). A block that arrives between a tick's load and
  its store is overwritten (`ResendQueue.RaceIsSerialIff`, `ResendQueue.RaceLosesArrival`); a tick that stores
  between an append's load and its store is overwritten, so what it dropped is queued again
  (`ResendQueue.SplitAppendIsSerialIff`, `ResendQueue.DroppedComesBack`).
- `AddPovBlock` commits its batch on error paths; a hash offered at two heights puts the tables out of step
  (`PovTables.AddKeepsStepIff`, `PovTables.FailedAddChangesNothingIff`,
  `PovTables.SecondHeightPartsTables`); so does a deletion under another height
  (`PovTables.DeleteKeepsStepIff`, `PovTables.DeleteOfOtherHeightPartsTables`).
- A listing whose range ends beyond 64 bits is empty (`PovListing.AscendingListsIff`,
  `PovListing.DescendingListsIff`, `PovListing.TopHeightIsMissed`).
- The dump documents height 0 for an isolated block, but the final pass gives it the number above the
  header's (`ChainDump.IsolatedHeight`); heights are depths exactly when no ancestor, or only the open
  block, is missing (`ChainDump.ChainHeightIsDepthIff`, `ChainDump.TwoMissingShiftHeights`); a block off the chain whose parent is absent
  fails the dump (`ChainDump.Dump`).

## Model

| member | source | states |
|---|---|---|
| RingTheorems.RunRefines | ledger/cache.go:67-183 | after any run of commits, rotations, flush phases, closes and rebuilds, store overlaid by the live window is the initial store with all committed batches applied in order |
| RingTheorems.StepRefines | ledger/cache.go:67-183 | each step changes the flat map by exactly its committed batch, and every other kind of step leaves it unchanged |
| RingTheorems.QuietStepsKeepView | ledger/cache.go:128-183 | however many rotations, flush phases, closes and rebuilds follow, the flat map stays the same |
| RingTheorems.RunKeepsInvariant | ledger/cache.go:67-147 | in every reachable running state writeIndex differs from readIndex, caches outside the live window are empty, a closed ring's store alone is the flat map, and a rotation enters an empty cache |
| RingTheorems.StoredIsPrefix | ledger/cache.go:360-410 | at every moment, between the phases of a flush too, the store is the result of a prefix of the committed batches, all of them once the ring is closed |
| RingTheorems.DurableGrows | ledger/cache.go:128-147 | the stored prefix of commits never shrinks |
| RingTheorems.CrashRecovers | ledger/cache.go:306-321 | a ring reopened on the store of any reachable state shows exactly a prefix of whole commits |
| FailedFlush.FailedFlushKeepsViewIff | ledger/cache.go:138-146 | at the moment of a failed flush the flat map survives if and only if each skipped entry is masked by a newer cache or already what the store says |
| FailedFlush.RotateKeepsViewIff | ledger/cache.go:67-98 | a rotation overlays the flat map with the cache it enters, and keeps it if and only if that cache says nothing new |
| FailedFlush.ResetKeepsViewIff | ledger/cache.go:176-183 | the same for the reset after a close |
| FailedFlush.StepExactIff | ledger/cache.go:67-183 | with stale caches anywhere outside the window, each step does what it should to the flat map if and only if it is harmless: all steps but skips, rotations and resets always are |
| FailedFlush.RunExactIff | ledger/cache.go:67-183 | in runs with any number of failed flushes, the flat map is what the commits call for at every moment if and only if every step is harmless |
| FailedFlush.RunOutside | ledger/cache.go:128-183 | stale caches keep their contents, and do no harm, until the ring enters them |
| FailedFlush.SkippedCacheUntilReturnIff | ledger/cache.go:128-183 | after one failed flush, until the ring returns to the cache, the flat map is right throughout if and only if the skip lost nothing |
| FailedFlush.SkippedCacheIff | ledger/cache.go:67-183 | including the return and everything after it, if and only if also the cache says nothing but what the commits so far call for |
| FailedFlush.SkipLosesWrite | ledger/cache.go:138-146 | a run in which a skipped write is gone |
| FailedFlush.StaleEntryReturns | ledger/cache.go:67-103 | a run that only rotates away from a nonempty write cache, in which a masked skip is harmless at first and, after four writes of another key and the rotations they make due, the older value is read |
| RingHistory.StepAgrees | ledger/cache.go:67-183 | slots, indexes and store follow the history of epochs: each live epoch sits in its slot, later and purged slots are empty, the store is the history up to the stored epoch |
| RingHistory.RotateStep | ledger/cache.go:67-98 | rotation opens a new epoch in an empty slot and keeps the agreement |
| RingHistory.FlushStoreStep | ledger/cache.go:360-410 | putting the oldest cache's batch extends the stored history by one epoch |
| RingHistory.FlushPurgeStep | ledger/cache.go:405-408 | purging the stored cache keeps the agreement |
| RingHistory.FlushAdvanceStep | ledger/cache.go:128-147 | advancing readIndex onto the purged slot keeps the agreement |
| RingHistory.ResetStep | ledger/cache.go:176-183 | resetting the indexes after a close keeps the agreement although the slots are renumbered |
| Ring.ScanFindsNewest | ledger/cache.go:207-229 | the backward scan returns the newest entry of the window, or a miss when no cache has one |
| Ring.ReadIsView | ledger/ledger.go:621-645 | reading batch, then ring, then store returns the flat map overlaid by the batch, tombstones meaning absent |
| ConcurrentGet.GetReturnsHeldValue | ledger/cache.go:207-229 | with one step per probe and a final store read, interleaved with any commits, rotations and flush phases, the returned value is one the key had after some commit between call and return |
| ConcurrentGet.ScanIsBounded | ledger/cache.go:210-227 | no interleaving lets the scan reach its loop-detection branch |
| MemoryCache.Cache.Put | ledger/cache.go:465-467 | the entry is set and no other changes |
| MemoryCache.Cache.Get | ledger/cache.go:469-478 | hit, tombstone or miss, as the entry says |
| MemoryCache.Cache.Dump | ledger/cache.go:391-404 | the batch built entry by entry in any order is the whole cache |
| MemoryCache.Cache.Flush | ledger/cache.go:360-410 | the store gets all entries in one batch, then the cache is empty |
| MemoryCache.MemoryCache.constructor | ledger/cache.go:40-64 | six empty caches, writeIndex 1, readIndex 0 |
| MemoryCache.MemoryCache.Flush | ledger/cache.go:128-147 | flushes every cache before the write cache, in ring order, unless a flush is already running |
| MemoryCache.MemoryCache.FlushCaches | ledger/cache.go:135-146 | the loop ends with the window reduced to the write cache |
| MemoryCache.MemoryCache.Close | ledger/cache.go:154-174 | everything is in the store and both indexes meet |
| MemoryCache.MemoryCache.Rebuild | ledger/cache.go:176-183 | close followed by the initial indexes |
| MemoryCache.MemoryCache.GetCache | ledger/cache.go:67-103 | the write index moves to the next cache exactly when the interval has passed and the write cache is not empty; when the next slot is not free everything before the old write cache is flushed first, and otherwise readIndex stays |
| MemoryCache.MemoryCache.Get | ledger/cache.go:207-229 | the loop returns what the scan finds |
| MemoryCache.FlushAllAgrees | ledger/cache.go:128-147 | a whole flush, as a sequence of the three phases, keeps the epochs and the flat map |
| MemoryCache.CloseAllAgrees | ledger/cache.go:154-174 | a whole close keeps log and flat map and leaves the store equal to it |
| MemoryCache.RebuildAgrees | ledger/cache.go:176-183 | a rebuild keeps log and flat map |
| MemoryCache.TurnAgrees | ledger/cache.go:67-98 | taking the write cache keeps log and flat map, rotation or not |
| MemoryCache.TurnMoves | ledger/cache.go:67-103 | the same for any state of the ring, full or not, with what moves and what stays |
| MemoryCache.TurnEntersEmpty | ledger/cache.go:67-98 | the cache moved on to is empty |
| MemoryCache.PutOneAgrees | ledger/cache.go:231-234 | one put extends the log by one single-entry batch |
| LedgerStore.Ledger.constructor | ledger/cache.go:40-64 | a new ledger stands for the contents of its store |
| LedgerStore.Ledger.Write | ledger/ledger.go:647-655 | the flat map changes at exactly one key, and the ring is the one GetCache leaves with the entry in its write cache |
| LedgerStore.Ledger.TurnIfDue | ledger/cache.go:67-98 | the ring turns as GetCache does, and the flat map stays |
| LedgerStore.Ledger.Put | ledger/ledger.go:647-650 | the key has the value, other keys are unchanged |
| LedgerStore.Ledger.Delete | ledger/ledger.go:652-655 | the key is gone, other keys are unchanged |
| LedgerStore.Ledger.GetObject | ledger/ledger.go:621-645 | returns exactly the flat map's entry, seen through the caller's batch |
| LedgerStore.Ledger.Flush | ledger/ledger.go:769-773 | flushing leaves the flat map unchanged, makes the store equal to it and sets the indexes back |
| BatchUpdate.TempPool.Acquire | ledger/cache.go:185-200 | the cache handed out is empty and belongs to no other active batch; it is one of the pool's whenever one is free |
| BatchUpdate.TempPool.Free | ledger/cache.go:202-205 | the cache is no longer active and can be handed out again |
| BatchUpdate.CopyInto | ledger/cache.go:306-321 | copying entry by entry in any order equals overlaying the batch's final entries |
| BatchUpdate.CommitAgrees | ledger/cache.go:306-321 | a copied batch is one commit: one more batch in the log, the flat map overlaid by it |
| BatchUpdate.WrittenIsReplay | ledger/cache.go:306-321 | a callback's batch does to any flat map what its puts and deletes do to it one after the other |
| BatchUpdate.WrittenIsLast | ledger/cache.go:465-467 | the batch holds exactly the keys written, each with its last write |
| BatchUpdate.Update | ledger/cache.go:306-321 | a failing callback leaves flat map, log and ring unchanged; a succeeding one makes its writes on the flat map, the last one per key winning, as one commit into the cache GetCache gives; the pool ends as it began |
| MergedIteration.CallsAreSound | ledger/cache.go:272-304 | whatever the folding, every callback is for a live key under the prefix with its newest value, and no key is called twice |
| MergedIteration.LiveKeyIsCalled | ledger/ledger.go:709-726 | a live key that nothing hides is called back |
| MergedIteration.HiddenKeyIsMissed | ledger/cache.go:297-304 | for a hidden key there is an iteration order in which it is never called back |
| MergedIteration.IterationExactIff | ledger/ledger.go:709-726 | iteration is exact in every order if and only if no live key is hidden by a differently spelled one |
| MergedIteration.ExactComparison | ledger/ledger.go:709-726 | when folding is injective under the prefix, iteration is exact: one callback per live key, newest value, none for tombstones |
| MergedIteration.CaseCollision | ledger/cache.go:297-304 | a concrete ring where a key written in another case makes iteration miss a live key |
| MergedIteration.Contains | ledger/cache.go:297-304 | the search finds exactly the keys with the same folding |
| MergedIteration.IterateCache | ledger/cache.go:277-288 | the loop over one cache makes the expected calls, or stops at the first failing one |
| MergedIteration.IterateRing | ledger/cache.go:272-295 | the loop over the ring visits the live caches newest first |
| MergedIteration.IterateStore | ledger/ledger.go:714-723 | the loop over the store skips the keys the ring visited |
| MergedIteration.IteratorObject | ledger/ledger.go:709-726 | the callbacks made are those of the specification up to and including the first failing one, and success means none failed |
| ConcurrentIteration.WalkIsRead | ledger/cache.go:272-295 | under any interleaving the iteration, seen from one key, goes through the steps of a read of that key |
| ConcurrentIteration.SaidWasHeld | ledger/ledger.go:709-726 | what the copied caches and the iterated store say of a key, absence included, held after some commit between call and return |
| ConcurrentIteration.CallbacksWereHeld | ledger/ledger.go:709-726 | with one step per index read, cache copy and store iteration, interleaved with any other steps: no key is called back twice, and each callback's value is one its key had between call and return |
| ConcurrentIteration.LiveThroughoutIsCalled | ledger/ledger.go:709-726 | a key under the prefix that is live from call to return is called back with a value it had in between, unless a key EqualFold takes for it was copied from the same or a newer cache |
| Blocks.TotalBalanceExact | common/types/block_state.go:202-235 | the total is the sum of the five coins when that fits in 64 bits |
| Blocks.WalkIsChain | chain/resendblock_service.go:215-225 | following Previous through known blocks starts at the header, yields consecutive parents and stops only at an unknown one |
| BlockIndex.SetBlockChildIn | ledger/ledger_block.go:322-343 | the child entry is set, or an error leaves the batch alone: the parent is missing, or already has a child in batch, ring or store |
| BlockIndex.SetStateBlockIn | ledger/ledger_block.go:133-154 | the batch gets block, child and link entries, or an error leaves it alone |
| BlockIndex.DeleteStateBlockIn | ledger/ledger_block.go:156-182 | block, child and link entries get tombstones; a missing block is an error |
| BlockIndex.SetStateBlockAdds | ledger/ledger_block.go:322-363 | a successful set adds the three entries and required that the parent had no child, in batch, ring or store |
| BlockIndex.SetStateBlockSucceedsIff | ledger/ledger_block.go:133-154 | a set succeeds if and only if the block is answered and, unless it is open or genesis, its parent is an unconfirmed or confirmed block without a child in batch, ring or store |
| BlockIndex.SetStateBlockLinks | ledger/ledger_block.go:345-363 | an open, receive or reward block is entered under its link, and no other link entry changes |
| BlockIndex.DeleteSucceedsIff | ledger/ledger_block.go:156-182 | a deletion fails if and only if the block is not confirmed, whatever the batch holds |
| BlockIndex.AddKeepsIndex | ledger/ledger_block.go:133-154 | adding a block whose parent has no child keeps the child table the exact inverse of Previous |
| BlockIndex.AddAllKeepsIndex | ledger/ledger_block.go:107-124 | so does a batch of several blocks, even two offered children of one parent |
| BlockIndex.RemoveKeepsIndex | ledger/ledger_block.go:156-182 | deleting an indexed block keeps the inverse |
| BlockIndex.DeleteKeepsIndexIff | ledger/ledger_block.go:365-377 | deleting any confirmed block keeps the inverse if and only if it is not an unindexed block whose parent has a child entry |
| BlockIndex.DeletedOpenBreaksIndex | ledger/ledger_block.go:156-182 | a run of four adds with an exact index, after which deleting an open block takes away the child entry of a block still confirmed |
| BlockIndex.NoForks | ledger/ledger_block.go:322-343 | two confirmed blocks with the same parent are the same block |
| BlockIndex.IndexAlwaysExact | ledger/ledger_block.go:107-182 | over every run of add batches, deletions of non-open non-genesis blocks and ring steps, the child table read through batch, ring and store is the exact inverse of Previous |
| BlockIndex.LinksAlwaysRight | ledger/ledger_block.go:345-392 | over every run, deletions of any blocks included, a link entry names a confirmed receiving block with that link |
| BlockIndex.UndoIff | ledger/ledger_block.go:322-393 | delete right after add restores the tables if and only if block, link and parent's child entries were absent |
| BlockIndex.AddThenDeleteUndoesIff | ledger/ledger_block.go:107-182 | the same across any ring steps in between |
| TokenHistory.SearchIsReplay | ledger/ledger_account.go:523-561 | the downward search returns the record of the last block at or below the height, or not-found exactly when there is none |
| TokenHistory.OpKeepsHistory | ledger/ledger_account.go:447-487 | appending or rolling back a head keeps the index of every token chain |
| TokenHistory.HistoryAgreesWithReplay | ledger/ledger_account.go:447-561 | after any sequence of appends and rollbacks, and any ring run committing them, every search equals replaying the chain |
| TokenHistory.HashesAgreeWithChains | ledger/ledger_account.go:447-487 | after any such run, reading by block hash gives the record that block left, for exactly the blocks of the chains |
| TokenHistory.UpdateHistorySucceedsIff | ledger/ledger_account.go:462-487 | a rollback fails if and only if the block names a previous one that is not found |
| TokenHistory.AppendAgreesIff | ledger/ledger_account.go:447-460 | an append keeps all searches right if and only if its height is not below the head's |
| TokenHistory.GetTokenMetaByPovHeight | ledger/ledger_account.go:523-561 | for any folding and orders the loop terminates and computes that search unless the record searched for is hidden; whatever it returns is the token's record of some height at or below the one asked for, and it returns nothing when there is none |
| TokenHistory.HeightIsSearchedIff | ledger/ledger_account.go:528-548 | the iteration of one height finds the token's record in every order of the maps if and only if no other key that EqualFold takes for it hides it |
| TokenHistory.MetIs | ledger/ledger_account.go:528-548 | whatever the folding, one height yields the token's record of that height if it is called back, and nothing otherwise |
| TokenHistory.LowerBlockIsMissed | ledger/ledger_account.go:447-460 | a block below its parent's height, for which the search returns the older record |
| TokenHistory.PickToken | ledger/ledger_account.go:530-548 | of the records visited, the last one of the token |
| TokenHistory.LastOfTokenIs | ledger/ledger_account.go:530-548 | there is one exactly when a record of the token was visited |
| TokenHistory.AddAccountMetaHistory | ledger/ledger_account.go:447-460 | the batch gets the record under the block's hash and under account, height and token |
| TokenHistory.UpdateAccountMetaHistory | ledger/ledger_account.go:462-487 | the batch restores the previous record at its height or deletes the entry |
| Conservation.GeneratedIsAcceptable | ledger/ledger.go:380-593 | every generated block extends its account's chain from the current head, or opens a chain that does not exist, and a receiving one answers a pending amount |
| Conservation.GeneratesIff | ledger/ledger.go:380-593 | on a consistent ledger a block is generated if and only if the account holds the token and the amount, the pending amount or the new representative's account exists, a PoV header is there where one is needed, and the key fits |
| Conservation.GeneratedKeepsRest | ledger/ledger.go:380-593 | a generated block is about the command's account, token and link, names the representative asked for, else the account's, else the opening send's, and repeats vote, network, oracle and storage of the head one by one |
| Conservation.AcceptableIsNew | ledger/ledger.go:380-593 | such a block is not in the ledger yet |
| Conservation.ApplyKeepsValid | ledger/process/ledger_processor.go:308-333 | applying it keeps heads, blocks and pendings consistent, and no send received twice |
| Conservation.GeneratedMoves | ledger/ledger.go:380-502 | what the account gains is what the pending table loses, and is the amount of the command |
| Conservation.StepConserves | ledger/process/ledger_processor.go:448-505 | every token's balances plus pendings are the same after the step |
| Conservation.StepRecords | ledger/process/ledger_processor.go:448-505 | after the step the token record names the new head and representative and has the command's amount moved, and one pending amount comes or goes; every other record is as it was |
| Conservation.AmountIsMoved | ledger/ledger_account.go:405-445 | CalculateAmount of an applied block is the amount it moved |
| Conservation.AmountIs | ledger/ledger_account.go:405-445 | for any block whose coins fit: the difference of coins in the direction of its type, contract sends and rewards included, all of a first block, and an error exactly for a missing previous block or another type |
| Conservation.ValueIsConserved | ledger/ledger.go:380-593 | over any run of generated sends, receives, opens, changes and onlines, every token's supply is constant and each send is received at most once |
| Conservation.RunAmounts | ledger/ledger_account.go:405-445 | along such a run every applied block's calculated amount is the amount moved |
| Conservation.ReceiveConservesIff | ledger/ledger.go:420-502 | without the bound on supply, a receive conserves if and only if the new balance fits in 64 bits |
| Conservation.OverflowDestroysValue | ledger/ledger.go:420-502 | a consistent ledger in which receiving one coin leaves a balance of zero |
| Conservation.Draft.GenerateSendBlock | ledger/ledger.go:380-418 | on success the draft is the generated block; on error it is untouched, unless only the key did not match, and then it is left filled in |
| Conservation.DraftedIs | ledger/ledger.go:380-418 | the draft is left as a send generated without a key would be, or as it was |
| PendingTotals.AddAgreesIff | ledger/ledger_pending.go:20-29 | an add on any key keeps cached totals right if and only if a cached total does not overflow and an overwritten entry weighed nothing or is in no cached total |
| PendingTotals.OverwriteCountsTwice | ledger/ledger_pending.go:20-29 | the same entry added twice is counted twice |
| PendingTotals.DeleteAgrees | ledger/ledger_pending.go:31-44 | deleting an entry always keeps them right |
| PendingTotals.FillReadsStore | ledger/ledger_pending.go:93-142 | the accumulation over the store in any order is the sum |
| PendingTotals.EvictThenFill | ledger/ledger_pending.go:126-142 | after an eviction the next fill sums the store afresh, and no other total changes |
| PendingTotals.TotalOfOverlay | ledger/ledger_pending.go:93-111 | the total of a table seen through an overlay is the total underneath plus the net weight of the overlay's keys |
| PendingTotals.FillIsRightIff | ledger/ledger_pending.go:126-142 | in every state of the ring, a fill from the store is the merged table's sum if and only if the ring's entries of the account net to zero |
| PendingTotals.StoreTotal | ledger/ledger_pending.go:93-111 | so it is when the ring has no entry of the account |
| PendingTotals.FillBeforeFlushIff | ledger/ledger_pending.go:126-142 | with one unflushed entry of the account, added, overwritten or deleted, it is so if and only if the entry's weight did not change |
| PendingTotals.FillCountsDeleted | ledger/ledger_pending.go:126-142 | a deleted entry whose tombstone is not flushed yet is still counted |
| PendingTotals.AbortedAgreesIff | ledger/ledger_pending.go:20-44 | an adjustment in a batch that is then dropped keeps totals right if and only if the amount is zero or the total is not cached |
| PendingTotals.AbortedMovesTotal | ledger/ledger_pending.go:20-44 | a dropped add moves a right total from 0 to 5, a dropped delete from 5 to 0 |
| PendingTotals.StepAgreesIff | ledger/ledger_pending.go:20-142 | the exact condition, for each kind of event, under which cached totals stay right |
| PendingTotals.TotalsAgreeIff | ledger/ledger_pending.go:20-142 | through any run of adds and deletes, committed or dropped, fills, evictions and ring steps, every cached total is the sum over the merged table at every moment if and only if every event meets its condition |
| PendingTotals.TotalsAlwaysAgree | ledger/ledger_pending.go:20-142 | so they are along runs with adds on fresh keys, no dropped batches, and fills that find no entry of the account in the ring |
| PendingTotals.TotalsCache.AddAccountPending | ledger/ledger_pending_cache.go:5-8 | one total is set |
| PendingTotals.TotalsCache.UpdateAccountPending | ledger/ledger_pending_cache.go:10-23 | only a total already cached is adjusted |
| PendingTotals.TotalsCache.PendingAmount | ledger/ledger_pending.go:126-142 | returns the cached total, or the saturating sum over the store in the order of its iteration, which it then caches, and which is the plain sum when that fits in 64 bits |
| PendingTotals.AddPending | ledger/ledger_pending.go:20-29 | batch entry and cached total change together |
| PendingTotals.DeletePending | ledger/ledger_pending.go:31-44 | an entry found through ring and store gets a tombstone and leaves the total; an absent one changes nothing |
| Representation.AddRepresentationIn | ledger/ledger_represention.go:76-90 | the benefit read through batch, ring and store grows field by field; an absent one starts at zero |
| Representation.SubRepresentationIn | ledger/ledger_represention.go:92-105 | likewise shrinks; an absent one is an error and nothing is written |
| Representation.MoveIsMoved | ledger/process/ledger_processor.go:396-424 | subtracting the old and adding the new benefit in one batch, even to the same representative, changes the table as the two steps in sequence; it fails exactly when the old representative is unknown |
| Representation.MoveKeepsFieldIff | ledger/process/ledger_processor.go:396-424 | for every move, a new account, a new representative or the same one, a zero one, a subtraction that stops at zero: the field equals its recomputation afterwards if and only if the stated condition on the records holds |
| Representation.LeftIsRightIff | ledger/process/ledger_processor.go:397-411 | the representative left is right if and only if the old record counted nothing extra or was all its weight; the zero one, if and only if the record weighed nothing |
| Representation.JoinedIsRightIff | ledger/process/ledger_processor.go:412-421 | the representative joined is right if and only if the new record counts nothing extra |
| Representation.KeptIsRightIff | ledger/process/ledger_processor.go:396-424 | a representative kept is right if and only if the extra coins are unchanged, or make up for a subtraction that stopped at zero |
| Representation.ExtraIs | ledger/process/ledger_processor.go:396-424 | what the processor counts beyond the sums: nothing in any single coin, the oracle and storage coins in the total |
| Representation.TotalDrifts | ledger/process/ledger_processor.go:396-424 | an account that gains an oracle coin: total 6 against a recomputed 5 |
| Representation.ZeroRepresentativeKeepsBenefit | ledger/process/ledger_processor.go:396-424 | an account that leaves the zero representative: 5 stays there against a recomputed 0 |
| Representation.RecomputeIsExactIff | ledger/ledger_represention.go:139-181 | whatever the iteration order, balance, vote, network and total are the sums over the accounts; storage and oracle are if and only if no account has any |
| Representation.StorageIsOmitted | ledger/ledger_represention.go:139-181 | an account with 5 storage coins, of which the recomputed table has none |
| Representation.UpdateRepresentation | ledger/ledger_represention.go:139-181 | the loop computes that table |
| Representation.MovesSucceed | ledger/ledger_represention.go:76-105 | from the recomputed table, through any sequence of moves and ring steps, no move fails: every record arrives and every representative is in the table |
| Representation.WeightsAgreeIff | ledger/ledger_represention.go:76-105 | along such a run each of the six fields equals the sum over the accounts at every moment if and only if the recomputation got it right and every move meets its condition |
| Representation.WeightsAgree | ledger/ledger_represention.go:76-105 | so it does, from a right start, whenever each moved account's old and new records are faithful in the field and its old representative is not zero |
| Representation.SharesSumToWeight | ledger/ledger_represention.go:139-181 | the shares of all representatives sum to the vote weight of all accounts |
| Representation.TotalsSumToWeight | ledger/ledger_represention.go:139-181 | so do the totals in a matching table |
| AccountMerge.MergeIsPerToken | ledger/ledger_account.go:70-95 | per token type the record with more blocks, the unconfirmed one on a tie, unconfirmed types in their places and confirmed-only ones after them; coins follow the chain token when both records hold it and the confirmed one is ahead |
| AccountMerge.ViewIsPerToken | ledger/ledger_account.go:53-98 | not-found exactly when both records are missing; the one record when there is only one; otherwise the union of token types, each with the better record |
| AccountMerge.BestIs | ledger/ledger_account.go:70-95 | the better record is one of the two, has at least as many blocks as either, and is the unconfirmed one on a tie |
| AccountMerge.CoinsFollowChainToken | ledger/ledger_account.go:70-95 | the coins are the confirmed ones exactly when the confirmed chain token has more blocks, and the chain token in the view is of the same record |
| AccountMerge.ConfirmedOnlyConcat | ledger/ledger_account.go:70-95 | the confirmed-only records are selected one by one, in order |
| AccountMerge.AccountRecord.constructor | ledger/ledger_account.go:53-57 | a record read from bytes, all of its parts new |
| AccountMerge.AccountRecord.Clone | common/types/account.go:157-172 | the same record, sharing no object with the original |
| AccountMerge.AccountRecord.MergeRecord | ledger/ledger_account.go:72-93 | the record of the type is overwritten in place when it has fewer blocks, or the confirmed one is appended |
| AccountMerge.MergeTokens | ledger/ledger_account.go:70-95 | the loop over the mutable records computes the merge, and takes over no object but the clone's |
| AccountMerge.GetAccountMeta | ledger/ledger_account.go:53-98 | the merged view as new objects; nothing that existed before is modified, the cached confirmed record included |
| AccountMerge.DeleteIsExactIff | ledger/ledger_account.go:365-395 | shifting the slice being ranged over removes the type and keeps order if and only if it occurs at most once |
| AccountMerge.SecondMatchStays | ledger/ledger_account.go:371-375 | of two records of the type one stays |
| AccountMerge.DeleteToken | ledger/ledger_account.go:365-377 | the in-place loop on the array computes that slice |
| AccountMerge.ShiftCells | ledger/ledger_account.go:371-375 | the copy made by append |
| ResendQueue.ForgottenIff | chain/resendblock_service.go:150-181 | a tick forgets a queue if and only if all of it is confirmed; at the retry limit the entry stays and is rolled back again |
| ResendQueue.FirstUnconfirmed | chain/resendblock_service.go:155-172 | at the first unconfirmed entry: below the limit a known block is published and an unknown one is not, at the limit it is rolled back; with everything confirmed neither happens |
| ResendQueue.RunKeepsOrder | chain/resendblock_service.go:150-248 | after any run the queue is a suffix of everything appended, each dropped block was seen confirmed, and only the head was ever resent |
| ResendQueue.TimesAreFirsts | chain/resendblock_service.go:155-172 | every retry counter is the number of ticks at which its block was the first unconfirmed one, capped at the limit |
| ResendQueue.NeverDropsUnconfirmed | chain/resendblock_service.go:150-181 | a block never seen confirmed is still queued, whatever its retry count |
| ResendQueue.PublishedInOrder | chain/resendblock_service.go:155-172 | a published block is unconfirmed and everything appended before it was seen confirmed |
| ResendQueue.GivenUpEntryStays | chain/resendblock_service.go:159-179 | an entry at the limit is rolled back and still queued |
| ResendQueue.RaceOverwrites | chain/resendblock_service.go:151-181 | whatever is stored between a tick's load, resend and store, whole arrivals or appends loaded earlier, the queue left is the tick's on what it loaded |
| ResendQueue.RaceIsSerialIff | chain/resendblock_service.go:150-248 | for a whole arrival during the tick: the outcome is tick-then-arrival if and only if the arrival would append nothing to the ticked queue, and arrival-then-tick if and only if it appends nothing or all of the queue and of what it appends is confirmed |
| ResendQueue.RaceLosesArrival | chain/resendblock_service.go:150-248 | a block that only arrives during a tick on a live queue is not queued afterwards |
| ResendQueue.AppendOverwrites | chain/resendblock_service.go:151-248 | an append that loads before a tick's load, resend or store and stores after the tick: the queue left is everything the tick loaded, counted, and the new block; or the new block alone when the append loaded while the key was removed |
| ResendQueue.SplitAppendIsSerialIff | chain/resendblock_service.go:151-248 | that outcome is tick-then-append if and only if the tick drops nothing and the append does not load while the key is removed, and append-then-tick if and only if the queue also is not empty |
| ResendQueue.SplitAppendRemainsIff | chain/resendblock_service.go:151-248 | the queue is still the log without what was dropped if and only if the same condition holds |
| ResendQueue.InOrderIsAppend | chain/resendblock_service.go:200-246 | an in-order arrival is one append, on the queue before a tick and on the one after |
| ResendQueue.DroppedComesBack | chain/resendblock_service.go:151-248 | a confirmed block dropped by a tick during an append is queued again |
| ResendQueue.DifferenceOfFront | chain/resendblock_service.go:288-296 | removing a front by pointer identity from distinct entries leaves the suffix |
| ResendQueue.InSlice | chain/resendblock_service.go:278-286 | membership by identity |
| ResendQueue.SliceDiff | chain/resendblock_service.go:288-296 | the elements not in the second slice, in order |
| ResendQueue.DifferenceConcat | chain/resendblock_service.go:288-296 | the difference is taken element by element, in order |
| ResendQueue.Count | chain/resendblock_service.go:168-168 | one entry's counter goes up by one, and no other entry of the slice changes |
| ResendQueue.WaitingBlocks.Resend | chain/resendblock_service.go:154-172 | the loop stops at the first unconfirmed entry and publishes, counts or gives up that one only |
| ResendQueue.WaitingBlocks.StoreRest | chain/resendblock_service.go:174-179 | the suffix behind the confirmed front is stored, or the queue forgotten |
| ResendQueue.WaitingBlocks.Tick | chain/resendblock_service.go:150-181 | the whole tick on the mutable entries: new queue, published block, rolled-back block |
| ResendQueue.WaitingBlocks.Append | chain/resendblock_service.go:130-138 | one fresh entry at the end |
| ResendQueue.WaitingBlocks.Arrive | chain/resendblock_service.go:194-246 | an in-order block is appended; otherwise the cached chain is, oldest first, or nothing without an account record |
| ResendQueue.WaitingBlocks.Reload | chain/resendblock_service.go:226-241 | blocks collected newest first are appended oldest first |
| ResendQueue.ReverseAt | chain/resendblock_service.go:226-241 | entry i of the reloaded chain is entry n - 1 - i of the collected one |
| ResendQueue.ReloadedIsChain | chain/resendblock_service.go:215-241 | the reloaded chain goes from the oldest cached block to the header, each block after the first having the one before it as its previous |
| ResendQueue.ArrivalIs | chain/resendblock_service.go:199-246 | a block that follows the last entry, or finds no queue, comes alone; any other brings the cached chain up to its header, or nothing without one |
| ResendQueue.LoadChain | chain/resendblock_service.go:215-225 | walks the cached blocks back from the header, and terminates |
| PovTables.AddKeepsStepIff | ledger/ledger_pov.go:108-125 | on tables in step an add succeeds exactly for a new hash, and keeps them in step (a failing one changing nothing) if and only if the hash is not registered at another height |
| PovTables.FailedAddChangesNothingIff | ledger/ledger_pov.go:569-588 | in any state a failing add, whose batch is committed all the same, changes nothing if and only if the header was already there |
| PovTables.SecondHeightPartsTables | ledger/ledger_pov.go:108-125 | one hash at two heights: the second add reports an error and leaves a header and a body behind |
| PovTables.DeleteKeepsStepIff | ledger/ledger_pov.go:127-146 | a delete keeps the tables in step under the same condition |
| PovTables.DeleteOfOtherHeightPartsTables | ledger/ledger_pov.go:127-146 | deleting a hash under another height leaves its header behind, and no lookup finds the block |
| PovTables.TablesAlwaysInStep | ledger/ledger_pov.go:108-146 | when hashes determine heights, after any run the four tables hold the same blocks and a lookup by hash returns exactly the block and difficulty added and not deleted since |
| PovTables.Batch.AddHeader | ledger/ledger_pov.go:148-167 | sets an absent header, or reports that it exists |
| PovTables.Batch.AddBody | ledger/ledger_pov.go:231-250 | sets an absent body, or reports that it exists |
| PovTables.Batch.AddHeight | ledger/ledger_pov.go:314-331 | sets an absent height, or reports that it exists |
| PovTables.Batch.AddTD | ledger/ledger_pov.go:392-411 | sets an absent difficulty, or reports that it exists |
| PovTables.PovStore.AddPovBlock | ledger/ledger_pov.go:108-125 | on its own batch the partial result is committed on every path; on the caller's batch the store is untouched |
| PovTables.PovStore.DeletePovBlock | ledger/ledger_pov.go:127-146 | the block's entries leave all four tables |
| PovTables.PovStore.GetPovBlockByHash | ledger/ledger_pov.go:936-943 | finds a block exactly when its height is registered, on tables in step |
| PovListing.AscendingLists | ledger/ledger_pov.go:954-964 | header i is the best block of height h + i, for count headers or up to the tip |
| PovListing.AscendingWraps | ledger/ledger_pov.go:954-964 | a range end beyond 64 bits wraps and lists nothing |
| PovListing.AscendingListsIff | ledger/ledger_pov.go:954-964 | the ascending listing of a contiguous chain is right if and only if its range ends within 64 bits or starts above the tip |
| PovListing.VisitedAre | ledger/ledger_pov.go:994-1020 | on any table, with gaps or without, the heights visited are those of the range with a best hash, ascending |
| PovListing.HeadersAre | ledger/ledger_pov.go:994-1020 | there is a listing if and only if every visited height has a stored header, and it holds those very headers in order |
| PovListing.DescendingReverses | ledger/ledger_pov.go:966-992 | on any table the descending listing is the reverse of the ascending one, errors included |
| PovListing.DescendingListsIff | ledger/ledger_pov.go:966-992 | for c at most h at most the tip it yields h, h-1, ..., h-c+1, if and only if h + 1 fits in 64 bits or c is zero |
| PovListing.TopHeightIsMissed | ledger/ledger_pov.go:966-992 | the block at the largest height is there, and the listing from it is empty |
| PovListing.BatchGet | ledger/ledger_pov.go:994-1020 | the headers of the visited heights, or an error when one is missing |
| PovListing.Reverse | ledger/ledger_pov.go:985-989 | the swap loop from the middle outwards reverses in place |
| PovListing.BatchGetAsc | ledger/ledger_pov.go:954-964 | computes the ascending listing |
| PovListing.BatchGetDesc | ledger/ledger_pov.go:966-992 | computes the descending listing through the in-place reversal |
| ChainDump.HeightByDepth | ledger/ledger_dump.go:193-251 | numbering by position in the walk is numbering by depth, shifted by a constant, on the chain and beside it |
| ChainDump.CompleteChainNumbered | ledger/ledger_dump.go:193-214 | a complete chain of n blocks is numbered n down to 1 from header to open block |
| ChainDump.ChainHeightIsDepthIff | ledger/ledger_dump.go:193-251 | blocks on the chain get their depths if and only if no ancestor, or the open block alone, is missing |
| ChainDump.TwoMissingShiftHeights | ledger/ledger_dump.go:193-251 | the third block of a chain whose other two are missing is numbered two |
| ChainDump.ChildIsOneAbove | ledger/ledger_dump.go:222-251 | every block whose parent is on the chain is numbered one above it |
| ChainDump.IsolatedHeight | ledger/ledger_dump.go:248-251 | any other block off the chain gets the number above the header's, never zero |
| ChainDump.WalkChain | ledger/ledger_dump.go:193-214 | the walk marks and counts exactly the chain; consecutive means it ended at the recorded open block |
| ChainDump.PlaceOffChain | ledger/ledger_dump.go:222-246 | in any order, blocks beside the chain are placed; it fails exactly when a parent is absent |
| ChainDump.TurnAround | ledger/ledger_dump.go:248-251 | every count is turned around once |
| ChainDump.Dump | ledger/ledger_dump.go:183-262 | all passes together give each record the specified height and chain flag; certain means nothing is off the chain |

## Left out

- `Iterator` and `prefixIterator`, the byte-value twins of `IteratorObject` and `prefixIteratorObject`: same loops, same properties.
- The SQL mirror: `dumpToRelation`, deleted schemas, and the tables the dump writes.
- One-key put and get files of the ledger (unchecked, sync, vote history, peers, privacy, dpos, smart blocks): they would only add easy members.
- Block validation and contract processing in `ledger/process`, beyond the step that updates head, balance and pending; contract sends and rewards are not generated here.
- Signatures, work and serialization formats; the PoW, miner, consensus, p2p and RPC code.
- Event bus, logging, timers and sleeping: waiting is a guard, and no liveness or real-time claim is made.
- ResendQueue.WaitingBlocks.Tick: models one queue of the service's table, not the range over all keys, because calls for different keys touch different entries.
- The start-up loading of the resend queues is modelled only as appends to a queue, not the walk over all accounts.
- TokenHistory.HistoryAgreesWithReplay: for chains with nondecreasing heights, because `AppendAgreesIff` shows it fails otherwise.
- Representation.WeightsAgreeIff: all coins together are taken to fit in 64 bits.
- PendingTotals.TotalsAgreeIff: a fill's sum over the store is taken to fit in 64 bits; what the saturating addition yields otherwise depends on the iteration order.
- PovTables.TablesAlwaysInStep: for runs in which a hash determines the height, because `AddKeepsStepIff` shows the tables part otherwise.
- AccountMerge.ViewIsPerToken: for records with distinct token types, as the ledger stores them; which of two equal types would win is not stated.
- Eviction from the size-bounded caches.
