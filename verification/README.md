# Verification of mtp-mount's core

mtp-mount mounts an MTP device as a file system. The device re-keys its object handles, drops the
link, answers with too few or too many bytes, and fails in the middle of operations; the mount has
to hide all of that. This project models the parts that do the hiding and proves what they promise:

- **Reading** (`Ranges.dfy`, `SparseCache.dfy`, `RangedRead.dfy`, `FillProtocol.dfy`,
  `FillTheorems.dfy`, `FillSlot.dfy`, `FillHazard.dfy`, `CacheHazard.dfy`, `FillTracker.dfy`). Range bookkeeping, the sparse cache, the
  ranged-read loop and the whole-object filler are the code, as classes and methods with loops.
  What runs concurrently around them (readers, fillers, closes, device events, teardown) is a state
  machine whose steps are the mutex-protected sections; the theorems are about every run of it.
- **The inode table and handle recovery** (`InodeTable.dfy`, `InodeInvariant.dfy`,
  `TreeInvariant.dfy`, `DirectoryNames.dfy`, `TableRuns.dfy`, `SyncChildren.dfy`, `PathResolution.dfy`,
  `LoadDirectory.dfy`, `DirectoryChanges.dfy`, `DirectoryFlush.dfy`, `DirectoryOperation.dfy`,
  `SessionRun.dfy`, `Readdir.dfy`, `Recovery.dfy`, the first half of `Mount.dfy`). The table is a
  class with its three indexes; each of its methods is proved equal to a function on table values,
  and invariants, listings and runs are about those functions. `ensure_fresh`, `with_recovery`,
  `create`, `mkdir`, `unlink` and `rmdir` are methods. `SessionRun.dfy` follows table and device
  together through any number of sessions.
- **The safe flush** (`Device.dfy`, the second half of `Mount.dfy`). Device objects have identities of
  their own, so that "the original" means something while handles change. Every device call lets
  the world act first (re-key, add, change, drop anything that is not pinned) and may fail with or
  without having been carried out; `history` records every device state, and the safety claim is
  about each of them.
- **The small ones** (`Spool.dfy`, `Backoff.dfy`, `Size.dfy`).

Whatever the outside decides is an oracle: `world`, `faults`, `responses`, `outcomes` and `others`
are functions from a call number to a choice, and all theorems hold for all of them. Byte offsets
are `u64` where the source's are, with its saturation and overflow branches written out. Durations
are whole milliseconds.

## What is not as one might expect

Some of the source's promises do not hold unconditionally; for each the exact condition is proved.

- **Teardown.** `FillTracker::finished` drops every entry of its cache (src/fill.rs:60), a fill
  publishes its failure before it calls `finished`, and a reader that recovers from the lost link may
  meanwhile register a second fill of the same cache. The first fill's `finished` then takes the
  second off the tracker's list. `RegisterSafeIffNotListed`: a registration keeps every transfer in
  teardown's sight if and only if the tracker does not list the cache yet, which is something
  `register` itself could check. `TeardownCanMissATransfer` is a complete run from an empty mount in
  which `stop_and_wait` answers true over an open transfer.
- **The name index.** Where `flush_safe` cannot finish it writes the entry's name through `get_mut`
  (src/fs.rs:842-847, src/fs.rs:857-862). `OpKeepsDirIff`: of all that happens to the table, exactly
  this write, under another name than the entry had, puts names out of agreement with entries, and
  those of the one directory only. What comes of it there: any later listing that reports the
  temporary name shows it twice, and if it still reports the old name, the entry under the temporary
  name gets the old object's handle (`OverwrittenNameListsTwice`); once the file is removed, its old
  name leads to a dead number, which `lookup` unwraps (src/fs.rs:1193,
  `RemovalLeavesDeadNameIffOverwritten`); once it is moved, its old name leads into the other
  directory, where a creation or report of that name then hits it
  (`MoveLeavesStrayNameIffOverwritten`, `StrayNameHitsElsewhere`). Everything else is proved for all
  runs, those writes included (`MountRun`): finite parent chains, child lists and with them paging,
  numbers, stamps, path resolution, and the names and listings of every other directory.
- **Names reported twice.** The table keeps the last report under a name, the walk takes the first.
  `ListingRightIffAgreed`: a listing keeps every fresh handle right if and only if, under each name,
  the first and the last report have the same handle.
- **Names that the device has already.** `create`, `mkdir`, `rename` and moves make the table forget
  the holder of the new name, but not the device. `CreationRightIff`, `RelocationRightIff`: all
  handles of the session stay right if and only if the device lists no other object of that name
  before the new one and, for a move, the new directory is in the object's own storage (the call
  names no other, src/fs.rs:1885-1889). `FailedOperationLeavesWrongHandle`: a deletion or renaming
  that is carried out although the operation fails, such as a rename whose move then fails
  (src/fs.rs:1863-1895), leaves a wrong handle that counts as current. `CurrentHandlesAreRight`:
  otherwise no current handle is ever wrong, in any run of sessions, flushes that could not
  finish among it.
- **Leftovers.** A retried flush clears whatever goes by its temporary name, also what an earlier,
  unfinished flush left there as the only copy of its data. Both sides are clauses of `FlushToMtp`:
  if nothing goes by that name when it begins, and the world gives the name to nothing that is
  there, then of what was there nothing is lost but what the file's handle was given out for; and one
  outage at the first upload, with a second try that nothing hinders, is enough to lose everything
  that did go by it. `PurgeSparesOriginalIff`: the original itself is spared if and only if it does
  not go by that name, as it never does where it has the name that the table has.
- **Cleaning up after a fill.** A filler's cleanup goes by the inode (src/fs.rs:995-997), and so does
  the report that a file has changed. `RunningCacheStaysIff`: in every run, a cache that is being
  filled stays the one that reads join if and only if neither that report nor the cleanup of another
  fill, with no handle open, came for its file; `RunningFillCanBeAbandoned` is a complete run, over
  a device event and a second read, in which the cleanup comes and a transfer runs on that nothing
  can join.

## Model

| member | source | states |
|---|---|---|
| Ranges.RangeSet.Insert | src/ranges.rs:27-51 | The one merging pass keeps the vector sorted, non-empty and non-touching, and the set becomes exactly the union with the added range |
| Ranges.RangeSet.Missing | src/ranges.rs:55-85 | The answer is the canonical vector of exactly the absent offsets of the clipped request, saturation of offset plus size included |
| Ranges.InsertionPoint | src/ranges.rs:45-50 | Everything before the position starts earlier, everything from it on does not |
| Ranges.CanonicalUnique | src/ranges.rs:8-12 | Two canonical vectors with the same bytes are the same vector |
| Ranges.RunDenotes | src/ranges.rs:27-51 | After any sequence of insertions the set holds what it held and what was inserted, nothing else |
| Ranges.InsertionOrderIrrelevant | src/ranges.rs:27-51 | Any two sequences of insertions that cover the same offsets, in any order and cut in any way, end in the same vector |
| Ranges.PermutedRunsAgree | src/ranges.rs:27-51 | Inserting the same ranges in another order gives the same vector |
| Ranges.MissingRunsAreMaximal | src/ranges.rs:55-85 | Each reported gap is a maximal run: just before and just after it an offset is present or outside the request |
| Ranges.FillingGapsLeavesNone | src/ranges.rs:55-85 | Inserting every reported gap makes the next query of the same request empty |
| SparseCaches.SparseCache.MissingRanges | src/sparse_cache.rs:55-57 | Empty exactly if the clipped request is populated throughout |
| SparseCaches.SparseCache.WriteAt | src/sparse_cache.rs:60-81 | File, populated set and error of a write: refused when it overflows or passes the object's end, and a broken local write populates nothing |
| SparseCaches.SparseCache.ReadAt | src/sparse_cache.rs:88-97 | Reads the request clipped to the object, byte for byte |
| SparseCaches.WriteKeepsAgreement | src/sparse_cache.rs:60-81 | Storing device bytes, even with a write that breaks off, keeps every populated byte equal to the device's |
| SparseCaches.CoveredReadIsDeviceSlice | src/sparse_cache.rs:88-97 | A covered read is exactly the device's slice, never a hole |
| SparseCaches.SharedSparseCache.StartFilling | src/sparse_cache.rs:176-183 | The slot is granted if and only if it is idle, and is running then; a refusal changes nothing, and neither touches the bytes or the stop flag |
| SparseCaches.SharedSparseCache.IsFilling | src/sparse_cache.rs:190-192 | True exactly while the fill is running |
| SparseCaches.SharedSparseCache.RequestStop | src/sparse_cache.rs:198-203 | Sets the stop flag and nothing else |
| SparseCaches.SharedSparseCache.ResetFailedLink | src/sparse_cache.rs:214-222 | The slot becomes startable again if and only if its fill failed by a lost link; nothing else changes |
| SparseCaches.SharedSparseCache.WriteNext | src/sparse_cache.rs:225-234 | Stores only while the fill is running |
| SparseCaches.SharedSparseCache.FinishFill | src/sparse_cache.rs:237-250 | Complete exactly if as many bytes came as the object has |
| SparseCaches.SharedSparseCache.FailFill | src/sparse_cache.rs:252-257 | The fill state becomes the given failure |
| SparseCaches.SharedSparseCache.PollOnce | src/sparse_cache.rs:260-283 | One wake-up of a waiting reader; it sleeps again exactly while the fill runs and part of its range is missing |
| SparseCaches.SharedSparseCache.WriteAt | src/sparse_cache.rs:293-295 | The ranged path's write leaves fill state and stop flag alone |
| SparseCaches.ObjectStream.Next | src/sparse_cache.rs:310-319 | A stream hands out the object's bytes from where the last chunk stopped, until it ends or breaks |
| SparseCaches.SharedSparseCache.Interfere | src/sparse_cache.rs:175-296 | Whatever other threads do between two steps of a filler, the slot stays its own, the cache keeps agreeing with the object, and a stop is asked for exactly if it was or one of them asks |
| SparseCaches.AbsorbKeepsFiller | src/sparse_cache.rs:368-388 | Taking a chunk keeps the cache true and keeps "a filler that has not failed has put down everything before its offset" |
| SparseCaches.OverflowIsNeverTheFirstFailure | src/sparse_cache.rs:380-388 | The byte count overflows only after the fill has failed for another reason |
| SparseCaches.ConcludeCompleteIsFull | src/sparse_cache.rs:390-396 | Complete is published only with every byte in place |
| SparseCaches.AbsorbInto | src/sparse_cache.rs:368-388 | The chunk-storing part of the loop: clip, store, record the first failure, count on |
| SparseCaches.FillFromStream | src/sparse_cache.rs:336-396 | For any stream and any interference: the transfer is ended exactly once, a seen stop ends it by one cancel with nothing pulled after, and it is Complete if and only if no stop was seen, the stream did not break, every chunk was stored whole and together they are the advertised size; otherwise what is published is the first thing that went wrong, a broken stream with its lost link; and everything before the first failure is in the cache |
| SparseCaches.UndisturbedFillCompletesIff | src/sparse_cache.rs:336-396 | A transfer of chunks only, all local writes landing and nobody asking to stop, is published as complete exactly if what the chunks offer, as far as the object goes, is the advertised size |
| SparseCaches.FillTurn | src/sparse_cache.rs:349-388 | One turn of the loop ends the fill, with the outcome stated above, or has taken exactly one more chunk |
| SparseCaches.PullAndStore | src/sparse_cache.rs:357-388 | One pull: the next item of the stream, stored if it is a chunk |
| RangedReads.Read | src/fs.rs:1436-1511 | A data reply is exactly the device slice; a gap left over, and an answer that is an error, are always an error, with nothing asked after it; every chunk asked for is the rest of a range missing at the start or 1 MiB of it, and begins where that range does or where the last answer ended; the number of chunks is bounded by the missing bytes; and if every answer brings bytes the read succeeds |
| RangedReads.FetchGaps | src/fs.rs:1440-1493 | The gaps in turn up to the first failure, within the bound summed over the gaps; it fails only by an answer that was an error or could not be stored |
| RangedReads.FetchGap | src/fs.rs:1442-1492 | One gap from its start, chunk after chunk, ends after at most as many as it has bytes, whatever the device answers, and is populated throughout if every answer brought bytes |
| RangedReads.AskOnce | src/fs.rs:1449-1492 | One answer: an error is one, and otherwise its bytes, as far as they fit inside the object, are in the cache and the cursor is where they end |
| RangedReads.GapsFilled | src/fs.rs:1494-1511 | Once each gap found at the start is populated, the final check finds nothing missing |
| FillTrackers.FillTracker.Register | src/fill.rs:48-55 | Refused exactly once teardown has begun |
| FillTrackers.FillTracker.Finished | src/fill.rs:58-63 | Drops every entry of the cache |
| FillTrackers.FillTracker.StopAndWait | src/fill.rs:75-94 | Every fill live at the start has been asked to stop; true exactly if by some wake-up before the deadline all of them had reported in |
| FillProtocol.StepKeeps | src/fs.rs:948-999 | Every step of readers, fillers, kernel, device and teardown keeps the invariant, and no cache loses a byte, changes what it stands for or forgets a stop request |
| FillProtocol.ReadStepKeeps | src/fs.rs:1354-1433 | The steps of a read, joining or making a cache, starting a fill, waiting and recovering from a lost link, keep it |
| FillProtocol.FillStepKeeps | src/fs.rs:948-999 | The steps of a fill, from its claim on the slot to its cleanup, keep it |
| FillProtocol.RecoverFreesLostSlot | src/fs.rs:1007-1017 | A reader's recovery makes the slot startable again exactly if the session is back and the fill failed by a lost link; every other cache is left as it was |
| FillProtocol.ReleaseDropsUnused | src/fs.rs:353-365 | A close drops a cache exactly if it is that file's, the file has no handle left and no fill is running |
| FillProtocol.FillOutlivesClose | src/fs.rs:353-365 | A close while the fill runs leaves the cache to the filler's cleanup |
| FillSlots.StepMovesSlot | src/sparse_cache.rs:176-257 | Every step of every party: an idle slot is left by a reader's claim only, a failed one by a recovery from a lost link only, a running one by its own fill's end or refusal only, and with what that end publishes |
| FillSlots.FailureEndsIff | src/sparse_cache.rs:214-222 | In every run, a failed fill is given up in a step if and only if the link was lost and the step is the recovery of one of its readers with the session back; it is idle then |
| FillSlots.FailureStaysUnrecovered | src/sparse_cache.rs:176-183 | In every run, a failure that is not a lost link stays in every later state, and a lost link for as long as no reader recovers |
| FillSlots.CompletionStays | src/sparse_cache.rs:237-250 | In every run, a complete fill is complete in every later state |
| FillSlots.DownloadedOnce | src/fs.rs:948-999 | In every run, once a fill has the slot no other fill of that cache ever gets it, unless a reader recovers |
| FillSlots.PollAnswers | src/sparse_cache.rs:260-283 | What a reader that wakes up is told: its bytes as soon as all are there, whatever became of the fill; nothing while it runs; else the failure, or a recovery if the link was lost and it has a retry left |
| FillSlots.FetchPopulates | src/sparse_cache.rs:293-295 | A chunk that a ranged read stores inside the object populates exactly its range |
| FillSlots.StopIsHonoured | src/sparse_cache.rs:349-356 | In every run, with a stop asked for and no chunk awaited, none is awaited in any later state |
| FillSlots.ChunkIsTheLast | src/sparse_cache.rs:349-356 | After a chunk has been taken none is awaited, so that a fill asked to stop takes one more at most |
| FillTheorems.CachesTellTheTruth | src/sparse_cache.rs:175-283 | In every reachable state: populated bytes are the device's, a complete cache serves every request (so "completed without the requested range" never happens), the slot has one owner at most, and a reader sleeps only while an owner is there |
| FillTheorems.ReadersGetDeviceBytes | src/sparse_cache.rs:260-283 | A poll that yields data yields exactly the device slice clipped to the object |
| FillTheorems.EveryReplyIsDeviceBytes | src/fs.rs:1390-1511 | Every data reply of every run, ranged or sequential, was the device slice |
| FillTheorems.CachesOnlyGrow | src/sparse_cache.rs:225-257 | From any state to any later one a cache keeps its bytes, its object and its stop request |
| FillTheorems.NoReadCacheLeaks | src/fs.rs:353-365 | Every cache kept has an open handle or a filler still to clean up; with neither there is none |
| FillTheorems.TeardownLeavesNothing | src/fill.rs:75-94 | If no cache is registered while still listed, then once teardown has answered true no transfer is open and none is ever opened again |
| FillTheorems.TeardownAsksEveryFill | src/fill.rs:75-94 | In every run, every fill listed when teardown begins has been asked to stop in every later state |
| FillTheorems.TeardownAsksEveryTransfer | src/fill.rs:75-94 | If no cache is registered while still listed, that is every fill between `register` and `finished` |
| FillTheorems.ReRegisteredFillEscapes | src/fill.rs:58-63 | A cache registered while still listed loses its entry when the older fill reports in, its transfer still open |
| FillTheorems.RegisterSafeIffNotListed | src/fill.rs:48-63 | A registration keeps every transfer in teardown's sight if and only if its cache is not listed yet |
| FillTheorems.TeardownMissesRestartedFill | src/fill.rs:75-94 | If the re-registered cache is the only one listed, some continuation ends in a true answer with the transfer open |
| FillHazards.RestartIsARun | src/fs.rs:1390-1433 | One read over one lost link reaches a state in which a second fill of a still listed cache is about to register |
| FillHazards.TeardownCanMissATransfer | src/fill.rs:58-94 | A run from the empty mount in which teardown answers true over an open transfer |
| CacheHazards.RunningCacheLeavesIff | src/fs.rs:353-365 | Of all steps of readers, fillers, kernel, device and teardown, exactly two take a cache with a running fill out of the map: a report that its file changed, and a cleanup for its file with no handle open |
| CacheHazards.RunningCacheStaysIff | src/fs.rs:991-997 | In every run, over any stretch through which the cache is being filled, reads of the file still join it at the end if and only if none of those steps came in between |
| CacheHazards.CleanerIsAnother | src/fs.rs:991-997 | The fill that cleans up is never the one that a cache is being filled by; that one goes on |
| CacheHazards.OlderCleanupAbandonsFill | src/fs.rs:991-997 | Closing the last handle while an older fill of the file has yet to clean up ends with the newer transfer running and its cache gone, against the intent at src/fs.rs:344-352 |
| CacheHazards.RunningFillCanBeAbandoned | src/fs.rs:1104-1128 | A run from the empty mount that ends so |
| InodeTables.InodeTable.constructor | src/inode.rs:74-95 | A table with only the root, its own parent |
| InodeTables.InodeTable.BumpGeneration | src/inode.rs:101-103 | Only the generation moves on |
| InodeTables.InodeTable.IsFresh | src/inode.rs:108-118 | The root and storages always, objects exactly in their own generation |
| InodeTables.InodeTable.SetHandle | src/inode.rs:121-132 | Files and directories get the handle and the current generation; nothing else changes |
| InodeTables.InodeTable.SetStorageId | src/inode.rs:135-141 | Only a storage entry is re-pointed |
| InodeTables.InodeTable.AllocInode | src/inode.rs:143-147 | The next number is handed out and used up |
| InodeTables.InodeTable.EvictName | src/inode.rs:152-158 | Whoever else holds the name is removed |
| InodeTables.InodeTable.Insert | src/inode.rs:160-170 | The whole new table, the holder of the name evicted first |
| InodeTables.InodeTable.AddStorageAt | src/inode.rs:179-191 | The whole new table, and the number handed out |
| InodeTables.InodeTable.AddObject | src/inode.rs:194-219 | The whole new table, and the number handed out |
| InodeTables.InodeTable.Find | src/inode.rs:306-310 | Lookup is what the name index holds |
| InodeTables.InodeTable.ListChildren | src/inode.rs:313-318 | The children are the listed ones, in order |
| InodeTables.InodeTable.Remove | src/inode.rs:321-330 | The whole new table: the entry, its name and its place in its parent's list go, its descendants stay |
| InodeTables.InodeTable.Rename | src/inode.rs:335-362 | The whole new table, all three indexes |
| InodeTables.InodeTable.SyncChildren | src/inode.rs:230-293 | Two loops, reports in order and then removals, equal the specification whose meaning SyncReplacesDirectory gives |
| InodeTables.InodeTable.SyncChild | src/inode.rs:233-277 | One report: update in place if the kind agrees, else replace or add |
| InodeTables.InodeTable.FilterGone | src/inode.rs:279-288 | Exactly the listed children whose name was not reported, in order |
| InodeTables.InodeTable.PointFileAt | src/fs.rs:842-847 | The entry is re-pointed and renamed in place, and no index follows |
| DirectoryNames.RemovedLookup | src/inode.rs:321-330 | A removal takes one entry and one name away and nothing else, in every directory whose names agree with its entries |
| InodeInvariants.AdditionReplacesHolder | src/inode.rs:194-219 | In a directory whose names agree: the new entry takes the name, its holder is gone, all other entries and names stay |
| InodeInvariants.RenameMovesOneEntry | src/inode.rs:335-362 | Into a directory whose names agree: the entry changes its place only and is found there, the new name's holder is gone, all other entries and names stay |
| DirectoryNames.RenamedDir | src/inode.rs:335-362 | A rename keeps the names of every directory in agreement that were so |
| InodeInvariants.MoveKeepsAcyclic | fuzz/fuzz_targets/fuzz_inode_table.rs:86-94 | Re-hanging an entry under a place not at or below it makes no cycle |
| TableRuns.OpKeepsTree | src/inode.rs:98-362 | Every table operation, and the in-place write of an unfinished flush, keeps chains finite, child lists in agreement with parents and storages below the root, and only numbers never handed out before appear |
| TableRuns.RunKeepsTree | src/fs.rs:811-872 | The same in every table of every run, in-place writes included |
| TableRuns.OpKeepsDirIff | src/inode.rs:98-362 | An operation, the in-place write among them, keeps the names of a directory in agreement with its entries if and only if it is not an in-place write that renames one of these entries |
| TableRuns.RunKeepsDir | src/inode.rs:98-362 | So in every run they agree for every directory none of whose files was left under another name |
| TreeInvariants.RenamedTree | src/inode.rs:335-362 | A rename that the mount (files and directories only, src/fs.rs:1849-1856) and the kernel allow keeps the tree and the lists, whatever the name index holds |
| TreeInvariants.SyncedTree | src/inode.rs:230-293 | So does a listing |
| TreeInvariants.OverwrittenTree | src/fs.rs:842-847 | So does the in-place write |
| TableRuns.ListsAgree | fuzz/fuzz_targets/fuzz_inode_table.rs:167-194 | In every table of every run: a listed child is live and names that parent, it is listed once, and a live parent lists all its entries |
| TableRuns.NamesAgree | fuzz/fuzz_targets/fuzz_inode_table.rs:167-194 | In every table of every run, for every directory none of whose files was left under another name: an entry is the one at its name, and a name leads to a live entry of that place, never to the root |
| TableRuns.NumbersNeverReused | src/inode.rs:143-147 | A removed number is never an inode again in any continuation of any run |
| TableRuns.WalksEnd | src/fs.rs:396-408 | From any number in any table of any run the walk up ends, at the root or at a removed parent |
| DirectoryNames.OverwriteKeepsDirIff | src/fs.rs:842-847 | Writing the name in place keeps a directory's names in agreement if and only if the entry hangs elsewhere or the name does not change |
| DirectoryNames.OverwriteKeepsIffSameName | src/fs.rs:842-847 | It keeps all indexes in agreement if and only if the name does not change |
| Listings.SyncReplacesDirectory | src/inode.rs:230-293 | Of every directory whose own names agree: its names become exactly the reported ones, each with the last report's kind, handle, size and mtime, fresh and listed; a number is kept exactly if every report under the name has the old kind; nothing outside the directory changes |
| Listings.OneReport | src/inode.rs:233-277 | One report moves its own name on, keeping the number exactly if the kind agrees, and leaves every other name as it was |
| Listings.ListedNamesDiffer | src/inode.rs:313-318 | No two listed children share a name |
| Listings.OverwrittenNameListsTwice | src/fs.rs:842-847 | After an unfinished flush every listing that reports the temporary name (and no directory under the old one) shows it twice; if it reports the old name too, the first of the two entries gets the old object's handle |
| Listings.RemovalLeavesDeadNameIffOverwritten | src/fs.rs:1191-1194 | After the in-place write and a removal every name leads to a live entry if and only if the name was not changed |
| Listings.MoveLeavesStrayNameIffOverwritten | src/fs.rs:842-847 | After the in-place write and a move every name leads to an entry of its place if and only if the name was not changed or the move is back to the old place; else the old name leads to the moved file |
| Listings.StrayNameHitsElsewhere | src/inode.rs:152-158 | A creation under such a name evicts the file in the other directory, a report re-points it, and the directory stays without the name |
| PathResolution.ResolveIsTheWalk | src/fs.rs:592-617 | Where names are unique, resolution is the object reached by walking the names from the storage root |
| PathResolution.FindNamedUnique | src/fs.rs:611-614 | Taking the first match finds an object if and only if it bears the name, names being unique |
| PathResolution.FindNamedIsFirst | src/fs.rs:611-614 | What is found under a name is the first object reported under it, and nothing exactly if there is none |
| TableRuns.BumpMakesAllStale | src/inode.rs:98-118 | In every table of every run no stamp is ahead of the session, so a bump makes every file's and directory's handle stale |
| PathResolution.SessionsStartRight | src/fs.rs:467-471 | Right after the bump of any run, unfinished flushes included, no wrong handle counts as current, whatever tree the device now has |
| PathResolution.ResolvedStaysRight | src/fs.rs:615-616 | Setting a stale handle to what its path leads to keeps all current handles right |
| PathResolution.PlaceUnique | src/fs.rs:574-590 | An inode hangs at one depth below one top |
| PathResolution.Resolver.FindStorageIndex | src/fs.rs:396-408 | The walk up ends and answers the position of the storage the inode hangs below, exactly if there is one among the storages |
| PathResolution.Resolver.CollectChain | src/fs.rs:574-590 | The chain from just below the top to the inode, found exactly if there is one |
| PathResolution.Resolver.EnsureFresh | src/fs.rs:569-620 | No number, name, parent or index changes, what was fresh stays, every fresh handle is the object its path leads to, and success makes the inode fresh; a fresh one needs no call; for a stale one the first listing that fails is the last, and its error the answer; with none failing it succeeds exactly if the path leads somewhere, and else nothing is found |
| PathResolution.Resolver.Descend | src/fs.rs:592-619 | The walk down, listing wherever a handle is stale, to the same answers |
| PathResolution.Resolver.ResolveOne | src/fs.rs:593-617 | One link: its own handle if fresh, without a call, else the one a listing of the place above has under its name; the answer is where the path leads, or the listing's error, or that it leads nowhere |
| PathResolution.Resolver.FileHandle | src/fs.rs:623-629 | The handle of a file, resolved in the current generation, whenever it is one and its handle is known or its path leads somewhere, unless a listing fails, whose error it is then |
| PathResolution.Resolver.ObjectHandle | src/fs.rs:632-638 | The handle of a file or directory likewise |
| PathResolution.Resolver.ParentHandle | src/fs.rs:642-649 | No handle for a storage root, else the directory's, likewise |
| DirectoryLoading.ListingRightIffAgreed | src/fs.rs:671-697 | Reconciling a directory with a listing of itself keeps every fresh handle the object its path leads to if and only if under each name the first report has the handle of the last |
| DirectoryLoading.UniqueNamesAgree | src/fs.rs:611-614 | That is so where no name is reported twice |
| DirectoryLoading.ListIntoTable | src/fs.rs:671-697 | The tree stays walkable and no directory's names come out of agreement; failure leaves the tree's shape alone and fresh handles right, and is the first failing call's, or that the directory is not to be found; success makes the names of a directory whose own names agreed exactly those reported where its path leads, each entry with the size, time, kind and handle of the last report of its name, under the old number if the kind is the old one, with fresh handles right exactly under the condition above |
| DirectoryLoading.ReplacedNames | src/fs.rs:671-697 | The names under a listed directory are exactly those the device reported |
| DirectoryLoading.ReplacedShows | src/fs.rs:682-695 | Under each of them the entry has the last report's size, modification time and handle, as a directory exactly if that was a folder |
| DirectoryLoading.Locate | src/fs.rs:672-674 | The storage and place where a directory's path ends, with the first failing call's error or none to be found otherwise |
| DirectoryChanges.PathInjective | src/fs.rs:592-617 | With every handle in one place, two paths never lead to the same object |
| DirectoryChanges.PlaceInjective | src/inode.rs:160-167 | Where no directory of the table has a name twice and storage IDs are unique, no two inodes have the same path |
| DirectoryChanges.RightIffChangedIs | src/fs.rs:569-620 | After a change of table and device under which every walk that does not end at one inode goes on as before, all fresh handles are right if and only if that inode's is |
| DirectoryChanges.CreationRightIff | src/fs.rs:1617-1638 | After `create` or `mkdir`, wherever the device lists the new object, every fresh handle is right if and only if no other object of that name is listed before it |
| DirectoryChanges.DeletionKeepsRight | src/fs.rs:1744-1755 | After `unlink` or `rmdir` every fresh handle is right |
| DirectoryChanges.RelocationRightIff | src/fs.rs:1863-1899 | After a rename, a move or both, every fresh handle, those below the moved directory included, is right if and only if the new directory is in the object's storage and no other object of the new name is listed before it |
| DirectoryChanges.FailedOperationLeavesWrongHandle | src/fs.rs:1863-1895 | A deletion or renaming carried out while the table is left as it was leaves a fresh handle that is wrong |
| DirectoryFlushes.SwappedIs | src/fs.rs:826-864 | Upload, deletion and renaming come to the new object in place of the old one, whatever the order of listing |
| DirectoryFlushes.OverwriteRightIff | src/fs.rs:866-870 | An entry re-pointed at another object of its directory leaves every fresh handle right if and only if a walk finds that object under the name written |
| DirectoryFlushes.FlushRightIff | src/fs.rs:811-872 | After a flush that went through every fresh handle is right if and only if no other object of the file's name is listed before the new version |
| DirectoryFlushes.UnfinishedFlushRightIff | src/fs.rs:837-864 | After a flush that stopped at the deletion or the renaming, if and only if no other object of the temporary name is listed before the new version |
| DirectoryFlushes.CreationShows | src/fs.rs:826-835 | A listing that shows exactly a directory's objects still does after the upload's creation, in both views of the device |
| DirectoryFlushes.DeletionShows | src/fs.rs:837-849 | And after a deletion |
| DirectoryFlushes.RenamingShows | src/fs.rs:851-864 | And after a renaming, wherever the object is listed then |
| DirectoryFlushes.FlushedHandleRightIff | src/fs.rs:866-870 | The handle that a flush leaves in the table is where its path leads if and only if the new version still goes by it and has the name on the device that it has in the table |
| DirectoryOperations.FindDirectory | src/fs.rs:1618-1620 | The storage and location that a directory's path leads to, with the table kept but for re-resolved handles |
| DirectoryOperations.MakeObject | src/fs.rs:1612-1638 | Failure changes nothing but re-resolved handles, and comes only of a parent that is not a directory, or cannot be found, or of a failing call; success adds the object to the device and its entry, empty, of its kind and with its handle, to the table, with handles right exactly under the condition above |
| DirectoryOperations.FindObject | src/fs.rs:1792-1795 | The handle for a deletion is fresh and of an object that the device has, and is found whenever the path leads to an object of the kind asked for and no call fails |
| DirectoryOperations.DeleteByHandle | src/fs.rs:1748 | Exactly the one object of that handle is taken away |
| DirectoryOperations.DeleteObject | src/fs.rs:1731-1755 | Failure changes nothing but re-resolved handles, says that there is no entry exactly if the name leads to none, and does not come where the object can be found and no call fails; success takes the object that the name leads to and its entry away; and fresh handles are right either way |
| SessionRuns.StepKeepsOrder | src/fs.rs:467-620 | New sessions, resolutions, listings, creations, deletions, renames, moves, and flushes that finish or stop half-way keep the tree walkable, siblings' names different, the device's names and handles unique, and every fresh handle right |
| SessionRuns.CurrentHandlesAreRight | src/fs.rs:569-649 | In every state of every run of sessions, unfinished flushes included, a handle that counts as current is that of the object which the path of its inode leads to, and of no other inode |
| DirectoryPaging.Readdir | src/fs.rs:1238-1271 | A reply is the stretch of the entries from the offset on, as long as there is room |
| DirectoryPaging.OffsetsAgree | src/fs.rs:1247-1262 | With the child lists in agreement no child is skipped, so each offset is the position after its entry |
| DirectoryPaging.PagingIsLossless | src/fs.rs:1238-1271 | In every table of every run, any capacities of at least one entry yield ".", ".." with the parent's number, and each child once, in order, with its name, its number, the offset after it and whether it is a directory |
| Recovery.SuccessIsTheLastAttempt | src/fs.rs:422-456 | In every lawful trace success is the last attempt's, a stale handle is followed by re-resolution only, and a plain error ends the operation at once |
| Mounts.Mount.WithRecovery | src/fs.rs:422-456 | Trace law for every outcome sequence: at most 6 attempts and 3 reconnects, a reconnect exactly after a lost link, one re-resolution a session, rising generations, at most three windows of sleep; each event is what the world had at its moment, and the storages in use afterwards are those of the last reconnect; a flush under it is settled, and has replaced the original if nothing got in its way, or one outage only; and of the table only the flushed entry, storage IDs, the generation and stale handles with their stamps change: names, parents, sizes, lists and indexes of all other entries stay |
| Mounts.Mount.OneRound | src/fs.rs:429-456 | One session's tries and the reconnect after them keep the law's count, and a reconnect that comes gives the next round what it needs |
| Mounts.Mount.NextRound | src/fs.rs:429-456 | And what was to be hoped for at the start still is, or has come about |
| Mounts.Mount.LinkIsLost | src/fs.rs:453 | A lost link is answered by exactly one reconnect |
| Mounts.Mount.InOneSession | src/fs.rs:431-452 | One session's tries stay within its stale-handle budget and answer or lose the link |
| Mounts.Mount.OneTurn | src/fs.rs:431-452 | One turn of the loop is made another only of a stale handle, once a session |
| Mounts.Mount.TryOnce | src/fs.rs:431-436 | A try is made only with the device plugged in; its trace, and what it leaves of the table |
| Mounts.Mount.InvalidateHandles | src/fs.rs:467-471 | Only the generation moves on, and every directory but the root is to be listed again |
| Mounts.Mount.Reconnect | src/fs.rs:475-515 | The first look at which the device can be reopened is the one that brings it back, after exactly the pauses of the schedule up to then; its storages are the ones in use from then on, each storage inode stands for the storage of its name, else of its place, else for what it stood for, every directory but the root is to be listed again, and the generation is exactly the next; the mount is given up exactly if no look of the whole schedule was such, and then nothing has changed |
| Mounts.Mount.WaitAndProbe | src/fs.rs:489-511 | The loop over the schedule: one look after each pause, up to the first that finds the device back |
| Mounts.Mount.Probe | src/fs.rs:491-510 | One look: it takes over exactly what it found, if it found the device back |
| Mounts.AdoptionFollows | src/fs.rs:522-546 | Taking over a list of storages makes each storage inode stand for its namesake in it, else for the one in its place |
| Mounts.Mount.ReconnectDuring | src/fs.rs:453 | A reconnect, with all that is said of it, does nothing to the operation under way |
| Mounts.Mount.Adopt | src/fs.rs:522-556 | Storages re-pointed and the new list kept, generation moved on, all listings dropped |
| Mounts.RemappingKeepsTree | src/fs.rs:522-556 | Re-pointing changes storage IDs and nothing else |
| Mounts.RemappingMatches | src/fs.rs:522-556 | Each storage gets its namesake's ID, else that of the storage in its position, else keeps its own |
| Devices.TempNameDiffers | src/fs.rs:182-184 | The temporary name is never the real one |
| Devices.PurgeSparesOriginalIff | src/fs.rs:918-938 | What a retry clears spares the original if and only if the original goes by another name or is elsewhere, as it is wherever it has the name that the table has |
| Devices.WorldKeepsGuard | src/fs.rs:811-872 | Nothing the world may do takes a pinned version away |
| Devices.DeletionKeeps | src/fs.rs:837-849 | Deleting one object leaves every version that does not rest on it |
| Devices.RenamingKeeps | src/fs.rs:851-864 | Giving the new version its real name leaves it the new version |
| Mounts.Mount.Upload | src/fs.rs:826-835 | Success means an object of its own with exactly all spooled bytes, and comes whenever the world keeps still and the spool can be read; failure may leave anything under the temporary name but never touches the original |
| Mounts.Mount.BeginUpload | src/fs.rs:826-835 | The new object is one that nobody had before, empty, under the temporary name, and the original is untouched even if the call fails |
| Mounts.Mount.SendChunks | src/fs.rs:826-835 | Success means all chunks, in order; any failure leaves the original untouched |
| Mounts.Mount.SendChunk | src/fs.rs:826-835 | Success appends exactly the chunk to the object being filled |
| Mounts.Mount.Delete | src/fs.rs:837-849 | Hits only the object the handle was given out for, if at all, notes it, and says so only if it is gone; it does so whenever the handle denotes it and the world keeps still |
| Mounts.Mount.RenameNew | src/fs.rs:851-864 | The new version stays whole whether or not the call goes through, a reported success has the real name, and it comes whenever the handle denotes the object and the world keeps still |
| Mounts.Mount.ListLeftovers | src/fs.rs:925-933 | Whatever goes by the temporary name is not the original |
| Mounts.Mount.PurgeLeftovers | src/fs.rs:918-938 | The purge never hits the original, whatever fails; if nothing gets in the way it deletes all that goes by the temporary name, whoever put it there, and touches nothing else |
| Mounts.Mount.TakeAway | src/fs.rs:837-849 | A deletion that takes effect takes that object and notes it |
| Mounts.Mount.ReplaceOriginal | src/fs.rs:826-864 | The three calls: only the upload's failure is an error, and then the original is untouched; otherwise the new version is whole and its handle known. With the world still, the spool readable and the old handle alive it succeeds, the old object is gone, the new one has the real name, and nothing else on the device has changed |
| Mounts.Mount.SwapIn | src/fs.rs:837-864 | The last two of them: whenever both handles are alive and the world keeps still, the old object goes and the new one gets the real name, and the device is otherwise the same |
| Mounts.Mount.FlushSafe | src/fs.rs:811-872 | An error means the original is untouched and so is the table; success means the new version is whole and the fresh entry carries its handle and size, under the real name with the old object gone, or under the temporary name; it is the former whenever nothing disturbs the deletion and the renaming; no other entry changes and nothing is deleted but what the handle was given out for |
| Mounts.Mount.FlushResolved | src/fs.rs:768-790 | The purge of a retry, then the replacement: an error leaves the table, success changes the file's entry only; and with nothing in the way the original is replaced, with only leftovers, on a retry, changed besides |
| Mounts.Mount.FlushOnce | src/fs.rs:746-803 | One attempt keeps one version or the other whole throughout; an error leaves the original, and of the table all but stale handles, which resolution may have set; success makes the entry fresh with the new version's handle; only what resolution aimed at and leftovers are deleted; and an attempt that nothing hinders, on handles that resolution gets right, succeeds |
| Mounts.Mount.SetResolved | src/inode.rs:121-132 | Whatever a walk has resolved, only stale handles and their stamps are written |
| Mounts.Mount.EnsureFresh | src/fs.rs:569-620 | A fresh inode needs nothing; for a stale one the walk may set any stale handles on its way, and success makes it fresh |
| Mounts.Mount.FileHandle | src/fs.rs:623-629 | Success means the file's entry is fresh and holds the handle answered |
| Mounts.Mount.ParentHandle | src/fs.rs:642-649 | The directory is resolved likewise, and the file's fresh entry is left alone |
| Mounts.Mount.ResolveFile | src/fs.rs:755-763 | The handles a flush works with: the file's is in its fresh entry, the device has given it out, and it is noted; stale handles and stamps are all that changes in the table |
| Mounts.FlushKeepsIffSameName | src/fs.rs:811-872 | What a flush may do to the table keeps the tree walkable, and the names of a directory in agreement if and only if the file is in another one or still goes by its name |
| Mounts.Mount.AttemptFlush | src/fs.rs:732-737 | One try: a link lost at its first call leaves the device as it was; a try after the first that nothing hinders deletes all that goes by the temporary name |
| Mounts.Mount.OpenSpool | src/fs.rs:733-735 | Only an attempt that gets a view of the spool file counts as one |
| Mounts.Mount.FlushToMtp | src/fs.rs:709-738 | For every pattern of failures, link losses, stale handles and retries, and whatever name the original has on the device but the temporary one: every device state holds the original or the complete new bytes; an error means the original was never deleted, success that the new bytes are there and a fresh entry carries their object's handle; our calls delete nothing but objects that the handles resolved in this flush were given out for and what went by the temporary name, nothing old of the latter if none of it goes by that name at the start and is given it, and all of it after one outage; of other table entries only stale handles, stamps and storage IDs change; a flush that nothing disturbs answers Ok with the original gone, the new version in its place under its name in table and device, and every other object as it was, leftovers too; one that only one outage disturbs does the same but for leftovers; and a directory's names stay in agreement exactly if the file is in another one or kept its name |
| Spool.FileBuffer.WriteAt | src/buffer.rs:52-75 | The file after a write, zero-filled holes included; negative and overflowing writes are refused and change nothing |
| Spool.FileBuffer.ReadAt | src/buffer.rs:79-91 | What a reader gets is the slice that is there |
| Spool.SpoolHoldsLastWrites | src/buffer.rs:52-95 | After any writes the spool is as long as the furthest reached and holds at each offset the byte written last, zero where none was |
| Spool.DisjointWritesCommute | src/buffer.rs:52-75 | Writes to disjoint places can be swapped |
| Spool.WriteBuffer.Open | src/buffer.rs:129-138 | A first opening gives the handle an empty clean buffer for that inode; opening again keeps what is spooled |
| Spool.WriteBuffer.WriteTo | src/buffer.rs:141-147 | A write reaches its own handle's spool and no other |
| Spool.WriteBuffer.ReadFrom | src/buffer.rs:150-156 | A read sees its own handle's spool, or says there is none |
| Spool.WriteBuffer.Close | src/buffer.rs:164-166 | The handle's buffer is handed over and the others stay |
| Spool.FileStream | src/fs.rs:213-232 | Under any short reads the chunks are non-empty, at most 64 KiB and concatenate to the file; an error ends the stream |
| Spool.WritesThenUpload | src/fs.rs:709-738 | The declared size is how far the writes reached, and what is sent is at each offset the byte written there last |
| Backoffs.Backoff.Next | src/reconnect.rs:80-88 | Yields the schedule's next delay and takes it off the window |
| Backoffs.ScheduleIsExact | src/reconnect.rs:59-89 | A schedule is capped exponential pauses, the last clipped, that add up to exactly the window, if and only if it is this one; all are positive and at most 2 s, and all but the last are 250 ms doubled each time up to that |
| Backoffs.WindowUseUnique | src/reconnect.rs:59-89 | Two such schedules of one window are equal |
| Backoffs.DisabledNeverPauses | src/reconnect.rs:40-49 | The schedule is empty if and only if reconnecting is disabled, which zero seconds do and no other number; otherwise it takes 1000 ms a second |
| Backoffs.PartOfWindow | src/reconnect.rs:59-89 | The first pauses of a schedule take no more than the window, and all of them take all of it |
| Sizes.ParserIsExact | src/size.rs:10-45 | Every text is empty, without a number in front, or a typed size that the parser values as it should |
| Sizes.AcceptedIffItFits | src/size.rs:10-45 | A count with a known suffix, any case and blanks, is accepted if and only if the product fits 64 bits, and then means that product |
| Sizes.KnownSuffixes | src/size.rs:26-37 | The sixteen suffixes that are known, and what each multiplies by, in figures |
| Sizes.RefusedIff | src/size.rs:26-44 | Which typed sizes are refused and why: an unknown suffix before a number past 64 bits before a product past 64 bits |
| Sizes.LowerIs | src/size.rs:26 | Capital letters, and nothing else, count as small ones |
| Sizes.DigitsCountByPlace | src/size.rs:39-41 | A digit counts for ten to the number of digits after it |
| Sizes.FourGigabytes | src/size.rs:12 | "4G" is 4294967296 |
| Sizes.HalfAGigabyte | src/size.rs:12 | "512MiB" is 536870912 |
| Sizes.BareNumber | src/size.rs:12 | "1048576" is that many bytes |
| Sizes.LargestExactUnit | src/size.rs:48-61 | The printer takes the largest unit that divides the count |
| Sizes.PrintedInFigures | src/size.rs:48-61 | What is printed, for every count, with the four units in figures |
| Sizes.ValueOfPrint | src/size.rs:48-61 | Decimal digits printed denote the number printed |
| Sizes.RoundTrip | src/size.rs:10-61 | Parsing what was printed gives the count back, for every u64 |

## Left out

- Mounts.Mount.FlushToMtp: only devices that support rename; without it the code deletes first and uploads then, and documents that data can be lost there. Other programs do not change or delete the original, the object being uploaded, or the finished new version during the flush; everything else on the device may change at any time. That a device never gives a handle out again for another object, in this session or a later one, is an assumption of the model (the owner map in Device.dfy), and so is that the handle in the table was once given out by it: one that was not could be given to any object later. An original that itself goes by the temporary name in the target directory is left out, since the retry's purge is there to delete what does. That the flush must go through is stated for a device that keeps still while it runs, or after one outage at the first upload; while something else changes on the device the promise is safety.
- Mounts.Mount.FlushOnce: what resolution returns is left to the oracle, so that the flush's safety does not rest on it being right; that it is right is stated by Resolver.EnsureFresh and, over whole sessions, by CurrentHandlesAreRight. The target directory is the one the flush was begun with throughout, which does rest on the resolution of the parent.
- Mounts.Mount.EnsureFresh: one answer of the world stands for the listings of a walk; which stale handles it sets on the way is the world's choice.
- Mounts.Mount.WithRecovery: a plain operation's own effects are the oracle's, but for the stale handles that it resolves. The flush is the one recovered operation whose inside is modelled under recovery; creation and deletion are modelled as one attempt in a session.
- Mounts.Mount.InOneSession: it, OneRound, NextRound, LinkIsLost, OneTurn, TryOnce, LookAndTry and ReconnectDuring are parts of `with_recovery`'s loops, cut out as methods, as are WaitAndProbe, NextPause, Probe and TakeOver of `reconnect`'s; AttemptFlush, FlushJob, FlushResolved, ReplaceOriginal, SwapIn, ResolveFile, SendChunk, PurgeOne and TakeAway are parts of the flush likewise, FillTurn, PullAndStore, OthersTurn, StopTransfer and EndTransfer of the filler's loop, AskOnce of the ranged read's, Locate and AskForListing of a listing, MakeThere and DeleteThere of creation and deletion.
- PathResolution.Resolver.EnsureFresh: the device's tree is fixed during one walk.
- SessionRuns.CurrentHandlesAreRight: within a session nobody but the mount changes the directories; with a new session the device may have become anything in which each handle is in one place and no directory has a name twice. The steps are those that go through, under names that are free on the device; what other names and failing calls do is stated by CreationRightIff, RelocationRightIff and FailedOperationLeavesWrongHandle. Nothing is listed, created in or moved into a directory in which an unfinished flush has left a file under another name, since OverwrittenNameListsTwice and MoveLeavesStrayNameIffOverwritten show what becomes of that.
- DirectoryChanges.RelocationRightIff: `rename` is modelled on values, its renaming and its move as one change; between the two the table has a wrong handle, under which resolving the new directory is not modelled. What was in a deleted directory stays listed where no walk ends.
- DirectoryOperations.MakeObject: in a directory in which an unfinished flush left a file under another name nothing is promised of creation; a call that fails is taken not to have been carried out, the opposite being FailedOperationLeavesWrongHandle. The handle that `create` then opens for writing is WriteBuffer.Open's.
- DirectoryFlushes.UnfinishedFlushRightIff: the table has no other file of the temporary name in that directory.
- DirectoryLoading.ListIntoTable: the directory is not the root (the mount never lists the root this way). Of a directory in which an unfinished flush left a file under another name only the tree's soundness is promised, since OverwrittenNameListsTwice shows a wrong handle there.
- FillProtocol.StepKeeps: total size and content of an object are those the cache was made for; the ranged path's chunks come one step at a time without the bookkeeping that Read proves.
- SparseCaches.SharedSparseCache.PollOnce: condition variables, timeouts and the order in which waiters wake. `SharedSparseCache::write_at` does not notify, so a waiter is only ever promised wake-ups by the filler's steps.
- InodeTables.InodeTable.AllocInode: inode numbers and generations are unbounded; wrap-around after 2^64 of them is not modelled.
- InodeTables.InodeTable.Find: `find_parent_by_handle` and the plain getters.
- RangedReads.Read: the cursor is unbounded, so its theoretical overflow past 2^64 after an over-long answer is not modelled.
- Spool.FileStream: an error the operating system reports for seeking or cloning the spool file is one failing attempt, not a call of its own.
- Truncation in `setattr`, partial overwrites of existing files, and which of several open handles `getattr` takes its size from.
- `read_strategy`, `statfs`, attribute and date conversion, mount options and FUSE reply plumbing: thin mappings.
- Supervisor, dry run, unmounting, USB watch, signals, hints, command line, paths and spool directories: mostly I/O.
- mtp-rs, tokio, fuser and tempfile internals, real clocks and sleeping: oracles, byte sequences and durations stand for them.
