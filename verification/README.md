# Verified model of the import-size daemon

The daemon measures how many bytes an import adds to a bundle, and keeps the measurements in a
two-layer cache. This project models the parts of it whose correctness is hardest to see by reading
one function: the cache and the protocols around it, the concurrency building blocks under the
bundler, and a few self-contained algorithms.

| file | what it models |
|---|---|
| `Disk.dfy` | one shard's rows, its `(last_seq, key)` index and its running totals, kept in step by every transaction; the row codec |
| `DiskCache.dfy` | the shard object: queued inserts tagged with a clear generation, flush, removal, invalidation, clear, reads, bounded index reads |
| `Recency.dfy` | the process-wide recency counter |
| `Fingerprints.dfy` | freshness of dependency fingerprints and consistency of the snapshots one analysis saw |
| `MemoryCache.dfy`, `ImportCache.dfy` | the memory layer over a shard: lookups, inserts, promotion, the memory caps, flush, invalidation, eviction, clear |
| `ClearProtocol.dfy` | clears racing any number of writers, readers and flushers |
| `FreshnessWindow.dfy` | how long the fast path may trust an entry while time passes, files change and generations are bumped |
| `Budget.dfy` | the byte budget across shards, well behaved or not |
| `Flights.dfy` | single-flight analysis with leaders that may panic |
| `Lanes.dfy` | bounded job lanes |
| `Admission.dfy` | build admission over two semaphores |
| `Ledger.dfy` | the aggregate source-byte reservations of one build |
| `Drain.dfy` | the shared-cursor drain, its ordered and its classified form |
| `Calendar.dfy` | day number to date, for log timestamps |
| `Glob.dfy` | the memoised ignore-rule matcher |
| `Positions.dfy` | line and UTF-16 positions |
| `Common.dfy`, `Orders.dfy`, `Sums.dfy` | options, total orders and sorting, finite sums |

How to read it. An object that the program updates in place is a class whose methods are proved against
its old state; `Valid()` is the invariant every method keeps. A protocol between threads is a state, a
set of actions (each one lock-protected section or atomic update), an invariant kept by every action,
and theorems over every finite run of actions, so over every interleaving. Whether a transaction
commits, whether an enqueue succeeds, which runnable worker moves next and what the file system
answers are arbitrary; ghost counters of failed enqueues (`Refusals`) and failed transactions (`Aborts`)
let a contract say exactly what holds when nothing failed. The 64-bit recency counter wraps as in the
code: that both layers hold the same measurements never depends on it, and whether recency is in order
(`InOrder`) is a property of its own. `dafny verify dfyconfig.toml` checks the whole project.

## Where the code and its comments part

- A snapshot conflict. The comment on the conflict check says no single on-disk state can validate
  conflicting observations. That is not so: a touched file with unchanged content gives two conflicting
  observations that one state validates (`Fingerprints.ConflictThatValidates`). `SetValidatableExactly`
  gives the exact condition for any set of observations, path by path: all absent; or none absent and, for a
  first-party path, one hash and one hashless metadata; or, for an installed path, some metadata of a real
  file such that every observation with other metadata is hashed, all with one hash. Pairs do not decide it
  (`PairsDoNotDecide`). The check itself is right: it reports a conflict exactly when no assignment of
  snapshots explains the observations.
- The memory cap. An evicted entry normally comes back with its promoted recency, because the promotion
  is persisted first. When that write cannot be queued the entry is dropped all the same, its disk row stays
  as it was, and only its recency since the last persist is lost. `EnforceMemoryCap` returns exactly the keys
  whose write failed (`lost`); `RecencySurvivesExactly` says when the recency survives, and
  `PromotionCanBeLost` is a state where it does not.
- Recency draws. The comments call draws strictly increasing and the next draw greater than any observed
  sequence. Draws of a run strictly increase exactly when none but the last finds the counter at its top
  (`Recency.DrawsIncreaseExactly`; `RoomyDrawsIncrease` is what a caller can check beforehand), and the next
  draw exceeds an observed sequence exactly when that is not itself the top (`Observe`). In the cache, a promotion in
  memory keeps recency in order exactly when the counter is not below the entry's own row (`Promote`, `ReadMemory`), and
  no other operation can break it (`RunOperations`, over whole runs). `RunWithRoom` is the check beforehand: recency
  in order, every entry used before now, everything stored below a bound that the counter has not passed, and room for
  a draw per operation. `TopRowLosesTheOrder` loses
  the order with one stored row whose eight prefix bytes are all ones. That the layers agree on the measurement holds always.
- Clearing. A thread that captured its generation before a clear can never undo the clear (`ClearIsSafe`). Bytes
  from before a clear can still pass it, tagged as current, in three ways, each shown by a run: an analysis that
  began before the clear and captures only when it stores its result (`LaunderingAnalysis`), which is the order
  the service works in; a reader that captures after the bump and copies a row before the tables are wiped
  (`LaunderingReader`); and a flush that snapshots a promoted or dirty entry still awaiting its rollback
  (`LaunderingSnapshot`). `RunLaunders` proves these are the only ways, and
  `GuardedClearLeavesNothingOlder` that a clear is complete along every run whose steps pass three checks a
  caller can make: no clear began since the analysis did; the wipe of the captured generation has committed
  before a row is copied; its sweep has ended, and the entry's own thread has rechecked, before an entry is. The
  check on rows refuses nothing it need not as long as every wipe commits (`RowGuardIsExact`).
- The fast path. An entry is called verified under a generation within the window, but a stamp is two stores and a look at
  it two loads. When re-checks of one entry race, an answer can rest on two checks: its generation half on one begun
  since the last bump, its time half on one that ended in the window (`FastPathIsSafe`). `RacedStamps` is a run with an
  answer although no check that ended in it is both, 40 seconds after the file changed. One of the two is both exactly when
  the other numbers of their stamps say so (`OwnCheckIsBoth`), and always if stamps and looks on one entry exclude each
  other (`ExclusiveAnswersNeedOneCheck`).
- Disclosed assets. A second read of an unmeasured asset overwrites the length the build reports but gives back its
  own bytes, not the difference. So the build reports each path's last length and is charged its first
  (`FirstAndLast`), and after any run the counter agrees with the reported lengths if and only if those two sums
  are equal, in particular when no path was read with two lengths (`DisclosedExactly`).
  `GrownDuplicateDrifts` is a run where they differ. The counter itself never leaks (`NothingLeaks`).

## Model

| member | source | states |
|---|---|---|
| Disk.EncodeRowRoundTrip | daemon/src/cache/disk.rs:1498-1527 | a stored row gives back its recency sequence and its envelope |
| Disk.PrefixIsLittleEndian | daemon/src/cache/disk.rs:1507-1527 | a stored row is eight bytes of sequence, the lowest first, and then the envelope |
| Disk.ShortRowsAreOldest | daemon/src/cache/disk.rs:1495-1505 | a row too short for the prefix has no envelope and counts as the oldest |
| Disk.AscendingMeans | daemon/src/cache/disk.rs:39-39 | the index order is by sequence, equal sequences by ascending key, no row twice |
| Orders.StrLeIsLexicographic | daemon/src/cache/disk.rs:1491-1493 | keys compare at the first character that differs; a proper prefix comes first |
| Disk.RebuildSummary | daemon/src/cache/disk.rs:1444-1487 | from any drifted index and totals, the rebuild makes the index exactly the `(seq, key)` pairs, the totals exact and `max_seq` the maximum |
| Disk.FoldInserts | daemon/src/cache/disk.rs:1281-1321 | a batch, whatever the tables held, replaces each superseded row's index entry by its own and moves the totals by exactly the rows' change |
| Disk.WritePendingInserts | daemon/src/cache/disk.rs:1265-1330 | a batch with replacements keeps rows, index and totals consistent; a byte total that would go negative ends in a consistent rebuild instead |
| Disk.FoldRemovals | daemon/src/cache/disk.rs:1397-1428 | repeated and absent keys are counted once and not at all |
| Disk.MaintainRemovals | daemon/src/cache/disk.rs:1397-1439 | removals keep the tables consistent, report exactly the bytes by which the rows shrank, and rebuild when a total would go negative |
| Disk.WriteSummary | daemon/src/cache/disk.rs:1368-1391 | nothing is written when a delta would make a total negative |
| DiskCaches.WalkRecent | daemon/src/cache/disk.rs:529-566 | the bounded backward walk returns as many keys as there are rows, up to `limit`: those of distinct rows, sequences never increasing along the list, equal sequences by ascending key, and no row left out that is newer than a listed one, or as new with a smaller key |
| DiskCaches.TakenRowsAreEnough | daemon/src/cache/disk.rs:541-560 | stopping at a change of sequence after `limit` rows loses nothing of the sorted prefix |
| DiskCaches.ReadOldest | daemon/src/cache/disk.rs:662-697 | the ascending read returns a prefix of the index, as long as the rows beyond the `floor` newest and `n` allow, no shorter |
| DiskCaches.FlushQueue | daemon/src/cache/disk.rs:418-473 | a flush commits what carries the current generation, drops the rest, re-queues what failed to commit, and no read can tell |
| DiskCaches.DiskCache.WriteAtGeneration | daemon/src/cache/disk.rs:378-416 | a current write is at once what reads find; of a stale-tagged one no read finds anything, at most the row already committed, and no other key changes |
| DiskCaches.DiskCache.InsertAtGeneration | daemon/src/cache/disk.rs:338-361 | the durability gate refuses quietly: no error, no effect |
| DiskCaches.DiskCache.FlushPendingInserts | daemon/src/cache/disk.rs:418-473 | reads are unchanged, tables stay consistent, only current-generation rows stay queued |
| DiskCaches.DiskCache.RemoveKeys | daemon/src/cache/disk.rs:702-741 | the keys leave the queue and, unless the transaction aborts, the table; the bytes reported are exactly those durably freed; other keys read as before |
| DiskCaches.DiskCache.Invalidate | daemon/src/cache/disk.rs:745-793 | matching keys leave the queue and, unless the transaction aborts, the table; other keys read as before |
| DiskCaches.DiskCache.Clear | daemon/src/cache/disk.rs:904-938 | the generation moves, the queue is empty, a committed wipe leaves consistent empty tables |
| DiskCaches.DiskCache.GetEntry | daemon/src/cache/disk.rs:246-326 | a read returns what is stored, its queued form first, exactly when there is a row, it decodes, is durable, and no input is missing or changed or some input could not be probed; then the verdict is Unknown exactly when one could not; a row it does not return is evicted unless the transaction aborts |
| DiskCaches.DiskCache.RecentKeys | daemon/src/cache/disk.rs:518-566 | the preload list is the newest keys of the shard, in the same order as `WalkRecent`, after a flush no read can tell |
| DiskCaches.DiskCache.ShardRollup | daemon/src/cache/disk.rs:573-626 | bytes and count are those of the rows, the oldest sequence is the minimum, and the clock moves past every stored sequence |
| DiskCaches.DiskCache.LowestSeqKeys | daemon/src/cache/disk.rs:654-698 | the constant-time count makes the bounded read the oldest rows beyond the `floor` newest: all of them or `n`, whichever is fewer |
| DiskCaches.FirstIsOldest | daemon/src/cache/disk.rs:599-618 | the first index entry is the smallest stored sequence |
| Recency.RecencyClock.NextSeq | daemon/src/cache/recency.rs:19-21 | each draw is the counter, which moves by one and wraps at the top |
| Recency.RecencyClock.Observe | daemon/src/cache/recency.rs:27-30 | the clock never goes back, and its next draw exceeds the observed sequence exactly when that is not the top of the counter |
| Recency.DrawsIncreaseExactly | daemon/src/cache/recency.rs:17-30 | draws of a run, with observations in between, strictly increase exactly when none but the last finds the counter at its top |
| Recency.RoomyDrawsIncrease | daemon/src/cache/recency.rs:17-30 | they do whenever everything observed is below a bound the counter has not passed and the draws fit above it |
| Recency.WrapAround | daemon/src/cache/recency.rs:19-30 | observing the top of the counter once makes the draw after next start over at 0 |
| Fingerprints.CheckFingerprintsStrict | daemon/src/cache/key.rs:378-395 | the early-exit fold is the maximum under Fresh < Stale < Gone < Unknown, and Fresh for no inputs |
| Fingerprints.VerdictsMean | daemon/src/cache/key.rs:314-376 | for every stored input and probe, exactly which answers of stat and read give each verdict: a failed one that was needed Unknown, a missing path expected to be there Gone, other bytes or unhashed other metadata or a path expected absent Stale, anything else Fresh |
| Fingerprints.WorstMeans | daemon/src/cache/key.rs:374-395 | a failed probe of any input outweighs everything, a missing input a changed one |
| Fingerprints.ContainsMeans | daemon/src/cache/key.rs:369-371 | a path counts as installed exactly when `/node_modules/` occurs somewhere in it |
| Fingerprints.SentinelsProbeAsDocumented | daemon/src/cache/key.rs:438-469 | an absent input is Fresh exactly while the path is missing; an unobserved one never on a real file |
| Fingerprints.FingerprintsHaveConflictingSnapshots | daemon/src/cache/key.rs:255-281 | the one-pass check reports a conflict exactly when no (len, mtime, hash) per path explains every observation |
| Fingerprints.FingerprintsAreReusable | daemon/src/cache/key.rs:473-479 | reusable exactly when consistent and no input went unread |
| Fingerprints.SortAndDedupMembers | daemon/src/cache/key.rs:238-247 | canonicalizing keeps the set of observations and orders it by path, length, time and hash, unhashed first, none twice |
| Fingerprints.SortAndDedupIsCanonical | daemon/src/cache/key.rs:238-247 | the canonical form depends only on the set, and is idempotent |
| Fingerprints.ConflictIgnoresOrder | daemon/src/cache/key.rs:238-281 | the verdict ignores order, repetition and canonicalizing |
| Fingerprints.SetByPaths | daemon/src/cache/key.rs:378-395 | one on-disk state probes a whole set Fresh exactly when each path has a state that does |
| Fingerprints.FirstPartyValidatable | daemon/src/cache/key.rs:249-281 | exactly when one state of a first-party file validates all its observations: the known hashes agree, and so does the metadata of the hashless ones |
| Fingerprints.InstalledValidatable | daemon/src/cache/key.rs:249-281 | exactly when one state of an installed file does: all observations with other metadata than some real file's carry one hash |
| Fingerprints.SetValidatableExactly | daemon/src/cache/key.rs:249-281 | exactly which sets of observations some on-disk state validates, absences included |
| Fingerprints.PairsDoNotDecide | daemon/src/cache/key.rs:249-281 | three observations any two of which one state validates, and no state all three |
| Fingerprints.ConflictThatValidates | daemon/src/cache/key.rs:249-254 | a concrete reported conflict that one state validates |
| MemoryCache.FilterEvictable | daemon/src/cache/memory.rs:854-869 | up to `n` candidates in order, none used since its row was written; every candidate before the last of them, or every one if fewer came back, is among them or was used since |
| MemoryCache.NarrowWindowSuffices | daemon/src/cache/memory.rs:829-850 | when the narrow window fills the batch or exhausts the region, the wide one would give the same batch |
| MemoryCache.StampLasts | daemon/src/cache/memory.rs:103-120 | a stamp holds for its own generation, for the 30 seconds after it was made and no longer |
| ImportCaches.ImportCache.InsertIntoMemoryGuarded | daemon/src/cache/memory.rs:701-723 | a superseded insert is skipped; one that finds the generation moved after it landed is rolled back, its own entry only; any other lands |
| ImportCaches.ImportCache.RemoveFromMemoryIfCurrent | daemon/src/cache/memory.rs:739-749 | only the entry with this identity is removed |
| ImportCaches.ImportCache.EvictIfCurrent | daemon/src/cache/memory.rs:729-733 | a verdict about a replaced entry removes nothing from either layer |
| ImportCaches.ImportCache.PersistAndDrop | daemon/src/cache/memory.rs:617-637 | a dropped entry stays readable from disk as the same measurement, at its promoted recency if the write succeeded, and its row is untouched if not |
| ImportCaches.ImportCache.EnforceMemoryCap | daemon/src/cache/memory.rs:583-639 | over a cap, the least recently used clean entries go, equal ones by ascending key, until both low marks are met and not one further; dirty ones never; each re-hydrates, and the keys returned are exactly those whose write failed |
| ImportCaches.ImportCache.WeightCountsRows | daemon/src/cache/memory.rs:31-39 | a working set weighs 256 bytes for each entry and for each of its graph rows |
| ImportCaches.ImportCache.CapsInRows | daemon/src/cache/memory.rs:583-620 | the caps are exceeded at more than 4096 entries or 524288 entries and rows together; the low marks are 3686 and 471859 |
| ImportCaches.RecencySurvivesExactly | daemon/src/cache/memory.rs:617-637 | a dropped entry's promoted recency survives exactly when its write did not fail or the disk already held it |
| ImportCaches.PromotionCanBeLost | daemon/src/cache/memory.rs:617-637 | a failed write loses a promotion |
| ImportCaches.ImportCache.InsertWithFingerprintsAtGeneration | daemon/src/cache/memory.rs:517-573 | a durable insert is held by memory or disk at the counter's next draw, stamped with the generation its analysis started under; a failed enqueue marks it dirty; a refused one changes nothing |
| ImportCaches.ImportCache.Promote | daemon/src/cache/memory.rs:340-345 | a promotion keeps recency in order exactly when the counter is not below the entry's own row |
| ImportCaches.FastPathMeans | daemon/src/cache/memory.rs:347-358 | only an installed entry, stamped under the current generation less than 30 seconds ago, is served without a probe, and only to a caller that does not insist |
| ImportCaches.ImportCache.ReadMemory | daemon/src/cache/memory.rs:338-384 | a memory read answers nothing exactly when it is off the fast path, every input could be probed, and one is missing or, unless stale answers are wanted, changed; the entry stays exactly when it answers, so an I/O error never evicts; the whole new working set; the fast path never restamps, only an all-Fresh check stamps; recency stays in order exactly when the read does not serve a late promotion |
| ImportCaches.ImportCache.ReadDisk | daemon/src/cache/memory.rs:389-415 | it answers nothing exactly when there is no row, one it must evict, or one whose inputs a caller that insists cannot have verified; only a row it must evict goes; else hydration brings the stored measurement into memory under the caps, verified only if every input probed Fresh, promoted at a draw no older than its row, so recency stays in order |
| ImportCaches.ImportCache.Lookup | daemon/src/cache/memory.rs:331-415 | memory first, then disk: exactly when each answers nothing, in terms of which inputs could not be probed, are missing or changed; an entry in memory stays exactly when it is served; a row on disk goes only if it must be evicted; other keys are left alone |
| ImportCaches.ImportCache.Read | daemon/src/cache/memory.rs:288-305 | a force-fresh read returns a value only when every input of it probed unchanged in that call; a read returns nothing exactly when its layer has nothing usable or, for a caller that insists, nothing verifiable |
| ImportCaches.ImportCache.InvalidatePackages | daemon/src/cache/memory.rs:644-660 | no matching key stays in memory, or on disk unless its transaction aborts, and both layers still agree |
| ImportCaches.ImportCache.EvictKeys | daemon/src/cache/memory.rs:873-880 | the keys leave both layers, the disk unless its transaction aborts, and the freed bytes are the disk's |
| ImportCaches.ImportCache.Clear | daemon/src/cache/memory.rs:681-692 | memory and the dirty set are empty, the queue too, the tables if the wipe commits |
| ImportCaches.ImportCache.LowestSeqDiskKeys | daemon/src/cache/memory.rs:829-869 | no victim was used since its row was written and none is among the `floor` newest rows; of a batch the search covers, every searched row before the last victim, or every searched row if fewer than `n` came back, is a victim or was used since, and victims come in index order |
| ImportCaches.ImportCache.FlushToDisk | daemon/src/cache/memory.rs:891-966 | fails exactly when an enqueue did, and then those replays stay dirty; on success nothing is dirty or promoted and the disk holds every entry at its own recency |
| ImportCaches.RunOperations | daemon/src/cache/memory.rs:331-966 | after any sequence of operations, evictions of any keys included, every clean entry is readable from disk as the same measurement and the tables are consistent; each step of the returned trace is the whole effect of its operation; from a cache in order, recency is in order at every moment exactly when no read promoted an entry with the counter below its row |
| ImportCaches.RunWithRoom | daemon/src/cache/memory.rs:331-966 | it is, at every moment, when at the start it is, every entry was used before now, everything stored is below a bound the counter has not passed, and the bound plus the number of operations fits in 64 bits |
| ImportCaches.TopRowLosesTheOrder | daemon/src/cache/memory.rs:338-413 | two promoting reads of one row stored at the top of the counter lose the order, not the measurement |
| ClearProtocol.RunKeepsInv | daemon/src/cache/disk.rs:378-490 | the protocol invariant holds in every reachable state |
| ClearProtocol.ClearIsSafe | daemon/src/cache/disk.rs:904-938 | after a clear's wipe no read finds bytes of a thread that captured before it; after its memory sweep only a thread still to recheck has an entry |
| ClearProtocol.StaleInsertRollsBack | daemon/src/cache/memory.rs:701-723 | that thread's recheck fails and its rollback takes that entry, no other |
| ClearProtocol.QueuedIsFound | daemon/src/cache/disk.rs:378-473 | bytes queued under the current generation stay, through any flushes, committed or not, until a clear, an eviction of the key or another write to it, and between flushes a reader finds those very bytes |
| ClearProtocol.InsertedIsKept | daemon/src/cache/memory.rs:701-749 | an entry put into memory under an unmoved generation survives its own recheck and every other thread's rollback, until a clear, an eviction of the key or another insert of it |
| ClearProtocol.RunLaunders | daemon/src/cache/disk.rs:378-490 | a run never stores older bytes under a newer generation exactly when every result stored, row copied and entry copied in it is as new as the generation its thread captured |
| ClearProtocol.GuardedIsSound | daemon/src/cache/memory.rs:517-573 | the checks a caller can make before storing a result, copying a row or copying an entry suffice for that step |
| ClearProtocol.RowGuardIsExact | daemon/src/cache/memory.rs:389-399 | in runs whose wipes all commit and that launder nothing, the check before copying a row passes exactly when the copy is sound |
| ClearProtocol.GuardedClearLeavesNothingOlder | daemon/src/cache/disk.rs:904-938 | along runs of checked steps nothing whose computing began before a clear is readable after it, on disk or, once threads still to recheck have, in memory |
| ClearProtocol.QuietReadsAreGuarded | daemon/src/cache/memory.rs:389-399 | a reader that captured outside a bump-to-wipe window passes the check for copying a row for good |
| ClearProtocol.LaunderingAnalysis | daemon/src/service.rs:2322-2352 | a run in which an analysis begun before a clear captures after it and stores its bytes as current in both layers |
| ClearProtocol.LaunderingReader | daemon/src/cache/memory.rs:389-413 | a run in which a reader inside the window carries old bytes past the clear |
| ClearProtocol.LaunderingSnapshot | daemon/src/cache/memory.rs:891-951 | a run in which a snapshot of an entry awaiting rollback does |
| FreshnessWindow.FastPathIsSafe | daemon/src/cache/memory.rs:93-120 | whatever interleaving of stores and loads, a fast-path answer's generation half is of a check of its inputs that ended in the run and began since the last bump, its time half of one that ended under 30 seconds ago |
| FreshnessWindow.LogIsTheEnds | daemon/src/cache/memory.rs:346-384 | the checks these refer to are exactly the checks and analyses that ended in the run, in order |
| FreshnessWindow.RacedStamps | daemon/src/cache/memory.rs:103-120 | a run in which two re-checks race and the fast path answers, although no check that ended is both recent and begun since the bump and the file changed 40 seconds ago |
| FreshnessWindow.OwnCheckIsBoth | daemon/src/cache/memory.rs:103-120 | one of an answer's two checks is both exactly when the first also ended in the window or the second also began under the loaded generation |
| FreshnessWindow.ExclusiveAnswersNeedOneCheck | daemon/src/cache/memory.rs:103-120 | when stamps and looks on an entry exclude each other, both halves of every answer are of one check, begun since the bump and ended in the window |
| FreshnessWindow.ConfirmationMeans | daemon/src/cache/key.rs:329-395 | exactly what a Fresh probe says: still missing; or the hashed bytes; or, where the file is installed or was not hashed, the recorded length and time |
| FreshnessWindow.OnlyConfirmationOpensTheWindow | daemon/src/cache/memory.rs:351-384 | only a finished analysis or disk read begun under the current generation, or a store of a re-check's stamp, makes an entry fast; a hit never does |
| FreshnessWindow.WindowCloses | daemon/src/cache/memory.rs:112-120 | without a new confirmation an entry stops being fast after 30 seconds, however often hit, and at once on a bump |
| FreshnessWindow.WindowLasts | daemon/src/cache/memory.rs:103-120 | an installed entry published under the generation its analysis or disk read began in is fast until 30 seconds have passed and no longer, as long as nothing bumps the generation or touches the entry |
| FreshnessWindow.EndPublishes | daemon/src/service.rs:2313-2356 | an analysis, and any caller that joined its flight, publishes the result as checked under the generation captured before it read anything |
| Budget.BatchKeepsFloor | daemon/src/cache/budget.rs:3-8 | removing victims leaves a shard's newest 128 rows as they were |
| Budget.VictimsBelowFloor | daemon/src/cache/memory.rs:829-869 | a victim batch has at most `n` keys, none among the protected newest |
| Budget.NoVictims | daemon/src/cache/budget.rs:142-147 | a shard has no victims exactly when it holds at most 128 rows or each of its oldest rows beyond the 128 newest, as far as the search scans, is of a key used since |
| Budget.FirstPositionsAreFirst | daemon/src/cache/budget.rs:96-104 | of shards sharing an id exactly the first takes part |
| Budget.PickVictim | daemon/src/cache/budget.rs:122-140 | the victim is an unretired shard above its floor whose oldest entry is globally oldest, if there is one |
| Budget.BudgetCoordinator.ReadRollups | daemon/src/cache/budget.rs:106-110 | the total is the bytes of the deduplicated shards when they report honestly |
| Budget.BudgetCoordinator.EvictBatch | daemon/src/cache/budget.rs:148-161 | one batch's bytes are booked exactly, floors hold, and a batch that frees nothing retires its shard |
| Budget.BudgetCoordinator.Deduplicate | daemon/src/cache/budget.rs:96-104 | later shards repeating an id are dropped |
| Budget.OnlyBatchesEvict | daemon/src/cache/budget.rs:119-162 | along a chain of batches nothing leaves an honest shard but by a batch that named it |
| Budget.BudgetCoordinator.Evict | daemon/src/cache/budget.rs:90-166 | ends for any shard behaviour; its batches form a chain from the first state of the shards to the last, each changing only its victim, passing over nobody but for cause and asking no shard that freed nothing again; honest shards keep their newest 128; with all honest, evicted bytes equal the drop, every batch acts on the true total above the mark, comes from the shard that stores the globally oldest sequence of those left, takes the oldest keys of its search that are not in use, up to 128, a batch frees exactly its rows unless its transaction aborts, and ending above the target means every shard is at its floor, has each key its search covers in use, or retired by a batch that freed nothing |
| Flights.SingleFlight | daemon/src/analysis_flight.rs:23-46 | in every run one compute per key and generation at a time, each caller computes at most once and returns a value computed for its own key and generation |
| Flights.JoinersGetLiveFlights | daemon/src/analysis_flight.rs:23-64 | in every run a claim leads a new flight or joins one that is open or holds a result, and a follower woken empty gets another flight when it claims again, whatever happened in between |
| Flights.FollowersShare | daemon/src/analysis_flight.rs:23-46 | a follower of a flight that holds a result never computes: it waits or has returned what that flight's leader computed, in every run |
| Flights.NoDeadlock | daemon/src/analysis_flight.rs:101-129 | some caller can move until all have ended, and then the map is empty |
| Flights.StepsMakeProgress | daemon/src/analysis_flight.rs:139-166 | every step of every schedule lowers one measure |
| Flights.EveryCallEnds | daemon/src/analysis_flight.rs:23-46 | runs are bounded by the number of callers; a run that cannot go on has brought every caller home |
| Flights.AnalysisFlightRegistry.ClaimFlight | daemon/src/analysis_flight.rs:48-64 | a new leader is the key's only one; anyone else joins its flight |
| Flights.AnalysisFlightRegistry.PublishResult | daemon/src/analysis_flight.rs:113-121 | every waiting follower can wake with the result |
| Flights.AnalysisFlightRegistry.RemoveCurrentFlight | daemon/src/analysis_flight.rs:145-154 | the leader's flight leaves the map |
| Flights.AnalysisFlightRegistry.CloseWithoutResult | daemon/src/analysis_flight.rs:123-129 | followers of a dead leader wake and claim again |
| Lanes.LaneIsSafe | daemon/src/lanes.rs:43-77 | jobs in progress and live runners never pass the limit, `running` counts the live runners and is at least the smaller of the limit and the jobs waiting or in progress, jobs start in spawn order, a queued job has a live runner |
| Lanes.StepsMakeProgress | daemon/src/lanes.rs:59-77 | without new jobs every step brings the lane nearer to idle |
| Lanes.IdleMeansDone | daemon/src/lanes.rs:59-77 | an idle lane has ended every job once and no other, by its return or by a panic that was caught, however many threads were refused |
| Lanes.Lane.SpawnJob | daemon/src/lanes.rs:43-56 | the job is queued, a runner is counted exactly when one is to be started, and then `running` is at least the smaller of the limit and the jobs waiting or in progress |
| Lanes.Lane.NextJob | daemon/src/lanes.rs:61-71 | a runner takes the oldest job or, with none, leaves the count |
| Lanes.Lane.Drain | daemon/src/lanes.rs:59-77 | a lone runner ends everything queued, in order, and leaves |
| Admission.AdmissionIsBounded | daemon/src/engine/boundary.rs:52-64 | at most P builds in flight; at most P-1 background builds hold or queue for an engine permit |
| Admission.NobodyOvertakes | daemon/src/engine/boundary.rs:179-204 | a queued build's place never gets worse, and each grant moves it up |
| Admission.AdmittedInTurn | daemon/src/engine/boundary.rs:179-204 | in every run a build at place n of the engine queue is admitted by grant n+1, after exactly those before it, at most P-1 of them background builds |
| Admission.EveryBuildEnds | daemon/src/engine/boundary.rs:179-211 | runs without submissions are bounded, and one that cannot go on has ended every build with every permit back |
| Admission.NoDeadlock | daemon/src/engine/boundary.rs:179-210 | until every build has ended some step other than a submission is possible |
| Admission.StepsMakeProgress | daemon/src/engine/boundary.rs:179-210 | every such step brings some build nearer to its end |
| Admission.EverythingReturned | daemon/src/engine/boundary.rs:111-149 | when all builds have ended, by value, panic or timeout, all permits are back and both counters are zero |
| Admission.EngineBoundary.AdmitNext | daemon/src/engine/boundary.rs:199-206 | the head of the queue is admitted and moves from waiting to in flight, within the bound |
| Admission.EngineBoundary.Leave | daemon/src/engine/boundary.rs:206-211 | however a build ends it returns exactly its permits and leaves the count |
| Ledger.SourceBytes.TryReserve | daemon/src/engine/plugin.rs:450-458 | all or nothing, within the limit |
| Ledger.SourceBytes.Release | daemon/src/engine/plugin.rs:460-466 | gives back what the caller reserved |
| Ledger.SourceBytes.Reconcile | daemon/src/engine/plugin.rs:468-484 | the reservation becomes exact, or stays as it was when growth does not fit |
| Ledger.ReleaseNeverUnderflows | daemon/src/engine/plugin.rs:460-466 | in every conserving state a load's reservation is in the counter |
| Ledger.RefusedOnlyWhenFull | daemon/src/engine/plugin.rs:446-458 | after any run a load, module or grown read is refused exactly when it is too large or does not fit beside what is really in use: no earlier refusal causes another |
| Ledger.EveryLoadEnds | daemon/src/engine/plugin.rs:836-1007 | loads take a bounded number of steps, and a run that cannot go on has ended them all |
| Ledger.NothingLeaks | daemon/src/engine/plugin.rs:836-1007 | never above the limit; after all loads the counter is the first-recorded lengths plus the parsed sources |
| Ledger.FirstCounts | daemon/src/engine/plugin.rs:309-332 | over any run a counted path is reported exactly when some load recorded it, at the first recorded length, never overwritten |
| Ledger.CountsAreBegun | daemon/src/engine/plugin.rs:446-458 | after any run the loads and the parsed sources are those the run admitted |
| Ledger.EveryReadIsReported | daemon/src/engine/plugin.rs:836-949 | in any run a load keeps its path and class, holds the length it asked for until its read settles, then the length that read found, and nothing at its end; and one that has ended failed to read, was refused, or has its path in the map reported for its class |
| Ledger.FirstAndLast | daemon/src/engine/plugin.rs:129-137 | over any run an unmeasured path is reported at its last recorded length and charged at its first |
| Ledger.DisclosedExactly | daemon/src/engine/plugin.rs:921-949 | after any run the counter agrees with the reported lengths if and only if the reported and the charged sums are equal, and it does when no path was recorded with two lengths |
| Ledger.DisclosureStep | daemon/src/engine/plugin.rs:129-137 | from a state in agreement a step keeps it exactly when no duplicate unmeasured read finds another length |
| Ledger.GrownDuplicateDrifts | daemon/src/engine/plugin.rs:921-949 | a run after which the reported and the charged length differ |
| Drain.DrainBounded | daemon/src/engine/scheduling.rs:26-70 | for every worker count and schedule each item runs exactly once and its slot is found full once; as many workers start as there are items, up to the limit, none for a lone item off the pool |
| Drain.DrainOrdered | daemon/src/engine/scheduling.rs:72-84 | re-sorting gives the plain in-order map |
| Drain.DrainClassified | daemon/src/engine/scheduling.rs:92-143 | each index gets its classified answer or its drained one, never both |
| Calendar.CivilFromDaysIsRight | daemon/src/logging.rs:90-102 | every integer day gives a valid Gregorian date whose counted day number is that day |
| Calendar.DateRoundTrip | daemon/src/logging.rs:90-102 | every valid date comes back from its day number |
| Calendar.ConsecutiveDays | daemon/src/logging.rs:90-102 | consecutive days give consecutive dates |
| Calendar.Epoch | daemon/src/logging.rs:90-102 | day 0 is 1 January 1970 |
| Calendar.MachineArithmeticSuffices | daemon/src/logging.rs:90-102 | every step of the 64-bit computation, the unsigned ones included, stays in range exactly for inputs up to one bound, where adding the day offset overflows |
| Glob.DerivesIsMeaning | daemon/src/document/ignore.rs:199-216 | the recursive rules decide exactly whether the value splits so that `**` takes any text, `*` any without a slash, other bytes themselves |
| Glob.GlobMatchesAt | daemon/src/document/ignore.rs:187-220 | every memo cell filled is the meaning of its suffixes, each computed once, none overwritten |
| Glob.GlobMatchesExact | daemon/src/document/ignore.rs:179-185 | the answer is the declared meaning, from at most one computed cell per pair of suffixes |
| Glob.GlobMatchesPath | daemon/src/document/ignore.rs:148-178 | a leading slash anchors to the base directory; any other pattern matches the path or what follows one of its slashes |
| Positions.BuildLineIndex | daemon/src/document/positions.rs:8-32 | the starts are strictly increasing and are exactly 0 and the end of each LF, CRLF or lone CR |
| Positions.LineStartIsBoundary | daemon/src/document/positions.rs:8-32 | a line starts on a character boundary |
| Positions.PositionOfBoundary | daemon/src/document/positions.rs:37-51 | the position is the last line start at or before the offset and the UTF-16 width in between |
| Positions.WidthsAreOfEncodings | daemon/src/document/positions.rs:43-50 | the bytes of a text spell it, each character in as few as hold it, and a UTF-16 width is the number of code units that spell the text with surrogate pairs |
| Positions.SentWhole | daemon/src/document/positions.rs:43-50 | line and column never exceed the text's length, and the 32 bits they are sent in cut nothing off exactly when both fit, so never below four gigabytes |
| Positions.PositionsIncrease | daemon/src/document/positions.rs:34-51 | positions strictly increase over character boundaries |
| Positions.PastTheEnd | daemon/src/document/positions.rs:38-38 | an offset past the end has the position of the end |
| Positions.ByteOffsetForUtf16 | daemon/src/document/script_regions.rs:327-338 | the first boundary with at least that many UTF-16 units before it, or the end |
| Positions.ColumnRoundTrip | daemon/src/document/script_regions.rs:327-338 | line start plus the column's byte offset is the offset |

## Left out

- Database, map, channel and runtime internals: transactions are all or nothing, per-key map steps are atomic, semaphores are first in, first out, and library sorting is a sort.
- Partial wipes: a clear's transaction empties all its tables or none of them.
- Opening, healing, reopening, compacting and preloading a shard, shedding an over-long insert queue, and orphan purges; the database is open throughout.
- The heal on open compares entry counts only; what is proved is that the rebuild repairs any state, not that the comparison notices every drift.
- Upper overflow of the 64-bit byte and key totals; only totals that would go negative trigger a rebuild.
- Racing promotions of one entry: recency and persisted markers move with each whole cache operation.
- Envelopes are opaque bytes with an arbitrary decoding and durability test; what is encoded is taken to decode.
- Graduation of repeated unknown verdicts, revalidation claims and log output.
- A probe sees one state of a file; its metadata and its bytes are not taken at two moments.
- Budget.BudgetCoordinator.Evict: an honest shard has no insert queue here, while the code's reports and victim lists first flush one, which can raise the total in the middle of a pass; the low-water mark is any value at most the budget, not the floating-point product.
- Ledger.RefusedOnlyWhenFull: leaves out the breach a refusal records, which fails the build, and the fingerprints of refused inputs.
- Ties in the budget's victim choice are not fixed to the first shard in order.
- Dropping a queued build before it is admitted, which only a runtime shutdown does.
- Content hashes are taken to be injective; path canonicalization, directory I/O and the network are parameters or absent.
- Bundler translation, request plumbing, manifests, HTML and package scanners, memory reclaim and all editor-side code.
