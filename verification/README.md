# Point Network node: a verified model of its stateful core

The node of Point Network keeps several small state machines behind its I/O: a cache of
scanned block ranges, progress counters that travel up a graph of files and directories, a
lazily loaded tree of encrypted objects, content-addressed storage with Merkle info chunks,
a chunk upload protocol, and a few codecs. This project models them in Dafny and proves what
they are for. Code that works in place is modelled by classes and loops whose contracts say
which transition of the value model they make; the properties are lemmas about the
transitions and about whole runs of them. Pure code is modelled by functions.

`dafny verify dfyconfig.toml` checks everything.

| File | Models |
|---|---|
| `EventCache.dfy`, `EventRuns.dfy`, `EventCacheNode.dfy` | the event-scan cache: gap filling, collapsing, local queries, the cursor walk |
| `Progress.dfy`, `ProgressBatch.dfy`, `ProgressTracker.dfy`, `ProgressRuns.dfy` | upload progress: the incremental caches, their invariant, recomputation from scratch, runs with failures |
| `HostStorage.dfy`, `HostStorageTree.dfy`, `HostStorageRuns.dfy`, `HostStorageTracker.dfy` | the encrypted host-storage tree: values, `set` against a nested map, reload and runs, tracker objects |
| `Executor.dfy` | the two hand-written sequential executors |
| `Merkle.dfy`, `FileStorage.dfy`, `Directory.dfy`, `RangeStream.dfy` | Merkle trees, files in chunks, directory trees and path lookup, streaming |
| `UploadProtocol.dfy`, `UploadRuns.dfy`, `UploadWorkers.dfy` | the chunk upload protocol as a step system, the runs it can make, and its code in place |
| `Envelope.dfy`, `EnvelopeChecks.dfy` | signed and encrypted envelopes, and what they accept |
| `CookieString.dfy`, `CookieLaws.dfy` | cookie strings, and what they are read as |
| `Common.dfy` | options, bytes, `Buffer.slice`, the states of a chunk |

Throughout, a hash is any function: results read "equal, or here are two inputs with the same
hash", or assume that no two stored items collide. Ciphers and signatures are any functions
with their inverse laws, JSON is any codec with its inverse law, the remote store only grows,
and what a database or the network answers is a parameter that the contracts constrain.

Where the code does not do what its comments or its design promise, the model follows the
code, a lemma gives an input that shows it, and a theorem gives the exact condition under
which the promise holds, or as much of it as holds for every hash:

- `findOne()` in the event cache carries no filter (`src/network/providers/ethereum.js:570`),
  though the comment above it and the `destroy` after it rely on a matching row.
  `CollapseSafeIff` says exactly which rows may be picked, and runs that pick only such rows
  are transparent (`CacheTransparency`); `PickedRowMustMatch` shows a query that loses an event.
- A query beyond the head records blocks that are not mined yet. `StaysFetchedIff`: whatever
  safe row is picked, the table stays true as the chain grows, if and only if the query ends
  at or below the head; `QueryMustNotPassHead` shows a later query that misses a log.
- The third clause of the range query was meant for a row that surrounds the query, but selects
  none that the first two do not (`MatchesIff`), so a query inside a scanned interval is fetched
  again (`SurroundedQueryIsFetchedAgain`).
- A file or directory that failed once stays failed (`FailedDirStaysFailed`), even when all its
  chunks are completed later (`CompletedAfterFailure`). `FileShowsBatchIff` and
  `DirShowsBatchIff` say exactly when the cached entry is what a recomputation from the chunk
  statuses gives.
- Of the values written to host storage an empty Buffer, `NaN`, infinities and -0 do not
  survive a reload (`EmptyBufferDoesNotSurvive`), and a write that names `__proto__` replaces
  the prototype of `items`: it answers without an error, the value is lost, and the object
  around it can no longer be read (`ProtoWriteIsLost`). If the lost value was an infinity, no
  write inside that object succeeds any more (`StrayNullFreezes`). `SetSurvivesReloadIff` and
  `ReadYourWriteIff` say that every other write to a stored object survives, and that these
  never do; `Settable` is exactly what a write needs to find.
- Two leaf lists with the same Merkle root can differ when the last hash is doubled
  (`DoubledLastHashSharesRoot`); `RootsAgreeIff` says exactly when roots agree, which answers
  the question in the file's todo comment.
- A file of one chunk that starts like an info chunk is read back as what it describes
  (`UploadedInfoChunkReadsAsItsFile`); every other file reads back as itself (`FileRoundTrip`).
- A range that starts inside a chunk loses bytes of its second chunk, because `slice` with a
  negative index counts from the end (`UnservableRange`; `FinishedStreamIsExact` has the exact
  condition).
- The comment on merging cookie strings rules out an alias beside routes; merging routes alone
  leaves an old alias in place (`RoutesAgainstAlias`; `MergeConflictsIff` has the exact
  condition).

## Model

| member | source | states |
|---|---|---|
| `EventRuns.CacheTransparency` | `src/network/providers/ethereum.js:582-620` | Over every sequence of chain growth and queries from an empty database, the next query is answered from the cache with exactly the logs the chain has of this event, between the two bounds in either order, that pass every filter key; `latest` is the head of the chain. Every row may be picked that matches its query or whose widened interval is claimed after the scan. |
| `EventRuns.DirectAnswerIs` | `src/network/providers/ethereum.js:597-620` | What a query asks for, in terms of the chain alone: a log of this contract and event that passes the filter, between the bounds, and with `latest` from the start on up to the head. |
| `EventRuns.LatestAnswer` | `src/network/providers/ethereum.js:597-600` | From a block at or below the head up to `latest`: every log of the event from there on that passes the filter. |
| `EventRuns.LatestIsTheHead` | `src/network/providers/ethereum.js:597-600` | Chain and cache answer `latest` as they answer the number of the head. |
| `EventRuns.ReachableTablesAreSound` | `src/network/providers/ethereum.js:469-580` | In every reachable state no scan row claims a block whose events were not fetched, and the event table holds only true logs under their own ids. |
| `EventRuns.NextKeepsSound` | `src/network/providers/ethereum.js:469-580` | Each step keeps the scan table sound: page inserts, id-keyed overwrites, widening, destruction of the other matching rows, and the growth of the chain. |
| `EventRuns.SoundTablesAnswerDirectly` | `src/db/models/event.js:60-73` | If the table is sound and a query's events are fetched, the local query and the chain query have the same answer. |
| `EventRuns.CollapseSafeIff` | `src/network/providers/ethereum.js:566-579` | The row `findOne()` picks leaves the table sound, whatever the chain holds and unless the code returns early, if and only if every block of the widened interval was already claimed for the contract of that row. |
| `EventRuns.UnclaimedBlockBreaksCollapse` | `src/network/providers/ethereum.js:566-579` | If one block of the widened interval is unclaimed, there is a chain for which the collapse makes the table lie. |
| `EventRuns.PickedRowMustMatch` | `src/network/providers/ethereum.js:566-579` | A concrete table and query where the unfiltered `findOne()` picks a row of the same contract outside the query; a later query fetches nothing and misses a log. |
| `EventRuns.QueryMustNotPassHead` | `src/network/providers/ethereum.js:479-608` | A concrete renewal of 0..25 with the head at 10: its only row is picked and kept; once block 20 is mined, the same query fetches no page and misses a log of that block. |
| `EventRuns.StaysFetchedIff` | `src/network/providers/ethereum.js:479-580` | For any sound table, any query and any answer of the range query: every good row `findOne()` may pick leaves a table whose rows stay fetched however the chain grows, if and only if the query ends at or below the head. |
| `EventRuns.GrowthKeepsSound` | `src/network/providers/ethereum.js:469-477` | New blocks never fall into an interval that was recorded before they were mined, if that ended at or below the head. |
| `EventRuns.WalkPartitions` | `src/api/controllers/ContractController.js:79-101` | Following `nextCursor` from any N >= 1 ends, its pages are disjoint and descending, every page but the last spans exactly the page size, and every block 0..N is on one of them; no cursor is 0. |
| `EventRuns.WalkShowsEachLogOnce` | `src/api/controllers/ContractController.js:79-101` | A client that follows the cursor sees every matching log up to block N, each on exactly one page. |
| `EventRuns.PagesAscend` | `src/api/controllers/ContractController.js:79-101` | Each page is asked for from its first block up to its last, with the filter of the request, so its logs come in ascending order. |
| `EventCache.GapFiller` | `src/network/providers/ethereum.js:531-564` | For any from-sorted, possibly overlapping ranges: the fetched pages and the ranges cover the query, the pages are pairwise disjoint, disjoint from every range, inside the query and at most a page long, everything up to `max_scanned` is covered, and `max_scanned` reaches the end of every range as far as the query does. |
| `EventCache.GapPagesFillTheGap` | `src/network/providers/ethereum.js:542-558` | The pages of one gap are in order, cover it exactly, none is longer than the page size, and all but the last are full. |
| `EventCache.ScanPageSound` | `src/network/providers/ethereum.js:428-477` | Scanning a page at or below the head keeps the table sound and leaves every event of the page stored. |
| `EventCache.ScannedFetchesQuery` | `src/network/providers/ethereum.js:495-564` | After the gaps of a query are filled, every log of the query and every log up to `max_scanned` is in the event table. |
| `EventCache.CollapseSound` | `src/network/providers/ethereum.js:566-579` | With a picked row that matches the query, or whose widened interval is claimed already, or that is right as it is, widening it and dropping the other matching rows claims nothing that was not fetched. |
| `EventCache.RenewSound` | `src/network/providers/ethereum.js:479-580` | A whole renewal from a sound table, with any good row picked, leaves a sound table in which every event of the query is fetched. |
| `EventCache.PagesAreRecorded` | `src/network/providers/ethereum.js:428-477` | Every page that was fetched has its row in the scan table, whatever was there before. |
| `EventCache.CollapseClaims` | `src/network/providers/ethereum.js:566-579` | After a collapse exactly these blocks are claimed: those of the picked row widened to the query, and those of every other row that does not begin or end inside the query. |
| `EventCache.NothingToCollapse` | `src/network/providers/ethereum.js:566-579` | Without a row, or with one that is right already, nothing is changed. |
| `EventCache.MatchesIff` | `src/network/providers/ethereum.js:495-519` | The where clause selects exactly the rows of the contract that begin or end inside the query. |
| `EventCache.SurroundedQueryIsFetchedAgain` | `src/network/providers/ethereum.js:495-564` | If all rows of a contract begin before the query and end behind it, none is found, and every block of the query is fetched again. |
| `EventCache.IdsTellLogsApart` | `src/network/providers/ethereum.js:444-446` | With a hash without collisions, and neither contract nor raw id holding an underscore, two logs have the same id exactly if contract, raw id and transaction are the same. |
| `EventCacheNode.Node.PerformScan` | `src/network/providers/ethereum.js:428-477` | The scanning loop stores exactly the logs the chain has in the interval, under their hashed ids, and records the interval. |
| `EventCacheNode.Node.FindRanges` | `src/network/providers/ethereum.js:495-529` | The ranges found are exactly the rows of the contract that the where clause selects, ascending by start. |
| `EventCacheNode.Node.FindOne` | `src/network/providers/ethereum.js:570-570` | Returns some row of the whole table, if there is any; nothing more is promised. |
| `EventCacheNode.Node.ScanGap` | `src/network/providers/ethereum.js:543-558` | The paging loop fetches exactly the pages of one gap, in order. |
| `EventCacheNode.Node.FillGaps` | `src/network/providers/ethereum.js:531-564` | The two nested loops fetch exactly the pages of the sweep, in its order, and compute its `max_scanned`. |
| `EventCacheNode.Node.CollapseRanges` | `src/network/providers/ethereum.js:566-579` | Widens one arbitrary row and destroys the other matching ones, or does nothing if that row is already right. |
| `EventCacheNode.Node.Renew` | `src/network/providers/ethereum.js:479-580` | A whole renewal, with bounds swapped if reversed, is one transition of the model for the answers the database gave. |
| `EventCacheNode.Node.FetchCachedEvents` | `src/db/models/event.js:49-90` | Lists the cached logs of the event in the range, each once, in ascending block order, descending if the range was reversed. |
| `EventCacheNode.Node.KeepMatching` | `src/network/providers/ethereum.js:613-616` | Keeps exactly the logs that pass one key of the filter, in their order and without repeating any. |
| `EventCacheNode.Node.ApplyFilter` | `src/network/providers/ethereum.js:612-617` | Keeps exactly the logs that pass every key of the filter, in their order. |
| `EventCacheNode.Node.GetPaginatedPastEvents` | `src/network/providers/ethereum.js:582-620` | Returns each cached log of the answer once, in block order, for any query; from a sound table, with a good picked row and a query that ends at or below the head, exactly the logs the chain has of the event between the bounds, `latest` being the head, that pass the filter, ascending, or descending if the range is reversed; and the table stays sound. |
| `ProgressBatch.LoadedDirShowsBatch` | `src/client/storage/progress.ts:232-368` | Between updates every loaded directory holds the flags, the total and (unless failed) the progress that a recomputation of everything below it gives, the failed files being those whose entries are failed. |
| `ProgressBatch.IncrementalEqualsBatch` | `src/client/storage/progress.ts:232-368` | A loaded directory below which no chunk was ever cached as FAILED is not failed, and holds exactly what a recomputation of everything below it gives that reads nothing but chunk statuses. |
| `ProgressBatch.DirShowsBatchIff` | `src/client/storage/progress.ts:232-368` | A loaded directory holds what the recomputation from the chunk statuses alone gives, if and only if it is not failed or some chunk below it is FAILED now. |
| `ProgressBatch.DirFailedByChunksBelow` | `src/client/storage/progress.ts:294-334` | A loaded directory is failed if some chunk below it is FAILED now, and only if some chunk below it was FAILED at some time. |
| `ProgressBatch.LoadedFileShowsBatch` | `src/client/storage/progress.ts:151-230` | Between updates every loaded file that is not failed holds what its chunks' statuses give. |
| `ProgressBatch.UnfailedFileIsRecomputed` | `src/client/storage/progress.ts:151-230` | A loaded file none of whose chunks was ever cached as FAILED is not failed, and holds what the statuses of its chunks alone give. |
| `ProgressBatch.FileShowsBatchIff` | `src/client/storage/progress.ts:178-221` | A loaded file holds what the statuses of its chunks alone give, if and only if it is not failed or one of its chunks is FAILED now. |
| `ProgressBatch.FileFailedByItsChunks` | `src/client/storage/progress.ts:195-204` | A loaded file is failed if one of its chunks is FAILED now, and only if one of its chunks was FAILED at some time. |
| `ProgressRuns.CompletedAfterFailure` | `src/client/storage/progress.ts:67-179` | A concrete run: a file of one chunk is loaded while the table says FAILED, then the chunk is completed. The entry says failed, and the recomputation from chunk statuses says uploaded. |
| `ProgressRuns.CompleteAfterFailure` | `src/client/storage/progress.ts:67-179` | The same from any consistent state and for any file: loaded while one of its chunks is FAILED in the table, it is still failed after that chunk was completed. |

| `ProgressRuns.FailedDirStaysFailed` | `src/client/storage/progress.ts:294-334` | Between two consistent states in which failed files stay failed, failed directories do. |
| `ProgressBatch.FailedIffSomeFileBelowFailed` | `src/client/storage/progress.ts:294-334` | A loaded directory is failed if and only if some file at any depth below it is failed. |
| `ProgressBatch.DirTelescopes` | `src/client/storage/progress.ts:284-357` | For a loaded directory that is not failed, progress times total chunks is exactly the number of completed leaf chunks with multiplicity at any depth, at most the total, and equals it with no empty file below if and only if the directory is marked uploaded. |
| `ProgressBatch.FileTelescopes` | `src/client/storage/progress.ts:195-221` | For a file that is not failed, progress times its chunks is exactly the number of completed chunks. |
| `ProgressBatch.ProgressNeverDecreases` | `src/client/storage/progress.ts:131-145` | Between two states in which completed chunks stay completed, a directory's total is the same and its progress stays in 0..1 and does not go down; without a chunk below it, its progress is constant, 1 if there is no file below it and 0 otherwise. |
| `ProgressBatch.NoChunksNoProgress` | `src/client/storage/progress.ts:336-357` | A directory without chunks shows all or nothing, by its uploaded flag. |
| `ProgressBatch.LeavesMonotone` | `src/client/storage/progress.ts:284-327` | Completing more chunks never lowers the number of completed leaves below a directory, and never changes the total. |
| `Progress.ChunkCompletedKeepsInv` | `src/client/storage/progress.ts:67-93` | After a chunk is marked completed only the registered parents of it can be out of date. |
| `Progress.FileComputedKeepsInv` | `src/client/storage/progress.ts:181-229` | Recomputing a file makes it fresh, and only its registered parent directories can become stale, and only if the `updated` gate lets the change through. |
| `Progress.DirComputedKeepsInv` | `src/client/storage/progress.ts:278-366` | Recomputing a directory makes it fresh, and only its registered parents can become stale, and only if the gate lets the change through. |
| `Progress.GrowthKeepsInv` | `src/client/storage/progress.ts:160-176` | Loading entries, statuses and registrations leaves everything that was fresh fresh. |
| `Progress.RecomputedFileIsFresh` | `src/client/storage/progress.ts:195-221` | What the file computation leaves agrees with the chunk statuses: it is failed exactly if it was before or one of its chunks is FAILED, and then its progress stands still. |
| `Progress.TallyMeaning` | `src/client/storage/progress.ts:284-327` | The directory loop's failed and uploaded counters say whether some child is failed and whether all are uploaded. |
| `Progress.SumSizesLaws` | `src/client/storage/progress.ts:250-250` | The size of a directory is the sum over its rows: nothing for none, the size of one, and the sum of both for two lists put together. |
| `Progress.CountIsNumber` | `src/client/storage/progress.ts:181-193` | The count of a status is the number of places in the chunk list that have it. |
| `Progress.EntriesListRows` | `src/client/storage/progress.ts:160-276` | A loaded file lists its filemap rows, a loaded directory its dirmap rows in order, with kinds, children loaded, and the sum of their sizes. |
| `Progress.FailedDirStandsStill` | `src/client/storage/progress.ts:329-334` | While a directory is failed its progress stands still; size, children and total are never touched by flags. |
| `ProgressTracker.Tracker.CountChunks` | `src/client/storage/progress.ts:181-193` | The counting loop counts each status exactly and caches every status it had to read. |
| `ProgressTracker.Tracker.LoadFile` | `src/client/storage/progress.ts:160-176` | A new file entry, registered with all its chunks, disturbs nothing that is loaded; only the new file awaits its computation. |
| `ProgressTracker.Tracker.ComputeFileEntry` | `src/client/storage/progress.ts:195-221` | Makes the model's change to the entry and the status, and reports through `updated` whether the entry changed. |
| `ProgressTracker.Tracker.UpdateParents` | `src/client/storage/progress.ts:223-229` | The loop over the parents leaves none of them stale, and nothing above them. |
| `ProgressTracker.Tracker.LoadDir` | `src/client/storage/progress.ts:239-274` | A new directory entry ends with every child loaded and this directory registered with each; nothing loaded before has changed. |
| `ProgressTracker.Tracker.LoadKid` | `src/client/storage/progress.ts:257-272` | One child is loaded, if it was not, and knows its parent. |
| `ProgressTracker.Tracker.TallyLoop` | `src/client/storage/progress.ts:278-327` | The loop sums up failed, uploaded and chunk counts over all children, with multiplicity. |
| `ProgressTracker.Tracker.ComputeEntry` | `src/client/storage/progress.ts:329-357` | Makes the model's change to the entry and the status, and reports through `updated` whether the entry changed. |
| `ProgressTracker.Tracker.UpdateFileProgress` | `src/client/storage/progress.ts:151-230` | Afterwards the file and every directory that was up to date are up to date, a failed file has a chunk that was FAILED, however far the change travels; the mutual recursion ends by rank. |
| `ProgressTracker.Tracker.UpdateDirProgress` | `src/client/storage/progress.ts:232-368` | Cold loading below, recomputation and propagation above leave every loaded entry consistent; nothing loaded is dropped. |
| `ProgressTracker.Tracker.UpdateChunkProgress` | `src/client/storage/progress.ts:67-93` | One queue item restores the invariant for all caches, loads every file that has the chunk, and succeeds exactly if the chunk has registered parents or some file in the database has it, with the caches still consistent otherwise. |
| `ProgressTracker.Tracker.RegisterFoundFiles` | `src/client/storage/progress.ts:76-86` | Registers all files found for a chunk, and only true parents. |
| `ProgressTracker.Tracker.GetDirProgress` | `src/client/storage/progress.ts:131-145` | Loads an unknown directory, changes nothing for a known one, and reports the sum of its rows' sizes and the rounded share of it, which unless the directory is failed lies in 0..total and is the total when it is uploaded. |
| `HostStorageTree.SetRefinesUpdate` | `src/client/hostStorage.ts:224-309` | A write that names no `__proto__` succeeds if every proper prefix of the path is a stored object, no stray null stands at the path and no stray item beside it breaks serialising, and then the tree stands for the nested map with the value at the path; any write that succeeds had such a path, and leaves root and path sound, uploaded and in sync. |
| `HostStorageTree.SetRefinesUpdateIff` | `src/client/hostStorage.ts:224-309` | For any value: `set` leaves a tree that stands for the updated nested map if and only if the path is settable and neither its last key nor any entry inside the value is named `__proto__`. |
| `HostStorageTree.SetKeyMeans` | `src/client/hostStorage.ts:246-309` | `set` with one key: what it leaves is sound; if no `__proto__` is named, it succeeds exactly if no stray null stands at the key and the other items can be serialised, and then it is the assignment of the value. |
| `HostStorageTree.UpdateHasProto` | `src/client/hostStorage.ts:251-261` | A write that names `__proto__` asks for a map with that key. |
| `HostStorage.ViewHasNoProto` | `src/client/hostStorage.ts:70-83` | No tracker ever stands for a map with the key `__proto__`, at any depth. |
| `HostStorageTree.LookupAfterUpdate` | `src/client/hostStorage.ts:181-200` | On the nested map: what was set is read back at its path, unless something in it throws when read. |
| `HostStorageTree.LookupElsewhere` | `src/client/hostStorage.ts:181-200` | On the nested map: every path that leaves the written one is read as before, inherited names included. |
| `HostStorageTree.LookupThrough` | `src/client/hostStorage.ts:181-200` | On the nested map: reading goes on below an object that was found. |
| `HostStorageTree.AbsentName` | `src/client/hostStorage.ts:146-187` | A name that is not there reads as undefined, and throws exactly if it is one of the names that every object inherits. |
| `HostStorageTree.SettableIff` | `src/client/hostStorage.ts:224-246` | Where everything can be read, a path can be written exactly if it is not empty and each proper prefix of it reads as a stored object. |
| `HostStorageTree.UploadKeepsView` | `src/client/hostStorage.ts:115-119` | Uploading a tracker stores a file that decodes to its items and changes nothing that it, or any other tracker, stands for. |
| `HostStorageTree.BuildMeans` | `src/client/hostStorage.ts:290-298` | Storing an object or array without an entry `__proto__` builds trackers that stand for its entries, arrays as index-keyed objects; with one it leaves a sound tracker or throws. |
| `HostStorageTree.MakeItemMeans` | `src/client/hostStorage.ts:251-305` | Each kind of value without an entry `__proto__` is stored so that it reads back as itself; any other is stored as a sound item or throws. |
| `HostStorage.ArrayMeaning` | `src/client/hostStorage.ts:290-298` | A stored array that is not empty has exactly its indices in decimal for keys, with the elements under them. |
| `HostStorage.ObjectMeaning` | `src/client/hostStorage.ts:290-298` | A stored object that is not empty has exactly the keys of its entries, with their values under them. |
| `HostStorage.ScalarMeaning` | `src/client/hostStorage.ts:250-289` | Texts, bytes and literals stand for themselves; an empty Buffer, object or array is a literal. |
| `HostStorage.DecimalIsNumber` | `src/client/hostStorage.ts:290-293` | An index as a key: its decimal digits, without a leading zero, that denote it. |
| `HostStorageTree.TagsOfItems` | `src/client/hostStorage.ts:62-68` | The type tags of stored values: S, B, O for objects and arrays alike, and L for literals and empty containers. |
| `HostStorageTree.TagsStay` | `src/client/hostStorage.ts:85-127` | Neither writing nor reading the JSON of a tracker, nor loading a child, changes a tag. |
| `HostStorage.DownloadedIsSound` | `src/client/hostStorage.ts:121-127` | A tracker read from a stored file resolves all its references and stands for the file's contents. |
| `HostStorage.SoundStable` | `src/client/hostStorage.ts:115-119` | More uploads never change what a tracker stands for. |
| `HostStorageRuns.ReloadEquivalence` | `src/client/hostStorage.ts:85-127` | After any successful `set`, the tree downloaded from the new file is sound and stands for what `serialize` found, as JSON text holds it; after a write that names no `__proto__` that is the map of the tree in memory if and only if it holds no empty Buffer, `NaN`, infinity or -0. |
| `HostStorageRuns.SetSurvivesReloadIff` | `src/client/hostStorage.ts:85-309` | A write to a settable path gives, after a reload, the nested map with the value at the path, if and only if it names no `__proto__` and that map holds no empty Buffer, `NaN`, infinity or -0. |
| `HostStorageRuns.FileHoldsJsonOfView` | `src/client/hostStorage.ts:85-113` | The stored file of a tracker in sync decodes to what it stands for, up to what JSON text cannot hold. |
| `HostStorageRuns.EmptyBufferDoesNotSurvive` | `src/client/hostStorage.ts:276-280` | An empty Buffer is taken for an empty object, stored as a literal, and reads back as another value after a reload. |
| `HostStorageRuns.RunsRefineNestedMap` | `src/client/hostStorage.ts:687-743` | Over every sequence of SET calls, each with a fresh load of the root: the node stands for the plain nested map with the same updates, failed ones skipped, all the way, if and only if no call to a settable path names `__proto__`. |
| `HostStorageRuns.SetStandsFor` | `src/client/hostStorage.ts:687-743` | One SET call that names no `__proto__` moves the stored tree and the nested map alike, and fails for both or for neither; any call leaves a root that can be read. |
| `HostStorageRuns.SetStandsForIff` | `src/client/hostStorage.ts:687-743` | One call: the node stands for the nested map under the same call if and only if the call fails on it or names no `__proto__`. |
| `HostStorageRuns.ReadYourWriteIff` | `src/client/hostStorage.ts:666-743` | After any run whatsoever, one more SET to a settable path is read back at its path from a fresh root, if and only if it names no `__proto__` and JSON can hold the value; and then every disjoint path reads as before. |
| `HostStorageRuns.PartsAreRead` | `src/client/hostStorage.ts:666-743` | After any run, a SET of an array to a settable path is read back element by element under the indices, and a SET of an object entry by entry; any other name under it reads as undefined; texts, bytes and literals read back as they are. |
| `HostStorageRuns.LiteralReadsBack` | `src/client/hostStorage.ts:85-127` | What each literal reads as after a reload: `NaN` and the infinities as null, -0 as 0, an empty Buffer as another object, and every other as itself. |
| `HostStorageRuns.ProtoWrite` | `src/client/hostStorage.ts:251-261` | Writing any value at `__proto__` inside a stored object succeeds exactly if the value can be made an item and the object can be serialised with the stray items `t` and `v`; then the object has those instead of the value. |
| `HostStorageRuns.ProtoWriteIsLost` | `src/client/hostStorage.ts:85-309` | After SET [host] := {a: true} and SET [host, "__proto__"] := a text, reading [host] and [host, "__proto__"] throws while [host, "a"] is still read; and reading the absent, inherited name "toString" throws. |
| `HostStorageRuns.StrayNullFreezes` | `src/client/hostStorage.ts:129-309` | After SET [host] := {a: true} and SET [host, "__proto__"] := Infinity, which both succeed, `items.v` is null after a reload, and every further SET inside [host] throws, whatever its path and value, and leaves the root as it was. |
| `HostStorageRuns.NullStrayBlocks` | `src/client/hostStorage.ts:129-179` | An object with a stray null in it has no settable path, under any key. |
| `HostStorageRuns.NullPrototypeThrows` | `src/client/hostStorage.ts:85-109` | Of all literals, exactly null and undefined cannot be stored under `__proto__` in an object. |
| `HostStorageTracker.LoadingKeepsView` | `src/client/hostStorage.ts:129-179` | Loading children lazily never changes what a tracker stands for. |
| `HostStorageTracker.TrackerObject.Sub` | `src/client/hostStorage.ts:129-179` | Replaces an unloaded child by its tracker, and nothing else; a key that is not there is left alone; fails exactly if the child cannot be loaded or the item is a stray null. |
| `HostStorageTracker.TrackerObject.Get` | `src/client/hostStorage.ts:181-200` | Returns what the nested map has at the path, throws where the source does, also for names that every object inherits, and only loads. |
| `HostStorageTracker.TrackerObject.ToObject` | `src/client/hostStorage.ts:556-564` | Collects the whole nested map of a tracker, throws exactly if something in it cannot be read, and only loads. |
| `HostStorageTracker.TrackerObject.ReadOne` | `src/client/hostStorage.ts:556-564` | One item of `toObject`: what the nested map has there, or an error if it cannot be read; whatever was read before. |
| `HostStorageTracker.TrackerObject.Set` | `src/client/hostStorage.ts:224-309` | Follows `SetAt` on the values, in its result, in the store and in what it leaves in memory, also when it throws. |
| `HostStorageTracker.PlainThrowOnlyLoads` | `src/client/hostStorage.ts:224-246` | A write that names no `__proto__` and throws has stored nothing and changed nothing but what was loaded, unless a stray item on the way breaks serialising. |
| `HostStorageTracker.TrackerObject.PutStrays` | `src/client/hostStorage.ts:251-261` | Assigning at `__proto__` leaves the items as they are but for the names `t` and `v` that `serialize` finds. |
| `HostStorageTracker.TrackerObject.MakeItemObject` | `src/client/hostStorage.ts:251-305` | Stores one value as an item, or throws where the model does; what objects it makes are new and show what the model makes. |
| `HostStorageTracker.TrackerObject.BuildObject` | `src/client/hostStorage.ts:290-298` | Fills a new tracker entry by entry through `set`, until one of them throws, and uploads it. |
| `HostStorageTracker.TrackerObject.FromDownload` | `src/client/hostStorage.ts:121-127` | A new object that shows the downloaded tracker. |
| `HostStorageTracker.TrackerObject.Serialize` | `src/client/hostStorage.ts:85-113` | The loop yields each item's description, with loaded children replaced by their files, or throws exactly if a stray item is null or undefined. |
| `HostStorageTracker.TrackerObject.UploadSelf` | `src/client/hostStorage.ts:115-119` | Uploads the serialised items and records the file they are in; if serialising throws, nothing changes. |
| `Executor.RunsKeepInv` | `src/client/hostStorage.ts:623-655` | Over every interleaving of enqueue, finish and deferred poke: at most one job runs, jobs start in the order they came, each once, and a waiting job has a running job or a pending poke. |
| `Executor.NoWakeupIsLost` | `src/client/hostStorage.ts:623-655` | Without further enqueues every schedule is finite, and when it can go no further all jobs were started, in order. |
| `Executor.JobsStartInOrder` | `src/client/hostStorage.ts:623-655` | From the start, over every run: the jobs started are a prefix of the jobs that were enqueued, and all of them when no step is left. |
| `Executor.Executor.EnsureSequential` | `src/client/hostStorage.ts:625-638` | Enqueuing pokes the queue and keeps the invariant. |
| `Executor.Executor.ProcessSequential` | `src/client/hostStorage.ts:639-655` | Starts the first waiting job unless one is in progress. |
| `Executor.Executor.ProcessQueue` | `src/client/storage/progress.ts:40-65` | The progress queue makes the same transition, so the same invariant holds of it. |
| `Executor.Executor.JobFinished` | `src/client/hostStorage.ts:649-655` | A finished job defers a poke before it clears the flag, which keeps the invariant. |
| `Executor.Executor.PokeFires` | `src/client/hostStorage.ts:651-651` | A deferred poke starts the next job if none runs, and keeps the invariant. |
| `Executor.Queue.Enqueue` | `src/util/queue.ts:2-4` | Appends an item. |
| `Executor.Queue.Dequeue` | `src/util/queue.ts:6-8` | Removes and returns the oldest item. |
| `Merkle.MerkleBinding` | `src/util/merkle.ts:1-45` | Two lists of 32-byte hashes of the same length with equal roots are equal, or two different inputs with the same digest are produced. |
| `Merkle.EqualRootsHaveEqualHeights` | `src/util/merkle.ts:1-45` | Lists with equal roots have the same number of levels, or a collision is produced. |
| `Merkle.EqualLevelsBind` | `src/util/merkle.ts:6-25` | Equal levels over lists of the same length come from equal leaves, or a collision is produced. |
| `Merkle.RootsAgreeIff` | `src/util/merkle.ts:1-45` | Roots agree if and only if the lists have equal heights and the same leaf under every position of the doubled tree, or a collision is produced. |
| `Merkle.DoubledLastHashSharesRoot` | `src/util/merkle.ts:14-16` | A list of odd length and the same list with its last hash doubled have the same root. |
| `Merkle.ComputeMerkle` | `src/util/merkle.ts:28-45` | The do-while loop ends and returns all levels: the leaves first, and the root last. |
| `Merkle.TreeHoldsLevels` | `src/util/merkle.ts:28-45` | The tree is its levels one behind the other: each is the stretch at the summed sizes of those below it, and nothing follows the last. |
| `Merkle.TreeEnds` | `src/util/merkle.ts:28-45` | The tree of a list that is not empty begins with the list and ends with its root, and is longer than the list. |
| `Merkle.NodeFormula` | `src/util/merkle.ts:6-25` | Every node is the digest of its two children, or of one child twice at the end of an odd level, behind a zero byte on the first level only. |
| `Merkle.HeightIsFirstRoot` | `src/util/merkle.ts:36-42` | The levels stop at the first one, at least one above the leaves, that has a single hash. |
| `Merkle.SmallTrees` | `src/util/merkle.ts:28-45` | The trees of one, two and three hashes, written out. |
| `Merkle.TreesBind` | `src/util/merkle.ts:1-45` | Trees with the same last element have the same height and, for lists of one length, the same leaves, or a collision is produced. |
| `Merkle.DeriveLevel` | `src/util/merkle.ts:6-25` | The loop digests neighbours pairwise, the last with itself at odd length. |
| `Merkle.LevelSizes` | `src/util/merkle.ts:5-5` | Each level has half as many hashes as the one below it, rounded up, so the loop gets shorter until one is left. |
| `FileStorage.FileRoundTrip` | `src/client/storage/index.ts:132-173` | For every buffer and chunk size, `getFile` after `uploadData` gives the buffer, the info chunk passes its checks and its size is exact; unless two chunks collide, or the buffer fits one chunk and starts like an info chunk. |
| `FileStorage.StoredReadsBack` | `src/client/storage/index.ts:552-596` | Any store that holds the chunks of a buffer gives the buffer back. |
| `FileStorage.ChunksReassemble` | `src/client/storage/index.ts:573-588` | The chunks concatenate to the buffer, the computed size is its length, and the cut of the last chunk removes nothing. |
| `FileStorage.ParseOwnInfo` | `src/client/storage/index.ts:353-382` | A created info chunk passes type, hash type and Merkle checks and gives its own contents. |
| `FileStorage.StoredIs` | `src/client/storage/index.ts:115-173` | What is stored for a buffer: itself if it fits a chunk; otherwise its chunks and an info chunk that lists their hashes, the exact size and a tree that begins with the hashes and ends with their root. The id is the hash of the last of these. |
| `FileStorage.AcceptedInfo` | `src/client/storage/index.ts:353-382` | An info chunk is accepted only with the right types and the Merkle tree of its chunk list, which ends with the root. |
| `FileStorage.WrongTreeIsRejected` | `src/client/storage/index.ts:367-373` | An info chunk whose tree does not end with the root of its chunk list is rejected. |
| `FileStorage.GetFileAnswers` | `src/client/storage/index.ts:552-596` | What `getFile` answers: nothing for a missing chunk, a plain chunk as it is, and for an info chunk the listed chunks one behind the other, cut to the recorded size, if all of them are there. |
| `FileStorage.ReassembleCuts` | `src/client/storage/index.ts:573-588` | Cutting the last chunk cuts the whole to the recorded size. |
| `FileStorage.PutAllStores` | `src/client/storage/chunk/upload.ts:17-31` | Stored chunks stay, whatever else is stored; without a collision each can be fetched by its hash. |
| `FileStorage.UploadedInfoChunkReadsAsItsFile` | `src/client/storage/index.ts:557-566` | An info chunk uploaded as a file of its own reads back as the file it describes. |
| `FileStorage.Chunkify` | `src/client/storage/index.ts:102-113` | The loop cuts a buffer into its chunks. |
| `FileStorage.ChunkDirectory.EnqueueChunks` | `src/client/storage/chunk/upload.ts:11-31` | The loops store exactly the chunks that are not there yet, under their hashes. |
| `FileStorage.ChunkDirectory.UploadData` | `src/client/storage/index.ts:132-173` | Stores the chunks, and the info chunk if there are several, and returns the file's id. |
| `FileStorage.ChunkDirectory.ReadFile` | `src/client/storage/index.ts:555-596` | Reads one chunk, or fetches and reassembles all that the info chunk lists, with its errors. |
| `Directory.DirectoryEndToEnd` | `src/client/storage/index.ts:185-268` | For every finite tree with distinct names, every completion order and every interleaving of its uploads with others: a path is found exactly if it leads somewhere in the tree, the id found for a file reads as its bytes, and every other path is rejected, as not a directory exactly if part of it leads to a file. |
| `Directory.LookupAnswers` | `src/client/storage/index.ts:613-632` | The recursive lookup over stored directory files gives the id of the node at the path, or an error if there is none. |
| `Directory.NodeReadsBack` | `src/client/storage/index.ts:234-235` | Every directory and file whose chunks are stored reads back from its id. |
| `Directory.StoredListing` | `src/client/storage/index.ts:209-235` | A stored directory lists of each entry whether it is a directory, its name, its size and its id. |
| `Directory.SizeLaws` | `src/util/calculateDirSize.ts:5-16` | A file has the size of its bytes, and a directory the sum of the sizes of its entries. |
| `Directory.ReorderedBack` | `src/client/storage/index.ts:207-232` | Nor does it add any path. |
| `Directory.AtMostOne` | `src/client/storage/index.ts:616-616` | With distinct names a path leads to one node. |
| `Directory.ReorderedThere` | `src/client/storage/index.ts:207-232` | The order in which entries complete does not change what a path means. |
| `Directory.PlainPathMeansItsNames` | `src/client/storage/index.ts:615-615` | For names joined by slashes the path that is looked up is those names. |
| `Directory.SegmentsOfText` | `src/client/storage/index.ts:615-615` | Splitting a joined path gives its segments back. |
| `Directory.SegmentsCut` | `src/client/storage/index.ts:615-615` | A path is split at slashes and backslashes. |
| `Directory.SegmentsOfPlain` | `src/client/storage/index.ts:615-615` | It is split nowhere else, and empty segments are dropped. |
| `Directory.NormalizeLast` | `src/client/storage/index.ts:630-630` | What one more segment does to a joined path: `.` nothing, `..` takes back the last name if there is one, and a name is appended. |
| `Directory.NothingLeft` | `src/client/storage/index.ts:630-630` | A rest of which nothing is left is the name `.`. |
| `Directory.JoinedIsCanonical` | `src/client/storage/index.ts:630-630` | Joining again at each level of the recursion changes nothing. |
| `Directory.DotDotTakesBackLaterNames` | `src/client/storage/index.ts:616-630` | `..` takes back a later name, whether it exists or not, but not the first one. |
| `Directory.UploadDir` | `src/client/storage/index.ts:201-235` | Uploads entries and then the directory's own JSON; the store moves by exactly those chunks and the id is the content's. |
| `RangeStream.FinishedStreamIsExact` | `src/client/storage/index.ts:418-514` | Over every run: a stream that came to its end sent the whole file; for a range, exactly the announced bytes if and only if the range starts inside the file and starts on a chunk, stays in one, or the file ends early enough in the second. |
| `RangeStream.UnservableRange` | `src/client/storage/index.ts:466-472` | A concrete finished run: of five bytes in chunks of two, the range from the second byte announces four bytes and sends three. |
| `RangeStream.PushedOnceInOrder` | `src/client/storage/index.ts:421-503` | However `push` answers and reads, arrivals, errors and the disconnect interleave: chunks are pushed at most once and in index order, one download at a time, and the end comes at most once and after all chunks. |
| `RangeStream.NeverStalls` | `src/client/storage/index.ts:421-429` | A stream that neither ended, failed nor lost its client awaits the chunk whose turn it is, or the next read asks for it. |
| `RangeStream.PauseOrGoOn` | `src/client/storage/index.ts:466-498` | A push answered with a pause awaits nothing more; one that is not asks for the next chunk at once, or ends the stream. |
| `RangeStream.ClosedStreamStops` | `src/client/storage/index.ts:421-464` | Over every run after the client is gone: no download starts, at most the awaited chunk is pushed, and no end is signalled. |
| `RangeStream.FailedStreamStops` | `src/client/storage/index.ts:499-502` | Over every run after a failed download: nothing is pushed and no end is signalled. |
| `RangeStream.ServedSoFar` | `src/client/storage/index.ts:466-472` | After n chunks of a servable range the bytes sent are the range up to there. |
| `RangeStream.AnnouncedLength` | `src/client/storage/index.ts:440-456` | What is announced: all bytes without a range; with one those from its start on, at most 1048577; one byte from behind the end. |
| `RangeStream.ChunkIsStretch` | `src/client/storage/index.ts:102-113` | Chunk i of a file is the stretch of it from i times the chunk size, of that length or up to the end. |
| `RangeStream.ShortPiece` | `src/client/storage/index.ts:468-469` | A range that is not servable loses bytes of its second chunk. |
| `RangeStream.NothingBehindTheEnd` | `src/client/storage/index.ts:440-456` | A range that starts behind the last byte is announced with one byte and gets none. |
| `RangeStream.FullDataIsExact` | `src/client/storage/index.ts:308-342` | A file of one chunk serves exactly the ranges that start inside it. |
| `RangeStream.Stream.ChunkArrives` | `src/client/storage/index.ts:491-498` | Pushes the chunk's slice, pauses or goes on, keeps what was sent equal to the slices pushed, and keeps the invariant over the interleavings. |
| `RangeStream.Stream.PushChunk` | `src/client/storage/index.ts:466-480` | Sends the slice of a chunk and pauses behind it if the buffer says so. |
| `RangeStream.Stream.DownloadChunk` | `src/client/storage/index.ts:483-492` | Starts one download, or signals the end behind the last chunk. |
| `RangeStream.Stream.DownloadFails` | `src/client/storage/index.ts:499-502` | Emits an error, sends nothing, and keeps the invariant over the interleavings. |
| `RangeStream.Stream.ClientCloses` | `src/client/storage/index.ts:460-464` | Sets both flags, so that nothing is resumed, and keeps the invariant over the interleavings. |
| `RangeStream.Stream.ReadMore` | `src/client/storage/index.ts:422-428` | Resumes after the last chunk pushed, if paused and not closed, and keeps the invariant over the interleavings. |
| `UploadProtocol.CompletedIsAbsorbing` | `src/db/models/chunk.ts:55-79` | From any state and over any run, a chunk recorded as COMPLETED stays so. |
| `UploadProtocol.FailedOnlyAfterRetries` | `src/db/models/chunk.ts:55-79` | In every reachable state a FAILED chunk has more recorded failures than the retry limit, even when two uploads of it raced. |
| `UploadProtocol.CompletedIsStored` | `src/client/storage/progress.ts:181-210` | In every reachable state a COMPLETED chunk, and each chunk of a file marked COMPLETED by the progress updater, is stored on the network. |
| `UploadProtocol.UploadsHaveDistinctSlots` | `src/client/storage/uploadWorkers.ts:118-166` | In every reachable state at most the configured number of uploads is scheduled or running, each in a slot of its own. |
| `UploadProtocol.NoClaimBeforeExpiry` | `src/client/storage/uploader.ts:73-90` | A claim that finds its chunk in progress finds it with an expiry that has passed. |
| `UploadProtocol.ClaimStandsUntilExpiry` | `src/client/storage/uploader.ts:73-90` | Over every step a chunk that stays in progress keeps its claim until that has expired. |
| `UploadProtocol.NextKeepsInv` | `src/client/storage/uploader.ts:16-105` | Each step, between two awaits or one database access, of loop, uploads, progress and restart keeps the protocol's invariant. |
| `UploadProtocol.IterateKeepsInv` | `src/client/storage/uploader.ts:53-99` | Where the loop holds no worker and all else is in order, its next iteration, or its end, leaves the invariant. |
| `UploadProtocol.NewWorkerFits` | `src/client/storage/uploadWorkers.ts:145-166` | A new worker gets a slot that no upload and no loop occupies. |
| `UploadProtocol.FailedOrRestarted` | `src/db/models/chunk.ts:55-79` | Only a chunk in progress is changed: its retry count goes up by one, and it fails if the count that was read had reached the limit, and is enqueued again otherwise. |
| `UploadProtocol.Claimed` | `src/client/storage/uploader.ts:78-84` | A claim puts the chunk in progress with the new expiry and leaves its retry count; it never touches a failed or completed chunk, nor any other chunk. |
| `UploadProtocol.Succeeded` | `src/client/storage/uploadWorkers.ts:43-46` | A chunk in progress becomes completed, with nothing else of its row changed; in any other state it is left alone, and so are all other chunks. |
| `UploadProtocol.Created` | `src/client/storage/chunk/upload.ts:33-41` | Exactly the missing rows are added, with the given status and no retries; rows that exist are left alone. |
| `UploadProtocol.Downloaded` | `src/client/storage/chunk/download.ts:142-146` | A chunk that was downloaded is completed, and no other row changes. |
| `UploadProtocol.AvailableSlot` | `src/client/storage/uploadWorkers.ts:145-166` | A slot is given if and only if there are fewer than the limit or one is free; a new one below the limit. |
| `UploadProtocol.ReEnqueued` | `src/client/storage/chunk/upload.ts:43-51` | Of the selected rows those not started or failed are enqueued, and no other row changes; a success or a claim is never taken back. |
| `UploadProtocol.Restarted` | `src/client/storage/uploader.ts:135-144` | A restart enqueues every chunk that was in progress, leaves none in progress, and changes nothing else. |
| `UploadProtocol.FirstFreeSlot` | `src/client/storage/uploadWorkers.ts:145-166` | Of the free slots the first one is given. |
| `UploadRuns.DueChunkCanBeUploaded` | `src/client/storage/uploader.ts:16-105` | From any state without an active loop and with a slot to give, some run takes a chunk that is enqueued, or whose claim has expired, to COMPLETED: it is on the network, its completion is queued, and no other row has changed. |
| `UploadRuns.DueChunkCanBeClaimed` | `src/client/storage/uploader.ts:16-105` | The run of the loop that claims such a chunk: in progress, expiring after the configured time, its upload scheduled with a new worker in the slot, and the loop ended. |
| `UploadRuns.UploadCanSucceed` | `src/client/storage/uploadWorkers.ts:66-139` | A scheduled upload of a claimed chunk can end with the chunk stored and COMPLETED and its worker free. |
| `UploadRuns.UploadCanFail` | `src/db/models/chunk.ts:55-79` | It can fail as well: the retry count goes up, and the chunk is enqueued again, or FAILED if the count had reached the limit. |
| `UploadRuns.WrittenSuccessStays` | `src/client/storage/uploadWorkers.ts:43-51` | Writing a success on a chunk in progress makes it COMPLETED, then and at the end of every run from there, and queues its completion. |
| `UploadRuns.OutOfSyncRecordsNothing` | `src/client/storage/uploadWorkers.ts:32-46` | An upload whose chunk has left IN_PROGRESS changes no row, whether it succeeded or failed. |
| `UploadRuns.FoundOrThrown` | `src/client/storage/uploadWorkers.ts:66-112` | A chunk found on the network is not posted again; a throw leads to the record of a failure. |
| `UploadRuns.TakenChunkIsSkipped` | `src/client/storage/uploader.ts:75-90` | A chunk that was taken meanwhile is skipped: nothing is written, and its worker is free. |
| `UploadRuns.LoopStartsAndEnds` | `src/client/storage/uploader.ts:16-105` | A second start only asks for a retry; the loop ends when it finds nothing, when no slot can be given, and when it throws. |
| `UploadRuns.RestartKeepsTables` | `src/client/storage/uploader.ts:135-144` | Over a restart the tables are kept, with every claim taken back, and nothing else. |
| `UploadRuns.ClaimExpires` | `src/client/storage/uploader.ts:33-44` | A chunk in progress falls due exactly when its expiry has passed. |
| `UploadRuns.NewChunkSteps` | `src/client/storage/chunk/upload.ts:33-41` | A chunk without a row gets one that waits or is enqueued. |
| `UploadRuns.KnownChunkSteps` | `src/client/storage/chunk/upload.ts:33-51` | A chunk with a row is not created again; enqueueing takes it up if it was not started or has failed; if it can be downloaded it counts as uploaded. |
| `UploadRuns.QueuedCompletionIsCached` | `src/client/storage/progress.ts:40-74` | A queued completion is cached as COMPLETED and leaves the queue. |
| `UploadRuns.ClearedStatusIsReadAgain` | `src/db/models/chunk.ts:109-122` | A status that the hook cleared from the cache is read from the table the next time. |
| `UploadRuns.FileCanBeMarked` | `src/client/storage/progress.ts:181-210` | From any state a file whose chunks are all COMPLETED can be marked as completed. |
| `UploadRuns.UnfinishedFileIsNotMarked` | `src/client/storage/progress.ts:195-210` | A count that saw a failed chunk, or one that was not completed, never marks its file. |
| `UploadWorkers.Uploader.TryGettingAvailableUploadWorker` | `src/client/storage/uploadWorkers.ts:145-166` | The loop returns a new slot below the limit, else the first free slot with a new worker in it, else none. |
| `UploadWorkers.Uploader.StartUploadLoop` | `src/client/storage/uploader.ts:16-22` | A second call while a loop is active only asks for a retry. The protocol invariant is kept. |
| `UploadWorkers.Uploader.FindAwaiting` | `src/client/storage/uploader.ts:28-31` | Takes the enqueued chunks that were found. The protocol invariant is kept. |
| `UploadWorkers.Uploader.FindStale` | `src/client/storage/uploader.ts:33-51` | Adds the chunks whose claim has expired, and begins the loop over them, or ends it if there are none. The protocol invariant is kept. |
| `UploadWorkers.Uploader.ReadChunk` | `src/client/storage/uploader.ts:73-73` | Keeps the row of the chunk as it was read, for the test that follows. The protocol invariant is kept. |
| `UploadWorkers.Uploader.NextChunk` | `src/client/storage/uploader.ts:53-59` | Gets a worker for the next chunk, or leaves the loop; where the loop holds no worker and all else is in order, the protocol invariant holds again. |
| `UploadWorkers.Uploader.CheckChunk` | `src/client/storage/uploader.ts:75-90` | Goes on to claim an enqueued or expired chunk, and frees the worker otherwise. The protocol invariant is kept. |
| `UploadWorkers.Uploader.ClaimChunk` | `src/client/storage/uploader.ts:78-93` | Writes the guarded claim and schedules the upload in its slot. The protocol invariant is kept. |
| `UploadWorkers.Uploader.LoopFails` | `src/client/storage/uploader.ts:101-104` | Whatever throws in the loop ends it. The protocol invariant is kept. |
| `UploadWorkers.Uploader.StartChunkUpload` | `src/client/storage/uploadWorkers.ts:122-126` | The scheduled upload begins. The protocol invariant is kept. |
| `UploadWorkers.Uploader.ChunkStored` | `src/client/storage/uploadWorkers.ts:66-108` | The chunk is on the network, because it was stored now or had been before. The protocol invariant is kept. |
| `UploadWorkers.Uploader.UploadFails` | `src/client/storage/uploadWorkers.ts:110-112` | Anything that throws leads to the record of a failure. The protocol invariant is kept. |
| `UploadWorkers.Uploader.FinishUpload` | `src/client/storage/uploadWorkers.ts:127-139` | The worker is free again, after a success or a failure. The protocol invariant is kept. |
| `UploadWorkers.Uploader.RestartUploads` | `src/client/storage/uploader.ts:135-144` | A new process forgets all but the tables, and takes back the claims in them. The protocol invariant is kept. |
| `UploadWorkers.Uploader.ReadBeforeSuccess` | `src/client/storage/uploadWorkers.ts:32-41` | A chunk that is no longer in progress is left alone and the worker is freed. The protocol invariant is kept. |
| `UploadWorkers.Uploader.ReadBeforeFailure` | `src/db/models/chunk.ts:55-60` | Takes the retry count of a chunk in progress, and leaves any other alone. The protocol invariant is kept. |
| `UploadWorkers.Uploader.MarkAsSuccessful` | `src/client/storage/uploadWorkers.ts:43-51` | Completes a chunk that is still in progress, and reports the completion in any case. The protocol invariant is kept. |
| `UploadWorkers.Uploader.MarkAsFailedOrRestart` | `src/db/models/chunk.ts:59-74` | Writes the outcome computed from the count that was read, under the guard, and frees the worker. The protocol invariant is kept. |
| `UploadWorkers.Uploader.BulkCreate` | `src/client/storage/chunk/upload.ts:33-41` | The loop creates exactly the missing rows, enqueued. The protocol invariant is kept. |
| `Envelope.EnvelopeRoundTrip` | `src/client/encryption.ts:673-698` | Through all nested frames, and however the store grows afterwards, the recipient gets the sender's identity, the host and the data back; another host is rejected or is a hash collision. |
| `Envelope.OpenStoredContainer` | `src/client/encryption.ts:423-518` | A stored container opens for its recipient to the data, exactly for the hosts whose hash is the recorded one. |
| `Envelope.OtherRecipientIsRejected` | `src/client/encryption.ts:471-483` | Any other key is rejected, or the two public keys are a collision. |
| `Envelope.VerifyUndoesWrap` | `src/client/encryption.ts:576-671` | A wrapped message verifies to its identity and data, exactly for the hosts whose hash is the recorded one. |
| `Envelope.RawFrameIff` | `src/client/encryption.ts:329-403` | A byte sequence parses as an asymmetric frame if and only if it is the frame of what it parses to: printer and parser undo each other. |
| `Envelope.DecryptUndoesEncrypt` | `src/client/encryption.ts:329-421` | Decrypting with the private key gives what was encrypted for the public one. |
| `Envelope.OpenUndoesSeal` | `src/client/encryption.ts:35-72` | The symmetric frame opens to its plaintext. |
| `Envelope.SignedVerifies` | `src/client/encryption.ts:539-571` | The padded signature has 75 bytes and verifies under the signer's key. |
| `Envelope.UnpadUndoesPads` | `src/client/encryption.ts:554-562` | Skipping 0xff recovers exactly the signature, whatever the padding. |
| `Envelope.UnterminatedIdentity` | `src/client/encryption.ts:637-646` | A frame without the byte that ends the identity is accepted only for a host whose hash starts with the inner prologue. |
| `EnvelopeChecks.MessageAcceptedIff` | `src/client/encryption.ts:608-671` | A message whose identity ends is accepted, and as what, if and only if it is byte by byte a signed frame for this host, the name service has a key of 64 bytes that are not all zero for the identity, and the signature of the signed part verifies under that key. |
| `EnvelopeChecks.AcceptedIsSigned` | `src/client/encryption.ts:608-671` | Whatever its form, a message that is accepted carries a signature of its signed part by the key of the identity it is said to be from. |
| `EnvelopeChecks.SignatureAcceptedIff` | `src/client/encryption.ts:551-571` | A signature is accepted if and only if what follows its 0xff padding starts with 0x30 and verifies for the hash of the data and the key behind a 4. |
| `EnvelopeChecks.DecryptRawIff` | `src/client/encryption.ts:356-421` | Asymmetric decryption gives a plaintext if and only if the bytes are the frame of parts that the private key opens to the prologue and that plaintext. |
| `EnvelopeChecks.DownloadDecryptIff` | `src/client/encryption.ts:460-518` | Data is downloaded and decrypted if and only if the file is a container for this key, whose key info is for this host and leads to a file that the key in it opens to the data. |
| `EnvelopeChecks.SendingNeedsKeys` | `src/client/encryption.ts:35-47` | Encrypting needs a random key of 32 bytes that are not all zero; sending also needs an identity, and a recipient whose key has 64 bytes that are not all zero. |
| `EnvelopeChecks.SealFrameParts` | `src/client/encryption.ts:45-52` | An encrypted frame is 12 bytes of iv, 16 of tag, and the ciphertext. |
| `EnvelopeChecks.PrologueBytes` | `src/client/encryption.ts:324-327` | The encryption prologues, byte by byte. |
| `EnvelopeChecks.SignedPrologueBytes` | `src/client/encryption.ts:573-574` | The signature prologues and that of info chunks, byte by byte. |
| `Envelope.RawFrameParts` | `src/client/encryption.ts:342-353` | Where each field of the asymmetric frame stands. |
| `Envelope.KeyInfoParts` | `src/client/encryption.ts:434-439` | Where key, file id and host hash stand in the key info. |
| `Envelope.CombinedParts` | `src/client/encryption.ts:586-592` | Where identity, host hash and data stand in the signed part. |
| `Envelope.SignRawData` | `src/client/encryption.ts:539-549` | Fills the buffer so that the signature stands at its end. |
| `Envelope.VerifyRawData` | `src/client/encryption.ts:551-571` | The skipping loop finds the signature and rejects anything that does not start as one. |
| `Envelope.DecryptRawPlaintext` | `src/client/encryption.ts:356-421` | The moving offset reads the fields where the frame has them, with the errors in the same order. |
| `CookieString.ParsedStringsAreNormal` | `src/util/cookieString.ts:7-36` | For every string, encoding what was parsed, in any order of the keys, and parsing again changes nothing. |
| `CookieString.EncodedObjectSurvivesIff` | `src/util/cookieString.ts:7-36` | An object survives encoding and parsing if and only if all its keys and values are non-empty, trimmed and free of separators, and no key is `__proto__`. |
| `CookieString.ParseIsGood` | `src/util/cookieString.ts:7-23` | Whatever the string, only trimmed, non-empty keys and values without separators are read. |
| `CookieString.ParseEncoded` | `src/util/cookieString.ts:7-36` | Encoded entries are read back one by one. |
| `CookieLaws.PairIsRead` | `src/util/cookieString.ts:7-23` | A pair at the end, with any white space around its key and its value, sets the key to the value and changes nothing else; a first pair needs no semicolon. |
| `CookieLaws.OtherPartsAreIgnored` | `src/util/cookieString.ts:12-20` | A part without exactly one `=`, with nothing but white space on one side of it, or for the key `__proto__`, changes nothing. |
| `CookieLaws.TrimCutsSpace` | `src/util/cookieString.ts:14-15` | Trimming cuts white space at both ends, all of it, and nothing more. |
| `CookieLaws.Spaces` | `src/util/cookieString.ts:14-15` | Which characters are white space. |
| `CookieLaws.SpacedPairs` | `src/util/cookieString.ts:7-23` | "a = 1; b=2" is read as a: 1 and b: 2. |
| `CookieLaws.TrimFinds` | `src/util/cookieString.ts:14-15` | It finds what stands between white space. |
| `CookieLaws.JoinOfSplit` | `src/util/cookieString.ts:8-12` | The parts of a split string, joined again, are the string, and none holds the separator. |
| `CookieLaws.EncodedText` | `src/util/cookieString.ts:31-36` | What is written for a list of entries: key, `=` and value of each, with semicolons between them and none at the end. |
| `CookieLaws.MergedValue` | `src/util/cookieString.ts:42-57` | Of every key: the new value wins; an old one stays unless it is a root or routes against a new alias, or an alias against a new root that comes without one. |
| `CookieString.StoringAKeyKeepsTheOthers` | `src/util/cookieString.ts:42-57` | Merging `pn_key` keeps every other key, and the written string reads back as the merged object if and only if the key is well formed. |
| `CookieString.MergeConflictsIff` | `src/util/cookieString.ts:48-54` | Merging any conflict-free object into conflict-free data gives a conflict if and only if there is an old alias, the object has routes that are not empty, no root that is not empty, and no alias, not even an empty one. |
| `CookieString.RoutesAgainstAlias` | `src/util/cookieString.ts:48-54` | Merging {pn_routes: "r"} into "pn_alias=a" gives an object with both. |
| `CookieString.ParseCookieString` | `src/util/cookieString.ts:7-23` | The loop assigns the well-formed pairs in order, later ones winning. |
| `CookieString.EncodeCookieString` | `src/util/cookieString.ts:31-36` | The loop appends the pairs, and the last semicolon is dropped. |
| `CookieString.MergeAndResolveConflicts` | `src/util/cookieString.ts:42-57` | Removes what the new data rules out and lets the new data win. |

## Left out

Hypotheses, and what the models do not capture:

- Event cache: past blocks are immutable, the page size is positive, and event ids are distinct; the last two fail only by configuration or hash collision.
- CacheTransparency: its runs pick only rows that match the query or whose widened interval is claimed after the scan, and end their queries at or below the head; `CollapseSafeIff` and `StaysFetchedIff` say that nothing more can be allowed.
- Event cache: `identityOwner` checksum conversion, the topics and raw fields of an event, and the missing chain id in the id of a scan row are not modelled; the third clause of the range query is modelled as written.
- GetPaginatedPastEvents: two queries do not interleave inside a renewal; the source has no lock there.
- Progress: queue items run one after another (`Executor`), `getDirProgress` is not called in the middle of one, progress is a real number, and the hook that clears cached chunk statuses is left out of `Progress` (`UploadProtocol` has it as a step).
- Progress: filemap and dirmap rows do not change while entries are loaded, all referenced rows exist, and no directory has a file and a subdirectory with the same id.
- LoadedFileShowsBatch: which files are failed is a parameter of this recomputation, because the flag outlasts its cause; `FileShowsBatchIff` and `DirShowsBatchIff` compare with the one from chunk statuses alone.
- UpdateDirProgress: the second loading check inside the tally loop never fires and is not modelled.
- Host storage: `unset`, `append`, `insertAt`, `removeAt`, `replaceAt`, `dir`, `len`, the sync to the blockchain, the choice between a local and a remote root, and the `pending` flags, which nothing reads.
- Host storage: text encodings; a text with an unpaired surrogate, which `Buffer.from` replaces, is not a text of the model.
- Host storage: a path key that is neither string, number nor null throws where it is reached and is not modelled; nor are values that JSON text cannot give, other than Buffers, `NaN` and undefined.
- ReloadEquivalence: of a write that names `__proto__` it compares the reloaded tree with what `serialize` finds, not with what `toObject` would list in memory, which skips the stray names.
- Host storage: the raw `[key, id]` form of a file reference and `EncryptedFile` are one; ciphers and JSON are symbolic.
- Host storage: the stray names `t` and `v` that a write at `__proto__` puts behind `items` are items at once; what a read in memory would make of them before the next load is not modelled, because every call loads the root anew.
- Serialize: a loaded child without a file, which the source would upload first, is not modelled; none of the modelled operations can leave one.
- UploadSelf: requires as `Serialize` does that every loaded child has a file.
- Set: an object for a missing intermediate key is never created, because the source reads `item.v` before it creates the item.
- SetRefinesUpdate: keys of an object are given in the order of its enumeration, and a path key that is a number or null is its text; `Object.prototype` has the properties that the language gives it.
- FileRoundTrip: text encodings, the zero and malformed ids, the caches and statuses of downloads, and the retry over several bundlers are left out; a chunk is found if it was stored.
- FileRoundTrip: that a one-chunk buffer with the info prologue never round-trips is not claimed; it cannot be excluded for an arbitrary hash.
- DirectoryEndToEnd: symbolic links, file system errors and files that change during the upload; a path is split into names as the source does, and names in the tree may be any strings.
- RangeStream: the start of a range is a natural number; decoding each slice to text on its own can split characters and is not modelled; the requested end is ignored by the source.
- UploadProtocol: runs start from an empty database; a positive answer of the bundler, or of the check for an existing chunk, means that the chunk is stored on the network; `DueChunkCanBeUploaded` says that an upload can always be finished, not that a scheduler will.
- UploadProtocol: the check for being online is always true as written, because it tests a promise; the event queue of status changes is left out.
- UploadProtocol: two uploads of one chunk can run at once after a claim expired, so exclusion is stated of claims.
- CompletedIsStored: the chunks of a file are the filemap rows when its entry is loaded.
- Envelope: key derivation, randomness, the name service and text encodings are parameters; `EncryptionContainer` is left out.
- EnvelopeRoundTrip: assumes that the encrypted data, if it fits one chunk, does not start like an info chunk.
- CookieString: property order is arbitrary in the model, so it covers JavaScript's; values are strings.
- HTTP and WebSocket servers, proxy handlers, RPC forwarding, IPFS, rendering, the explorer, Solana, ENS and web3 calls, deployment, migrations, the permission store and the TTL cache: plumbing, or behaviour of libraries that are not part of this model.
