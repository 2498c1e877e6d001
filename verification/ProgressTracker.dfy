/** The module-level caches of `src/client/storage/progress.ts` as the fields of one
    object, and the functions that update them in place. */
module ProgressTracker {
  import opened Common
  import opened Progress
  import opened ProgressBatch

  /** The Chunk table; other parts of the node write it between two updates. */
  class ChunkTable {
    var rows: map<string, ChunkStatus>

    constructor (rows: map<string, ChunkStatus>)
      ensures this.rows == rows
    {
      this.rows := rows;
    }
  }

  class Tracker {
    const db: Db
    const table: ChunkTable
    ghost const rank: string -> nat  // directories are content-addressed, so they form no cycle
    ghost const top: nat

    var files: map<string, FileEntry>
    var dirs: map<string, DirEntry>
    var chunks: map<string, ChunkStatus>
    var chunkParents: Parents
    var fileParents: Parents
    var dirParents: Parents
    var fileStatus: map<string, UlStatus>
    var dirStatus: map<string, UlStatus>
    ghost var sawFailed: set<string>  // the chunks that were ever cached as FAILED

    ghost function Now(): Caches
      reads this
    {
      Caches(files, dirs, chunks, chunkParents, fileParents, dirParents, fileStatus, dirStatus, sawFailed)
    }

    /** Rows refer to rows that exist, and directories form no cycle. */
    ghost predicate GoodDb()
      reads table
    {
      WellFormed(db, rank, top) && forall f, ch :: ch in FileChunks(db, f) ==> ch in table.rows
    }

    constructor (db: Db, table: ChunkTable, fileStatus: map<string, UlStatus>, dirStatus: map<string, UlStatus>,
                 ghost rank: string -> nat, ghost top: nat)
      requires forall f :: StatusOf(fileStatus, f).UlCompleted? <==> f in db.doneFiles
      requires forall d :: StatusOf(dirStatus, d).UlCompleted? <==> d in db.doneDirs
      ensures Inv(db, Now(), {}, {}, {})
      ensures this.db == db && this.table == table && this.rank == rank && this.top == top
      ensures files == map[] && dirs == map[] && chunks == map[] && sawFailed == {}
    {
      this.db, this.table, this.rank, this.top := db, table, rank, top;
      files, dirs, chunks := map[], map[], map[];
      chunkParents, fileParents, dirParents := map[], map[], map[];
      this.fileStatus, this.dirStatus := fileStatus, dirStatus;
      sawFailed := {};
    }

    /** Registers a file as a parent of all its chunks. */
    method RegisterChunks(f: string, ids: seq<string>)
      requires ParentsTrue(db, chunkParents, fileParents, dirParents) && ids == FileChunks(db, f)
      modifies this`chunkParents
      ensures ParentsTrue(db, chunkParents, fileParents, dirParents)
      ensures MoreParents(old(chunkParents), chunkParents)
      ensures forall ch :: ch in ids ==> f in Of(chunkParents, ch)
    {
      hide Register, Of;
      for i := 0 to |ids|
        invariant ParentsTrue(db, chunkParents, fileParents, dirParents)
        invariant MoreParents(old(chunkParents), chunkParents)
        invariant forall j :: 0 <= j < i ==> f in Of(chunkParents, ids[j])
      {
        RegisterMeaning(chunkParents, ids[i], f);
        chunkParents := Register(chunkParents, ids[i], f);
      }
    }

    /** The first part of `updateFileProgress`: the entry of a file seen for the first time. */
    method LoadFile(f: string, ghost df: set<string>, ghost dd: set<string>, ghost loading: set<string>)
      requires f !in files && Inv(db, Now(), df, dd, loading)
      modifies this`files, this`chunkParents
      ensures Inv(db, Now(), df + {f}, dd, loading) && Grows(old(Now()), Now())
      ensures files == old(files)[f := FileEntry(false, false, 0.0, FileChunks(db, f))]
    {
      hide FilesInv, DirInv, ParentsTrue, StatusesTrue, MoreParents, Grows;
      ghost var c := Now();
      var ids := FileChunks(db, f);
      files := files[f := FileEntry(false, false, 0.0, ids)];
      RegisterChunks(f, ids);
      LoadedFileKeepsInv(db, c, f, chunkParents, df, dd, loading);
    }

    /** The status of a chunk, from the table if it is not cached. */
    method LookUp(ch: string, ghost counters: map<ChunkStatus, nat>, ghost ids: seq<string>)
      requires SeenTrue(chunks, sawFailed) && ch in table.rows
      requires Counted(counters, chunks, ids) && forall i :: 0 <= i < |ids| ==> ids[i] in chunks
      modifies this`chunks, this`sawFailed
      ensures chunks == if ch in old(chunks) then old(chunks) else old(chunks)[ch := table.rows[ch]]
      ensures SeenTrue(chunks, sawFailed) && MoreSeen(old(sawFailed), sawFailed, chunks)
      ensures Counted(counters, chunks, ids)
    {
      hide Counter, Count;
      if ch !in chunks {
        AddedStatus(chunks, ch, table.rows[ch], ids);
        chunks := chunks[ch := table.rows[ch]];
        if table.rows[ch] == Failed {
          sawFailed := sawFailed + {ch};
        }
      }
    }

    /** The loop that looks up the status of every chunk, from the table if need be. */
    method CountChunks(ids: seq<string>) returns (counters: map<ChunkStatus, nat>, total: nat)
      requires SeenTrue(chunks, sawFailed)
      requires forall ch :: ch in ids ==> ch in table.rows
      modifies this`chunks, this`sawFailed
      ensures MoreStatuses(old(chunks), chunks)
      ensures FromTable(table.rows, old(chunks), chunks)
      ensures SeenTrue(chunks, sawFailed) && MoreSeen(old(sawFailed), sawFailed, chunks)
      ensures forall ch :: ch in ids ==> ch in chunks
      ensures total == |ids|
      ensures Counted(counters, chunks, ids)
      ensures forall s :: s in counters ==> counters[s] > 0
    {
      hide Counted;
      counters, total := map[], 0;
      NothingCounted(chunks);
      for i := 0 to |ids|
        invariant total == i
        invariant MoreStatuses(old(chunks), chunks)
        invariant FromTable(table.rows, old(chunks), chunks)
        invariant SeenTrue(chunks, sawFailed) && MoreSeen(old(sawFailed), sawFailed, chunks)
        invariant forall j :: 0 <= j < i ==> ids[j] in chunks
        invariant Counted(counters, chunks, ids[..i])
        invariant forall s :: s in counters ==> counters[s] > 0
      {
        var ch := ids[i];
        LookUp(ch, counters, ids[..i]);
        CountNext(counters, chunks, ids, i);
        counters := counters[chunks[ch] := Counter(counters, chunks[ch]) + 1];
        total := total + 1;
      }
      assert ids[..|ids|] == ids;
    }

    /** The last part of `updateFileProgress`, with its `updated` flag. */
    method ComputeFileEntry(f: string, counters: map<ChunkStatus, nat>, total: nat) returns (updated: bool)
      requires f in files && !files[f].uploaded && !files[f].failed && total == |files[f].chunkIds|
      requires Counted(counters, chunks, files[f].chunkIds)
      requires forall s :: s in counters ==> counters[s] > 0
      modifies this`files, this`fileStatus
      ensures Now() == ComputeFile(old(Now()), f)
      ensures updated == FileUpdated(old(files)[f], files[f])
    {
      hide Count, Mark;
      if Counter(counters, Failed) > 0 {
        files := files[f := files[f].(uploaded := false, failed := true)];
        updated := true;
        fileStatus := Mark(fileStatus, f, UlFailed);
      } else if Completed in counters && counters[Completed] == total {
        files := files[f := files[f].(uploaded := true, failed := false, progress := 1.0)];
        updated := true;
        fileStatus := Mark(fileStatus, f, UlCompleted);
      } else {
        var progress := Ratio(Counter(counters, Completed) as real, total);
        updated := files[f].progress != progress;
        files := files[f := files[f].(progress := progress)];
      }
    }

    /** The statuses of a file's chunks, counted, with the caches consistent as before. */
    method ReadStatuses(f: string, ghost df: set<string>, ghost dd: set<string>, ghost loading: set<string>)
        returns (counters: map<ChunkStatus, nat>, total: nat)
      requires GoodDb() && Inv(db, Now(), df, dd, loading) && f in files
      modifies this`chunks, this`sawFailed
      ensures Inv(db, Now(), df, dd, loading) && Grows(old(Now()), Now())
      ensures FromTable(table.rows, old(chunks), chunks)
      ensures forall ch :: ch in files[f].chunkIds ==> ch in chunks
      ensures total == |files[f].chunkIds| && Counted(counters, chunks, files[f].chunkIds)
      ensures forall s :: s in counters ==> counters[s] > 0
    {
      hide Inv, Grows, WellFormed, Counted, FromTable, MoreStatuses, SeenTrue, MoreSeen;
      ghost var c := Now();
      FileChunksAre(db, c, f, df, dd, loading);
      InvRemembers(db, c, df, dd, loading);
      counters, total := CountChunks(files[f].chunkIds);
      MoreStatusesKeepInv(db, c, chunks, sawFailed, df, dd, loading);
    }

    /** `updateFileProgress`. Afterwards the file is up to date, and so is every directory
        that was, however far the change had to travel. */
    method UpdateFileProgress(f: string, up: bool, ghost df: set<string>, ghost dd: set<string>,
                              ghost loading: set<string>)
      requires GoodDb() && Inv(db, Now(), df, dd, loading)
      requires if up then loading == {} else f !in files
      modifies this
      ensures Inv(db, Now(), df - {f}, dd, loading) && f in files
      ensures !up ==> Grows(old(Now()), Now()) && dirs == old(dirs)
      ensures MoreLoaded(table.rows, old(Now()), Now())
      decreases if up then 1 else 0, if up then top + 1 else 0, 3
    {
      hide Inv, Grows, MoreStatuses, WellFormed, Count, Counted, RecomputeFile, MoreLoaded, FromTable;
      ghost var c0 := Now();
      ghost var df' := if f !in files then df + {f} else df;
      GrowsReflexive(c0);
      if f !in files {
        LoadFile(f, df, dd, loading);
      }
      SameStatuses(table.rows, chunks);
      LoadedKeeps(table.rows, c0, Now());
      if files[f].uploaded || files[f].failed {
        SettledFileIsFresh(db, Now(), f, df', dd, loading);
        return;
      }
      ghost var c1 := Now();
      var counters, total := ReadStatuses(f, df', dd, loading);
      ghost var c2 := Now();
      GrowsTransitive(c0, c1, c2);
      FileStep(db, c0, c2, f, df, dd, loading);
      LoadedKeeps(table.rows, c1, c2);
      MoreLoadedTransitive(table.rows, c0, c1, c2);
      ComputedFileKeeps(table.rows, c0, c2, f);
      var updated := ComputeFileEntry(f, counters, total);
      if updated && up && f in fileParents {
        assert FileTouched(c2, f) == fileParents[f];
        RankBounds(db, rank, top);
        ghost var c3 := Now();
        UpdateParents(fileParents[f], df - {f}, dd, 0);
        FilesStay(table.rows, c3, Now());
        MoreLoadedTransitive(table.rows, c0, c3, Now());
      } else if up {
        assert dd + FileTouched(c2, f) == dd;
      }
    }

    /** The loops over the registered parents, from the snapshot of their keys. */
    method UpdateParents(parents: set<string>, ghost df: set<string>, ghost dd: set<string>, ghost level: nat)
      requires GoodDb() && level <= top + 1
      requires Inv(db, Now(), df, dd + parents, {})
      requires forall d :: d in parents ==> level <= rank(d) <= top
      modifies this
      ensures Inv(db, Now(), df, dd, {})
      ensures MoreLoaded(table.rows, old(Now()), Now())
      decreases 1, top + 1 - level, 2
    {
      hide Inv, WellFormed, MoreStatuses;
      MoreLoadedReflexive(table.rows, Now());
      var todo := parents;
      while todo != {}
        invariant todo <= parents
        invariant Inv(db, Now(), df, dd + todo, {})
        invariant MoreLoaded(table.rows, old(Now()), Now())
        decreases todo
      {
        var d :| d in todo;
        ghost var c1 := Now();
        UpdateDirProgress(d, true, df, dd + todo, {});
        MoreLoadedTransitive(table.rows, old(Now()), c1, Now());
        InvWeaken(db, Now(), df, (dd + todo) - {d}, df, dd + (todo - {d}), {});
        todo := todo - {d};
      }
      assert dd + {} == dd;
    }

    /** Pulls in one child of a directory that is being loaded, and registers the parent. */
    method LoadKid(d: string, k: Child, ghost df: set<string>, ghost dd: set<string>, ghost loading: set<string>)
      requires GoodDb() && Inv(db, Now(), df, dd, loading)
      requires k in Kids(db, d) && forall x :: x in loading ==> rank(d) <= rank(x)
      modifies this
      ensures Inv(db, Now(), df, dd, loading) && Grows(old(Now()), Now())
      ensures MoreLoaded(table.rows, old(Now()), Now())
      ensures KidLoaded(Now(), k) && d in Of(if k.isDir then dirParents else fileParents, k.id)
      decreases 0, rank(d) + 1, 0
    {
      hide Inv, Grows, MoreParents, Register;
      ghost var c0 := Now();
      GrowsReflexive(c0);
      if k.isDir {
        if k.id !in dirs {
          UpdateDirProgress(k.id, false, df, dd, loading);
          InvWeaken(db, Now(), df, dd - {k.id}, df, dd, loading);
        }
        ghost var c1 := Now();
        RegisterDirKeepsInv(db, c1, k, d, df, dd, loading);
        dirParents := Register(dirParents, k.id, d);
        GrowsTransitive(c0, c1, Now());
      } else {
        if k.id !in files {
          UpdateFileProgress(k.id, false, df, dd, loading);
          InvWeaken(db, Now(), df - {k.id}, dd, df, dd, loading);
        }
        ghost var c1 := Now();
        RegisterFileKeepsInv(db, c1, k, d, df, dd, loading);
        fileParents := Register(fileParents, k.id, d);
        GrowsTransitive(c0, c1, Now());
      }
    }

    /** The first part of `updateDirProgress`: the entry of a directory seen for the first
        time, with all its children. */
    method LoadDir(d: string, ghost df: set<string>, ghost dd: set<string>, ghost loading: set<string>)
      requires GoodDb() && Inv(db, Now(), df, dd, loading) && d !in dirs
      requires forall x :: x in loading ==> rank(d) < rank(x)
      modifies this
      ensures Inv(db, Now(), df, dd, loading + {d}) && Grows(old(Now()), Now())
      ensures MoreLoaded(table.rows, old(Now()), Now())
      ensures d in dirs && Ready(db, Now(), d)
      decreases 0, rank(d) + 1, 1
    {
      hide Inv, Grows, WellFormed, TallyKids, MoreLoaded;
      ghost var c0 := Now();
      MoreLoadedReflexive(table.rows, c0);
      DirEntryKeeps(table.rows, c0, c0, d, EmptyDir(SumSizes(Kids(db, d))));
      var kids := Kids(db, d);
      EmptyDirKeepsInv(db, c0, d, SumSizes(kids), df, dd, loading);
      dirs := dirs[d := EmptyDir(SumSizes(kids))];
      ghost var busy := loading + {d};
      for i := 0 to |kids|
        invariant Inv(db, Now(), df, dd, busy) && Grows(c0, Now()) && MoreLoaded(table.rows, c0, Now())
        invariant d in dirs && ListedSoFar(dirs[d], kids, i)
        invariant KidsLoaded(Now(), kids[..i]) && Registered(Now(), d, kids[..i])
      {
        var k := kids[i];
        ghost var c1 := Now();
        var e := dirs[d].(ids := dirs[d].ids + [k.id], isDir := dirs[d].isDir[k.id := k.isDir]);
        LoadingEntryKeepsInv(db, c1, d, e, df, dd, busy);
        ListNext(db, d, dirs[d], i, rank, top);
        dirs := dirs[d := e];
        LoadingEntryGrows(c0, c1, d, e);
        DirEntryKeeps(table.rows, c0, c1, d, e);
        ghost var c2 := Now();
        LoadKid(d, k, df, dd, busy);
        GrowsTransitive(c0, c2, Now());
        MoreLoadedTransitive(table.rows, c0, c2, Now());
        LoadedSoFar(c1, c2, Now(), d, e, kids, i);
      }
      assert kids[..|kids|] == kids;
    }

    /** The loop that sums up the children. They are all loaded, so the second load check
        of the source never fires. */
    method TallyLoop(d: string) returns (t: Tally)
      requires d in dirs && Listed(dirs[d], Kids(db, d)) && KidsLoaded(Now(), Kids(db, d))
      ensures t == TallyKids(Now(), Kids(db, d))
    {
      ghost var kids := Kids(db, d);
      t := Tally(0, 0, 0, 0.0, 0);
      var ids := dirs[d].ids;
      for i := 0 to |ids|
        invariant t == TallyKids(Now(), kids[..i])
      {
        var id := ids[i];
        assert kids[i] in kids && id == kids[i].id;
        assert kids[..i + 1][..i] == kids[..i];
        if dirs[d].isDir[id] {
          t := TallyOne(t, dirs[id].failed, dirs[id].uploaded, dirs[id].totalChunks, dirs[id].progress);
        } else {
          t := TallyOne(t, files[id].failed, files[id].uploaded, |files[id].chunkIds|, files[id].progress);
        }
      }
      assert kids[..|ids|] == kids;
    }

    /** `updateDirProgress`. With `up` the directory and all its ancestors are brought up
        to date; without, it is loaded below a directory that is itself being loaded. */
    method UpdateDirProgress(d: string, up: bool, ghost df: set<string>, ghost dd: set<string>,
                             ghost loading: set<string>)
      requires GoodDb() && Inv(db, Now(), df, dd, loading)
      requires if up then loading == {} else d !in dirs && forall x :: x in loading ==> rank(d) < rank(x)
      modifies this
      ensures Inv(db, Now(), df, dd - {d}, loading) && d in dirs
      ensures !up ==> Grows(old(Now()), Now())
      ensures MoreLoaded(table.rows, old(Now()), Now())
      decreases if up then 1 else 0, if up then top + 1 - rank(d) else rank(d) + 1, if up then 1 else 2
    {
      hide Inv, Grows, TallyKids, WellFormed, RecomputeDir, Listed, MoreStatuses;
      ghost var c0 := Now();
      MoreLoadedReflexive(table.rows, c0);
      if d !in dirs {
        LoadDir(d, df, dd, loading);
      }
      if dirs[d].uploaded {
        UploadedDirIsFresh(db, Now(), d, df, dd);
        return;
      }
      ghost var c1 := Now();
      DirStep(db, c0, c1, d, df, dd, loading, rank, top);
      var t := TallyLoop(d);
      var updated := ComputeEntry(d, t);
      ParentsOf(db, Now(), df, (dd - {d}) + DirTouched(db, c1, d), loading);
      ParentsHaveGreaterRank(db, Now(), d, rank, top);
      if updated && up && d in dirParents {
        assert DirTouched(db, c1, d) == dirParents[d];
        ghost var c3 := Now();
        UpdateParents(dirParents[d], df, dd - {d}, rank(d) + 1);
        MoreLoadedTransitive(table.rows, c0, c3, Now());
      } else if up {
        assert (dd - {d}) + DirTouched(db, c1, d) == dd - {d};
      }
    }

    /** The last part of `updateDirProgress`, with its `updated` flag. */
    method ComputeEntry(d: string, t: Tally) returns (updated: bool)
      requires d in dirs && KidsLoaded(Now(), Kids(db, d)) && t == TallyKids(Now(), Kids(db, d))
      requires !dirs[d].uploaded && (dirs[d].failed ==> t.failedFiles > 0)
      modifies this`dirs, this`dirStatus
      ensures Now() == ComputeDir(db, old(Now()), d)
      ensures updated == DirUpdated(old(dirs)[d], dirs[d])
    {
      hide TallyKids;
      if t.failedFiles > 0 {
        dirs := dirs[d := dirs[d].(uploaded := false, failed := true)];
        updated := true;
        dirStatus := Mark(dirStatus, d, UlFailed);
      } else if t.uploadedFiles == t.totalFiles {
        dirs := dirs[d := dirs[d].(uploaded := true, failed := false, progress := 1.0)];
        updated := true;
        dirStatus := Mark(dirStatus, d, UlCompleted);
      } else {
        var progress := Ratio(t.uploadedChunks, t.totalChunks);
        updated := dirs[d].progress != progress;
        dirs := dirs[d := dirs[d].(progress := progress)];
      }
      dirs := dirs[d := dirs[d].(totalChunks := t.totalChunks)];
      assert dirs == old(dirs)[d := RecomputeDir(old(dirs)[d], t)];
    }

    /** `realUpdateChunkProgress`, the job of one queue item. It throws (`!ok`) when no file
        has the chunk; even then the caches stay consistent. */
    method UpdateChunkProgress(ch: string) returns (ok: bool)
      requires GoodDb() && Inv(db, Now(), {}, {}, {})
      modifies this
      ensures Inv(db, Now(), {}, {}, {})
      ensures ok <==> ch in old(chunkParents) || exists f :: f in db.fileMaps && ch in db.fileMaps[f]
      ensures ch !in old(chunkParents) ==> forall f :: f in db.fileMaps && ch in db.fileMaps[f] ==> f in files
      ensures ch in chunks && chunks[ch] == Completed
      ensures MoreLoaded(table.rows, old(Now()).(chunks := old(chunks)[ch := Completed]), Now())
    {
      hide Inv, WellFormed, MoreLoaded, FilesWith;
      ghost var c0 := Now();
      ChunkCompletedKeepsInv(db, c0, ch);
      chunks := chunks[ch := Completed];
      ghost var c1 := Now();
      ghost var stale := Of(chunkParents, ch);
      FilesWithRows(db, ch);
      if ch !in chunkParents {
        var fileIds := FilesWith(db, ch);
        assert stale == {};
        if fileIds == {} {
          MoreLoadedReflexive(table.rows, c1);
          return false;
        }
        RegisterFoundFiles(ch);
      }
      ok := true;
      ParentsDoNotMatter(table.rows, c1, chunkParents);
      InvWeaken(db, Now(), stale, {}, chunkParents[ch], {}, {});
      ghost var c2 := Now();
      UpdateFiles(chunkParents[ch]);
      MoreLoadedTransitive(table.rows, c1, c2, Now());
      StaysCompleted(table.rows, c1, Now(), ch);
    }

    /** The loop over the files that have a chunk, from the snapshot of their keys. */
    method UpdateFiles(fileIds: set<string>)
      requires GoodDb() && Inv(db, Now(), fileIds, {}, {})
      modifies this
      ensures Inv(db, Now(), {}, {}, {}) && MoreLoaded(table.rows, old(Now()), Now())
      ensures fileIds <= files.Keys
    {
      hide Inv, WellFormed, MoreLoaded;
      ghost var c0 := Now();
      MoreLoadedReflexive(table.rows, c0);
      var todo := fileIds;
      while todo != {}
        invariant todo <= fileIds && fileIds - todo <= files.Keys
        invariant Inv(db, Now(), todo, {}, {}) && MoreLoaded(table.rows, c0, Now())
        decreases todo
      {
        var f :| f in todo;
        ghost var c1 := Now();
        UpdateFileProgress(f, true, todo, {}, {});
        MoreLoadedTransitive(table.rows, c0, c1, Now());
        FilesStay(table.rows, c1, Now());
        todo := todo - {f};
      }
    }

    method RegisterFoundFiles(ch: string)
      requires Inv(db, Now(), {}, {}, {}) && FilesWith(db, ch) != {}
      modifies this`chunkParents
      ensures Inv(db, Now(), {}, {}, {})
      ensures ch in chunkParents && FilesWith(db, ch) <= chunkParents[ch]
    {
      hide FilesInv, DirInv, StatusesTrue;
      ghost var c := Now();
      var fileIds := FilesWith(db, ch);
      var todo := fileIds;
      while todo != {}
        invariant todo <= fileIds
        invariant ParentsTrue(db, chunkParents, fileParents, dirParents)
        invariant MoreParents(c.chunkParents, chunkParents)
        invariant fileIds - todo <= Of(chunkParents, ch)
        decreases todo
      {
        var f :| f in todo;
        RegisterMeaning(chunkParents, ch, f);
        chunkParents := Register(chunkParents, ch, f);
        todo := todo - {f};
      }
      RegisteredChunksKeepInv(db, c, chunkParents);
    }

    /** `getDirProgress`: loads the directory if it was never seen, and rounds. */
    method GetDirProgress(d: string) returns (total: nat, done: int)
      requires GoodDb() && Inv(db, Now(), {}, {}, {})
      modifies this
      ensures Inv(db, Now(), {}, {}, {}) && d in dirs
      ensures d in old(dirs) ==> Now() == old(Now())
      ensures total == SumSizes(Kids(db, d)) && done == (dirs[d].progress * total as real + 0.5).Floor
      ensures !dirs[d].failed ==> 0 <= done <= total && (dirs[d].uploaded ==> done == total)
      ensures MoreLoaded(table.rows, old(Now()), Now())
    {
      hide Inv, WellFormed, MoreStatuses;
      MoreLoadedReflexive(table.rows, Now());
      if d !in dirs {
        UpdateDirProgress(d, true, {}, {}, {});
        assert {} - {d} == {};
      }
      DirSizeIsSum(db, Now(), d);
      if !dirs[d].failed {
        ProgressNeverDecreases(db, rank, top, Now(), Now(), d);
        ShareOfSize(dirs[d].progress, dirs[d].dirSize);
      }
      total := dirs[d].dirSize;
      done := (dirs[d].progress * total as real + 0.5).Floor;
    }
  }

  /** The files that have a chunk, by the FileMap table. */
  function FilesWith(db: Db, ch: string): set<string> {
    set f | f in db.fileMaps && ch in FileChunks(db, f)
  }

  lemma DirSizeIsSum(db: Db, c: Caches, d: string)
    requires Inv(db, c, {}, {}, {}) && d in c.dirs
    ensures c.dirs[d].dirSize == SumSizes(Kids(db, d))
    ensures c.dirs[d].uploaded && !c.dirs[d].failed ==> c.dirs[d].progress == 1.0
  {
    hide TallyKids, FilesInv, ParentsTrue, StatusesTrue, SumSizes;
    LoadedDirInv(db, c, d);
  }

  lemma ShareOfSize(p: real, n: nat)
    requires 0.0 <= p <= 1.0
    ensures 0 <= (p * n as real + 0.5).Floor <= n
    ensures p == 1.0 ==> (p * n as real + 0.5).Floor == n
  {
    var x := n as real;
    assert x - p * x == (1.0 - p) * x >= 0.0;
  }

  lemma FilesWithRows(db: Db, ch: string)
    ensures forall f :: f in FilesWith(db, ch) <==> f in db.fileMaps && ch in db.fileMaps[f]
  {
  }

  lemma RankBounds(db: Db, rank: string -> nat, top: nat)
    requires WellFormed(db, rank, top)
    ensures forall d :: rank(d) <= top
  {
  }

  lemma ParentsOf(db: Db, c: Caches, df: set<string>, dd: set<string>, loading: set<string>)
    requires Inv(db, c, df, dd, loading)
    ensures ParentsTrue(db, c.chunkParents, c.fileParents, c.dirParents)
  {
  }

  ghost predicate ListedSoFar(e: DirEntry, kids: seq<Child>, i: nat)
    requires i <= |kids|
  {
    && !e.uploaded && !e.failed && |e.ids| == i && e.dirSize == SumSizes(kids)
    && (forall j :: 0 <= j < i ==> e.ids[j] == kids[j].id)
    && (forall j :: 0 <= j < i ==> kids[j].id in e.isDir && e.isDir[kids[j].id] == kids[j].isDir)
  }

  lemma ListNext(db: Db, d: string, e: DirEntry, i: nat, rank: string -> nat, top: nat)
    requires WellFormed(db, rank, top) && i < |Kids(db, d)| && ListedSoFar(e, Kids(db, d), i)
    ensures var k := Kids(db, d)[i];
      ListedSoFar(e.(ids := e.ids + [k.id], isDir := e.isDir[k.id := k.isDir]), Kids(db, d), i + 1)
  {
  }

  lemma LoadingEntryGrows(c0: Caches, c1: Caches, d: string, e: DirEntry)
    requires Grows(c0, c1) && d !in c0.dirs
    ensures Grows(c0, c1.(dirs := c1.dirs[d := e]))
  {
  }

  lemma LoadedSoFar(c1: Caches, c2: Caches, c3: Caches, d: string, e: DirEntry, kids: seq<Child>, i: nat)
    requires c2 == c1.(dirs := c1.dirs[d := e]) && Grows(c2, c3) && i < |kids|
    requires KidsLoaded(c1, kids[..i]) && Registered(c1, d, kids[..i])
    requires KidLoaded(c3, kids[i]) && d in Of(if kids[i].isDir then c3.dirParents else c3.fileParents, kids[i].id)
    ensures d in c3.dirs && c3.dirs[d] == e
    ensures KidsLoaded(c3, kids[..i + 1]) && Registered(c3, d, kids[..i + 1])
  {
    forall k | k in kids[..i + 1]
      ensures KidLoaded(c3, k) && d in Of(if k.isDir then c3.dirParents else c3.fileParents, k.id)
    {
      if k != kids[i] {
        assert k in kids[..i];
        assert Of(c2.dirParents, k.id) <= Of(c3.dirParents, k.id);
        assert Of(c2.fileParents, k.id) <= Of(c3.fileParents, k.id);
      }
    }
  }

  lemma GrowsReflexive(c: Caches)
    ensures Grows(c, c)
  {
  }

  lemma RegisterDirKeepsInv(db: Db, c: Caches, k: Child, d: string,
                            df: set<string>, dd: set<string>, loading: set<string>)
    requires Inv(db, c, df, dd, loading) && k in Kids(db, d) && k.isDir
    ensures var c' := c.(dirParents := Register(c.dirParents, k.id, d));
      Inv(db, c', df, dd, loading) && Grows(c, c') && d in Of(c'.dirParents, k.id)
  {
    hide FilesInv, DirInv, StatusesTrue, Register, Of;
    RegisterMeaning(c.dirParents, k.id, d);
    RegisteringKeepsInv(db, c, c.fileParents, Register(c.dirParents, k.id, d), df, dd, loading);
  }

  lemma RegisterFileKeepsInv(db: Db, c: Caches, k: Child, d: string,
                             df: set<string>, dd: set<string>, loading: set<string>)
    requires Inv(db, c, df, dd, loading) && k in Kids(db, d) && !k.isDir
    ensures var c' := c.(fileParents := Register(c.fileParents, k.id, d));
      Inv(db, c', df, dd, loading) && Grows(c, c') && d in Of(c'.fileParents, k.id)
  {
    hide FilesInv, DirInv, StatusesTrue, Register, Of;
    RegisterMeaning(c.fileParents, k.id, d);
    RegisteringKeepsInv(db, c, Register(c.fileParents, k.id, d), c.dirParents, df, dd, loading);
  }

  lemma MoreLoadedReflexive(rows: map<string, ChunkStatus>, c: Caches)
    ensures MoreLoaded(rows, c, c)
  {
  }

  lemma ParentsDoNotMatter(rows: map<string, ChunkStatus>, c: Caches, chunkParents: Parents)
    ensures MoreLoaded(rows, c, c.(chunkParents := chunkParents))
  {
  }

  lemma MoreLoadedTransitive(rows: map<string, ChunkStatus>, a: Caches, b: Caches, c: Caches)
    requires MoreLoaded(rows, a, b) && MoreLoaded(rows, b, c)
    ensures MoreLoaded(rows, a, c)
  {
  }

  lemma StaysCompleted(rows: map<string, ChunkStatus>, c: Caches, c': Caches, ch: string)
    requires MoreLoaded(rows, c, c') && ch in c.chunks
    ensures ch in c'.chunks && c'.chunks[ch] == c.chunks[ch]
  {
  }

  lemma RegisteredChunksKeepInv(db: Db, c: Caches, chunkParents: Parents)
    requires Inv(db, c, {}, {}, {}) && MoreParents(c.chunkParents, chunkParents)
    requires ParentsTrue(db, chunkParents, c.fileParents, c.dirParents)
    ensures Inv(db, c.(chunkParents := chunkParents), {}, {}, {})
  {
    hide FilesInv, DirInv, FileShape, FileFresh, ParentsTrue, StatusesTrue;
    var none: set<string> := {};
    GrowthKeepsInv(db, c, c.(chunkParents := chunkParents), none, none, none, none, none);
    assert none + none == none;
  }

  /** A status that was not cached before is the one in the table. */
  ghost predicate FromTable(rows: map<string, ChunkStatus>, chunks: map<string, ChunkStatus>,
                            chunks': map<string, ChunkStatus>) {
    forall ch :: ch in chunks' && ch !in chunks ==> ch in rows && chunks'[ch] == rows[ch]
  }

  /** No file recovers from a failure. */
  ghost predicate FailedStay(files: map<string, FileEntry>, files': map<string, FileEntry>) {
    forall f :: f in files && files[f].failed ==> f in files' && files'[f].failed
  }

  /** Loaded entries stay loaded, failed files stay failed, the cached status of a chunk
      stays what it is, new ones are those of the table, and only chunks that are cached as
      FAILED are recorded as such. */
  ghost predicate MoreLoaded(rows: map<string, ChunkStatus>, c: Caches, c': Caches) {
    && c.files.Keys <= c'.files.Keys && c.dirs.Keys <= c'.dirs.Keys && FailedStay(c.files, c'.files)
    && MoreStatuses(c.chunks, c'.chunks) && FromTable(rows, c.chunks, c'.chunks)
    && MoreSeen(c.sawFailed, c'.sawFailed, c'.chunks)
  }

  lemma InvRemembers(db: Db, c: Caches, df: set<string>, dd: set<string>, loading: set<string>)
    requires Inv(db, c, df, dd, loading)
    ensures SeenTrue(c.chunks, c.sawFailed)
  {
  }

  lemma LoadedKeeps(rows: map<string, ChunkStatus>, c: Caches, c': Caches)
    requires Grows(c, c') && FromTable(rows, c.chunks, c'.chunks)
    ensures MoreLoaded(rows, c, c')
  {
  }

  lemma SameStatuses(rows: map<string, ChunkStatus>, chunks: map<string, ChunkStatus>)
    ensures FromTable(rows, chunks, chunks)
  {
  }

  lemma ComputedFileKeeps(rows: map<string, ChunkStatus>, c: Caches, c': Caches, f: string)
    requires MoreLoaded(rows, c, c') && f in c'.files && !c'.files[f].failed
    ensures MoreLoaded(rows, c, ComputeFile(c', f))
  {
    hide RecomputeFile, Mark, FromTable, MoreStatuses, MoreSeen;
  }

  lemma DirEntryKeeps(rows: map<string, ChunkStatus>, c: Caches, c': Caches, d: string, e: DirEntry)
    requires MoreLoaded(rows, c, c')
    ensures MoreLoaded(rows, c, c'.(dirs := c'.dirs[d := e]))
  {
  }

  lemma FilesStay(rows: map<string, ChunkStatus>, c: Caches, c': Caches)
    requires MoreLoaded(rows, c, c')
    ensures c.files.Keys <= c'.files.Keys
  {
  }

  lemma FileChunksAre(db: Db, c: Caches, f: string, df: set<string>, dd: set<string>, loading: set<string>)
    requires Inv(db, c, df, dd, loading) && f in c.files
    ensures c.files[f].chunkIds == FileChunks(db, f)
  {
  }

  function Counter(counters: map<ChunkStatus, nat>, s: ChunkStatus): nat {
    if s in counters then counters[s] else 0
  }

  /** The counters are those of the statuses cached for these chunks. */
  ghost predicate Counted(counters: map<ChunkStatus, nat>, chunks: map<string, ChunkStatus>, ids: seq<string>) {
    forall s :: Counter(counters, s) == Count(chunks, ids, s)
  }

  lemma NothingCounted(chunks: map<string, ChunkStatus>)
    ensures Counted(map[], chunks, [])
  {
  }

  lemma AddedStatus(chunks: map<string, ChunkStatus>, ch: string, s: ChunkStatus, ids: seq<string>)
    requires forall x :: x in ids ==> x in chunks
    requires ch !in chunks
    ensures forall t :: Count(chunks[ch := s], ids, t) == Count(chunks, ids, t)
  {
    forall t ensures Count(chunks[ch := s], ids, t) == Count(chunks, ids, t) {
      CountAgrees(chunks[ch := s], chunks, ids, t);
    }
  }

  lemma CountNext(counters: map<ChunkStatus, nat>, chunks: map<string, ChunkStatus>, ids: seq<string>, i: nat)
    requires i < |ids| && ids[i] in chunks && Counted(counters, chunks, ids[..i])
    ensures var s := chunks[ids[i]]; Counted(counters[s := Counter(counters, s) + 1], chunks, ids[..i + 1])
  {
    assert ids[..i + 1][..i] == ids[..i];
    var s := chunks[ids[i]];
    var more := counters[s := Counter(counters, s) + 1];
    forall t ensures Counter(more, t) == Count(chunks, ids[..i + 1], t) {
      assert Counter(counters, t) == Count(chunks, ids[..i], t);
    }
  }
}
