/** What a recomputation from scratch would give, and what the progress numbers mean:
    the caches that `ProgressTracker` maintains step by step agree with both. */
module ProgressBatch {
  import opened Common
  import opened Progress

  datatype Value = Value(failed: bool, uploaded: bool, progress: real, total: nat)

  /** The files whose FAILED flag has been set; the flag is sticky, so that it can outlast
      the FAILED status of the chunk that set it. */
  function FailedFiles(c: Caches): set<string> {
    set f | f in c.files && c.files[f].failed
  }

  // ------------------------------------------------------ recomputing from scratch

  function BatchFile(db: Db, chunks: map<string, ChunkStatus>, failed: set<string>, f: string): Value {
    var ids := FileChunks(db, f);
    var done := Count(chunks, ids, Completed);
    if f in failed then Value(true, false, 0.0, |ids|)
    else if ids != [] && done == |ids| then Value(false, true, 1.0, |ids|)
    else Value(false, false, Ratio(done as real, |ids|), |ids|)
  }

  ghost function BatchDir(db: Db, rank: string -> nat, top: nat, chunks: map<string, ChunkStatus>,
                          failed: set<string>, d: string): Value
    requires WellFormed(db, rank, top)
    decreases rank(d), 1, 0
  {
    var t := BatchTally(db, rank, top, chunks, failed, d, Kids(db, d));
    if t.failedFiles > 0 then Value(true, false, 0.0, t.totalChunks)
    else if t.uploadedFiles == t.totalFiles then Value(false, true, 1.0, t.totalChunks)
    else Value(false, false, Ratio(t.uploadedChunks, t.totalChunks), t.totalChunks)
  }

  ghost function BatchTally(db: Db, rank: string -> nat, top: nat, chunks: map<string, ChunkStatus>,
                            failed: set<string>, d: string, kids: seq<Child>): Tally
    requires WellFormed(db, rank, top) && forall k :: k in kids ==> k in Kids(db, d)
    decreases rank(d), 0, |kids|
  {
    if kids == [] then Tally(0, 0, 0, 0.0, 0)
    else
      var k := kids[|kids| - 1];
      var v := if k.isDir then BatchDir(db, rank, top, chunks, failed, k.id) else BatchFile(db, chunks, failed, k.id);
      TallyOne(BatchTally(db, rank, top, chunks, failed, d, kids[..|kids| - 1]),
               v.failed, v.uploaded, v.total, v.progress)
  }

  /** The entry shows the recomputed value. While an entry is failed the source leaves its
      progress as it was, so nothing is claimed of it. */
  predicate Shows(failed: bool, uploaded: bool, progress: real, total: nat, v: Value) {
    && failed == v.failed && total == v.total && uploaded == v.uploaded
    && (!failed ==> progress == v.progress)
  }

  lemma LoadedFileShowsBatch(db: Db, c: Caches, f: string)
    requires Inv(db, c, {}, {}, {}) && f in c.files
    ensures Shows(c.files[f].failed, c.files[f].uploaded, c.files[f].progress, |c.files[f].chunkIds|,
                  BatchFile(db, c.chunks, FailedFiles(c), f))
  {
  }

  /** Incremental equals batch: between two updates every loaded directory holds what a
      recomputation of everything below it gives, despite lazy loading, early returns and
      the `updated` gate. */
  lemma {:induction false} LoadedDirShowsBatch(db: Db, rank: string -> nat, top: nat, c: Caches, d: string)
    requires WellFormed(db, rank, top) && Inv(db, c, {}, {}, {}) && d in c.dirs
    ensures Shows(c.dirs[d].failed, c.dirs[d].uploaded, c.dirs[d].progress, c.dirs[d].totalChunks,
                  BatchDir(db, rank, top, c.chunks, FailedFiles(c), d))
    decreases rank(d), 1, 0
  {
    hide Inv, Ratio, Listed;
    LoadedDirInv(db, c, d);
    TallyShowsBatch(db, rank, top, c, d, Kids(db, d));
  }

  lemma LoadedDirInv(db: Db, c: Caches, d: string)
    requires Inv(db, c, {}, {}, {}) && d in c.dirs
    ensures DirInv(db, c, d, {}, {}) && KidsLoaded(c, Kids(db, d))
  {
  }

  lemma {:induction false} TallyShowsBatch(db: Db, rank: string -> nat, top: nat, c: Caches, d: string,
                                           kids: seq<Child>)
    requires WellFormed(db, rank, top) && Inv(db, c, {}, {}, {})
    requires KidsLoaded(c, kids) && forall k :: k in kids ==> k in Kids(db, d)
    ensures var t, b := TallyKids(c, kids), BatchTally(db, rank, top, c.chunks, FailedFiles(c), d, kids);
      && t.failedFiles == b.failedFiles && t.totalFiles == b.totalFiles && t.totalChunks == b.totalChunks
      && t.uploadedFiles == b.uploadedFiles
      && (t.failedFiles == 0 ==> t.uploadedChunks == b.uploadedChunks)
    decreases rank(d), 0, |kids|
  {
    hide Inv, Ratio, BatchDir, BatchFile, Weighted;
    if kids == [] {
    } else {
      var front, k := kids[..|kids| - 1], kids[|kids| - 1];
      assert forall x :: x in front ==> x in kids;
      TallyShowsBatch(db, rank, top, c, d, front);
      assert k in kids;
      if k.isDir {
        LoadedDirShowsBatch(db, rank, top, c, k.id);
      } else {
        LoadedFileShowsBatch(db, c, k.id);
      }
    }
  }

  /** Some file below the directory, at any depth, is failed. */
  ghost predicate FailedBelow(db: Db, rank: string -> nat, top: nat, failed: set<string>, d: string)
    requires WellFormed(db, rank, top)
    decreases rank(d)
  {
    exists k :: k in Kids(db, d) && if k.isDir then FailedBelow(db, rank, top, failed, k.id) else k.id in failed
  }

  /** A loaded directory is failed if and only if some file below it is. */
  lemma {:induction false} FailedIffSomeFileBelowFailed(db: Db, rank: string -> nat, top: nat, c: Caches, d: string)
    requires WellFormed(db, rank, top) && Inv(db, c, {}, {}, {}) && d in c.dirs
    ensures c.dirs[d].failed <==> FailedBelow(db, rank, top, FailedFiles(c), d)
    decreases rank(d)
  {
    hide Inv, Ratio, Listed, TallyKids;
    LoadedDirInv(db, c, d);
    TallyMeaning(c, Kids(db, d));
    forall k | k in Kids(db, d)
      ensures KidFailed(c, k) <==>
        if k.isDir then FailedBelow(db, rank, top, FailedFiles(c), k.id) else k.id in FailedFiles(c)
    {
      if k.isDir {
        FailedIffSomeFileBelowFailed(db, rank, top, c, k.id);
      }
    }
  }

  // ------------------------------------------------- without the sticky flags

  /** The files that a recomputation from the chunk statuses alone finds failed. */
  function FilesWithFailedChunk(db: Db, chunks: map<string, ChunkStatus>): set<string> {
    set f | f in db.fileMaps && HasFailed(FileChunks(db, f), chunks)
  }

  /** Some chunk below the directory, at any depth, was cached as FAILED at some time. */
  ghost predicate SawFailedBelow(db: Db, rank: string -> nat, top: nat, saw: set<string>, d: string)
    requires WellFormed(db, rank, top)
    decreases rank(d)
  {
    exists k :: k in Kids(db, d) &&
      if k.isDir then SawFailedBelow(db, rank, top, saw, k.id) else SawFailed(FileChunks(db, k.id), saw)
  }

  /** Between two updates a loaded file is failed if one of its chunks is FAILED now, and
      only if one of its chunks was FAILED at some time. */
  lemma FileFailedByItsChunks(db: Db, c: Caches, f: string)
    requires Inv(db, c, {}, {}, {}) && f in c.files
    ensures HasFailed(FileChunks(db, f), c.chunks) ==> c.files[f].failed
    ensures c.files[f].failed ==> SawFailed(FileChunks(db, f), c.sawFailed)
  {
    hide Count, Ratio, DirInv, ParentsTrue, StatusesTrue;
  }

  lemma FailedNowWasSeen(db: Db, c: Caches, f: string)
    requires Inv(db, c, {}, {}, {})
    ensures f in FilesWithFailedChunk(db, c.chunks) ==> SawFailed(FileChunks(db, f), c.sawFailed)
  {
    hide FilesInv, DirInv, ParentsTrue, StatusesTrue;
  }

  /** A loaded file none of whose chunks was ever FAILED is not failed, and holds what the
      statuses of its chunks alone give. */
  lemma UnfailedFileIsRecomputed(db: Db, c: Caches, f: string)
    requires Inv(db, c, {}, {}, {}) && f in c.files && !SawFailed(FileChunks(db, f), c.sawFailed)
    ensures var e := c.files[f];
      && !e.failed
      && Shows(e.failed, e.uploaded, e.progress, |e.chunkIds|,
               BatchFile(db, c.chunks, FilesWithFailedChunk(db, c.chunks), f))
  {
    hide Inv, Ratio, Count, FilesWithFailedChunk;
    FileFailedByItsChunks(db, c, f);
    FailedNowWasSeen(db, c, f);
    LoadedFileShowsBatch(db, c, f);
  }

  lemma {:induction false} FailedBelowWasSeen(db: Db, rank: string -> nat, top: nat, c: Caches, d: string)
    requires WellFormed(db, rank, top) && Inv(db, c, {}, {}, {})
    ensures FailedBelow(db, rank, top, FailedFiles(c), d) ==> SawFailedBelow(db, rank, top, c.sawFailed, d)
    ensures FailedBelow(db, rank, top, FilesWithFailedChunk(db, c.chunks), d) ==>
      SawFailedBelow(db, rank, top, c.sawFailed, d)
    decreases rank(d)
  {
    hide Inv, FilesWithFailedChunk, SawFailed;
    forall k | k in Kids(db, d)
      ensures k.isDir && FailedBelow(db, rank, top, FailedFiles(c), k.id) ==>
        SawFailedBelow(db, rank, top, c.sawFailed, k.id)
      ensures k.isDir && FailedBelow(db, rank, top, FilesWithFailedChunk(db, c.chunks), k.id) ==>
        SawFailedBelow(db, rank, top, c.sawFailed, k.id)
      ensures k.id in FailedFiles(c) || k.id in FilesWithFailedChunk(db, c.chunks) ==>
        SawFailed(FileChunks(db, k.id), c.sawFailed)
    {
      if k.isDir {
        FailedBelowWasSeen(db, rank, top, c, k.id);
      }
      FailedNowWasSeen(db, c, k.id);
      if k.id in FailedFiles(c) {
        FileFailedByItsChunks(db, c, k.id);
      }
    }
  }

  lemma {:induction false} FailedNowIsFailed(db: Db, rank: string -> nat, top: nat, c: Caches, d: string)
    requires WellFormed(db, rank, top) && Inv(db, c, {}, {}, {}) && d in c.dirs
    ensures FailedBelow(db, rank, top, FilesWithFailedChunk(db, c.chunks), d) ==>
      FailedBelow(db, rank, top, FailedFiles(c), d)
    decreases rank(d)
  {
    hide Inv, HasFailed;
    LoadedDirInv(db, c, d);
    forall k | k in Kids(db, d)
      ensures k.isDir && FailedBelow(db, rank, top, FilesWithFailedChunk(db, c.chunks), k.id) ==>
        FailedBelow(db, rank, top, FailedFiles(c), k.id)
      ensures !k.isDir && k.id in FilesWithFailedChunk(db, c.chunks) ==> k.id in FailedFiles(c)
    {
      if k.isDir {
        FailedNowIsFailed(db, rank, top, c, k.id);
      } else {
        FileFailedByItsChunks(db, c, k.id);
      }
    }
  }

  /** A loaded directory is failed if some chunk below it is FAILED now, and only if some
      chunk below it was FAILED at some time. */
  lemma DirFailedByChunksBelow(db: Db, rank: string -> nat, top: nat, c: Caches, d: string)
    requires WellFormed(db, rank, top) && Inv(db, c, {}, {}, {}) && d in c.dirs
    ensures FailedBelow(db, rank, top, FilesWithFailedChunk(db, c.chunks), d) ==> c.dirs[d].failed
    ensures c.dirs[d].failed ==> SawFailedBelow(db, rank, top, c.sawFailed, d)
  {
    hide Inv, FailedBelow, SawFailedBelow, FailedFiles, FilesWithFailedChunk;
    FailedIffSomeFileBelowFailed(db, rank, top, c, d);
    FailedBelowWasSeen(db, rank, top, c, d);
    FailedNowIsFailed(db, rank, top, c, d);
  }

  /** Two sets of failed files that hold nothing below the directory give the same value. */
  lemma {:induction false} BatchWithoutFailed(db: Db, rank: string -> nat, top: nat, chunks: map<string, ChunkStatus>,
                                              a: set<string>, b: set<string>, d: string)
    requires WellFormed(db, rank, top)
    requires !FailedBelow(db, rank, top, a, d) && !FailedBelow(db, rank, top, b, d)
    ensures BatchDir(db, rank, top, chunks, a, d) == BatchDir(db, rank, top, chunks, b, d)
    decreases rank(d), 1, 0
  {
    hide BatchTally, Ratio;
    TallyWithoutFailed(db, rank, top, chunks, a, b, d, Kids(db, d));
  }

  lemma {:induction false} TallyWithoutFailed(db: Db, rank: string -> nat, top: nat, chunks: map<string, ChunkStatus>,
                                              a: set<string>, b: set<string>, d: string, kids: seq<Child>)
    requires WellFormed(db, rank, top) && forall k :: k in kids ==> k in Kids(db, d)
    requires !FailedBelow(db, rank, top, a, d) && !FailedBelow(db, rank, top, b, d)
    ensures BatchTally(db, rank, top, chunks, a, d, kids) == BatchTally(db, rank, top, chunks, b, d, kids)
    decreases rank(d), 0, |kids|
  {
    hide BatchDir, Ratio, Weighted, Count;
    if kids == [] {
    } else {
      var front, k := kids[..|kids| - 1], kids[|kids| - 1];
      assert k in kids && forall x :: x in front ==> x in kids;
      TallyWithoutFailed(db, rank, top, chunks, a, b, d, front);
      if k.isDir {
        BatchWithoutFailed(db, rank, top, chunks, a, b, k.id);
      }
    }
  }

  /** Incremental equals batch, from the chunk statuses alone: a loaded directory below
      which no chunk was ever FAILED is not failed, and holds exactly what a recomputation
      of everything below it gives that reads nothing but the cached chunk statuses. */
  lemma IncrementalEqualsBatch(db: Db, rank: string -> nat, top: nat, c: Caches, d: string)
    requires WellFormed(db, rank, top) && Inv(db, c, {}, {}, {}) && d in c.dirs
    requires !SawFailedBelow(db, rank, top, c.sawFailed, d)
    ensures var e := c.dirs[d];
      && !e.failed
      && Shows(e.failed, e.uploaded, e.progress, e.totalChunks,
               BatchDir(db, rank, top, c.chunks, FilesWithFailedChunk(db, c.chunks), d))
  {
    hide Inv, FailedBelow, SawFailedBelow, FailedFiles, FilesWithFailedChunk, BatchDir;
    DirFailedByChunksBelow(db, rank, top, c, d);
    FailedBelowWasSeen(db, rank, top, c, d);
    LoadedDirShowsBatch(db, rank, top, c, d);
    BatchWithoutFailed(db, rank, top, c.chunks, FailedFiles(c), FilesWithFailedChunk(db, c.chunks), d);
  }

  // ------------------------------------------------------- what the sticky flags cost

  /** A loaded file holds what its chunks' statuses alone give, if and only if it is not
      failed or one of its chunks is still FAILED. */
  lemma FileShowsBatchIff(db: Db, c: Caches, f: string)
    requires Inv(db, c, {}, {}, {}) && f in c.files
    ensures var e := c.files[f];
      Shows(e.failed, e.uploaded, e.progress, |e.chunkIds|,
            BatchFile(db, c.chunks, FilesWithFailedChunk(db, c.chunks), f))
      <==> (e.failed ==> HasFailed(FileChunks(db, f), c.chunks))
  {
    hide Inv, Ratio, Count;
    FileFailedByItsChunks(db, c, f);
    LoadedFileShowsBatch(db, c, f);
    assert HasFailed(FileChunks(db, f), c.chunks) ==> f in db.fileMaps;
  }

  /** The recomputed flag of a directory says whether there is a failed file below it. */
  lemma {:induction false} BatchFailedIff(db: Db, rank: string -> nat, top: nat, chunks: map<string, ChunkStatus>,
                                          failed: set<string>, d: string)
    requires WellFormed(db, rank, top)
    ensures BatchDir(db, rank, top, chunks, failed, d).failed <==> FailedBelow(db, rank, top, failed, d)
    decreases rank(d), 1, 0
  {
    hide BatchTally, Ratio;
    BatchTallyFailed(db, rank, top, chunks, failed, d, Kids(db, d));
  }

  lemma {:induction false} BatchTallyFailed(db: Db, rank: string -> nat, top: nat, chunks: map<string, ChunkStatus>,
                                            failed: set<string>, d: string, kids: seq<Child>)
    requires WellFormed(db, rank, top) && forall k :: k in kids ==> k in Kids(db, d)
    ensures BatchTally(db, rank, top, chunks, failed, d, kids).failedFiles > 0 <==>
      exists k :: k in kids && if k.isDir then FailedBelow(db, rank, top, failed, k.id) else k.id in failed
    decreases rank(d), 0, |kids|
  {
    hide BatchDir, FailedBelow, Ratio, Weighted, Count;
    if kids == [] {
    } else {
      var front, k := kids[..|kids| - 1], kids[|kids| - 1];
      assert k in kids && kids == front + [k];
      BatchTallyFailed(db, rank, top, chunks, failed, d, front);
      if k.isDir {
        BatchFailedIff(db, rank, top, chunks, failed, k.id);
      }
    }
  }

  /** Failures do not change how many chunks there are. */
  lemma {:induction false} BatchTotal(db: Db, rank: string -> nat, top: nat, chunks: map<string, ChunkStatus>,
                                      a: set<string>, b: set<string>, d: string, kids: seq<Child>)
    requires WellFormed(db, rank, top) && forall k :: k in kids ==> k in Kids(db, d)
    ensures BatchTally(db, rank, top, chunks, a, d, kids).totalChunks
        == BatchTally(db, rank, top, chunks, b, d, kids).totalChunks
    decreases rank(d), |kids|
  {
    hide Ratio, Weighted, Count;
    if kids == [] {
    } else {
      var front, k := kids[..|kids| - 1], kids[|kids| - 1];
      assert k in kids;
      BatchTotal(db, rank, top, chunks, a, b, d, front);
      if k.isDir {
        BatchTotal(db, rank, top, chunks, a, b, k.id, Kids(db, k.id));
      }
    }
  }

  /** Incremental equals batch, exactly: a loaded directory holds what a recomputation gives
      that reads nothing but the cached chunk statuses, if and only if it is not failed, or
      some chunk below it is still FAILED. */
  lemma DirShowsBatchIff(db: Db, rank: string -> nat, top: nat, c: Caches, d: string)
    requires WellFormed(db, rank, top) && Inv(db, c, {}, {}, {}) && d in c.dirs
    ensures var e := c.dirs[d];
      Shows(e.failed, e.uploaded, e.progress, e.totalChunks,
            BatchDir(db, rank, top, c.chunks, FilesWithFailedChunk(db, c.chunks), d))
      <==> (e.failed ==> FailedBelow(db, rank, top, FilesWithFailedChunk(db, c.chunks), d))
  {
    hide Inv, FailedBelow, FailedFiles, FilesWithFailedChunk, BatchTally, Ratio;
    var now := FilesWithFailedChunk(db, c.chunks);
    FailedIffSomeFileBelowFailed(db, rank, top, c, d);
    FailedNowIsFailed(db, rank, top, c, d);
    LoadedDirShowsBatch(db, rank, top, c, d);
    BatchFailedIff(db, rank, top, c.chunks, now, d);
    if c.dirs[d].failed {
      BatchTotal(db, rank, top, c.chunks, FailedFiles(c), now, d, Kids(db, d));
    } else {
      BatchWithoutFailed(db, rank, top, c.chunks, FailedFiles(c), now, d);
    }
  }

  // -------------------------------------------------------------- counting leaves

  datatype Leaves = Leaves(done: nat, total: nat, noEmptyFile: bool)

  /** The chunks below a directory, with multiplicity: how many, how many completed, and
      whether every file below has at least one. */
  ghost function LeavesOf(db: Db, rank: string -> nat, top: nat, chunks: map<string, ChunkStatus>, d: string): Leaves
    requires WellFormed(db, rank, top)
    decreases rank(d), 1, 0
  {
    LeavesIn(db, rank, top, chunks, d, Kids(db, d))
  }

  ghost function LeavesIn(db: Db, rank: string -> nat, top: nat, chunks: map<string, ChunkStatus>,
                          d: string, kids: seq<Child>): Leaves
    requires WellFormed(db, rank, top) && forall k :: k in kids ==> k in Kids(db, d)
    decreases rank(d), 0, |kids|
  {
    if kids == [] then Leaves(0, 0, true)
    else
      var k := kids[|kids| - 1];
      var front := LeavesIn(db, rank, top, chunks, d, kids[..|kids| - 1]);
      var l := if k.isDir then LeavesOf(db, rank, top, chunks, k.id)
               else
                 var ids := FileChunks(db, k.id);
                 Leaves(Count(chunks, ids, Completed), |ids|, ids != []);
      Leaves(front.done + l.done, front.total + l.total, front.noEmptyFile && l.noEmptyFile)
  }

  /** The entry's numbers are those of its leaves. */
  ghost predicate Telescopes(uploaded: bool, progress: real, total: nat, l: Leaves) {
    && total == l.total && l.done <= l.total
    && Weighted(total, progress) == l.done as real
    && (uploaded <==> l.done == l.total && l.noEmptyFile)
  }

  lemma FileTelescopes(db: Db, c: Caches, f: string)
    requires Inv(db, c, {}, {}, {}) && f in c.files && !c.files[f].failed
    ensures var ids := FileChunks(db, f);
      Telescopes(c.files[f].uploaded, c.files[f].progress, |c.files[f].chunkIds|,
                 Leaves(Count(c.chunks, ids, Completed), |ids|, ids != []))
  {
    hide Count, DirInv, ParentsTrue, StatusesTrue;
    CountZero(c.chunks, FileChunks(db, f), Completed);
  }

  /** Nested progress telescopes exactly: for a loaded directory that is not failed,
      `progress * totalChunks` is the number of completed chunks below it, with
      multiplicity, at any depth. It reaches the total if and only if the directory is
      marked uploaded, provided that no file below it is without chunks. */
  lemma {:induction false} DirTelescopes(db: Db, rank: string -> nat, top: nat, c: Caches, d: string)
    requires WellFormed(db, rank, top) && Inv(db, c, {}, {}, {}) && d in c.dirs && !c.dirs[d].failed
    ensures Telescopes(c.dirs[d].uploaded, c.dirs[d].progress, c.dirs[d].totalChunks,
                       LeavesOf(db, rank, top, c.chunks, d))
    decreases rank(d), 1, 0
  {
    hide Inv, Listed, TallyKids, Weighted, LeavesIn;
    LoadedDirInv(db, c, d);
    var kids := Kids(db, d);
    TallyMeaning(c, kids);
    assert forall k :: k in kids ==> !KidFailed(c, k);
    KidsTelescope(db, rank, top, c, d, kids);
    var t := TallyKids(c, kids);
    WeightedRatio(t.uploadedChunks, t.totalChunks);
  }

  lemma WeightedRatio(x: real, total: nat)
    ensures Weighted(total, 1.0) == total as real
    ensures total > 0 || x == 0.0 ==> Weighted(total, Ratio(x, total)) == x
  {
  }

  lemma {:induction false} KidsTelescope(db: Db, rank: string -> nat, top: nat, c: Caches, d: string, kids: seq<Child>)
    requires WellFormed(db, rank, top) && Inv(db, c, {}, {}, {})
    requires KidsLoaded(c, kids) && forall k :: k in kids ==> k in Kids(db, d) && !KidFailed(c, k)
    ensures var t, l := TallyKids(c, kids), LeavesIn(db, rank, top, c.chunks, d, kids);
      && t.totalChunks == l.total && l.done <= l.total && t.uploadedChunks == l.done as real
      && t.uploadedFiles <= t.totalFiles == |kids|
      && (t.uploadedFiles == t.totalFiles <==> l.done == l.total && l.noEmptyFile)
    decreases rank(d), 0, |kids|
  {
    hide Inv, Weighted, LeavesOf, Count;
    if kids == [] {
    } else {
      var front, k := kids[..|kids| - 1], kids[|kids| - 1];
      assert forall x :: x in front ==> x in kids;
      KidsTelescope(db, rank, top, c, d, front);
      assert k in kids;
      if k.isDir {
        DirTelescopes(db, rank, top, c, k.id);
      } else {
        FileTelescopes(db, c, k.id);
      }
    }
  }

  lemma {:induction false} CountMonotone(a: map<string, ChunkStatus>, b: map<string, ChunkStatus>, ids: seq<string>)
    requires forall ch :: ch in a && a[ch] == Completed ==> ch in b && b[ch] == Completed
    ensures Count(a, ids, Completed) <= Count(b, ids, Completed)
  {
    if ids == [] {
    } else {
      CountMonotone(a, b, ids[..|ids| - 1]);
    }
  }

  lemma {:induction false} LeavesMonotone(db: Db, rank: string -> nat, top: nat, a: map<string, ChunkStatus>,
                                          b: map<string, ChunkStatus>, d: string, kids: seq<Child>)
    requires WellFormed(db, rank, top) && forall k :: k in kids ==> k in Kids(db, d)
    requires forall ch :: ch in a && a[ch] == Completed ==> ch in b && b[ch] == Completed
    ensures LeavesIn(db, rank, top, a, d, kids).done <= LeavesIn(db, rank, top, b, d, kids).done
    ensures LeavesIn(db, rank, top, a, d, kids).total == LeavesIn(db, rank, top, b, d, kids).total
    ensures LeavesIn(db, rank, top, a, d, kids).noEmptyFile == LeavesIn(db, rank, top, b, d, kids).noEmptyFile
    decreases rank(d), |kids|
  {
    if kids == [] {
    } else {
      var front, k := kids[..|kids| - 1], kids[|kids| - 1];
      assert k in kids;
      LeavesMonotone(db, rank, top, a, b, d, front);
      if k.isDir {
        LeavesMonotone(db, rank, top, a, b, k.id, Kids(db, k.id));
      } else {
        CountMonotone(a, b, FileChunks(db, k.id));
      }
    }
  }

  /** Without a chunk below it, a directory has all or nothing. */
  lemma NoChunksNoProgress(db: Db, c: Caches, d: string)
    requires Inv(db, c, {}, {}, {}) && d in c.dirs && !c.dirs[d].failed && c.dirs[d].totalChunks == 0
    ensures c.dirs[d].progress == if c.dirs[d].uploaded then 1.0 else 0.0
  {
    hide TallyKids, FilesInv, ParentsTrue, StatusesTrue, Listed;
    LoadedDirInv(db, c, d);
  }

  /** Progress stays between 0 and 1 and never decreases: not by a chunk completion, not by
      loading anything, not over any number of either. Of a directory without chunks it is
      constant: 1 if there is no file below it, 0 if there are only empty ones. */
  lemma ProgressNeverDecreases(db: Db, rank: string -> nat, top: nat, c: Caches, c': Caches, d: string)
    requires WellFormed(db, rank, top)
    requires Inv(db, c, {}, {}, {}) && d in c.dirs && !c.dirs[d].failed
    requires Inv(db, c', {}, {}, {}) && d in c'.dirs && !c'.dirs[d].failed
    requires forall ch :: ch in c.chunks && c.chunks[ch] == Completed ==> ch in c'.chunks && c'.chunks[ch] == Completed
    ensures c.dirs[d].totalChunks == c'.dirs[d].totalChunks
    ensures 0.0 <= c.dirs[d].progress <= c'.dirs[d].progress <= 1.0
    ensures c.dirs[d].totalChunks == 0 ==>
      c.dirs[d].progress == c'.dirs[d].progress == if LeavesOf(db, rank, top, c.chunks, d).noEmptyFile then 1.0 else 0.0
  {
    hide Inv, LeavesIn, Weighted;
    DirTelescopes(db, rank, top, c, d);
    DirTelescopes(db, rank, top, c', d);
    LeavesMonotone(db, rank, top, c.chunks, c'.chunks, d, Kids(db, d));
    var n := c.dirs[d].totalChunks;
    if n == 0 {
      NoChunksNoProgress(db, c, d);
      NoChunksNoProgress(db, c', d);
    } else {
      WeightedOrder(n, 0.0, c.dirs[d].progress);
      WeightedOrder(n, c.dirs[d].progress, c'.dirs[d].progress);
      WeightedOrder(n, c'.dirs[d].progress, 1.0);
    }
  }

  lemma WeightedOrder(n: nat, x: real, y: real)
    requires n > 0
    ensures Weighted(n, x) <= Weighted(n, y) ==> x <= y
    ensures Weighted(n, 0.0) == 0.0 && Weighted(n, 1.0) == n as real
  {
  }
}
