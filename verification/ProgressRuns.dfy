/** What the tracker's methods do one after another: failures that are never forgotten. */
module ProgressRuns {
  import opened Common
  import opened Progress
  import opened ProgressBatch
  import opened ProgressTracker

  /** What was FAILED once is not forgotten: a file is loaded while the table says that one
      of its chunks is FAILED, and then the chunk is completed; the file stays failed. */
  method CompleteAfterFailure(t: Tracker, f: string, ch: string)
    requires t.GoodDb() && Inv(t.db, t.Now(), {}, {}, {})
    requires ch in FileChunks(t.db, f) && t.table.rows[ch] == Failed && ch !in t.chunks && f !in t.files
    modifies t
    ensures Inv(t.db, t.Now(), {}, {}, {})
    ensures f in t.files && t.files[f].failed && ch in t.chunks && t.chunks[ch] == Completed
  {
    hide Inv, WellFormed;
    t.UpdateFileProgress(f, true, {}, {}, {});
    assert {} - {f} == {};
    LoadedFileFailed(t.table.rows, t.db, t.Now(), f, ch);
    var ok := t.UpdateChunkProgress(ch);
  }

  lemma LoadedFileFailed(rows: map<string, ChunkStatus>, db: Db, c: Caches, f: string, ch: string)
    requires Inv(db, c, {}, {}, {}) && f in c.files && ch in FileChunks(db, f) && ch in rows && rows[ch] == Failed
    requires ch in c.chunks ==> c.chunks[ch] == rows[ch]
    ensures c.files[f].failed
  {
    hide Count, Ratio, DirInv, ParentsTrue, StatusesTrue;
  }

  /** The input: a file of one chunk. In the end the chunk statuses alone say that the file
      is uploaded, and the entry says that it failed. */
  method CompletedAfterFailure(f: string, ch: string) returns (t: Tracker)
    ensures fresh(t) && t.db == Db(map[f := [ch]], map[], {}, {}) && Inv(t.db, t.Now(), {}, {}, {})
    ensures f in t.files && t.files[f].failed && ch in t.chunks && t.chunks[ch] == Completed
    ensures BatchFile(t.db, t.chunks, FilesWithFailedChunk(t.db, t.chunks), f) == Value(false, true, 1.0, 1)
  {
    var db := Db(map[f := [ch]], map[], {}, {});
    var table := new ChunkTable(map[ch := Failed]);
    t := new Tracker(db, table, map[], map[], _ => 0, 0);
    CompleteAfterFailure(t, f, ch);
    OneCompletedChunk(db, t.chunks, f, ch);
  }

  lemma OneCompletedChunk(db: Db, chunks: map<string, ChunkStatus>, f: string, ch: string)
    requires db.fileMaps == map[f := [ch]] && ch in chunks && chunks[ch] == Completed
    ensures BatchFile(db, chunks, FilesWithFailedChunk(db, chunks), f) == Value(false, true, 1.0, 1)
  {
    assert [ch][..0] == [] && [ch][1..] == [];
    assert Count(chunks, [ch], Completed) == 1;
  }

  /** Nor does a directory recover, whatever is loaded and completed in between. */
  lemma FailedDirStaysFailed(db: Db, rank: string -> nat, top: nat, c: Caches, c': Caches, d: string)
    requires WellFormed(db, rank, top) && Inv(db, c, {}, {}, {}) && Inv(db, c', {}, {}, {})
    requires FailedStay(c.files, c'.files) && d in c.dirs && d in c'.dirs && c.dirs[d].failed
    ensures c'.dirs[d].failed
  {
    hide Inv, FailedBelow;
    FailedIffSomeFileBelowFailed(db, rank, top, c, d);
    FailedIffSomeFileBelowFailed(db, rank, top, c', d);
    MoreFailedBelow(db, rank, top, FailedFiles(c), FailedFiles(c'), d);
  }

  lemma {:induction false} MoreFailedBelow(db: Db, rank: string -> nat, top: nat, a: set<string>, b: set<string>,
                                           d: string)
    requires WellFormed(db, rank, top) && a <= b && FailedBelow(db, rank, top, a, d)
    ensures FailedBelow(db, rank, top, b, d)
    decreases rank(d)
  {
    var k :| k in Kids(db, d) && if k.isDir then FailedBelow(db, rank, top, a, k.id) else k.id in a;
    if k.isDir {
      MoreFailedBelow(db, rank, top, a, b, k.id);
    } else {
      assert k.id in b;
    }
  }
}
