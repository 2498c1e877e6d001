/** Upload progress (`src/client/storage/progress.ts`): what the caches hold, what a
    recomputation from the children gives, and the invariant that relates them.

    The methods that load, recompute and propagate in place are in `ProgressTracker`. */
module Progress {
  import opened Common

  datatype FileEntry = FileEntry(uploaded: bool, failed: bool, progress: real, chunkIds: seq<string>)
  datatype DirEntry = DirEntry(uploaded: bool, failed: bool, progress: real,
                               ids: seq<string>, isDir: map<string, bool>, totalChunks: nat, dirSize: nat)

  /** A row of DirMap, without its directory. */
  datatype Child = Child(id: string, isDir: bool, size: nat)

  /** The FileMap and DirMap tables, and what the File table had marked COMPLETED before. */
  datatype Db = Db(fileMaps: map<string, seq<string>>, dirMaps: map<string, seq<Child>>,
                   doneFiles: set<string>, doneDirs: set<string>)

  datatype UlStatus = UlPending | UlCompleted | UlFailed

  type Parents = map<string, set<string>>

  /** The caches; and, for the record, the chunks that were ever cached as FAILED. */
  datatype Caches = Caches(files: map<string, FileEntry>, dirs: map<string, DirEntry>,
                           chunks: map<string, ChunkStatus>,
                           chunkParents: Parents, fileParents: Parents, dirParents: Parents,
                           fileStatus: map<string, UlStatus>, dirStatus: map<string, UlStatus>,
                           sawFailed: set<string>)

  function FileChunks(db: Db, f: string): seq<string> {
    if f in db.fileMaps then db.fileMaps[f] else []
  }

  function Kids(db: Db, d: string): seq<Child> {
    if d in db.dirMaps then db.dirMaps[d] else []
  }

  function Of(p: Parents, id: string): set<string> {
    if id in p then p[id] else {}
  }

  function Register(p: Parents, id: string, parent: string): Parents {
    p[id := Of(p, id) + {parent}]
  }

  /** Directories are content-addressed, so a subdirectory has a smaller rank; and no
      directory has a file and a subdirectory with the same id. */
  ghost predicate WellFormed(db: Db, rank: string -> nat, top: nat) {
    && (forall d :: rank(d) <= top)
    && (forall d, k :: k in Kids(db, d) && k.isDir ==> rank(k.id) < rank(d))
    && (forall d, k, k' :: k in Kids(db, d) && k' in Kids(db, d) && k.id == k'.id ==> k.isDir == k'.isDir)
  }

  function StatusOf(m: map<string, UlStatus>, id: string): UlStatus {
    if id in m then m[id] else UlPending
  }

  /** The guarded update of the File table: FAILED never overwrites COMPLETED. */
  function Mark(m: map<string, UlStatus>, id: string, s: UlStatus): map<string, UlStatus> {
    if s.UlFailed? && StatusOf(m, id).UlCompleted? then m else m[id := s]
  }

  // ------------------------------------------------------------------- one file

  /** `counters[status]` after the loop over the chunk ids. */
  function Count(chunks: map<string, ChunkStatus>, ids: seq<string>, s: ChunkStatus): nat {
    if ids == [] then 0
    else
      var last := ids[|ids| - 1];
      Count(chunks, ids[..|ids| - 1], s) + (if last in chunks && chunks[last] == s then 1 else 0)
  }

  function Ratio(done: real, total: nat): real {
    if total == 0 then 0.0 else done / total as real
  }

  /** What `updateFileProgress` makes of a file that is neither uploaded nor failed. */
  function RecomputeFile(e: FileEntry, chunks: map<string, ChunkStatus>): FileEntry {
    var total := |e.chunkIds|;
    var done := Count(chunks, e.chunkIds, Completed);
    if Count(chunks, e.chunkIds, Failed) > 0 then e.(uploaded := false, failed := true)
    else if total > 0 && done == total then e.(uploaded := true, failed := false, progress := 1.0)
    else e.(progress := Ratio(done as real, total))
  }

  // -------------------------------------------------------------- one directory

  predicate KidLoaded(c: Caches, k: Child) {
    if k.isDir then k.id in c.dirs else k.id in c.files
  }

  function KidFailed(c: Caches, k: Child): bool
    requires KidLoaded(c, k)
  {
    if k.isDir then c.dirs[k.id].failed else c.files[k.id].failed
  }

  function KidUploaded(c: Caches, k: Child): bool
    requires KidLoaded(c, k)
  {
    if k.isDir then c.dirs[k.id].uploaded else c.files[k.id].uploaded
  }

  function KidTotal(c: Caches, k: Child): nat
    requires KidLoaded(c, k)
  {
    if k.isDir then c.dirs[k.id].totalChunks else |c.files[k.id].chunkIds|
  }

  function KidProgress(c: Caches, k: Child): real
    requires KidLoaded(c, k)
  {
    if k.isDir then c.dirs[k.id].progress else c.files[k.id].progress
  }

  function Weighted(n: nat, p: real): real { n as real * p }

  /** The counters of the loop in `updateDirProgress`. */
  datatype Tally = Tally(uploadedFiles: nat, failedFiles: nat, totalFiles: nat, uploadedChunks: real, totalChunks: nat)

  function TallyOne(t: Tally, failed: bool, uploaded: bool, total: nat, progress: real): Tally {
    Tally(t.uploadedFiles + (if uploaded then 1 else 0), t.failedFiles + (if failed then 1 else 0),
          t.totalFiles + 1, t.uploadedChunks + Weighted(total, progress), t.totalChunks + total)
  }

  function TallyKids(c: Caches, kids: seq<Child>): Tally
    requires forall k :: k in kids ==> KidLoaded(c, k)
  {
    if kids == [] then Tally(0, 0, 0, 0.0, 0)
    else
      var k := kids[|kids| - 1];
      TallyOne(TallyKids(c, kids[..|kids| - 1]), KidFailed(c, k), KidUploaded(c, k), KidTotal(c, k), KidProgress(c, k))
  }

  /** What `updateDirProgress` makes of a loaded directory that is not uploaded. */
  function RecomputeDir(e: DirEntry, t: Tally): DirEntry {
    if t.failedFiles > 0 then e.(uploaded := false, failed := true, totalChunks := t.totalChunks)
    else if t.uploadedFiles == t.totalFiles then
      e.(uploaded := true, failed := false, progress := 1.0, totalChunks := t.totalChunks)
    else e.(progress := Ratio(t.uploadedChunks, t.totalChunks), totalChunks := t.totalChunks)
  }

  // -------------------------------------------------------------- the invariant

  /** Some of these chunks were cached as FAILED at some time. */
  predicate SawFailed(ids: seq<string>, saw: set<string>) {
    exists ch :: ch in ids && ch in saw
  }

  /** Some of these chunks are cached as FAILED now. */
  predicate HasFailed(ids: seq<string>, chunks: map<string, ChunkStatus>) {
    exists ch :: ch in ids && ch in chunks && chunks[ch] == Failed
  }

  /** The record misses no FAILED status. */
  ghost predicate SeenTrue(chunks: map<string, ChunkStatus>, saw: set<string>) {
    forall ch :: ch in chunks && chunks[ch] == Failed ==> ch in saw
  }

  /** The record only grows, and only by chunks that are cached as FAILED. */
  ghost predicate MoreSeen(saw: set<string>, saw': set<string>, chunks': map<string, ChunkStatus>) {
    saw <= saw' && forall ch :: ch in saw' && ch !in saw ==> ch in chunks' && chunks'[ch] == Failed
  }

  /** A file shows what its chunks give. FAILED is sticky, so of a failed file `FileShape`
      only says that one of its chunks was FAILED. */
  ghost predicate FileFresh(c: Caches, e: FileEntry) {
    e.failed ||
    (&& (forall ch :: ch in e.chunkIds ==> ch in c.chunks && c.chunks[ch] != Failed)
     && e.uploaded == (e.chunkIds != [] && Count(c.chunks, e.chunkIds, Completed) == |e.chunkIds|)
     && e.progress == if e.uploaded then 1.0
                      else Ratio(Count(c.chunks, e.chunkIds, Completed) as real, |e.chunkIds|))
  }

  ghost predicate FileShape(db: Db, c: Caches, f: string)
    requires f in c.files
  {
    var e := c.files[f];
    && e.chunkIds == FileChunks(db, f)
    && (forall ch :: ch in e.chunkIds ==> f in Of(c.chunkParents, ch))
    && (e.uploaded ==> FileFresh(c, e))
    && (e.failed ==> !e.uploaded && SawFailed(e.chunkIds, c.sawFailed))
  }

  /** A directory shows what its children show. While it is failed its progress stands still. */
  ghost predicate DirFresh(e: DirEntry, t: Tally) {
    && e.failed == (t.failedFiles > 0)
    && (e.failed ==> !e.uploaded)
    && (!e.failed ==>
          && e.uploaded == (t.uploadedFiles == t.totalFiles)
          && e.progress == if e.uploaded then 1.0 else Ratio(t.uploadedChunks, t.totalChunks))
  }

  ghost predicate KidsLoaded(c: Caches, kids: seq<Child>) {
    forall k :: k in kids ==> KidLoaded(c, k)
  }

  /** `dir_size`: the sum over the rows of DirMap. */
  function SumSizes(kids: seq<Child>): nat {
    if kids == [] then 0 else SumSizes(kids[..|kids| - 1]) + kids[|kids| - 1].size
  }

  ghost predicate Listed(e: DirEntry, kids: seq<Child>) {
    && |e.ids| == |kids| && e.dirSize == SumSizes(kids)
    && (forall i :: 0 <= i < |kids| ==> e.ids[i] == kids[i].id)
    && (forall k :: k in kids ==> k.id in e.isDir && e.isDir[k.id] == k.isDir)
  }

  /** The size of no rows, of one row, and of rows together. */
  lemma {:induction false} SumSizesLaws(a: seq<Child>, b: seq<Child>, k: Child)
    ensures SumSizes([]) == 0 && SumSizes([k]) == k.size && SumSizes(a + b) == SumSizes(a) + SumSizes(b)
  {
    assert [k][..0] == [];
    if b == [] {
      assert a + b == a;
    } else {
      assert (a + b)[..|a + b| - 1] == a + b[..|b| - 1];
      SumSizesLaws(a, b[..|b| - 1], k);
    }
  }

  ghost predicate Registered(c: Caches, d: string, kids: seq<Child>) {
    forall k :: k in kids ==> d in Of(if k.isDir then c.dirParents else c.fileParents, k.id)
  }

  ghost predicate DirShape(db: Db, c: Caches, d: string)
    requires d in c.dirs
  {
    var e, kids := c.dirs[d], Kids(db, d);
    && Listed(e, kids) && KidsLoaded(c, kids) && Registered(c, d, kids)
    && e.totalChunks == TallyKids(c, kids).totalChunks
    && (e.uploaded ==> DirFresh(e, TallyKids(c, kids)))
    && (e.failed ==> !e.uploaded && TallyKids(c, kids).failedFiles > 0)
  }

  ghost predicate HasKid(db: Db, d: string, id: string, isDir: bool) {
    exists k :: k in Kids(db, d) && k.id == id && k.isDir == isDir
  }

  /** Only true parents are ever registered. */
  ghost predicate ParentsTrue(db: Db, chunkParents: Parents, fileParents: Parents, dirParents: Parents) {
    && (forall ch, f :: f in Of(chunkParents, ch) ==> ch in FileChunks(db, f))
    && (forall f, d :: d in Of(fileParents, f) ==> HasKid(db, d, f, false))
    && (forall s, d :: d in Of(dirParents, s) ==> HasKid(db, d, s, true))
  }

  /** The File table shows COMPLETED for what was so before and for what the caches hold
      as uploaded, and for nothing else; FAILED is recorded unless COMPLETED was first. */
  ghost predicate StatusesTrue(db: Db, files: map<string, FileEntry>, dirs: map<string, DirEntry>,
                               fileStatus: map<string, UlStatus>, dirStatus: map<string, UlStatus>)
  {
    && (forall f :: StatusOf(fileStatus, f).UlCompleted? <==> f in db.doneFiles || (f in files && files[f].uploaded))
    && (forall d :: StatusOf(dirStatus, d).UlCompleted? <==> d in db.doneDirs || (d in dirs && dirs[d].uploaded))
    && (forall f :: f in files && files[f].failed ==> !StatusOf(fileStatus, f).UlPending?)
    && (forall d :: d in dirs && dirs[d].failed ==> !StatusOf(dirStatus, d).UlPending?)
  }

  ghost predicate Statuses(db: Db, c: Caches) {
    StatusesTrue(db, c.files, c.dirs, c.fileStatus, c.dirStatus)
  }

  ghost predicate FilesInv(db: Db, c: Caches, df: set<string>) {
    forall f :: f in c.files ==> FileShape(db, c, f) && (f !in df ==> FileFresh(c, c.files[f]))
  }

  ghost predicate DirInv(db: Db, c: Caches, d: string, dd: set<string>, loading: set<string>)
    requires d in c.dirs
  {
    && DirShape(db, c, d)
    && (forall k :: k in Kids(db, d) && k.isDir ==> k.id !in loading)
    && (d !in dd ==> DirFresh(c.dirs[d], TallyKids(c, Kids(db, d))))
  }

  /** The invariant, up to files `df` and directories `dd` that await recomputation, and
      directories `loading` whose entries are still being filled. */
  ghost predicate Inv(db: Db, c: Caches, df: set<string>, dd: set<string>, loading: set<string>) {
    && ParentsTrue(db, c.chunkParents, c.fileParents, c.dirParents) && Statuses(db, c) && FilesInv(db, c, df)
    && SeenTrue(c.chunks, c.sawFailed)
    && (forall d :: d in c.dirs && d !in loading ==> DirInv(db, c, d, dd, loading))
  }

  /** What loading may do: add entries, registrations and chunk statuses. */
  ghost predicate Grows(c: Caches, c': Caches) {
    && (forall f :: f in c.files ==> f in c'.files && c'.files[f] == c.files[f])
    && (forall d :: d in c.dirs ==> d in c'.dirs && c'.dirs[d] == c.dirs[d])
    && (forall ch :: ch in c.chunks ==> ch in c'.chunks && c'.chunks[ch] == c.chunks[ch])
    && (forall x :: Of(c.chunkParents, x) <= Of(c'.chunkParents, x))
    && (forall x :: Of(c.fileParents, x) <= Of(c'.fileParents, x))
    && (forall x :: Of(c.dirParents, x) <= Of(c'.dirParents, x))
    && MoreSeen(c.sawFailed, c'.sawFailed, c'.chunks)
  }

  // ------------------------------------------------- how the pieces of it change

  lemma {:induction false} CountAgrees(a: map<string, ChunkStatus>, b: map<string, ChunkStatus>,
                                       ids: seq<string>, s: ChunkStatus)
    requires forall ch :: ch in ids ==> ch in a && ch in b && a[ch] == b[ch]
    ensures Count(a, ids, s) == Count(b, ids, s)
  {
    if ids == [] {
    } else {
      CountAgrees(a, b, ids[..|ids| - 1], s);
    }
  }

  lemma {:induction false} CountZero(chunks: map<string, ChunkStatus>, ids: seq<string>, s: ChunkStatus)
    ensures Count(chunks, ids, s) <= |ids|
    ensures Count(chunks, ids, s) == 0 <==> forall ch :: ch in ids && ch in chunks ==> chunks[ch] != s
    ensures Count(chunks, ids, s) == |ids| <==> forall ch :: ch in ids ==> ch in chunks && chunks[ch] == s
  {
    if ids == [] {
    } else {
      var front := ids[..|ids| - 1];
      CountZero(chunks, front, s);
      assert forall ch :: ch in ids <==> ch in front || ch == ids[|ids| - 1];
    }
  }

  /** The tally reads nothing but the entries of the children. */
  lemma {:induction false} TallyAgrees(c: Caches, c': Caches, kids: seq<Child>)
    requires KidsLoaded(c, kids) && KidsLoaded(c', kids)
    requires forall k :: k in kids ==>
      if k.isDir then c.dirs[k.id] == c'.dirs[k.id] else c.files[k.id] == c'.files[k.id]
    ensures TallyKids(c, kids) == TallyKids(c', kids)
  {
    if kids == [] {
    } else {
      var front := kids[..|kids| - 1];
      assert forall k :: k in front ==> k in kids;
      TallyAgrees(c, c', front);
    }
  }

  lemma FileFreshAgrees(c: Caches, c': Caches, e: FileEntry)
    requires FileFresh(c, e) && Grows(c, c')
    ensures FileFresh(c', e)
  {
    if !e.failed {
      CountAgrees(c.chunks, c'.chunks, e.chunkIds, Completed);
    }
  }

  lemma InvWeaken(db: Db, c: Caches, df: set<string>, dd: set<string>, df': set<string>, dd': set<string>,
                  loading: set<string>)
    requires Inv(db, c, df, dd, loading) && df <= df' && dd <= dd'
    ensures Inv(db, c, df', dd', loading)
  {
  }

  lemma {:induction false} TallyMeaning(c: Caches, kids: seq<Child>)
    requires KidsLoaded(c, kids)
    ensures var t := TallyKids(c, kids);
      && t.totalFiles == |kids| && t.uploadedFiles <= |kids|
      && (t.uploadedFiles == |kids| <==> forall k :: k in kids ==> KidUploaded(c, k))
      && (t.failedFiles > 0 <==> exists k :: k in kids && KidFailed(c, k))
  {
    if kids == [] {
    } else {
      var front, last := kids[..|kids| - 1], kids[|kids| - 1];
      assert forall k :: k in kids <==> k in front || k == last;
      TallyMeaning(c, front);
    }
  }

  lemma {:induction false} TallyTotalAgrees(c: Caches, c': Caches, kids: seq<Child>)
    requires KidsLoaded(c, kids) && KidsLoaded(c', kids)
    requires forall k :: k in kids ==> KidTotal(c, k) == KidTotal(c', k)
    ensures TallyKids(c, kids).totalChunks == TallyKids(c', kids).totalChunks
  {
    if kids == [] {
    } else {
      var front := kids[..|kids| - 1];
      assert forall k :: k in front ==> k in kids;
      TallyTotalAgrees(c, c', front);
    }
  }

  // --------------------------------------------------------------- loading keeps it

  lemma GrowthKeepsDir(db: Db, c: Caches, c': Caches, d: string)
    requires Grows(c, c') && d in c.dirs && DirShape(db, c, d)
    ensures DirShape(db, c', d)
    ensures TallyKids(c', Kids(db, d)) == TallyKids(c, Kids(db, d))
  {
    var kids := Kids(db, d);
    TallyAgrees(c, c', kids);
  }

  /** Growing the caches keeps the invariant for all that was loaded before. */
  lemma GrowthKeepsInv(db: Db, c: Caches, c': Caches, df: set<string>, dd: set<string>, loading: set<string>,
                       newFiles: set<string>, newDirs: set<string>)
    requires Inv(db, c, df, dd, loading) && Grows(c, c')
    requires ParentsTrue(db, c'.chunkParents, c'.fileParents, c'.dirParents) && Statuses(db, c')
    requires SeenTrue(c'.chunks, c'.sawFailed)
    requires c'.files.Keys == c.files.Keys + newFiles && c'.dirs.Keys == c.dirs.Keys + newDirs
    requires newFiles !! c.files.Keys && newDirs !! c.dirs.Keys
    requires forall f :: f in newFiles ==> FileShape(db, c', f)
    ensures Inv(db, c', df + newFiles, dd, loading + newDirs)
  {
    hide TallyKids, DirFresh, ParentsTrue, StatusesTrue, FileFresh;
    forall f | f in c.files
      ensures FileShape(db, c', f) && (f !in df ==> FileFresh(c', c'.files[f]))
    {
      if f !in df || c.files[f].uploaded {
        FileFreshAgrees(c, c', c.files[f]);
      }
    }
    forall d | d in c.dirs && d !in loading
      ensures DirInv(db, c', d, dd, loading + newDirs)
    {
      GrowthKeepsDir(db, c, c', d);
    }
  }

  // ---------------------------------------------------------- recomputing keeps it

  ghost predicate SameKid(c: Caches, c': Caches, k: Child) {
    && KidLoaded(c, k) && KidLoaded(c', k)
    && if k.isDir then c.dirs[k.id] == c'.dirs[k.id] else c.files[k.id] == c'.files[k.id]
  }

  /** An entry only moves towards uploaded or failed, and keeps its number of chunks. */
  ghost predicate KidAdvances(c: Caches, c': Caches, k: Child) {
    && KidLoaded(c, k) && KidLoaded(c', k)
    && KidTotal(c', k) == KidTotal(c, k)
    && (KidFailed(c, k) ==> KidFailed(c', k))
    && (KidUploaded(c, k) ==> SameKid(c, c', k))
  }

  lemma OtherDirKeepsShape(db: Db, c: Caches, c': Caches, d: string)
    requires d in c.dirs && d in c'.dirs && c'.dirs[d] == c.dirs[d] && DirShape(db, c, d)
    requires c.files.Keys <= c'.files.Keys && c.dirs.Keys <= c'.dirs.Keys
    requires c'.fileParents == c.fileParents && c'.dirParents == c.dirParents
    requires forall k :: k in Kids(db, d) ==> KidAdvances(c, c', k)
    ensures DirShape(db, c', d)
    ensures (forall k :: k in Kids(db, d) ==> SameKid(c, c', k)) ==>
              TallyKids(c', Kids(db, d)) == TallyKids(c, Kids(db, d))
  {
    var kids := Kids(db, d);
    TallyTotalAgrees(c, c', kids);
    TallyMeaning(c, kids);
    TallyMeaning(c', kids);
    if forall k :: k in kids ==> SameKid(c, c', k) {
      TallyAgrees(c, c', kids);
    }
  }

  /** The end of `updateFileProgress`: the new entry and the File row. */
  function ComputeFile(c: Caches, f: string): Caches
    requires f in c.files
  {
    var e := RecomputeFile(c.files[f], c.chunks);
    c.(files := c.files[f := e],
       fileStatus := if e.failed then Mark(c.fileStatus, f, UlFailed)
                     else if e.uploaded then Mark(c.fileStatus, f, UlCompleted)
                     else c.fileStatus)
  }

  /** The `updated` flag of `updateFileProgress`. */
  predicate FileUpdated(e: FileEntry, e': FileEntry) {
    e'.failed || e'.uploaded || e'.progress != e.progress
  }

  /** The directories whose child entry changed when the file was recomputed. */
  ghost function FileTouched(c: Caches, f: string): set<string>
    requires f in c.files
  {
    if FileUpdated(c.files[f], RecomputeFile(c.files[f], c.chunks)) then Of(c.fileParents, f) else {}
  }

  /** The places at which a chunk of that status stands. */
  function Places(chunks: map<string, ChunkStatus>, ids: seq<string>, s: ChunkStatus): set<nat> {
    set i: nat | i < |ids| && ids[i] in chunks && chunks[ids[i]] == s
  }

  lemma {:induction false} CountIsNumber(chunks: map<string, ChunkStatus>, ids: seq<string>, s: ChunkStatus)
    ensures Count(chunks, ids, s) == |Places(chunks, ids, s)|
  {
    hide Places;
    PlacesGrow(chunks, ids, s);
    if ids == [] {
    } else {
      CountIsNumber(chunks, ids[..|ids| - 1], s);
    }
  }

  lemma PlacesGrow(chunks: map<string, ChunkStatus>, ids: seq<string>, s: ChunkStatus)
    ensures ids == [] ==> Places(chunks, ids, s) == {}
    ensures ids != [] ==>
      var n := |ids| - 1;
      |Places(chunks, ids, s)| ==
        |Places(chunks, ids[..n], s)| + if ids[n] in chunks && chunks[ids[n]] == s then 1 else 0
  {
    hide Places;
    LastPlace(chunks, ids, s);
  }

  lemma LastPlace(chunks: map<string, ChunkStatus>, ids: seq<string>, s: ChunkStatus)
    ensures ids == [] ==> Places(chunks, ids, s) == {}
    ensures ids != [] ==>
      var n := |ids| - 1;
      var before := Places(chunks, ids[..n], s);
      && n !in before
      && Places(chunks, ids, s) == before + if ids[n] in chunks && chunks[ids[n]] == s then {n} else {}
  {
    if ids != [] {
      var n := |ids| - 1;
      forall i: nat ensures i in Places(chunks, ids[..n], s) <==> i < n && i in Places(chunks, ids, s) {
      }
    }
  }

  /** A directory that fails keeps the progress it had. */
  lemma FailedDirStandsStill(e: DirEntry, t: Tally)
    ensures var e' := RecomputeDir(e, t);
      && (t.failedFiles > 0 ==> e'.failed && !e'.uploaded && e'.progress == e.progress)
      && e'.dirSize == e.dirSize && e'.ids == e.ids && e'.isDir == e.isDir && e'.totalChunks == t.totalChunks
  {
  }

  /** What the entries list are the rows of the two tables. */
  lemma EntriesListRows(db: Db, c: Caches)
    requires Inv(db, c, {}, {}, {})
    ensures forall f :: f in c.files && f in db.fileMaps ==> c.files[f].chunkIds == db.fileMaps[f]
    ensures forall f :: f in c.files && f !in db.fileMaps ==> c.files[f].chunkIds == []
    ensures forall d :: d in c.dirs && d in db.dirMaps ==>
      && |c.dirs[d].ids| == |db.dirMaps[d]| && c.dirs[d].dirSize == SumSizes(db.dirMaps[d])
      && forall i :: 0 <= i < |db.dirMaps[d]| ==>
           var k := db.dirMaps[d][i];
           && c.dirs[d].ids[i] == k.id && k.id in c.dirs[d].isDir && c.dirs[d].isDir[k.id] == k.isDir
           && (if k.isDir then k.id in c.dirs else k.id in c.files)
    ensures forall d :: d in c.dirs && d !in db.dirMaps ==> c.dirs[d].ids == [] && c.dirs[d].dirSize == 0
  {
    hide TallyKids, FileFresh, DirFresh, ParentsTrue, StatusesTrue, Registered;
    forall d | d in c.dirs && d in db.dirMaps
      ensures Listed(c.dirs[d], db.dirMaps[d]) && KidsLoaded(c, db.dirMaps[d])
    {
      assert DirInv(db, c, d, {}, {});
    }
    forall d | d in c.dirs && d !in db.dirMaps ensures Listed(c.dirs[d], []) {
      assert DirInv(db, c, d, {}, {});
    }
  }

  lemma RecomputedFileIsFresh(c: Caches, e: FileEntry)
    requires !e.uploaded && !e.failed && forall ch :: ch in e.chunkIds ==> ch in c.chunks
    ensures var e' := RecomputeFile(e, c.chunks);
      && FileFresh(c, e') && (e'.failed ==> !e'.uploaded) && e'.chunkIds == e.chunkIds
      && (e'.failed <==> HasFailed(e.chunkIds, c.chunks))
      && (e'.failed ==> e'.progress == e.progress)
      && (!FileUpdated(e, e') ==> e' == e)
  {
    CountZero(c.chunks, e.chunkIds, Failed);
    CountZero(c.chunks, e.chunkIds, Completed);
  }

  /** When entries advance, every directory but those with a changed child stays as it was. */
  lemma OtherDirKeepsInv(db: Db, c: Caches, c': Caches, d: string, dd: set<string>, touched: set<string>,
                         loading: set<string>)
    requires d in c.dirs && DirInv(db, c, d, dd, loading)
    requires c'.files.Keys == c.files.Keys && c'.dirs.Keys == c.dirs.Keys && c'.dirs[d] == c.dirs[d]
    requires c'.fileParents == c.fileParents && c'.dirParents == c.dirParents
    requires forall k :: k in Kids(db, d) ==> KidAdvances(c, c', k)
    requires d !in touched ==> forall k :: k in Kids(db, d) ==> SameKid(c, c', k)
    ensures DirInv(db, c', d, dd + touched, loading)
  {
    hide TallyKids, Listed, DirFresh;
    OtherDirKeepsShape(db, c, c', d);
  }

  lemma MarkMeaning(m: map<string, UlStatus>, id: string, s: UlStatus)
    ensures var m' := Mark(m, id, s);
      && (forall x :: x != id ==> StatusOf(m', x) == StatusOf(m, x))
      && StatusOf(m', id) == if s.UlFailed? && StatusOf(m, id).UlCompleted? then UlCompleted else s
  {
  }

  lemma FileStatusKept(db: Db, c: Caches, f: string)
    requires Statuses(db, c) && f in c.files && !c.files[f].uploaded
    ensures Statuses(db, ComputeFile(c, f))
  {
  }

  lemma FilesKept(db: Db, c: Caches, f: string, df: set<string>)
    requires FilesInv(db, c, df) && f in c.files && SeenTrue(c.chunks, c.sawFailed)
    requires !c.files[f].uploaded && !c.files[f].failed
    requires forall ch :: ch in c.files[f].chunkIds ==> ch in c.chunks
    ensures FilesInv(db, ComputeFile(c, f), df - {f})
  {
    hide RecomputeFile, FileFresh, Mark;
    RecomputedFileIsFresh(c, c.files[f]);
    FreshSameChunks(c, ComputeFile(c, f));
  }

  lemma FileComputedKeepsInv(db: Db, c: Caches, f: string, df: set<string>, dd: set<string>, loading: set<string>)
    requires Inv(db, c, df, dd, loading) && f in c.files
    requires !c.files[f].uploaded && !c.files[f].failed
    requires forall ch :: ch in c.files[f].chunkIds ==> ch in c.chunks
    ensures Inv(db, ComputeFile(c, f), df - {f}, dd + FileTouched(c, f), loading)
  {
    hide RecomputeFile, TallyKids, DirFresh, FileFresh, Listed, StatusesTrue, FilesInv, Mark, ParentsTrue;
    var c' := ComputeFile(c, f);
    RecomputedFileIsFresh(c, c.files[f]);
    var touched := FileTouched(c, f);
    FileStatusKept(db, c, f);
    FilesKept(db, c, f, df);
    forall d | d in c.dirs && d !in loading
      ensures DirInv(db, c', d, dd + touched, loading)
    {
      OtherDirKeepsInv(db, c, c', d, dd, touched, loading);
    }
  }

  lemma FreshSameChunks(c: Caches, c': Caches)
    requires c'.chunks == c.chunks
    ensures forall e :: FileFresh(c', e) == FileFresh(c, e)
  {
  }

  /** The end of `updateDirProgress`: the new entry and the File row. */
  function ComputeDir(db: Db, c: Caches, d: string): Caches
    requires d in c.dirs && KidsLoaded(c, Kids(db, d))
  {
    var t := TallyKids(c, Kids(db, d));
    var e := RecomputeDir(c.dirs[d], t);
    c.(dirs := c.dirs[d := e],
       dirStatus := if e.failed then Mark(c.dirStatus, d, UlFailed)
                    else if e.uploaded then Mark(c.dirStatus, d, UlCompleted)
                    else c.dirStatus)
  }

  /** The `updated` flag of `updateDirProgress`. */
  predicate DirUpdated(e: DirEntry, e': DirEntry) {
    e'.failed || e'.uploaded || e'.progress != e.progress
  }

  ghost function DirTouched(db: Db, c: Caches, d: string): set<string>
    requires d in c.dirs && KidsLoaded(c, Kids(db, d))
  {
    if DirUpdated(c.dirs[d], RecomputeDir(c.dirs[d], TallyKids(c, Kids(db, d)))) then Of(c.dirParents, d) else {}
  }

  /** A directory that `updateDirProgress` may recompute: its children are loaded. */
  ghost predicate Ready(db: Db, c: Caches, d: string)
    requires d in c.dirs
  {
    var e, kids := c.dirs[d], Kids(db, d);
    && Listed(e, kids) && KidsLoaded(c, kids) && Registered(c, d, kids)
    && !e.uploaded && (e.failed ==> TallyKids(c, kids).failedFiles > 0)
  }

  lemma DirStatusKept(db: Db, c: Caches, d: string)
    requires Statuses(db, c) && d in c.dirs && Ready(db, c, d)
    ensures Statuses(db, ComputeDir(db, c, d))
  {
    hide TallyKids, Ratio, Listed, Registered, Mark, StatusOf;
    MarkMeaning(c.dirStatus, d, UlFailed);
    MarkMeaning(c.dirStatus, d, UlCompleted);
  }

  lemma ComputedDirItself(db: Db, c: Caches, d: string, dd: set<string>, loading: set<string>)
    requires d in c.dirs && Ready(db, c, d)
    requires forall k :: k in Kids(db, d) && k.isDir ==> k.id !in loading && k.id != d
    ensures DirInv(db, ComputeDir(db, c, d), d, dd, loading)
  {
    hide TallyKids, Ratio;
    TallyAgrees(c, ComputeDir(db, c, d), Kids(db, d));
  }

  lemma DirKidAdvances(db: Db, c: Caches, x: string, d: string)
    requires x in c.dirs && DirShape(db, c, x) && d in c.dirs && Ready(db, c, d)
    requires c.dirs[d].totalChunks == TallyKids(c, Kids(db, d)).totalChunks
          || forall k :: k in Kids(db, x) && k.isDir ==> k.id != d
    ensures forall k :: k in Kids(db, x) ==> KidAdvances(c, ComputeDir(db, c, d), k)
    ensures x !in DirTouched(db, c, d) ==>
              forall k :: k in Kids(db, x) ==> SameKid(c, ComputeDir(db, c, d), k)
  {
    hide TallyKids, Listed, Ratio, DirFresh, Mark;
  }

  lemma FilesIgnoreDirs(db: Db, c: Caches, c': Caches, df: set<string>)
    requires FilesInv(db, c, df) && c'.files == c.files && c'.chunks == c.chunks
    requires c'.chunkParents == c.chunkParents && c'.sawFailed == c.sawFailed
    ensures FilesInv(db, c', df)
  {
  }

  lemma DirComputedKeepsInv(db: Db, c: Caches, d: string, df: set<string>, dd: set<string>, loading: set<string>,
                            rank: string -> nat, top: nat)
    requires WellFormed(db, rank, top) && Inv(db, c, df, dd, loading)
    requires d in c.dirs && Ready(db, c, d)
    requires d !in loading ==> c.dirs[d].totalChunks == TallyKids(c, Kids(db, d)).totalChunks
    requires forall k :: k in Kids(db, d) && k.isDir ==> k.id !in loading
    ensures Inv(db, ComputeDir(db, c, d), df, (dd - {d}) + DirTouched(db, c, d), loading - {d})
  {
    hide TallyKids, FileFresh, Listed, Ratio, StatusesTrue, Mark, ParentsTrue, DirShape;
    hide KidAdvances, RecomputeDir, SameKid, FilesInv, WellFormed;
    KidsNotAbove(db, d, {}, rank, top);
    var c' := ComputeDir(db, c, d);
    var touched := DirTouched(db, c, d);
    FilesIgnoreDirs(db, c, c', df);
    DirStatusKept(db, c, d);
    ComputedDirItself(db, c, d, (dd - {d}) + touched, loading - {d});
    forall x | x in c.dirs && x != d && x !in loading
      ensures DirInv(db, c', x, (dd - {d}) + touched, loading - {d})
    {
      DirKidAdvances(db, c, x, d);
      OtherDirKeepsInv(db, c, c', x, dd, touched, loading);
    }
  }

  // ------------------------------------------------------------- the other steps

  /** Directories that are not loaded, or still loading, need no recomputation. */
  lemma DropUnloaded(db: Db, c: Caches, df: set<string>, dd: set<string>, extra: set<string>, loading: set<string>)
    requires Inv(db, c, df, dd + extra, loading)
    requires forall d :: d in extra && d in c.dirs ==> d in loading
    ensures Inv(db, c, df, dd, loading)
  {
  }

  lemma UnloadedFileHasNoLoadedParent(db: Db, c: Caches, f: string, df: set<string>, dd: set<string>,
                                      loading: set<string>)
    requires Inv(db, c, df, dd, loading) && f !in c.files
    ensures forall d :: d in Of(c.fileParents, f) && d in c.dirs ==> d in loading
  {
  }

  lemma LoadingDirHasNoLoadedParent(db: Db, c: Caches, d: string, df: set<string>, dd: set<string>,
                                    loading: set<string>)
    requires Inv(db, c, df, dd, loading) && d in loading
    ensures forall p :: p in Of(c.dirParents, d) && p in c.dirs ==> p in loading
  {
  }

  lemma LoadedKids(db: Db, c: Caches, d: string)
    requires d in c.dirs && DirShape(db, c, d)
    ensures KidsLoaded(c, Kids(db, d))
  {
  }

  /** Filling the entry of a directory that is being loaded. */
  lemma LoadingEntryKeepsInv(db: Db, c: Caches, d: string, e: DirEntry, df: set<string>, dd: set<string>,
                             loading: set<string>)
    requires Inv(db, c, df, dd, loading) && d in c.dirs && d in loading
    requires !e.uploaded && !e.failed && !c.dirs[d].uploaded && !c.dirs[d].failed
    ensures Inv(db, c.(dirs := c.dirs[d := e]), df, dd, loading)
  {
    hide TallyKids, DirFresh, ParentsTrue, FileFresh, Listed, Count, StatusesTrue, DirShape;
    var c' := c.(dirs := c.dirs[d := e]);
    IdleDirStatus(db, c, d, e);
    FreshSameChunks(c, c');
    forall x | x in c.dirs && x !in loading ensures DirInv(db, c', x, dd, loading) {
      LoadedKids(db, c, x);
      OtherDirKeepsInv(db, c, c', x, dd, {}, loading);
      assert dd + {} == dd;
    }
  }

  /** A completed chunk makes exactly the files that are registered for it stale. */
  lemma ChunkCompletedKeepsInv(db: Db, c: Caches, ch: string)
    requires Inv(db, c, {}, {}, {})
    ensures Inv(db, c.(chunks := c.chunks[ch := Completed]), Of(c.chunkParents, ch), {}, {})
  {
    hide TallyKids, DirFresh, ParentsTrue, Listed, Count, Ratio, StatusesTrue;
    var c' := c.(chunks := c.chunks[ch := Completed]);
    forall f | f in c.files
      ensures FileShape(db, c', f) && (f !in Of(c.chunkParents, ch) ==> FileFresh(c', c'.files[f]))
    {
      StaleOnlyThroughChunk(c, c', c.files[f], ch);
    }
    forall d | d in c.dirs ensures DirInv(db, c', d, {}, {}) {
      TallyAgrees(c, c', Kids(db, d));
    }
  }

  lemma StaleOnlyThroughChunk(c: Caches, c': Caches, e: FileEntry, ch: string)
    requires FileFresh(c, e) && c' == c.(chunks := c.chunks[ch := Completed])
    requires e.failed ==> !e.uploaded
    ensures ch !in e.chunkIds || e.uploaded ==> FileFresh(c', e)
  {
    hide Ratio;
    if e.failed {
    } else if ch !in e.chunkIds {
      CountAgrees(c.chunks, c'.chunks, e.chunkIds, Completed);
    } else if e.uploaded {
      CountZero(c.chunks, e.chunkIds, Completed);
      CountZero(c'.chunks, e.chunkIds, Completed);
    }
  }

  ghost predicate MoreStatuses(chunks: map<string, ChunkStatus>, chunks': map<string, ChunkStatus>) {
    forall ch :: ch in chunks ==> ch in chunks' && chunks'[ch] == chunks[ch]
  }

  ghost predicate MoreParents(p: Parents, p': Parents) {
    forall x :: Of(p, x) <= Of(p', x)
  }

  lemma RegisterMeaning(p: Parents, id: string, parent: string)
    ensures forall x :: Of(Register(p, id, parent), x) == Of(p, x) + (if x == id then {parent} else {})
  {
  }

  lemma IdleFileStatus(db: Db, c: Caches, f: string, e: FileEntry)
    requires Statuses(db, c) && !e.uploaded && !e.failed && f !in c.files
    ensures StatusesTrue(db, c.files[f := e], c.dirs, c.fileStatus, c.dirStatus)
  {
  }

  lemma IdleDirStatus(db: Db, c: Caches, d: string, e: DirEntry)
    requires Statuses(db, c) && !e.uploaded && !e.failed
    requires d in c.dirs ==> !c.dirs[d].uploaded && !c.dirs[d].failed
    ensures StatusesTrue(db, c.files, c.dirs[d := e], c.fileStatus, c.dirStatus)
  {
  }

  lemma MoreStatusesKeepInv(db: Db, c: Caches, chunks: map<string, ChunkStatus>, saw: set<string>,
                            df: set<string>, dd: set<string>, loading: set<string>)
    requires Inv(db, c, df, dd, loading) && MoreStatuses(c.chunks, chunks)
    requires SeenTrue(chunks, saw) && MoreSeen(c.sawFailed, saw, chunks)
    ensures var c' := c.(chunks := chunks, sawFailed := saw); Inv(db, c', df, dd, loading) && Grows(c, c')
  {
    hide FilesInv, DirInv, FileShape, FileFresh, ParentsTrue, StatusesTrue;
    GrowthKeepsInv(db, c, c.(chunks := chunks, sawFailed := saw), df, dd, loading, {}, {});
    assert df + {} == df && loading + {} == loading;
  }

  function LoadedFile(db: Db, c: Caches, f: string, chunkParents: Parents): Caches {
    c.(files := c.files[f := FileEntry(false, false, 0.0, FileChunks(db, f))], chunkParents := chunkParents)
  }

  lemma LoadedFileKeepsInv(db: Db, c: Caches, f: string, chunkParents: Parents,
                           df: set<string>, dd: set<string>, loading: set<string>)
    requires Inv(db, c, df, dd, loading) && f !in c.files
    requires ParentsTrue(db, chunkParents, c.fileParents, c.dirParents) && MoreParents(c.chunkParents, chunkParents)
    requires forall ch :: ch in FileChunks(db, f) ==> f in Of(chunkParents, ch)
    ensures Inv(db, LoadedFile(db, c, f, chunkParents), df + {f}, dd, loading)
    ensures Grows(c, LoadedFile(db, c, f, chunkParents))
  {
    hide DirInv, FileFresh, ParentsTrue, StatusesTrue;
    IdleFileStatus(db, c, f, FileEntry(false, false, 0.0, FileChunks(db, f)));
    GrowthKeepsInv(db, c, LoadedFile(db, c, f, chunkParents), df, dd, loading, {f}, {});
    assert loading + {} == loading;
  }

  lemma RegisteringKeepsInv(db: Db, c: Caches, fileParents: Parents, dirParents: Parents,
                            df: set<string>, dd: set<string>, loading: set<string>)
    requires Inv(db, c, df, dd, loading)
    requires ParentsTrue(db, c.chunkParents, fileParents, dirParents)
    requires MoreParents(c.fileParents, fileParents) && MoreParents(c.dirParents, dirParents)
    ensures Inv(db, c.(fileParents := fileParents, dirParents := dirParents), df, dd, loading)
    ensures Grows(c, c.(fileParents := fileParents, dirParents := dirParents))
  {
    hide FilesInv, DirInv, FileShape, FileFresh, ParentsTrue, StatusesTrue, SeenTrue, Of;
    GrowthKeepsInv(db, c, c.(fileParents := fileParents, dirParents := dirParents), df, dd, loading, {}, {});
    assert df + {} == df && loading + {} == loading;
  }

  function EmptyDir(dirSize: nat): DirEntry {
    DirEntry(false, false, 0.0, [], map[], 0, dirSize)
  }

  lemma EmptyDirKeepsInv(db: Db, c: Caches, d: string, dirSize: nat,
                         df: set<string>, dd: set<string>, loading: set<string>)
    requires Inv(db, c, df, dd, loading) && d !in c.dirs
    ensures Inv(db, c.(dirs := c.dirs[d := EmptyDir(dirSize)]), df, dd, loading + {d})
    ensures Grows(c, c.(dirs := c.dirs[d := EmptyDir(dirSize)]))
  {
    hide FilesInv, DirInv, FileShape, FileFresh, ParentsTrue, StatusesTrue;
    IdleDirStatus(db, c, d, EmptyDir(dirSize));
    GrowthKeepsInv(db, c, c.(dirs := c.dirs[d := EmptyDir(dirSize)]), df, dd, loading, {}, {d});
    assert df + {} == df;
  }

  lemma GrowsTransitive(a: Caches, b: Caches, c: Caches)
    requires Grows(a, b) && Grows(b, c)
    ensures Grows(a, c)
  {
  }

  lemma SettledFileIsFresh(db: Db, c: Caches, f: string, df: set<string>, dd: set<string>, loading: set<string>)
    requires Inv(db, c, df, dd, loading) && f in c.files && (c.files[f].uploaded || c.files[f].failed)
    ensures Inv(db, c, df - {f}, dd, loading)
  {
  }

  lemma UploadedDirIsFresh(db: Db, c: Caches, d: string, df: set<string>, dd: set<string>)
    requires Inv(db, c, df, dd, {}) && d in c.dirs && c.dirs[d].uploaded
    ensures Inv(db, c, df, dd - {d}, {})
  {
  }

  lemma LoadedDirIsReady(db: Db, c: Caches, d: string, df: set<string>, dd: set<string>)
    requires Inv(db, c, df, dd, {}) && d in c.dirs && !c.dirs[d].uploaded
    ensures Ready(db, c, d) && c.dirs[d].totalChunks == TallyKids(c, Kids(db, d)).totalChunks
  {
  }

  lemma ParentsHaveGreaterRank(db: Db, c: Caches, d: string, rank: string -> nat, top: nat)
    requires WellFormed(db, rank, top) && ParentsTrue(db, c.chunkParents, c.fileParents, c.dirParents)
    ensures rank(d) <= top && forall p :: p in Of(c.dirParents, d) ==> rank(d) < rank(p) <= top
  {
  }

  lemma NewFileStepGrows(c0: Caches, c: Caches, f: string)
    requires Grows(c0, c) && f !in c0.files && f in c.files
    ensures Grows(c0, ComputeFile(c, f))
  {
  }

  lemma NewDirStepGrows(db: Db, c0: Caches, c: Caches, d: string)
    requires Grows(c0, c) && d !in c0.dirs && d in c.dirs && KidsLoaded(c, Kids(db, d))
    ensures Grows(c0, ComputeDir(db, c, d))
  {
  }

  /** Recomputing a file, for a file that was just loaded as well. */
  lemma FileStep(db: Db, c0: Caches, c: Caches, f: string, df: set<string>, dd: set<string>, loading: set<string>)
    requires Inv(db, c0, df, dd, loading) && f in c.files && c.dirs == c0.dirs && c.fileParents == c0.fileParents
    requires Inv(db, c, if f in c0.files then df else df + {f}, dd, loading) && Grows(c0, c)
    requires !c.files[f].uploaded && !c.files[f].failed
    requires forall ch :: ch in c.files[f].chunkIds ==> ch in c.chunks
    ensures Inv(db, ComputeFile(c, f), df - {f}, dd + FileTouched(c, f), loading)
    ensures f !in c0.files ==> Inv(db, ComputeFile(c, f), df - {f}, dd, loading) && Grows(c0, ComputeFile(c, f))
  {
    hide Inv, Grows, RecomputeFile, Mark;
    FileComputedKeepsInv(db, c, f, if f in c0.files then df else df + {f}, dd, loading);
    if f !in c0.files {
      assert df + {f} - {f} == df - {f};
      UnloadedFileHasNoLoadedParent(db, c0, f, df, dd, loading);
      DropUnloaded(db, ComputeFile(c, f), df - {f}, dd, FileTouched(c, f), loading);
      NewFileStepGrows(c0, c, f);
    }
  }

  /** Recomputing a directory, for a directory that was just loaded as well. */
  lemma DirStep(db: Db, c0: Caches, c: Caches, d: string, df: set<string>, dd: set<string>, loading: set<string>,
                rank: string -> nat, top: nat)
    requires WellFormed(db, rank, top) && d in c.dirs
    requires forall x :: x in loading ==> rank(d) < rank(x)
    requires d !in c0.dirs ==> Inv(db, c, df, dd, loading + {d}) && Grows(c0, c) && Ready(db, c, d)
    requires d in c0.dirs ==> c == c0 && Inv(db, c, df, dd, {}) && loading == {} && !c.dirs[d].uploaded
    ensures Ready(db, c, d)
    ensures Inv(db, ComputeDir(db, c, d), df, (dd - {d}) + DirTouched(db, c, d), loading)
    ensures d !in c0.dirs ==>
      Inv(db, ComputeDir(db, c, d), df, dd - {d}, loading) && Grows(c0, ComputeDir(db, c, d))
  {
    hide Inv, Grows, RecomputeDir, Mark, TallyKids, Listed;
    KidsNotAbove(db, d, loading, rank, top);
    if d in c0.dirs {
      LoadedDirIsReady(db, c, d, df, dd);
      DirComputedKeepsInv(db, c, d, df, dd, loading, rank, top);
      assert loading - {d} == loading;
    } else {
      var busy := loading + {d};
      DirComputedKeepsInv(db, c, d, df, dd, busy, rank, top);
      assert busy - {d} == loading;
      LoadingDirHasNoLoadedParent(db, c, d, df, dd, busy);
      NotItsOwnParent(db, c, d, df, dd, busy, rank, top);
      DropUnloaded(db, ComputeDir(db, c, d), df, dd - {d}, DirTouched(db, c, d), loading);
      NewDirStepGrows(db, c0, c, d);
    }
  }

  lemma KidsNotAbove(db: Db, d: string, loading: set<string>, rank: string -> nat, top: nat)
    requires WellFormed(db, rank, top) && forall x :: x in loading ==> rank(d) < rank(x)
    ensures forall k :: k in Kids(db, d) && k.isDir ==> k.id != d && k.id !in loading
    ensures d !in loading
  {
  }

  lemma NotItsOwnParent(db: Db, c: Caches, d: string, df: set<string>, dd: set<string>, loading: set<string>,
                        rank: string -> nat, top: nat)
    requires WellFormed(db, rank, top) && Inv(db, c, df, dd, loading)
    ensures d !in Of(c.dirParents, d)
  {
  }
}
