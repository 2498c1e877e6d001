/** The chunk upload protocol (`src/client/storage/uploader.ts`,
    `src/client/storage/uploadWorkers.ts`, `src/db/models/chunk.ts`,
    `src/client/storage/chunk/upload.ts`, and the file completion of
    `src/client/storage/progress.ts`). One step is what runs between two awaits, or one
    read or write of the database, so all interleavings of the loop, the uploads, the
    progress updates and restarts are runs. */
module UploadProtocol {
  import opened Common

  type Id = nat

  datatype Row = Row(status: ChunkStatus, retries: nat, expires: Option<int>)

  type Rows = map<Id, Row>

  /** `chunksOf` are the filemap rows: the chunks of each file. */
  datatype Config = Config(limit: nat, retryLimit: nat, expire: int, chunksOf: map<Id, seq<Id>>)

  // ------------------------------------------------------------------------ the rows

  /** A recorded success is never taken back, and no row is lost. */
  ghost predicate Absorbs(rows: Rows, rows': Rows) {
    forall id :: id in rows ==> id in rows' && (rows[id].status.Completed? ==> rows'[id].status.Completed?)
  }

  /** Nothing is claimed: a row that is in progress was so before, with the same expiry. */
  ghost predicate Calm(rows: Rows, rows': Rows) {
    forall id :: id in rows' && rows'[id].status.InProgress? ==> id in rows && rows'[id] == rows[id]
  }

  /** Retry counts only change where a failure is recorded. */
  ghost predicate KeepsRetries(rows: Rows, rows': Rows) {
    forall id :: id in rows' ==>
      if id in rows then rows'[id].retries == rows[id].retries && (rows'[id].status.Failed? ==> rows[id].status.Failed?)
      else rows'[id].retries == 0 && !rows'[id].status.Failed?
  }

  /** Successes that are new. */
  ghost predicate CompletesOnly(rows: Rows, rows': Rows, done: set<Id>) {
    forall id :: id in rows' && rows'[id].status.Completed? ==> id in done || (id in rows && rows[id].status.Completed?)
  }

  predicate IsExpired(row: Row, now: int) {
    row.expires.Some? && row.expires.value < now
  }

  /** The guarded claim of `uploadLoop`. */
  function Claimed(rows: Rows, id: Id, expires: int): (r: Rows)
    requires id in rows
    ensures Absorbs(rows, r) && KeepsRetries(rows, r) && CompletesOnly(rows, r, {})
    ensures forall x :: x in r && x != id ==> x in rows && r[x] == rows[x]
    ensures if rows[id].status in {Failed, Completed} then r == rows
            else r[id] == Row(InProgress, rows[id].retries, Some(expires))
  {
    var row := rows[id];
    if row.status.Failed? || row.status.Completed? then rows
    else rows[id := row.(status := InProgress, expires := Some(expires))]
  }

  /** The guarded update of `markChunkAsSuccessfulUpload`. */
  function Succeeded(rows: Rows, id: Id): (r: Rows)
    requires id in rows
    ensures Absorbs(rows, r) && Calm(rows, r) && KeepsRetries(rows, r) && CompletesOnly(rows, r, {id})
    ensures forall x :: x in r && x != id ==> x in rows && r[x] == rows[x]
    ensures if rows[id].status == InProgress then r[id] == Row(Completed, rows[id].retries, rows[id].expires)
            else r == rows
  {
    if rows[id].status.InProgress? then rows[id := rows[id].(status := Completed)] else rows
  }

  /** The guarded update of `markAsFailedOrRestart`, for the retry count that was read. */
  function FailedOrRestarted(c: Config, rows: Rows, id: Id, retries: nat): (r: Rows)
    requires id in rows
    ensures Absorbs(rows, r) && Calm(rows, r) && CompletesOnly(rows, r, {})
    ensures forall x :: x in r && x != id ==> x in rows && r[x] == rows[x]
    ensures rows[id].status.InProgress? ==>
      r[id] == Row(if retries < c.retryLimit then Enqueued else Failed, retries + 1, rows[id].expires)
    ensures !rows[id].status.InProgress? ==> r == rows
  {
    if !rows[id].status.InProgress? then rows
    else rows[id := rows[id].(status := if retries >= c.retryLimit then Failed else Enqueued, retries := retries + 1)]
  }

  /** `bulkCreate` with `ignoreDuplicates`. */
  function Created(rows: Rows, ids: set<Id>, status: ChunkStatus): (r: Rows)
    requires status.NotStarted? || status.Enqueued?
    ensures Absorbs(rows, r) && Calm(rows, r) && KeepsRetries(rows, r) && CompletesOnly(rows, r, {})
    ensures r.Keys == rows.Keys + ids
    ensures forall id :: id in r ==> r[id] == if id in rows then rows[id] else Row(status, 0, None)
  {
    map id | id in rows.Keys + ids :: if id in rows then rows[id] else Row(status, 0, None)
  }

  /** The re-enqueueing update of `enqueueChunksForUpload`, on the rows it selects. */
  function ReEnqueued(rows: Rows, ids: set<Id>): (r: Rows)
    ensures Absorbs(rows, r) && Calm(rows, r) && KeepsRetries(rows, r) && CompletesOnly(rows, r, {})
    ensures r.Keys == rows.Keys
    ensures forall id :: id in rows && id !in ids ==> r[id] == rows[id]
    ensures forall id :: id in rows && id in ids ==>
      match rows[id].status
      case NotStarted => r[id] == rows[id].(status := Enqueued)
      case Failed => r[id] == rows[id].(status := Enqueued)
      case _ => r[id] == rows[id]
  {
    map id | id in rows ::
      if id in ids && (rows[id].status.NotStarted? || rows[id].status.Failed?)
      then rows[id].(status := Enqueued)
      else rows[id]
  }

  /** `restartUploadsDownloads`. */
  function Restarted(rows: Rows): (r: Rows)
    ensures Absorbs(rows, r) && Calm(rows, r) && KeepsRetries(rows, r) && CompletesOnly(rows, r, {})
    ensures r.Keys == rows.Keys
    ensures forall id :: id in r ==>
      !r[id].status.InProgress? && (rows[id].status != InProgress ==> r[id] == rows[id])
    ensures forall id :: id in rows && rows[id].status == InProgress ==>
      r[id] == Row(Enqueued, rows[id].retries, rows[id].expires)
  {
    map id | id in rows :: if rows[id].status.InProgress? then rows[id].(status := Enqueued) else rows[id]
  }

  /** A chunk that could be downloaded is recorded as uploaded. */
  function Downloaded(rows: Rows, id: Id): (r: Rows)
    requires id in rows
    ensures Absorbs(rows, r) && Calm(rows, r) && KeepsRetries(rows, r) && CompletesOnly(rows, r, {id})
    ensures forall x :: x in r && x != id ==> x in rows && r[x] == rows[x]
    ensures r[id] == Row(Completed, rows[id].retries, rows[id].expires)
  {
    rows[id := rows[id].(status := Completed)]
  }

  // ------------------------------------------------------------------------ the state

  /** The chunk table, what is stored on the network, and how many failures of each chunk
      were recorded. */
  datatype Db = Db(rows: Rows, network: set<Id>, fails: multiset<Id>)

  /** `uploadWorkers`: the worker in each slot, the workers that are free, and the number of
      workers made. */
  datatype Pool = Pool(workers: seq<nat>, free: set<nat>, made: nat)

  /** Where an upload loop is: after its start, after the first query, and in its iteration
      for a chunk, holding a worker. */
  datatype Loop =
    | Started
    | Fetched(awaiting: seq<Id>)
    | Reading(worker: nat, slot: nat, id: Id, todo: seq<Id>)
    | Checking(worker: nat, slot: nat, id: Id, todo: seq<Id>, row: Row)
    | Claiming(worker: nat, slot: nat, id: Id, todo: seq<Id>, expires: int)

  /** Where an upload is; `Marking` and `Recording` have read the row and are about to write. */
  datatype Phase = Scheduled | Sending | Stored | Marking | Reporting | Failing | Recording(retries: nat)

  /** The chunk was stored. */
  predicate IsStored(phase: Phase) {
    phase.Stored? || phase.Marking? || phase.Reporting?
  }

  datatype Upload = Upload(slot: nat, id: Id, phase: Phase)

  /** A file whose chunks are being counted: the next chunk, the number completed and failed
      so far, and the status read for the next chunk. */
  datatype Count = Count(file: Id, idx: nat, completed: nat, failed: nat, fetched: Option<ChunkStatus>)

  datatype Progress = Progress(queue: seq<Id>, cache: map<Id, ChunkStatus>, counts: seq<Count>, completed: set<Id>)

  datatype State = State(now: int, db: Db, pool: Pool, active: bool, retry: bool, loops: seq<Loop>,
                         uploads: map<nat, Upload>, progress: Progress)

  const INITIAL := State(0, Db(map[], {}, multiset{}), Pool([], {}, 0), false, false, [], map[],
                         Progress([], map[], [], {}))

  datatype LoopStep =
    FetchAwaiting(ids: seq<Id>) | FetchStale(ids: seq<Id>) | ReadRow | CheckRow | WriteClaim | LoopThrows

  datatype UploadStep =
    Begin | Post | FoundOnNetwork | Throw | ReadForSuccess | WriteSuccess | ReadForFailure | WriteFailure | Done

  datatype ChunkStep =
    Arrives(id: Id) | CreateRow(id: Id) | Download(id: Id) | EnqueueChunks(chunks: set<Id>) | ReEnqueue(chunks: set<Id>)

  datatype ProgressStep =
    NextCompletion | CountFile(file: Id) | ReadStatus(k: nat) | CountChunk(k: nat) | FinishCount(k: nat)
    | ClearCached(id: Id)

  datatype Step =
    Tick | StartLoop | Restart
    | InLoop(k: nat, loop: LoopStep) | InUpload(w: nat, upload: UploadStep)
    | OnChunks(chunk: ChunkStep) | OnProgress(count: ProgressStep)

  // ------------------------------------------------------------------------ the workers

  /** The first slot from `i` whose worker is free. */
  function FreeSlot(p: Pool, i: nat): (r: Option<nat>)
    requires i <= |p.workers|
    ensures r.Some? ==> i <= r.value < |p.workers| && p.workers[r.value] in p.free
    ensures r.None? ==> forall j :: i <= j < |p.workers| ==> p.workers[j] !in p.free
    decreases |p.workers| - i
  {
    if i == |p.workers| then None
    else if p.workers[i] in p.free then Some(i)
    else FreeSlot(p, i + 1)
  }

  /** `tryGettingAvailableUploadWorker`: the slot that gets a new worker. */
  function AvailableSlot(p: Pool, limit: nat): (r: Option<nat>)
    ensures r.Some? ==>
      r.value == |p.workers| < limit || (|p.workers| >= limit && r.value < |p.workers| && p.workers[r.value] in p.free)
    ensures r.None? ==> |p.workers| >= limit && forall w :: w in p.workers ==> w !in p.free
  {
    if |p.workers| < limit then Some(|p.workers|) else FreeSlot(p, 0)
  }

  /** It is the first one that can be given. */
  lemma {:induction false} FirstFreeSlot(p: Pool, i: nat)
    requires i <= |p.workers| && FreeSlot(p, i).Some?
    ensures forall j :: i <= j < FreeSlot(p, i).value ==> p.workers[j] !in p.free
    decreases |p.workers| - i
  {
    if p.workers[i] !in p.free {
      FirstFreeSlot(p, i + 1);
    }
  }

  function WithWorker(p: Pool, slot: nat): Pool
    requires slot <= |p.workers|
  {
    var workers := if slot == |p.workers| then p.workers + [p.made] else p.workers[slot := p.made];
    Pool(workers, p.free, p.made + 1)
  }

  // ------------------------------------------------------------------------ the steps

  /** Leaving the loop. */
  function Exit(s: State, k: nat): State
    requires k < |s.loops|
  {
    s.(loops := Without(s.loops, k), active := false)
  }

  /** The head of an iteration: the loop ends, or gets a worker for the next chunk. */
  function Iterate(c: Config, s: State, k: nat, todo: seq<Id>): State
    requires k < |s.loops|
  {
    if todo == [] then Exit(s, k).(retry := false)
    else
      var slot := AvailableSlot(s.pool, c.limit);
      if slot.None? then Exit(s, k)
      else
        var l := Reading(s.pool.made, slot.value, todo[0], todo[1..]);
        s.(pool := WithWorker(s.pool, slot.value), loops := s.loops[k := l])
  }

  /** The upload is over: its worker is free. */
  function Release(s: State, w: nat): State {
    s.(uploads := s.uploads - {w}, pool := s.pool.(free := s.pool.free + {w}))
  }

  function InPhase(s: State, w: nat, phase: Phase): State
    requires w in s.uploads
  {
    s.(uploads := s.uploads[w := s.uploads[w].(phase := phase)])
  }

  function WithRows(s: State, rows: Rows): State {
    s.(db := s.db.(rows := rows))
  }

  predicate LoopCan(c: Config, s: State, k: nat, a: LoopStep) {
    && k < |s.loops|
    && var l := s.loops[k];
       match a
       case FetchAwaiting(ids) =>
         && l.Started? && |ids| <= c.limit
         && forall i :: 0 <= i < |ids| ==> ids[i] in s.db.rows && s.db.rows[ids[i]].status.Enqueued?
       case FetchStale(ids) =>
         && l.Fetched? && |ids| <= c.limit
         && forall i :: 0 <= i < |ids| ==>
              ids[i] in s.db.rows && s.db.rows[ids[i]].status.InProgress? && IsExpired(s.db.rows[ids[i]], s.now)
       case ReadRow => l.Reading? && l.id in s.db.rows
       case CheckRow => l.Checking?
       case WriteClaim => l.Claiming? && l.id in s.db.rows
       case LoopThrows => true
  }

  predicate UploadCan(s: State, w: nat, a: UploadStep) {
    && w in s.uploads
    && var u := s.uploads[w];
       match a
       case Begin => u.phase.Scheduled?
       case Post => u.phase.Sending?
       case FoundOnNetwork => u.phase.Sending? && u.id in s.db.network
       case Throw => u.phase.Sending? || IsStored(u.phase)
       case ReadForSuccess => u.phase.Stored? && u.id in s.db.rows
       case WriteSuccess => u.phase.Marking? && u.id in s.db.rows
       case ReadForFailure => u.phase.Failing? && u.id in s.db.rows
       case WriteFailure => u.phase.Recording? && u.id in s.db.rows
       case Done => u.phase.Reporting? || u.phase.Failing? || u.phase.Recording?
  }

  predicate ChunksCan(s: State, a: ChunkStep) {
    a.Download? ==> a.id in s.db.network && a.id in s.db.rows
  }

  /** The chunk a count is at. */
  predicate IsAtChunk(c: Config, n: Count) {
    n.file in c.chunksOf && n.idx < |c.chunksOf[n.file]|
  }

  function ChunkAt(c: Config, n: Count): Id
    requires IsAtChunk(c, n)
  {
    c.chunksOf[n.file][n.idx]
  }

  predicate ProgressCan(c: Config, rows: Rows, p: Progress, a: ProgressStep) {
    match a
    case NextCompletion => p.queue != []
    case CountFile(file) => file in c.chunksOf
    case ReadStatus(k) =>
      && k < |p.counts| && IsAtChunk(c, p.counts[k])
      && ChunkAt(c, p.counts[k]) in rows && ChunkAt(c, p.counts[k]) !in p.cache
    case CountChunk(k) =>
      k < |p.counts| && IsAtChunk(c, p.counts[k]) && (p.counts[k].fetched.Some? || ChunkAt(c, p.counts[k]) in p.cache)
    case FinishCount(k) =>
      k < |p.counts| && p.counts[k].file in c.chunksOf && p.counts[k].idx == |c.chunksOf[p.counts[k].file]|
    case ClearCached(_) => true
  }

  predicate Possible(c: Config, s: State, a: Step) {
    match a
    case InLoop(k, l) => LoopCan(c, s, k, l)
    case InUpload(w, u) => UploadCan(s, w, u)
    case OnChunks(b) => ChunksCan(s, b)
    case OnProgress(p) => ProgressCan(c, s.db.rows, s.progress, p)
    case _ => true
  }

  /** `uploadLoop`. */
  function LoopNext(c: Config, s: State, k: nat, a: LoopStep): State
    requires LoopCan(c, s, k, a)
  {
    var l := s.loops[k];
    match a
    case FetchAwaiting(ids) => s.(loops := s.loops[k := Fetched(ids)])
    case FetchStale(ids) => if l.awaiting + ids == [] then Exit(s, k) else Iterate(c, s, k, l.awaiting + ids)
    case ReadRow => s.(loops := s.loops[k := Checking(l.worker, l.slot, l.id, l.todo, s.db.rows[l.id])])
    case CheckRow =>
      if l.row.status.Enqueued? || (l.row.status.InProgress? && IsExpired(l.row, s.now)) then
        s.(loops := s.loops[k := Claiming(l.worker, l.slot, l.id, l.todo, s.now + c.expire)])
      else
        Iterate(c, s.(pool := s.pool.(free := s.pool.free + {l.worker})), k, l.todo)
    case WriteClaim =>
      var s1 := WithRows(s, Claimed(s.db.rows, l.id, l.expires));
      Iterate(c, s1.(uploads := s1.uploads[l.worker := Upload(l.slot, l.id, Scheduled)]), k, l.todo)
    case LoopThrows => Exit(s, k)
  }

  /** `startChunkUpload`, `doChunkUpload` and the two ways of recording its outcome. */
  function UploadNext(c: Config, s: State, w: nat, a: UploadStep): State
    requires UploadCan(s, w, a)
  {
    var id := s.uploads[w].id;
    match a
    case Begin => InPhase(s, w, Sending)
    case Post => InPhase(s, w, Stored).(db := s.db.(network := s.db.network + {id}))
    case FoundOnNetwork => InPhase(s, w, Stored)
    case Throw => InPhase(s, w, Failing)
    case ReadForSuccess => if s.db.rows[id].status.InProgress? then InPhase(s, w, Marking) else Release(s, w)
    case WriteSuccess =>
      var s1 := WithRows(InPhase(s, w, Reporting), Succeeded(s.db.rows, id));
      s1.(progress := s.progress.(queue := s.progress.queue + [id]))
    case ReadForFailure =>
      if s.db.rows[id].status.InProgress? then InPhase(s, w, Recording(s.db.rows[id].retries)) else Release(s, w)
    case WriteFailure =>
      var rows := FailedOrRestarted(c, s.db.rows, id, s.uploads[w].phase.retries);
      var fails := if s.db.rows[id].status.InProgress? then s.db.fails + multiset{id} else s.db.fails;
      Release(s, w).(db := Db(rows, s.db.network, fails))
    case Done => Release(s, w)
  }

  /** What the rest of the node, and other nodes, do to chunks. */
  function ChunksNext(db: Db, a: ChunkStep): Db
    requires a.Download? ==> a.id in db.rows
  {
    match a
    case Arrives(id) => db.(network := db.network + {id})
    case CreateRow(id) => db.(rows := Created(db.rows, {id}, NotStarted))
    case Download(id) => db.(rows := Downloaded(db.rows, id))
    case EnqueueChunks(ids) => db.(rows := Created(db.rows, ids, Enqueued))
    case ReEnqueue(ids) => db.(rows := ReEnqueued(db.rows, ids))
  }

  /** One chunk of `updateFileProgress`: a status that was read goes into the cache, and the
      cached one is counted. */
  function Counted(c: Config, p: Progress, k: nat): Progress
    requires k < |p.counts| && IsAtChunk(c, p.counts[k])
    requires p.counts[k].fetched.Some? || ChunkAt(c, p.counts[k]) in p.cache
  {
    var n := p.counts[k];
    var id := ChunkAt(c, n);
    var status := if n.fetched.Some? then n.fetched.value else p.cache[id];
    var n' := Count(n.file, n.idx + 1,
                    n.completed + (if status.Completed? then 1 else 0),
                    n.failed + (if status.Failed? then 1 else 0), None);
    p.(cache := p.cache[id := status], counts := p.counts[k := n'])
  }

  /** The end of `updateFileProgress`: without a failed chunk, and with as many completed
      chunks as there are, the file is marked as completed. */
  function Finished(p: Progress, k: nat): Progress
    requires k < |p.counts|
  {
    var n := p.counts[k];
    var p' := p.(counts := Without(p.counts, k));
    if n.failed == 0 && n.idx > 0 && n.completed == n.idx then p'.(completed := p.completed + {n.file}) else p'
  }

  function ProgressNext(c: Config, rows: Rows, p: Progress, a: ProgressStep): Progress
    requires ProgressCan(c, rows, p, a)
  {
    match a
    case NextCompletion => p.(queue := p.queue[1..], cache := p.cache[p.queue[0] := Completed])
    case CountFile(file) => p.(counts := p.counts + [Count(file, 0, 0, 0, None)])
    case ReadStatus(k) =>
      p.(counts := p.counts[k := p.counts[k].(fetched := Some(rows[ChunkAt(c, p.counts[k])].status))])
    case CountChunk(k) => Counted(c, p, k)
    case FinishCount(k) => Finished(p, k)
    case ClearCached(id) => p.(cache := p.cache - {id})
  }

  function Next(c: Config, s: State, a: Step): State
    requires Possible(c, s, a)
  {
    match a
    case Tick => s.(now := s.now + 1)
    case StartLoop => if s.active then s.(retry := true) else s.(active := true, loops := s.loops + [Started])
    case Restart =>
      State(s.now, s.db.(rows := Restarted(s.db.rows)), Pool([], {}, s.pool.made), false, false, [], map[],
            Progress([], map[], [], s.progress.completed))
    case InLoop(k, l) => LoopNext(c, s, k, l)
    case InUpload(w, u) => UploadNext(c, s, w, u)
    case OnChunks(b) => s.(db := ChunksNext(s.db, b))
    case OnProgress(p) => s.(progress := ProgressNext(c, s.db.rows, s.progress, p))
  }

  // ------------------------------------------------------------------------ invariants

  /** Where a loop holds a worker. */
  predicate Holds(l: Loop) {
    l.Reading? || l.Checking? || l.Claiming?
  }

  ghost predicate PoolOk(p: Pool, limit: nat) {
    && |p.workers| <= limit
    && (forall i :: 0 <= i < |p.workers| ==> p.workers[i] < p.made)
    && (forall i, j :: 0 <= i < j < |p.workers| ==> p.workers[i] != p.workers[j])
    && (forall w :: w in p.free ==> w < p.made)
  }

  /** The worker occupies its slot. */
  predicate Occupies(p: Pool, w: nat, slot: nat) {
    slot < |p.workers| && p.workers[slot] == w && w !in p.free
  }

  /** Every upload and every loop that holds a worker has a slot of its own. */
  ghost predicate SlotsOk(p: Pool, loops: seq<Loop>, uploads: map<nat, Upload>) {
    && (forall w :: w in uploads ==> Occupies(p, w, uploads[w].slot))
    && (forall i :: 0 <= i < |loops| && Holds(loops[i]) ==>
          Occupies(p, loops[i].worker, loops[i].slot) && loops[i].worker !in uploads)
  }

  ghost predicate OneLoop(active: bool, loops: seq<Loop>) {
    |loops| == if active then 1 else 0
  }

  /** What a loop has read about its chunk is not outdated by another claim. */
  ghost predicate LoopOk(l: Loop, rows: Rows, now: int) {
    && (l.Checking? ==> l.id in rows && (rows[l.id].status.InProgress? ==> l.row == rows[l.id]))
    && (l.Claiming? ==> l.id in rows && (rows[l.id].status.InProgress? ==> IsExpired(rows[l.id], now)))
  }

  ghost predicate LoopsOk(loops: seq<Loop>, rows: Rows, now: int) {
    forall i :: 0 <= i < |loops| ==> LoopOk(loops[i], rows, now)
  }

  /** A chunk recorded as uploaded is on the network. */
  ghost predicate RowsStored(rows: Rows, network: set<Id>) {
    forall id :: id in rows && rows[id].status.Completed? ==> id in network
  }

  ghost predicate UploadsStored(uploads: map<nat, Upload>, network: set<Id>) {
    forall w :: w in uploads && IsStored(uploads[w].phase) ==> uploads[w].id in network
  }

  ghost predicate QueueStored(queue: seq<Id>, network: set<Id>) {
    forall i :: 0 <= i < |queue| ==> queue[i] in network
  }

  ghost predicate CacheStored(cache: map<Id, ChunkStatus>, network: set<Id>) {
    forall id :: id in cache && cache[id].Completed? ==> id in network
  }

  ghost predicate AllStored(ids: seq<Id>, network: set<Id>) {
    forall i :: 0 <= i < |ids| ==> ids[i] in network
  }

  ghost predicate CountStored(c: Config, n: Count, network: set<Id>) {
    && n.file in c.chunksOf && n.idx <= |c.chunksOf[n.file]| && n.completed <= n.idx
    && (n.completed == n.idx ==> AllStored(c.chunksOf[n.file][..n.idx], network))
    && (n.fetched.Some? ==>
          && n.idx < |c.chunksOf[n.file]|
          && (n.fetched.value.Completed? ==> c.chunksOf[n.file][n.idx] in network))
  }

  ghost predicate CountsStored(c: Config, counts: seq<Count>, network: set<Id>) {
    forall i :: 0 <= i < |counts| ==> CountStored(c, counts[i], network)
  }

  ghost predicate FilesStored(c: Config, completed: set<Id>, network: set<Id>) {
    forall f :: f in completed ==> f in c.chunksOf && AllStored(c.chunksOf[f], network)
  }

  /** Retry counts never exceed the failures recorded, also where one was read before. */
  ghost predicate RetriesOk(c: Config, rows: Rows, fails: multiset<Id>) {
    forall id :: id in rows ==> rows[id].retries <= fails[id] && (rows[id].status.Failed? ==> fails[id] > c.retryLimit)
  }

  ghost predicate RecordingOk(uploads: map<nat, Upload>, fails: multiset<Id>) {
    forall w :: w in uploads && uploads[w].phase.Recording? ==> uploads[w].phase.retries <= fails[uploads[w].id]
  }

  ghost predicate Exclusive(c: Config, s: State) {
    && PoolOk(s.pool, c.limit)
    && SlotsOk(s.pool, s.loops, s.uploads)
    && OneLoop(s.active, s.loops)
  }

  ghost predicate Durable(c: Config, s: State) {
    && RowsStored(s.db.rows, s.db.network)
    && UploadsStored(s.uploads, s.db.network)
    && QueueStored(s.progress.queue, s.db.network)
    && CacheStored(s.progress.cache, s.db.network)
    && CountsStored(c, s.progress.counts, s.db.network)
    && FilesStored(c, s.progress.completed, s.db.network)
  }

  ghost predicate Retried(c: Config, s: State) {
    RetriesOk(c, s.db.rows, s.db.fails) && RecordingOk(s.uploads, s.db.fails)
  }

  ghost predicate Inv(c: Config, s: State) {
    Exclusive(c, s) && LoopsOk(s.loops, s.db.rows, s.now) && Durable(c, s) && Retried(c, s)
  }

  // ------------------------------------------------------------------------ slots

  /** A new worker takes a slot that nobody occupies. */
  lemma NewWorkerFits(c: Config, p: Pool, loops: seq<Loop>, uploads: map<nat, Upload>)
    requires PoolOk(p, c.limit) && SlotsOk(p, loops, uploads)
    requires AvailableSlot(p, c.limit).Some?
    ensures var slot := AvailableSlot(p, c.limit).value;
      var p' := WithWorker(p, slot);
      && PoolOk(p', c.limit) && SlotsOk(p', loops, uploads)
      && Occupies(p', p.made, slot) && p.made !in uploads
  {
    hide AvailableSlot, PoolOk, SlotsOk;
    NewWorkerPoolOk(c, p);
    NewWorkerKeepsSlots(c, p, loops, uploads);
  }

  lemma NewWorkerPoolOk(c: Config, p: Pool)
    requires PoolOk(p, c.limit) && AvailableSlot(p, c.limit).Some?
    ensures var slot := AvailableSlot(p, c.limit).value;
      PoolOk(WithWorker(p, slot), c.limit) && Occupies(WithWorker(p, slot), p.made, slot)
  {
    hide AvailableSlot;
  }

  lemma NewWorkerKeepsSlots(c: Config, p: Pool, loops: seq<Loop>, uploads: map<nat, Upload>)
    requires PoolOk(p, c.limit) && SlotsOk(p, loops, uploads) && AvailableSlot(p, c.limit).Some?
    ensures SlotsOk(WithWorker(p, AvailableSlot(p, c.limit).value), loops, uploads) && p.made !in uploads
  {
    hide AvailableSlot;
    assert forall w :: w in p.workers ==> w < p.made;
  }

  /** Only the first loop is there, so replacing or removing it leaves nothing else. */
  lemma IterateKeepsExclusive(c: Config, s: State, k: nat, todo: seq<Id>)
    requires PoolOk(s.pool, c.limit) && OneLoop(s.active, s.loops) && k < |s.loops|
    requires SlotsOk(s.pool, [], s.uploads)
    ensures Exclusive(c, Iterate(c, s, k, todo))
  {
    if todo != [] && AvailableSlot(s.pool, c.limit).Some? {
      NewWorkerFits(c, s.pool, [], s.uploads);
    }
  }

  lemma ReleaseKeepsExclusive(c: Config, s: State, w: nat)
    requires Exclusive(c, s) && w in s.uploads
    ensures Exclusive(c, Release(s, w))
  {
  }

  lemma InPhaseKeepsExclusive(c: Config, s: State, w: nat, phase: Phase)
    requires Exclusive(c, s) && w in s.uploads
    ensures Exclusive(c, InPhase(s, w, phase))
  {
  }

  lemma FreeKeepsPool(c: Config, p: Pool, w: nat, slot: nat)
    requires PoolOk(p, c.limit) && Occupies(p, w, slot)
    ensures PoolOk(p.(free := p.free + {w}), c.limit)
  {
  }

  lemma LoopKeepsExclusive(c: Config, s: State, k: nat, a: LoopStep)
    requires Exclusive(c, s) && LoopCan(c, s, k, a)
    ensures Exclusive(c, LoopNext(c, s, k, a))
  {
    hide Iterate, PoolOk, Claimed;
    var l := s.loops[k];
    assert k == 0 && s.active;
    match a
    case FetchStale(ids) =>
      IterateKeepsExclusive(c, s, k, l.awaiting + ids);
    case CheckRow =>
      FreeKeepsPool(c, s.pool, l.worker, l.slot);
      IterateKeepsExclusive(c, s.(pool := s.pool.(free := s.pool.free + {l.worker})), k, l.todo);
    case WriteClaim =>
      var s1 := WithRows(s, Claimed(s.db.rows, l.id, l.expires));
      IterateKeepsExclusive(c, s1.(uploads := s1.uploads[l.worker := Upload(l.slot, l.id, Scheduled)]), k, l.todo);
    case _ =>
  }

  lemma UploadKeepsExclusive(c: Config, s: State, w: nat, a: UploadStep)
    requires Exclusive(c, s) && UploadCan(s, w, a)
    ensures Exclusive(c, UploadNext(c, s, w, a))
  {
    hide Release, InPhase, PoolOk, SlotsOk;
    ReleaseKeepsExclusive(c, s, w);
    InPhaseKeepsExclusive(c, s, w, Sending);
    InPhaseKeepsExclusive(c, s, w, Stored);
    InPhaseKeepsExclusive(c, s, w, Failing);
    InPhaseKeepsExclusive(c, s, w, Marking);
    InPhaseKeepsExclusive(c, s, w, Reporting);
    if s.uploads[w].id in s.db.rows {
      InPhaseKeepsExclusive(c, s, w, Recording(s.db.rows[s.uploads[w].id].retries));
    }
  }

  lemma NextKeepsExclusive(c: Config, s: State, a: Step)
    requires Exclusive(c, s) && Possible(c, s, a)
    ensures Exclusive(c, Next(c, s, a))
  {
    hide LoopNext, UploadNext, ChunksNext, ProgressNext, LoopCan, UploadCan;
    match a
    case InLoop(k, l) => LoopKeepsExclusive(c, s, k, l);
    case InUpload(w, u) => UploadKeepsExclusive(c, s, w, u);
    case _ =>
  }

  // ------------------------------------------------------------------------ claims

  /** Writes that claim nothing leave what loops have read in order. */
  lemma CalmKeepsLoops(loops: seq<Loop>, rows: Rows, rows': Rows, now: int)
    requires LoopsOk(loops, rows, now) && Calm(rows, rows') && Absorbs(rows, rows')
    ensures LoopsOk(loops, rows', now)
  {
  }

  /** An iteration starts without having read anything. */
  lemma IterateKeepsLoops(c: Config, s: State, k: nat, todo: seq<Id>)
    requires |s.loops| == 1 && k == 0
    ensures LoopsOk(Iterate(c, s, k, todo).loops, s.db.rows, s.now)
    ensures Iterate(c, s, k, todo).db == s.db && Iterate(c, s, k, todo).now == s.now
  {
  }

  lemma LoopKeepsLoops(c: Config, s: State, k: nat, a: LoopStep)
    requires OneLoop(s.active, s.loops) && LoopsOk(s.loops, s.db.rows, s.now) && LoopCan(c, s, k, a)
    ensures var s' := LoopNext(c, s, k, a); LoopsOk(s'.loops, s'.db.rows, s'.now)
  {
    hide Iterate, Claimed;
    var l := s.loops[k];
    assert k == 0 && LoopOk(l, s.db.rows, s.now);
    match a
    case FetchStale(ids) =>
      IterateKeepsLoops(c, s, k, l.awaiting + ids);
    case CheckRow =>
      IterateKeepsLoops(c, s.(pool := s.pool.(free := s.pool.free + {l.worker})), k, l.todo);
    case WriteClaim =>
      var s1 := WithRows(s, Claimed(s.db.rows, l.id, l.expires));
      IterateKeepsLoops(c, s1.(uploads := s1.uploads[l.worker := Upload(l.slot, l.id, Scheduled)]), k, l.todo);
    case _ =>
  }

  lemma UploadIsCalm(c: Config, s: State, w: nat, a: UploadStep)
    requires UploadCan(s, w, a)
    ensures var s' := UploadNext(c, s, w, a);
      && Calm(s.db.rows, s'.db.rows) && Absorbs(s.db.rows, s'.db.rows)
      && s'.loops == s.loops && s'.now == s.now
  {
    hide Succeeded, FailedOrRestarted;
  }

  lemma ChunksAreCalm(db: Db, a: ChunkStep)
    requires a.Download? ==> a.id in db.rows
    ensures Calm(db.rows, ChunksNext(db, a).rows) && Absorbs(db.rows, ChunksNext(db, a).rows)
  {
  }

  lemma NextKeepsLoops(c: Config, s: State, a: Step)
    requires OneLoop(s.active, s.loops) && LoopsOk(s.loops, s.db.rows, s.now) && Possible(c, s, a)
    ensures var s' := Next(c, s, a); LoopsOk(s'.loops, s'.db.rows, s'.now)
  {
    hide LoopNext, LoopCan, UploadNext, UploadCan, ChunksNext, ProgressNext, ProgressCan, Restarted, LoopsOk, Calm,
      Absorbs;
    match a
    case InLoop(k, l) => LoopKeepsLoops(c, s, k, l);
    case InUpload(w, u) =>
      UploadIsCalm(c, s, w, u);
      CalmKeepsLoops(s.loops, s.db.rows, UploadNext(c, s, w, u).db.rows, s.now);
    case OnChunks(b) =>
      ChunksAreCalm(s.db, b);
      CalmKeepsLoops(s.loops, s.db.rows, ChunksNext(s.db, b).rows, s.now);
    case Tick => LaterKeepsLoops(s.loops, s.db.rows, s.now);
    case StartLoop => StartedLoopOk(s.loops, s.db.rows, s.now);
    case Restart => NoLoops(Restarted(s.db.rows), s.now);
    case OnProgress(_) =>
  }

  lemma LaterKeepsLoops(loops: seq<Loop>, rows: Rows, now: int)
    requires LoopsOk(loops, rows, now)
    ensures LoopsOk(loops, rows, now + 1)
  {
  }

  lemma StartedLoopOk(loops: seq<Loop>, rows: Rows, now: int)
    requires LoopsOk(loops, rows, now)
    ensures LoopsOk(loops + [Started], rows, now)
  {
  }

  lemma NoLoops(rows: Rows, now: int)
    ensures LoopsOk([], rows, now)
  {
  }

  // ------------------------------------------------------------------------ what is stored

  /** The network only grows, and what is known to be stored stays so. */
  lemma MoreIsStored(c: Config, s: State, network: set<Id>)
    requires Durable(c, s) && s.db.network <= network
    ensures Durable(c, s.(db := s.db.(network := network)))
  {
  }

  lemma CompletesStored(rows: Rows, rows': Rows, done: set<Id>, network: set<Id>)
    requires RowsStored(rows, network) && CompletesOnly(rows, rows', done) && done <= network
    ensures RowsStored(rows', network)
  {
  }

  /** What a loop does to anything but itself and the workers: a claim, and its upload. */
  lemma LoopFrame(c: Config, s: State, k: nat, a: LoopStep)
    requires LoopCan(c, s, k, a)
    ensures var s' := LoopNext(c, s, k, a);
      && s'.progress == s.progress && s'.now == s.now
      && s'.db.network == s.db.network && s'.db.fails == s.db.fails
      && (a.WriteClaim? ==>
            var l := s.loops[k];
            && s'.db.rows == Claimed(s.db.rows, l.id, l.expires)
            && s'.uploads == s.uploads[l.worker := Upload(l.slot, l.id, Scheduled)])
      && (!a.WriteClaim? ==> s'.db.rows == s.db.rows && s'.uploads == s.uploads)
  {
    hide Claimed, Iterate;
    var l := s.loops[k];
    match a
    case FetchStale(ids) => IterateFrame(c, s, k, l.awaiting + ids);
    case CheckRow => IterateFrame(c, s.(pool := s.pool.(free := s.pool.free + {l.worker})), k, l.todo);
    case WriteClaim =>
      var s1 := WithRows(s, Claimed(s.db.rows, l.id, l.expires));
      IterateFrame(c, s1.(uploads := s1.uploads[l.worker := Upload(l.slot, l.id, Scheduled)]), k, l.todo);
    case _ =>
  }

  lemma IterateFrame(c: Config, s: State, k: nat, todo: seq<Id>)
    requires k < |s.loops|
    ensures var s' := Iterate(c, s, k, todo);
      s'.db == s.db && s'.uploads == s.uploads && s'.progress == s.progress && s'.now == s.now
  {
  }

  lemma LoopKeepsDurable(c: Config, s: State, k: nat, a: LoopStep)
    requires Durable(c, s) && LoopCan(c, s, k, a)
    ensures Durable(c, LoopNext(c, s, k, a))
  {
    hide LoopNext, Claimed, CountsStored, CacheStored, QueueStored, FilesStored, RowsStored;
    LoopFrame(c, s, k, a);
    if a.WriteClaim? {
      CompletesStored(s.db.rows, Claimed(s.db.rows, s.loops[k].id, s.loops[k].expires), {}, s.db.network);
    }
  }

  lemma UploadKeepsDurable(c: Config, s: State, w: nat, a: UploadStep)
    requires Durable(c, s) && UploadCan(s, w, a)
    ensures Durable(c, UploadNext(c, s, w, a))
  {
    hide Succeeded, FailedOrRestarted, CountsStored, CacheStored, FilesStored, RowsStored;
    var id := s.uploads[w].id;
    match a
    case Post => MoreIsStored(c, s, s.db.network + {id});
    case WriteSuccess => CompletesStored(s.db.rows, Succeeded(s.db.rows, id), {id}, s.db.network);
    case WriteFailure =>
      CompletesStored(s.db.rows, FailedOrRestarted(c, s.db.rows, id, s.uploads[w].phase.retries), {}, s.db.network);
    case _ =>
  }

  lemma ChunksKeepDurable(c: Config, s: State, a: ChunkStep)
    requires Durable(c, s) && ChunksCan(s, a)
    ensures Durable(c, s.(db := ChunksNext(s.db, a)))
  {
  }

  lemma ProgressKeepsDurable(c: Config, s: State, a: ProgressStep)
    requires Durable(c, s) && ProgressCan(c, s.db.rows, s.progress, a)
    ensures Durable(c, s.(progress := ProgressNext(c, s.db.rows, s.progress, a)))
  {
  }

  lemma RestartKeepsDurable(c: Config, s: State)
    requires Durable(c, s)
    ensures Durable(c, Next(c, s, Restart))
  {
  }

  lemma NextKeepsDurable(c: Config, s: State, a: Step)
    requires Durable(c, s) && Possible(c, s, a)
    ensures Durable(c, Next(c, s, a))
  {
    hide LoopNext, LoopCan, UploadNext, UploadCan, ChunksNext, ProgressNext, ProgressCan, ChunksCan;
    hide CountsStored, CacheStored, FilesStored, RowsStored, UploadsStored, QueueStored;
    match a
    case InLoop(k, l) => LoopKeepsDurable(c, s, k, l);
    case InUpload(w, u) => UploadKeepsDurable(c, s, w, u);
    case OnChunks(b) => ChunksKeepDurable(c, s, b);
    case OnProgress(p) => ProgressKeepsDurable(c, s, p);
    case Restart => RestartKeepsDurable(c, s);
    case _ =>
  }

  // ------------------------------------------------------------------------ retries

  lemma SameRetriesOk(c: Config, rows: Rows, rows': Rows, fails: multiset<Id>)
    requires RetriesOk(c, rows, fails) && KeepsRetries(rows, rows')
    ensures RetriesOk(c, rows', fails)
  {
  }

  /** A failure is recorded with the count that was read, which is at most the number of
      failures so far. */
  lemma FailureKeepsRetries(c: Config, rows: Rows, fails: multiset<Id>, id: Id, retries: nat)
    requires RetriesOk(c, rows, fails) && id in rows && retries <= fails[id]
    ensures RetriesOk(c, FailedOrRestarted(c, rows, id, retries),
                      if rows[id].status.InProgress? then fails + multiset{id} else fails)
  {
  }

  lemma UploadKeepsRetried(c: Config, s: State, w: nat, a: UploadStep)
    requires Retried(c, s) && UploadCan(s, w, a)
    ensures Retried(c, UploadNext(c, s, w, a))
  {
    hide Succeeded, FailedOrRestarted, RetriesOk;
    var id := s.uploads[w].id;
    if a.WriteSuccess? {
      SameRetriesOk(c, s.db.rows, Succeeded(s.db.rows, id), s.db.fails);
    } else if a.WriteFailure? {
      FailureKeepsRetries(c, s.db.rows, s.db.fails, id, s.uploads[w].phase.retries);
    } else if a.ReadForFailure? {
      ReadRetries(c, s.db.rows, s.db.fails, id);
    }
  }

  lemma ReadRetries(c: Config, rows: Rows, fails: multiset<Id>, id: Id)
    requires RetriesOk(c, rows, fails) && id in rows
    ensures rows[id].retries <= fails[id]
  {
  }

  lemma LoopKeepsRetried(c: Config, s: State, k: nat, a: LoopStep)
    requires Retried(c, s) && LoopCan(c, s, k, a)
    ensures Retried(c, LoopNext(c, s, k, a))
  {
    hide LoopNext, Claimed, RetriesOk;
    LoopFrame(c, s, k, a);
    if a.WriteClaim? {
      SameRetriesOk(c, s.db.rows, Claimed(s.db.rows, s.loops[k].id, s.loops[k].expires), s.db.fails);
    }
  }

  lemma ChunksKeepRetries(c: Config, db: Db, a: ChunkStep)
    requires RetriesOk(c, db.rows, db.fails) && (a.Download? ==> a.id in db.rows)
    ensures RetriesOk(c, ChunksNext(db, a).rows, db.fails) && ChunksNext(db, a).fails == db.fails
  {
  }

  lemma NextKeepsRetried(c: Config, s: State, a: Step)
    requires Retried(c, s) && Possible(c, s, a)
    ensures Retried(c, Next(c, s, a))
  {
    hide LoopNext, LoopCan, UploadNext, UploadCan, ChunksNext, ProgressNext, ProgressCan, Restarted, RetriesOk;
    match a
    case InLoop(k, l) => LoopKeepsRetried(c, s, k, l);
    case InUpload(w, u) => UploadKeepsRetried(c, s, w, u);
    case OnChunks(b) => ChunksKeepRetries(c, s.db, b);
    case Restart => SameRetriesOk(c, s.db.rows, Restarted(s.db.rows), s.db.fails);
    case _ =>
  }

  // ------------------------------------------------------------------------ whole runs

  predicate IsRun(c: Config, s: State, run: seq<Step>)
    decreases |run|
  {
    run == [] || (Possible(c, s, run[0]) && IsRun(c, Next(c, s, run[0]), run[1..]))
  }

  function After(c: Config, s: State, run: seq<Step>): State
    requires IsRun(c, s, run)
    decreases |run|
  {
    if run == [] then s else After(c, Next(c, s, run[0]), run[1..])
  }

  lemma NextKeepsInv(c: Config, s: State, a: Step)
    requires Inv(c, s) && Possible(c, s, a)
    ensures Inv(c, Next(c, s, a))
  {
    hide Next, Possible, Durable, Retried, LoopsOk, SlotsOk, PoolOk;
    NextKeepsExclusive(c, s, a);
    NextKeepsLoops(c, s, a);
    NextKeepsDurable(c, s, a);
    NextKeepsRetried(c, s, a);
  }

  /** Between two iterations: the loop holds no worker, and all else is in order. */
  ghost predicate Resumable(c: Config, s: State, k: nat) {
    && k < |s.loops| && PoolOk(s.pool, c.limit) && OneLoop(s.active, s.loops) && SlotsOk(s.pool, [], s.uploads)
    && Durable(c, s) && Retried(c, s)
  }

  lemma IterateKeepsInv(c: Config, s: State, k: nat, todo: seq<Id>)
    requires Resumable(c, s, k)
    ensures Inv(c, Iterate(c, s, k, todo))
  {
    hide Iterate, PoolOk, SlotsOk, LoopsOk, RowsStored, UploadsStored, QueueStored, CacheStored, CountsStored,
      FilesStored, RetriesOk, RecordingOk;
    IterateKeepsExclusive(c, s, k, todo);
    IterateKeepsLoops(c, s, k, todo);
    IterateFrame(c, s, k, todo);
  }

  lemma FetchedResumes(c: Config, s: State, k: nat)
    requires Inv(c, s) && k < |s.loops| && s.loops[k].Fetched?
    ensures Resumable(c, s, k)
  {
    hide PoolOk, Durable, Retried;
  }

  /** After a chunk is passed over and its worker freed. */
  lemma FreedResumes(c: Config, s: State, k: nat)
    requires Inv(c, s) && LoopCan(c, s, k, CheckRow)
    ensures Resumable(c, s.(pool := s.pool.(free := s.pool.free + {s.loops[k].worker})), k)
  {
    hide PoolOk, RowsStored, UploadsStored, QueueStored, CacheStored, CountsStored, FilesStored, RetriesOk,
      RecordingOk;
    FreeKeepsPool(c, s.pool, s.loops[k].worker, s.loops[k].slot);
  }

  /** After a chunk is claimed and its upload scheduled. */
  lemma ClaimedResumes(c: Config, s: State, k: nat)
    requires Inv(c, s) && LoopCan(c, s, k, WriteClaim)
    ensures var l := s.loops[k];
      var s1 := WithRows(s, Claimed(s.db.rows, l.id, l.expires));
      Resumable(c, s1.(uploads := s1.uploads[l.worker := Upload(l.slot, l.id, Scheduled)]), k)
  {
    hide Iterate, Claimed, PoolOk, RowsStored, UploadsStored, QueueStored, CacheStored, CountsStored, FilesStored,
      RetriesOk, RecordingOk;
    LoopKeepsDurable(c, s, k, WriteClaim);
    LoopKeepsRetried(c, s, k, WriteClaim);
    LoopFrame(c, s, k, WriteClaim);
  }

  lemma {:induction false} RunsKeepInv(c: Config, s: State, run: seq<Step>)
    requires Inv(c, s) && IsRun(c, s, run)
    ensures Inv(c, After(c, s, run))
    decreases |run|
  {
    hide Next, Possible, Inv;
    if run == [] {
    } else {
      NextKeepsInv(c, s, run[0]);
      RunsKeepInv(c, Next(c, s, run[0]), run[1..]);
    }
  }

  lemma InitialInv(c: Config)
    ensures Inv(c, INITIAL)
  {
  }

  /** The states of the node, from an empty database, over any interleaving and any number of
      restarts. */
  ghost predicate Reachable(c: Config, s: State) {
    exists run :: IsRun(c, INITIAL, run) && After(c, INITIAL, run) == s
  }

  lemma ReachableInv(c: Config, s: State)
    requires Reachable(c, s)
    ensures Inv(c, s)
  {
    hide Inv, IsRun, After;
    InitialInv(c);
    var run :| IsRun(c, INITIAL, run) && After(c, INITIAL, run) == s;
    RunsKeepInv(c, INITIAL, run);
  }

  lemma NextAbsorbs(c: Config, s: State, a: Step)
    requires Possible(c, s, a)
    ensures Absorbs(s.db.rows, Next(c, s, a).db.rows)
  {
    hide LoopNext, LoopCan, UploadNext, UploadCan, ChunksNext, ProgressNext, ProgressCan, Restarted, Claimed;
    match a
    case InLoop(k, l) => LoopFrame(c, s, k, l);
    case InUpload(w, u) => UploadIsCalm(c, s, w, u);
    case OnChunks(b) => ChunksAreCalm(s.db, b);
    case _ =>
  }

  /** COMPLETED is absorbing: from any state, over any run. */
  lemma {:induction false} CompletedIsAbsorbing(c: Config, s: State, run: seq<Step>, id: Id)
    requires IsRun(c, s, run) && id in s.db.rows && s.db.rows[id].status.Completed?
    ensures var rows := After(c, s, run).db.rows; id in rows && rows[id].status.Completed?
    decreases |run|
  {
    hide Next, Possible;
    if run == [] {
    } else {
      NextAbsorbs(c, s, run[0]);
      CompletedIsAbsorbing(c, Next(c, s, run[0]), run[1..], id);
    }
  }

  /** A chunk is FAILED only after more recorded failures than the limit. */
  lemma FailedOnlyAfterRetries(c: Config, s: State, id: Id)
    requires Reachable(c, s) && id in s.db.rows && s.db.rows[id].status.Failed?
    ensures s.db.fails[id] > c.retryLimit
  {
    hide Reachable, Exclusive, Durable, LoopsOk;
    ReachableInv(c, s);
  }

  /** A chunk is COMPLETED, and a file is marked as completed, only if it, and each of the
      file's chunks, is stored on the network. */
  lemma CompletedIsStored(c: Config, s: State)
    requires Reachable(c, s)
    ensures forall id :: id in s.db.rows && s.db.rows[id].status.Completed? ==> id in s.db.network
    ensures forall f :: f in s.progress.completed ==>
      f in c.chunksOf && forall i :: 0 <= i < |c.chunksOf[f]| ==> c.chunksOf[f][i] in s.db.network
  {
    hide Reachable, Exclusive, Retried, LoopsOk, CountsStored;
    ReachableInv(c, s);
  }

  lemma {:induction false} DistinctFit(slots: set<nat>, n: nat)
    requires forall i :: i in slots ==> i < n
    ensures |slots| <= n
  {
    if n > 0 {
      DistinctFit(slots - {n - 1}, n - 1);
    } else {
      assert slots == {};
    }
  }

  lemma {:induction false} OneSlotEach(uploads: map<nat, Upload>, ws: set<nat>)
    requires ws <= uploads.Keys
    requires forall w, v :: w in ws && v in ws && w != v ==> uploads[w].slot != uploads[v].slot
    ensures |set w | w in ws :: uploads[w].slot| == |ws|
  {
    if ws == {} {
    } else {
      var w :| w in ws;
      OneSlotEach(uploads, ws - {w});
      assert (set v | v in ws :: uploads[v].slot) == (set v | v in ws - {w} :: uploads[v].slot) + {uploads[w].slot};
    }
  }

  /** At most the configured number of uploads is scheduled or running, each in a slot of
      its own, and a slot that is in use is never given away. */
  lemma UploadsHaveDistinctSlots(c: Config, s: State)
    requires Reachable(c, s)
    ensures |s.uploads| <= c.limit
    ensures forall w, v :: w in s.uploads && v in s.uploads && w != v ==> s.uploads[w].slot != s.uploads[v].slot
    ensures forall w :: w in s.uploads ==> s.uploads[w].slot < c.limit && w !in s.pool.free
  {
    hide Reachable, Durable, Retried, LoopsOk;
    ReachableInv(c, s);
    var slots := set w | w in s.uploads.Keys :: s.uploads[w].slot;
    OneSlotEach(s.uploads, s.uploads.Keys);
    DistinctFit(slots, c.limit);
  }

  /** There is at most one upload loop, and when its claim finds the chunk in progress, the
      claim before it has expired. */
  lemma NoClaimBeforeExpiry(c: Config, s: State, k: nat)
    requires Reachable(c, s) && LoopCan(c, s, k, WriteClaim)
    requires s.db.rows[s.loops[k].id].status.InProgress?
    ensures |s.loops| == 1
    ensures s.db.rows[s.loops[k].id].expires.Some? && s.db.rows[s.loops[k].id].expires.value < s.now
  {
    hide Reachable, Durable, Retried, SlotsOk, PoolOk;
    ReachableInv(c, s);
    assert LoopOk(s.loops[k], s.db.rows, s.now);
  }

  /** Over every step: a chunk that stays in progress keeps its expiry until that has
      passed. */
  lemma ClaimStandsUntilExpiry(c: Config, s: State, a: Step, id: Id)
    requires Reachable(c, s) && Possible(c, s, a)
    requires id in s.db.rows && s.db.rows[id].status.InProgress?
    requires s.db.rows[id].expires.None? || s.db.rows[id].expires.value >= s.now
    ensures var rows := Next(c, s, a).db.rows;
      id in rows && (rows[id].status.InProgress? ==> rows[id] == s.db.rows[id])
  {
    hide Reachable, LoopNext, UploadNext, UploadCan, ChunksNext, ProgressNext, ProgressCan, Restarted;
    NextAbsorbs(c, s, a);
    match a
    case InLoop(k, l) =>
      LoopFrame(c, s, k, l);
      if l.WriteClaim? && s.loops[k].id == id {
        NoClaimBeforeExpiry(c, s, k);
      }
    case InUpload(w, u) => UploadIsCalm(c, s, w, u);
    case OnChunks(b) => ChunksAreCalm(s.db, b);
    case _ =>
  }
}
