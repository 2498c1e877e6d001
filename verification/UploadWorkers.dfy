/** The upload protocol in place: the loop over the worker slots, and the stretches of code
    between two awaits as methods on the node's tables. */
module UploadWorkers {
  import opened Common
  import opened UploadProtocol

  class Uploader {
    const c: Config
    var now: int
    var rows: Rows
    var network: set<Id>
    ghost var fails: multiset<Id>
    var workers: seq<nat>
    var free: set<nat>
    var made: nat
    var active: bool
    var retry: bool
    var loops: seq<Loop>
    var uploads: map<nat, Upload>
    var progress: Progress

    ghost function Workers(): Pool
      reads this`workers, this`free, this`made
    {
      Pool(workers, free, made)
    }

    ghost function Now(): State
      reads this
    {
      State(now, Db(rows, network, fails), Workers(), active, retry, loops, uploads, progress)
    }

    constructor (c: Config)
      ensures this.c == c && Now() == INITIAL && Inv(c, Now())
    {
      InitialInv(c);
      this.c := c;
      now, rows, network, fails := 0, map[], {}, multiset{};
      workers, free, made := [], {}, 0;
      active, retry, loops, uploads := false, false, [], map[];
      progress := Progress([], map[], [], {});
    }

    /** `tryGettingAvailableUploadWorker`: a new slot while there are fewer than the limit,
        else the first slot whose worker is free, with a new worker in it. */
    method TryGettingAvailableUploadWorker() returns (slot: Option<nat>)
      modifies this`workers, this`made
      ensures slot == AvailableSlot(old(Workers()), c.limit)
      ensures Workers() == if slot.Some? then WithWorker(old(Workers()), slot.value) else old(Workers())
    {
      if |workers| < c.limit {
        slot := Some(|workers|);
        workers := workers + [made];
        made := made + 1;
        return;
      }
      for i := 0 to |workers|
        invariant workers == old(workers) && made == old(made)
        invariant FreeSlot(Workers(), 0) == FreeSlot(Workers(), i)
      {
        if workers[i] in free {
          workers := workers[i := made];
          made := made + 1;
          return Some(i);
        }
      }
      slot := None;
    }

    /** The start of `uploadLoop`: only one runs at any time. */
    method StartUploadLoop()
      requires Inv(c, Now())
      modifies this
      ensures Now() == Next(c, old(Now()), StartLoop) && Inv(c, Now())
    {
      hide Inv;
      NextKeepsInv(c, Now(), StartLoop);
      if active {
        retry := true;
        return;
      }
      active := true;
      loops := loops + [Started];
    }

    /** The head of the loop over the chunks. */
    method NextChunk(k: nat, todo: seq<Id>)
      requires Resumable(c, Now(), k)
      modifies this
      ensures Now() == Iterate(c, old(Now()), k, todo) && Inv(c, Now())
    {
      hide AvailableSlot, WithWorker, Inv, PoolOk, SlotsOk, Durable, Retried;
      IterateKeepsInv(c, Now(), k, todo);
      if |todo| == 0 {
        loops := loops[..k] + loops[k + 1..];
        active, retry := false, false;
        return;
      }
      var worker := made;
      var slot := TryGettingAvailableUploadWorker();
      if slot.None? {
        loops := loops[..k] + loops[k + 1..];
        active := false;
        return;
      }
      loops := loops[k := Reading(worker, slot.value, todo[0], todo[1..])];
    }

    /** The first query: chunks that wait for their upload. */
    method FindAwaiting(k: nat, ids: seq<Id>)
      requires Inv(c, Now()) && LoopCan(c, Now(), k, FetchAwaiting(ids))
      modifies this
      ensures Now() == Next(c, old(Now()), InLoop(k, FetchAwaiting(ids))) && Inv(c, Now())
    {
      hide Inv, UploadNext, ChunksNext, ProgressNext, Iterate;
      NextKeepsInv(c, Now(), InLoop(k, FetchAwaiting(ids)));
      loops := loops[k := Fetched(ids)];
    }

    /** The second query: chunks whose claim has expired; then the loop begins, or ends if
        there is nothing to upload. */
    method FindStale(k: nat, ids: seq<Id>)
      requires Inv(c, Now()) && LoopCan(c, Now(), k, FetchStale(ids))
      modifies this
      ensures Now() == Next(c, old(Now()), InLoop(k, FetchStale(ids))) && Inv(c, Now())
    {
      hide Inv, Resumable, UploadNext, ChunksNext, ProgressNext, Iterate;
      NextKeepsInv(c, Now(), InLoop(k, FetchStale(ids)));
      var todo := loops[k].awaiting + ids;
      if |todo| == 0 {
        loops := loops[..k] + loops[k + 1..];
        active := false;
        return;
      }
      FetchedResumes(c, Now(), k);
      NextChunk(k, todo);
    }

    /** The row of the chunk, read again before the claim. */
    method ReadChunk(k: nat)
      requires Inv(c, Now()) && LoopCan(c, Now(), k, ReadRow)
      modifies this
      ensures Now() == Next(c, old(Now()), InLoop(k, ReadRow)) && Inv(c, Now())
    {
      hide Inv, UploadNext, ChunksNext, ProgressNext, Iterate;
      NextKeepsInv(c, Now(), InLoop(k, ReadRow));
      var l := loops[k];
      loops := loops[k := Checking(l.worker, l.slot, l.id, l.todo, rows[l.id])];
    }

    /** After the row was read: claim it, or free the worker and go on. */
    method CheckChunk(k: nat)
      requires Inv(c, Now()) && LoopCan(c, Now(), k, CheckRow)
      modifies this
      ensures Now() == Next(c, old(Now()), InLoop(k, CheckRow)) && Inv(c, Now())
    {
      hide Inv, Resumable, UploadNext, ChunksNext, ProgressNext, Iterate;
      NextKeepsInv(c, Now(), InLoop(k, CheckRow));
      FreedResumes(c, Now(), k);
      var l := loops[k];
      if l.row.status.Enqueued? || (l.row.status.InProgress? && IsExpired(l.row, now)) {
        loops := loops[k := Claiming(l.worker, l.slot, l.id, l.todo, now + c.expire)];
      } else {
        free := free + {l.worker};
        NextChunk(k, l.todo);
      }
    }

    /** The guarded claim, after which the upload is scheduled. */
    method ClaimChunk(k: nat)
      requires Inv(c, Now()) && LoopCan(c, Now(), k, WriteClaim)
      modifies this
      ensures Now() == Next(c, old(Now()), InLoop(k, WriteClaim)) && Inv(c, Now())
    {
      hide Inv, Resumable, UploadNext, ChunksNext, ProgressNext, Iterate;
      ClaimedResumes(c, Now(), k);
      var l := loops[k];
      var row := rows[l.id];
      if !row.status.Failed? && !row.status.Completed? {
        rows := rows[l.id := row.(status := InProgress, expires := Some(l.expires))];
      }
      uploads := uploads[l.worker := Upload(l.slot, l.id, Scheduled)];
      NextChunk(k, l.todo);
    }

    /** The `catch` of `uploadLoop`: whatever throws in it, the loop is over. */
    method LoopFails(k: nat)
      requires Inv(c, Now()) && LoopCan(c, Now(), k, LoopThrows)
      modifies this
      ensures Now() == Next(c, old(Now()), InLoop(k, LoopThrows)) && Inv(c, Now())
    {
      hide Inv, UploadNext, ChunksNext, ProgressNext, Iterate;
      NextKeepsInv(c, Now(), InLoop(k, LoopThrows));
      loops := loops[..k] + loops[k + 1..];
      active := false;
    }

    /** `startChunkUpload`, up to the question whether the chunk is on the network. */
    method StartChunkUpload(w: nat)
      requires Inv(c, Now()) && UploadCan(Now(), w, Begin)
      modifies this
      ensures Now() == Next(c, old(Now()), InUpload(w, Begin)) && Inv(c, Now())
    {
      hide Inv, LoopNext, ChunksNext, ProgressNext;
      NextKeepsInv(c, Now(), InUpload(w, Begin));
      uploads := uploads[w := uploads[w].(phase := Sending)];
    }

    /** The bundler's answer: it stored the chunk, or, if `known`, had it already. */
    method ChunkStored(w: nat, known: bool)
      requires Inv(c, Now()) && UploadCan(Now(), w, if known then FoundOnNetwork else Post)
      modifies this
      ensures Now() == Next(c, old(Now()), InUpload(w, if known then FoundOnNetwork else Post)) && Inv(c, Now())
    {
      hide Inv, LoopNext, ChunksNext, ProgressNext;
      NextKeepsInv(c, Now(), InUpload(w, if known then FoundOnNetwork else Post));
      var u := uploads[w];
      if !known {
        network := network + {u.id};
      }
      uploads := uploads[w := u.(phase := Stored)];
    }

    /** Anything in `doChunkUpload` throws. */
    method UploadFails(w: nat)
      requires Inv(c, Now()) && UploadCan(Now(), w, Throw)
      modifies this
      ensures Now() == Next(c, old(Now()), InUpload(w, Throw)) && Inv(c, Now())
    {
      hide Inv, LoopNext, ChunksNext, ProgressNext;
      NextKeepsInv(c, Now(), InUpload(w, Throw));
      uploads := uploads[w := uploads[w].(phase := Failing)];
    }

    /** The end of `startChunkUpload`, successful or not. */
    method FinishUpload(w: nat)
      requires Inv(c, Now()) && UploadCan(Now(), w, Done)
      modifies this
      ensures Now() == Next(c, old(Now()), InUpload(w, Done)) && Inv(c, Now())
    {
      hide Inv, LoopNext, ChunksNext, ProgressNext;
      NextKeepsInv(c, Now(), InUpload(w, Done));
      FreeWorker(w);
    }

    /** `restartUploadsDownloads`, for the uploads. */
    method TakeBackClaims()
      modifies this`rows
      ensures rows == Restarted(old(rows))
    {
      rows := map id | id in rows ::
        if rows[id].status.InProgress? then rows[id].(status := Enqueued) else rows[id];
    }

    /** The node starts again: of its state only the tables are left, and in them the claims
        are taken back. */
    method RestartUploads()
      requires Inv(c, Now())
      modifies this
      ensures Now() == Next(c, old(Now()), Restart) && Inv(c, Now())
    {
      hide Inv, Next, Restarted, Absorbs, Calm, KeepsRetries, CompletesOnly;
      NextKeepsInv(c, Now(), Restart);
      RestartIs(c, Now());
      ForgetAll();
      TakeBackClaims();
    }

    /** A new process has none of the variables of the one before it. */
    method ForgetAll()
      modifies this`workers, this`free, this`active, this`retry, this`loops, this`uploads, this`progress
      ensures workers == [] && free == {} && !active && !retry && loops == [] && uploads == map[]
      ensures progress == Progress([], map[], [], old(progress).completed)
    {
      workers, free := [], {};
      active, retry, loops, uploads := false, false, [], map[];
      progress := Progress([], map[], [], progress.completed);
    }

    method FreeWorker(w: nat)
      modifies this`uploads, this`free
      ensures Now() == Release(old(Now()), w)
    {
      uploads := uploads - {w};
      free := free + {w};
    }

    /** `markChunkAsSuccessfulUpload` up to its update. */
    method ReadBeforeSuccess(w: nat)
      requires Inv(c, Now()) && UploadCan(Now(), w, ReadForSuccess)
      modifies this
      ensures Now() == Next(c, old(Now()), InUpload(w, ReadForSuccess)) && Inv(c, Now())
    {
      hide Inv, LoopNext, ChunksNext, ProgressNext;
      NextKeepsInv(c, Now(), InUpload(w, ReadForSuccess));
      var u := uploads[w];
      if !rows[u.id].status.InProgress? {
        FreeWorker(w);
        return;
      }
      uploads := uploads[w := u.(phase := Marking)];
    }

    /** The guarded update, and the completion put into the progress queue. */
    method MarkAsSuccessful(w: nat)
      requires Inv(c, Now()) && UploadCan(Now(), w, WriteSuccess)
      modifies this
      ensures Now() == Next(c, old(Now()), InUpload(w, WriteSuccess)) && Inv(c, Now())
    {
      hide Inv, LoopNext, ChunksNext, ProgressNext;
      NextKeepsInv(c, Now(), InUpload(w, WriteSuccess));
      var u := uploads[w];
      if rows[u.id].status.InProgress? {
        rows := rows[u.id := rows[u.id].(status := Completed)];
      }
      uploads := uploads[w := u.(phase := Reporting)];
      progress := progress.(queue := progress.queue + [u.id]);
    }

    /** `markAsFailedOrRestart` up to its update. */
    method ReadBeforeFailure(w: nat)
      requires Inv(c, Now()) && UploadCan(Now(), w, ReadForFailure)
      modifies this
      ensures Now() == Next(c, old(Now()), InUpload(w, ReadForFailure)) && Inv(c, Now())
    {
      hide Inv, LoopNext, ChunksNext, ProgressNext;
      NextKeepsInv(c, Now(), InUpload(w, ReadForFailure));
      var u := uploads[w];
      var row := rows[u.id];
      if row.status.InProgress? {
        uploads := uploads[w := u.(phase := Recording(row.retries))];
      } else {
        FreeWorker(w);
      }
    }

    /** The guarded update with the retry count that was read. */
    method MarkAsFailedOrRestart(w: nat)
      requires Inv(c, Now()) && UploadCan(Now(), w, WriteFailure)
      modifies this
      ensures Now() == Next(c, old(Now()), InUpload(w, WriteFailure)) && Inv(c, Now())
    {
      hide Inv, LoopNext, ChunksNext, ProgressNext;
      NextKeepsInv(c, Now(), InUpload(w, WriteFailure));
      var u := uploads[w];
      var status := if u.phase.retries >= c.retryLimit then Failed else Enqueued;
      if rows[u.id].status.InProgress? {
        rows := rows[u.id := rows[u.id].(status := status, retries := u.phase.retries + 1)];
        fails := fails + multiset{u.id};
      }
      FreeWorker(w);
    }

    /** The rows `enqueueChunksForUpload` creates: each chunk once, known ones are left alone. */
    method BulkCreate(ids: seq<Id>)
      requires Inv(c, Now())
      modifies this`rows
      ensures rows == Created(old(rows), set i | 0 <= i < |ids| :: ids[i], Enqueued)
      ensures Now() == Next(c, old(Now()), OnChunks(EnqueueChunks(set i | 0 <= i < |ids| :: ids[i]))) && Inv(c, Now())
    {
      hide Created, Inv;
      NextKeepsInv(c, Now(), OnChunks(EnqueueChunks(set i | 0 <= i < |ids| :: ids[i])));
      ghost var done: set<Id> := {};
      CreateNothing(rows);
      for i := 0 to |ids|
        invariant done == set j | 0 <= j < i :: ids[j]
        invariant rows == Created(old(rows), done, Enqueued)
      {
        CreateOneMore(old(rows), done, ids[i]);
        if ids[i] !in rows {
          rows := rows[ids[i] := Row(Enqueued, 0, None)];
        }
        done := done + {ids[i]};
      }
    }
  }

  lemma RestartIs(c: Config, s: State)
    ensures Next(c, s, Restart) ==
      State(s.now, Db(Restarted(s.db.rows), s.db.network, s.db.fails), Pool([], {}, s.pool.made), false, false, [],
            map[], Progress([], map[], [], s.progress.completed))
  {
    hide Restarted;
  }

  lemma CreateNothing(rows: Rows)
    ensures Created(rows, {}, Enqueued) == rows
  {
  }

  lemma CreateOneMore(rows: Rows, done: set<Id>, id: Id)
    ensures var r := Created(rows, done, Enqueued);
      Created(rows, done + {id}, Enqueued) == if id in r then r else r[id := Row(Enqueued, 0, None)]
  {
  }
}
