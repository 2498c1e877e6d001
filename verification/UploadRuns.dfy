/** What the steps of the upload protocol can do: the runs that upload a chunk, record its
    failure, and mark a file as completed, and the effect of every other step. */
module UploadRuns {
  import opened Common
  import opened UploadProtocol

  lemma OneStepMore(c: Config, s: State, a: Step, run: seq<Step>)
    requires Possible(c, s, a) && IsRun(c, Next(c, s, a), run)
    ensures IsRun(c, s, [a] + run) && After(c, s, [a] + run) == After(c, Next(c, s, a), run)
  {
    hide Next, Possible;
    assert ([a] + run)[1..] == run;
  }

  lemma NoSteps(c: Config, s: State)
    ensures IsRun(c, s, []) && After(c, s, []) == s
  {
  }

  lemma {:induction false} ThenMore(c: Config, s: State, a: seq<Step>, b: seq<Step>)
    requires IsRun(c, s, a) && IsRun(c, After(c, s, a), b)
    ensures IsRun(c, s, a + b) && After(c, s, a + b) == After(c, After(c, s, a), b)
    decreases |a|
  {
    hide Next, Possible;
    if a == [] {
      assert a + b == b;
    } else {
      ThenMore(c, Next(c, s, a[0]), a[1..], b);
      assert a + b == [a[0]] + (a[1..] + b) && [a[0]] + a[1..] == a;
      OneStepMore(c, s, a[0], a[1..] + b);
    }
  }

  /** A chunk whose turn has come: it waits for its upload, or its claim has expired. */
  predicate IsDue(s: State, id: Id) {
    && id in s.db.rows
    && (|| s.db.rows[id].status == Enqueued
        || (s.db.rows[id].status == InProgress && s.db.rows[id].expires.Some? && s.db.rows[id].expires.value < s.now))
  }

  /** The state after a due chunk has been claimed by a loop of its own. */
  function Scheduling(c: Config, s: State, id: Id): State
    requires id in s.db.rows && AvailableSlot(s.pool, c.limit).Some?
  {
    var slot := AvailableSlot(s.pool, c.limit).value;
    var row := Row(InProgress, s.db.rows[id].retries, Some(s.now + c.expire));
    s.(db := Db(s.db.rows[id := row], s.db.network, s.db.fails), retry := false,
       pool := WithWorker(s.pool, slot), uploads := s.uploads[s.pool.made := Upload(slot, id, Scheduled)])
  }

  /** From any state without an active loop and with a slot to give, a chunk that is due can
      be claimed, and its upload scheduled with a new worker in that slot. */
  lemma DueChunkCanBeClaimed(c: Config, s: State, id: Id) returns (run: seq<Step>)
    requires s.loops == [] && !s.active && c.limit > 0
    requires IsDue(s, id) && AvailableSlot(s.pool, c.limit).Some?
    ensures IsRun(c, s, run) && After(c, s, run) == Scheduling(c, s, id)
  {
    hide Possible, Next, WithWorker, AvailableSlot, Claimed, IsRun, After;
    var slot, w := AvailableSlot(s.pool, c.limit).value, s.pool.made;
    var waiting := s.db.rows[id].status == Enqueued;
    var first, second := if waiting then [id] else [], if waiting then [] else [id];
    var s1 := s.(active := true, loops := [Started]);
    var s2 := s.(active := true, loops := [Fetched(first)]);
    var s3 := s.(active := true, pool := WithWorker(s.pool, slot), loops := [Reading(w, slot, id, [])]);
    var s4 := s3.(loops := [Checking(w, slot, id, [], s.db.rows[id])]);
    var s5 := s3.(loops := [Claiming(w, slot, id, [], s.now + c.expire)]);
    var s6 := Scheduling(c, s, id);
    StepStart(c, s);
    StepFetch(c, s1, id, first);
    StepStale(c, s2, id, first, second);
    StepRead(c, s3, w, slot, id);
    StepCheck(c, s4, w, slot, id);
    StepClaim(c, s5, w, slot, id);
    assert s6.loops == [];
    NoSteps(c, s6);
    OneStepMore(c, s5, InLoop(0, WriteClaim), []);
    run := [InLoop(0, WriteClaim)] + [];
    OneStepMore(c, s4, InLoop(0, CheckRow), run);
    run := [InLoop(0, CheckRow)] + run;
    OneStepMore(c, s3, InLoop(0, ReadRow), run);
    run := [InLoop(0, ReadRow)] + run;
    OneStepMore(c, s2, InLoop(0, FetchStale(second)), run);
    run := [InLoop(0, FetchStale(second))] + run;
    OneStepMore(c, s1, InLoop(0, FetchAwaiting(first)), run);
    run := [InLoop(0, FetchAwaiting(first))] + run;
    OneStepMore(c, s, StartLoop, run);
    run := [StartLoop] + run;
  }

  lemma StepStart(c: Config, s: State)
    requires s.loops == [] && !s.active
    ensures Possible(c, s, StartLoop) && Next(c, s, StartLoop) == s.(active := true, loops := [Started])
  {
  }

  lemma StepFetch(c: Config, s: State, id: Id, ids: seq<Id>)
    requires s.loops == [Started] && IsDue(s, id) && c.limit > 0
    requires ids == if s.db.rows[id].status == Enqueued then [id] else []
    ensures var a := InLoop(0, FetchAwaiting(ids));
      Possible(c, s, a) && Next(c, s, a) == s.(loops := [Fetched(ids)])
  {
  }

  lemma StepStale(c: Config, s: State, id: Id, first: seq<Id>, ids: seq<Id>)
    requires s.loops == [Fetched(first)] && IsDue(s, id) && c.limit > 0 && AvailableSlot(s.pool, c.limit).Some?
    requires first == if s.db.rows[id].status == Enqueued then [id] else []
    requires ids == if s.db.rows[id].status == Enqueued then [] else [id]
    ensures var a, slot := InLoop(0, FetchStale(ids)), AvailableSlot(s.pool, c.limit).value;
      && Possible(c, s, a)
      && Next(c, s, a) == s.(pool := WithWorker(s.pool, slot), loops := [Reading(s.pool.made, slot, id, [])])
  {
    hide Iterate;
    assert first + ids == [id];
    assert Next(c, s, InLoop(0, FetchStale(ids))) == Iterate(c, s, 0, [id]);
    OneIteration(c, s, id);
  }

  lemma OneIteration(c: Config, s: State, id: Id)
    requires |s.loops| == 1 && AvailableSlot(s.pool, c.limit).Some?
    ensures var slot := AvailableSlot(s.pool, c.limit).value;
      Iterate(c, s, 0, [id]) ==
        s.(pool := WithWorker(s.pool, slot), loops := [Reading(s.pool.made, slot, id, [])])
  {
    hide AvailableSlot, WithWorker;
    assert [id][1..] == [];
  }

  lemma StepRead(c: Config, s: State, w: nat, slot: nat, id: Id)
    requires s.loops == [Reading(w, slot, id, [])] && id in s.db.rows
    ensures Possible(c, s, InLoop(0, ReadRow))
    ensures Next(c, s, InLoop(0, ReadRow)) == s.(loops := [Checking(w, slot, id, [], s.db.rows[id])])
  {
  }

  lemma StepCheck(c: Config, s: State, w: nat, slot: nat, id: Id)
    requires IsDue(s, id) && s.loops == [Checking(w, slot, id, [], s.db.rows[id])]
    ensures Possible(c, s, InLoop(0, CheckRow))
    ensures Next(c, s, InLoop(0, CheckRow)) == s.(loops := [Claiming(w, slot, id, [], s.now + c.expire)])
  {
    hide Iterate;
  }

  lemma StepClaim(c: Config, s: State, w: nat, slot: nat, id: Id)
    requires IsDue(s, id) && s.loops == [Claiming(w, slot, id, [], s.now + c.expire)]
    ensures Possible(c, s, InLoop(0, WriteClaim))
    ensures var row := Row(InProgress, s.db.rows[id].retries, Some(s.now + c.expire));
      Next(c, s, InLoop(0, WriteClaim)) ==
        s.(db := Db(s.db.rows[id := row], s.db.network, s.db.fails), active := false, retry := false, loops := [],
           uploads := s.uploads[w := Upload(slot, id, Scheduled)])
  {
  }

  /** A scheduled upload of a claimed chunk can go well: the chunk is on the network and its
      row COMPLETED, its completion is queued, and the worker is free again. */
  lemma UploadCanSucceed(c: Config, s: State, w: nat) returns (run: seq<Step>)
    requires w in s.uploads && s.uploads[w].phase == Scheduled
    requires s.uploads[w].id in s.db.rows && s.db.rows[s.uploads[w].id].status == InProgress
    ensures IsRun(c, s, run)
    ensures var id := s.uploads[w].id;
      After(c, s, run) ==
        s.(db := Db(s.db.rows[id := s.db.rows[id].(status := Completed)], s.db.network + {id}, s.db.fails),
           pool := s.pool.(free := s.pool.free + {w}), uploads := s.uploads - {w},
           progress := s.progress.(queue := s.progress.queue + [id]))
  {
    hide Possible, Next, IsRun, After;
    var u := s.uploads[w];
    var s1 := InPhase(s, w, Sending);
    var s2 := InPhase(s, w, Stored).(db := s.db.(network := s.db.network + {u.id}));
    var s3 := InPhase(s2, w, Marking);
    var rows := s.db.rows[u.id := s.db.rows[u.id].(status := Completed)];
    var s4 := InPhase(s2, w, Reporting).(db := s2.db.(rows := rows),
                                         progress := s.progress.(queue := s.progress.queue + [u.id]));
    SendSteps(c, s, w);
    SuccessSteps(c, s2, w);
    var s5 := Next(c, s4, InUpload(w, Done));
    var before: map<nat, Upload> := s.uploads;
    assert before[w := u.(phase := Stored)] - {w} == before - {w};
    NoSteps(c, s5);
    OneStepMore(c, s4, InUpload(w, Done), []);
    run := [InUpload(w, Done)] + [];
    OneStepMore(c, s3, InUpload(w, WriteSuccess), run);
    run := [InUpload(w, WriteSuccess)] + run;
    OneStepMore(c, s2, InUpload(w, ReadForSuccess), run);
    run := [InUpload(w, ReadForSuccess)] + run;
    OneStepMore(c, s1, InUpload(w, Post), run);
    run := [InUpload(w, Post)] + run;
    OneStepMore(c, s, InUpload(w, Begin), run);
    run := [InUpload(w, Begin)] + run;
  }

  lemma SendSteps(c: Config, s: State, w: nat)
    requires w in s.uploads && s.uploads[w].phase == Scheduled
    ensures Possible(c, s, InUpload(w, Begin))
    ensures var s1, id := Next(c, s, InUpload(w, Begin)), s.uploads[w].id;
      && s1 == InPhase(s, w, Sending) && Possible(c, s1, InUpload(w, Post))
      && Next(c, s1, InUpload(w, Post)) == InPhase(s, w, Stored).(db := s.db.(network := s.db.network + {id}))
  {
    var u := s.uploads[w];
    assert s.uploads[w := u.(phase := Sending)][w := u.(phase := Stored)] == s.uploads[w := u.(phase := Stored)];
  }

  lemma SuccessSteps(c: Config, s: State, w: nat)
    requires w in s.uploads && s.uploads[w].phase == Stored
    requires s.uploads[w].id in s.db.rows && s.db.rows[s.uploads[w].id].status == InProgress
    ensures Possible(c, s, InUpload(w, ReadForSuccess))
    ensures var s1, id := Next(c, s, InUpload(w, ReadForSuccess)), s.uploads[w].id;
      && s1 == InPhase(s, w, Marking) && Possible(c, s1, InUpload(w, WriteSuccess))
      && var s2 := Next(c, s1, InUpload(w, WriteSuccess));
      && s2 == InPhase(s, w, Reporting).(
           db := s.db.(rows := s.db.rows[id := s.db.rows[id].(status := Completed)]),
           progress := s.progress.(queue := s.progress.queue + [id]))
      && Possible(c, s2, InUpload(w, Done))
      && Next(c, s2, InUpload(w, Done)) == s2.(uploads := s.uploads - {w}, pool := s.pool.(free := s.pool.free + {w}))
  {
    var u := s.uploads[w];
    var v: map<nat, Upload> := s.uploads;
    assert v[w := u.(phase := Marking)][w := u.(phase := Reporting)] == v[w := u.(phase := Reporting)];
    assert v[w := u.(phase := Reporting)] - {w} == v - {w};
  }

  /** It can fail as well: the failure is counted, and the chunk waits again, or is FAILED if
      it had failed as often as the limit before. */
  lemma UploadCanFail(c: Config, s: State, w: nat) returns (run: seq<Step>)
    requires w in s.uploads && s.uploads[w].phase == Scheduled
    requires s.uploads[w].id in s.db.rows && s.db.rows[s.uploads[w].id].status == InProgress
    ensures IsRun(c, s, run)
    ensures var id := s.uploads[w].id;
      var row := s.db.rows[id];
      var row' := Row(if row.retries < c.retryLimit then Enqueued else Failed, row.retries + 1, row.expires);
      After(c, s, run) ==
        s.(db := Db(s.db.rows[id := row'], s.db.network, s.db.fails + multiset{id}),
           pool := s.pool.(free := s.pool.free + {w}), uploads := s.uploads - {w})
  {
    hide Possible, Next, IsRun, After, FailedOrRestarted;
    var s1 := InPhase(s, w, Sending);
    var s2 := InPhase(s, w, Failing);
    var s3 := InPhase(s, w, Recording(s.db.rows[s.uploads[w].id].retries));
    SendSteps(c, s, w);
    FailureSteps(c, s, w);
    var s4 := Next(c, s3, InUpload(w, WriteFailure));
    NoSteps(c, s4);
    OneStepMore(c, s3, InUpload(w, WriteFailure), []);
    run := [InUpload(w, WriteFailure)] + [];
    OneStepMore(c, s2, InUpload(w, ReadForFailure), run);
    run := [InUpload(w, ReadForFailure)] + run;
    OneStepMore(c, s1, InUpload(w, Throw), run);
    run := [InUpload(w, Throw)] + run;
    OneStepMore(c, s, InUpload(w, Begin), run);
    run := [InUpload(w, Begin)] + run;
  }

  lemma FailureSteps(c: Config, s: State, w: nat)
    requires w in s.uploads && s.uploads[w].phase == Scheduled
    requires s.uploads[w].id in s.db.rows && s.db.rows[s.uploads[w].id].status == InProgress
    ensures var id, row := s.uploads[w].id, s.db.rows[s.uploads[w].id];
      var s1, s2, s3 := InPhase(s, w, Sending), InPhase(s, w, Failing), InPhase(s, w, Recording(row.retries));
      && Possible(c, s1, InUpload(w, Throw)) && Next(c, s1, InUpload(w, Throw)) == s2
      && Possible(c, s2, InUpload(w, ReadForFailure)) && Next(c, s2, InUpload(w, ReadForFailure)) == s3
      && Possible(c, s3, InUpload(w, WriteFailure))
      && var row' := Row(if row.retries < c.retryLimit then Enqueued else Failed, row.retries + 1, row.expires);
      Next(c, s3, InUpload(w, WriteFailure)) ==
        s.(db := Db(s.db.rows[id := row'], s.db.network, s.db.fails + multiset{id}),
           pool := s.pool.(free := s.pool.free + {w}), uploads := s.uploads - {w})
  {
    hide FailedOrRestarted;
    var u := s.uploads[w];
    var v: map<nat, Upload> := s.uploads;
    assert v[w := u.(phase := Sending)][w := u.(phase := Failing)] == v[w := u.(phase := Failing)];
    var p := Recording(s.db.rows[u.id].retries);
    assert v[w := u.(phase := Failing)][w := u.(phase := p)] == v[w := u.(phase := p)];
    assert v[w := u.(phase := p)] - {w} == v - {w};
    RecordedRow(c, s.db.rows, u.id);
  }

  lemma RecordedRow(c: Config, rows: Rows, id: Id)
    requires id in rows && rows[id].status == InProgress
    ensures var row := rows[id];
      FailedOrRestarted(c, rows, id, row.retries) ==
        rows[id := Row(if row.retries < c.retryLimit then Enqueued else Failed, row.retries + 1, row.expires)]
  {
  }

  /** The clock goes on, and a chunk in progress falls due as soon as its expiry has passed. */
  lemma {:induction false} ClaimExpires(c: Config, s: State, id: Id, wait: nat) returns (run: seq<Step>)
    requires id in s.db.rows && s.db.rows[id].status == InProgress && s.db.rows[id].expires.Some?
    ensures IsRun(c, s, run) && After(c, s, run) == s.(now := s.now + wait)
    ensures IsDue(After(c, s, run), id) <==> s.db.rows[id].expires.value < s.now + wait
    decreases wait
  {
    if wait == 0 {
      run := [];
    } else {
      var s1 := Next(c, s, Tick);
      assert s1 == s.(now := s.now + 1);
      var rest := ClaimExpires(c, s1, id, wait - 1);
      OneStepMore(c, s, Tick, rest);
      run := [Tick] + rest;
    }
  }

  /** An enqueued chunk can be uploaded: from any state with a slot to give and no active
      loop, some run ends with the chunk COMPLETED and on the network, its completion queued
      and all other rows as they were. */
  lemma DueChunkCanBeUploaded(c: Config, s: State, id: Id) returns (run: seq<Step>)
    requires s.loops == [] && !s.active && c.limit > 0
    requires IsDue(s, id) && AvailableSlot(s.pool, c.limit).Some? && s.pool.made !in s.uploads
    ensures IsRun(c, s, run)
    ensures var s' := After(c, s, run);
      && s'.db.rows == s.db.rows[id := Row(Completed, s.db.rows[id].retries, Some(s.now + c.expire))]
      && s'.db.network == s.db.network + {id} && s'.db.fails == s.db.fails
      && s'.uploads == s.uploads && s'.progress.queue == s.progress.queue + [id]
  {
    hide IsRun, After, AvailableSlot, WithWorker;
    var claim := DueChunkCanBeClaimed(c, s, id);
    var s1 := Scheduling(c, s, id);
    var upload := UploadCanSucceed(c, s1, s.pool.made);
    ThenMore(c, s, claim, upload);
    run := claim + upload;
  }

  /** Writing a success on a row that is in progress completes the chunk for good: it is
      COMPLETED then and at the end of every run from there. */
  lemma WrittenSuccessStays(c: Config, s: State, w: nat, run: seq<Step>)
    requires UploadCan(s, w, WriteSuccess) && s.db.rows[s.uploads[w].id].status == InProgress
    requires IsRun(c, Next(c, s, InUpload(w, WriteSuccess)), run)
    ensures var id, s1 := s.uploads[w].id, Next(c, s, InUpload(w, WriteSuccess));
      && s1.db.rows == s.db.rows[id := s.db.rows[id].(status := Completed)]
      && s1.progress.queue == s.progress.queue + [id]
      && id in After(c, s1, run).db.rows && After(c, s1, run).db.rows[id].status == Completed
  {
    var s1 := Next(c, s, InUpload(w, WriteSuccess));
    assert s1.db.rows == s.db.rows[s.uploads[w].id := s.db.rows[s.uploads[w].id].(status := Completed)];
    CompletedIsAbsorbing(c, s1, run, s.uploads[w].id);
  }

  /** An upload whose row has left IN_PROGRESS meanwhile records nothing: its next read of
      the row only frees its worker, and a write that comes too late changes no row. */
  lemma OutOfSyncRecordsNothing(c: Config, s: State, w: nat, a: UploadStep)
    requires UploadCan(s, w, a) && a in {ReadForSuccess, WriteSuccess, ReadForFailure, WriteFailure}
    requires s.db.rows[s.uploads[w].id].status != InProgress
    ensures var s' := Next(c, s, InUpload(w, a));
      && s'.db == s.db
      && (a != WriteSuccess ==>
            s' == s.(uploads := s.uploads - {w}, pool := s.pool.(free := s.pool.free + {w})))
  {
  }

  /** A chunk found on the network is not posted: the upload continues as stored. A throw
      turns into a failure that is still to be recorded, and touches no row. */
  lemma FoundOrThrown(c: Config, s: State, w: nat)
    requires w in s.uploads && s.uploads[w].phase == Sending
    ensures Possible(c, s, InUpload(w, FoundOnNetwork)) <==> s.uploads[w].id in s.db.network
    ensures s.uploads[w].id in s.db.network ==>
      Next(c, s, InUpload(w, FoundOnNetwork)) ==
        s.(uploads := s.uploads[w := Upload(s.uploads[w].slot, s.uploads[w].id, Stored)])
    ensures Possible(c, s, InUpload(w, Throw))
    ensures Next(c, s, InUpload(w, Throw)) ==
      s.(uploads := s.uploads[w := Upload(s.uploads[w].slot, s.uploads[w].id, Failing)])
  {
  }

  /** A chunk that was taken meanwhile is skipped: nothing is written, and with nothing left
      to do the loop ends with its worker free. */
  lemma TakenChunkIsSkipped(c: Config, s: State, w: nat, slot: nat, id: Id, todo: seq<Id>, row: Row)
    requires s.loops == [Checking(w, slot, id, todo, row)]
    requires row.status != Enqueued
    requires row.status == InProgress ==> row.expires.None? || row.expires.value >= s.now
    ensures Possible(c, s, InLoop(0, CheckRow))
    ensures var s' := Next(c, s, InLoop(0, CheckRow));
      && s'.db == s.db && s'.uploads == s.uploads && w in s'.pool.free
      && (todo == [] ==> s'.loops == [] && !s'.active && !s'.retry)
  {
    hide AvailableSlot;
  }

  /** Starting the loop twice starts one; a loop ends when it finds nothing, when no slot can
      be given, or when it throws, and each time another can be started. */
  lemma LoopStartsAndEnds(c: Config, s: State)
    ensures Possible(c, s, StartLoop)
    ensures s.active ==> Next(c, s, StartLoop) == s.(retry := true)
    ensures |s.loops| == 1 ==>
      Possible(c, s, InLoop(0, LoopThrows)) && Next(c, s, InLoop(0, LoopThrows)) == s.(loops := [], active := false)
    ensures s.loops == [Fetched([])] ==>
      && Possible(c, s, InLoop(0, FetchStale([])))
      && Next(c, s, InLoop(0, FetchStale([]))) == s.(loops := [], active := false)
    ensures forall ids :: s.loops == [Fetched(ids)] && ids != [] && AvailableSlot(s.pool, c.limit).None? ==>
      && Possible(c, s, InLoop(0, FetchStale([])))
      && Next(c, s, InLoop(0, FetchStale([]))) == s.(loops := [], active := false)
  {
    hide AvailableSlot;
    assert forall ids: seq<Id> :: ids + [] == ids;
  }

  /** A restart keeps the tables and nothing else, and every claim is taken back. */
  lemma RestartKeepsTables(c: Config, s: State)
    ensures var s' := Next(c, s, Restart);
      && s'.now == s.now && s'.db.network == s.db.network && s'.db.fails == s.db.fails
      && s'.progress.completed == s.progress.completed
      && s'.loops == [] && s'.uploads == map[] && !s'.active && !s'.retry && s'.pool.workers == []
      && s'.progress.queue == [] && s'.progress.cache == map[] && s'.progress.counts == []
      && s'.db.rows.Keys == s.db.rows.Keys
    ensures forall id :: id in s.db.rows ==>
      var row := s.db.rows[id];
      Next(c, s, Restart).db.rows[id] == if row.status == InProgress then row.(status := Enqueued) else row
  {
  }

  /** What else happens to a chunk without a row: an arrival puts it on the network, and a new
      row waits or is enqueued. */
  lemma NewChunkSteps(c: Config, s: State, id: Id)
    ensures Next(c, s, OnChunks(Arrives(id))) == s.(db := s.db.(network := s.db.network + {id}))
    ensures id !in s.db.rows ==>
      && Next(c, s, OnChunks(CreateRow(id))).db == s.db.(rows := s.db.rows[id := Row(NotStarted, 0, None)])
      && Next(c, s, OnChunks(EnqueueChunks({id}))).db == s.db.(rows := s.db.rows[id := Row(Enqueued, 0, None)])
  {
    if id !in s.db.rows {
      OneCreated(s.db.rows, id, NotStarted);
      OneCreated(s.db.rows, id, Enqueued);
    }
  }

  lemma OneCreated(rows: Rows, id: Id, status: ChunkStatus)
    requires status.NotStarted? || status.Enqueued?
    ensures Created(rows, {id}, status) == if id in rows then rows else rows[id := Row(status, 0, None)]
  {
    var created := if id in rows then rows else rows[id := Row(status, 0, None)];
    assert Created(rows, {id}, status).Keys == created.Keys;
  }

  /** To a chunk with a row: it is not created again, enqueueing takes it up if it has not
      been started or has failed, and if it can be downloaded it counts as uploaded. */
  lemma KnownChunkSteps(c: Config, s: State, id: Id)
    requires id in s.db.rows
    ensures Next(c, s, OnChunks(CreateRow(id))).db == s.db && Next(c, s, OnChunks(EnqueueChunks({id}))).db == s.db
    ensures var row := s.db.rows[id];
      && Next(c, s, OnChunks(ReEnqueue({id}))).db.rows ==
           s.db.rows[id := if row.status in {NotStarted, Failed} then row.(status := Enqueued) else row]
      && (Possible(c, s, OnChunks(Download(id))) <==> id in s.db.network)
      && (id in s.db.network ==>
            Next(c, s, OnChunks(Download(id))).db == s.db.(rows := s.db.rows[id := row.(status := Completed)]))
  {
    hide Created;
    OneCreated(s.db.rows, id, NotStarted);
    OneCreated(s.db.rows, id, Enqueued);
    OneReEnqueued(s.db.rows, id);
  }

  lemma OneReEnqueued(rows: Rows, id: Id)
    requires id in rows
    ensures ReEnqueued(rows, {id}) ==
      rows[id := if rows[id].status in {NotStarted, Failed} then rows[id].(status := Enqueued) else rows[id]]
  {
    var row := if rows[id].status in {NotStarted, Failed} then rows[id].(status := Enqueued) else rows[id];
    assert ReEnqueued(rows, {id}).Keys == rows[id := row].Keys;
  }

  // ------------------------------------------------------------------------ finished files

  /** A queued completion can be taken: the cache then says COMPLETED, and the rest of the
      queue is left. */
  lemma QueuedCompletionIsCached(c: Config, s: State, id: Id, rest: seq<Id>)
    requires s.progress.queue == [id] + rest
    ensures Possible(c, s, OnProgress(NextCompletion))
    ensures Next(c, s, OnProgress(NextCompletion)) ==
      s.(progress := s.progress.(queue := rest, cache := s.progress.cache[id := Completed]))
  {
  }

  /** A status that was cleared from the cache is read from the table the next time. */
  lemma ClearedStatusIsReadAgain(c: Config, s: State, id: Id, k: nat)
    requires k < |s.progress.counts| && IsAtChunk(c, s.progress.counts[k]) && ChunkAt(c, s.progress.counts[k]) == id
    requires id in s.db.rows
    ensures var s1 := Next(c, s, OnProgress(ClearCached(id)));
      && id !in s1.progress.cache
      && (forall x :: x in s.progress.cache && x != id ==>
            x in s1.progress.cache && s1.progress.cache[x] == s.progress.cache[x])
      && Possible(c, s1, OnProgress(ReadStatus(k)))
      && Next(c, s1, OnProgress(ReadStatus(k))).progress.counts[k].fetched == Some(s.db.rows[id].status)
  {
  }

  /** The chunk counts as completed: so its row says, and the cache nothing else. */
  predicate CountsAsDone(s: State, id: Id) {
    && id in s.db.rows && s.db.rows[id].status == Completed
    && (id in s.progress.cache ==> s.progress.cache[id] == Completed)
  }

  lemma {:induction false} CountCanFinish(c: Config, s: State, k: nat, file: Id, i: nat) returns (run: seq<Step>)
    requires k < |s.progress.counts| && s.progress.counts[k] == Count(file, i, i, 0, None)
    requires file in c.chunksOf && c.chunksOf[file] != [] && i <= |c.chunksOf[file]|
    requires forall id :: id in c.chunksOf[file][i..] ==> CountsAsDone(s, id)
    ensures IsRun(c, s, run) && file in After(c, s, run).progress.completed
    decreases |c.chunksOf[file]| - i
  {
    hide IsRun, After;
    if i == |c.chunksOf[file]| {
      var a := OnProgress(FinishCount(k));
      NoSteps(c, Next(c, s, a));
      OneStepMore(c, s, a, []);
      run := [a] + [];
    } else {
      var id := c.chunksOf[file][i];
      assert id in c.chunksOf[file][i..];
      var s1, read: seq<Step> := CountIsRead(c, s, k, file, i);
      var a := OnProgress(CountChunk(k));
      var s2 := Next(c, s1, a);
      assert s2.db == s.db && s2.progress.cache == s.progress.cache[id := Completed];
      forall x | x in c.chunksOf[file][i + 1..] ensures CountsAsDone(s2, x) {
        assert x in c.chunksOf[file][i..];
        assert CountsAsDone(s, x);
      }
      var rest := CountCanFinish(c, s2, k, file, i + 1);
      OneStepMore(c, s1, a, rest);
      ThenMore(c, s, read, [a] + rest);
      run := read + ([a] + rest);
    }
  }

  /** The status of the next chunk is cached, or can be read. */
  lemma CountIsRead(c: Config, s: State, k: nat, file: Id, i: nat) returns (s': State, run: seq<Step>)
    requires k < |s.progress.counts| && s.progress.counts[k] == Count(file, i, i, 0, None)
    requires file in c.chunksOf && i < |c.chunksOf[file]| && CountsAsDone(s, c.chunksOf[file][i])
    ensures IsRun(c, s, run) && s' == After(c, s, run)
    ensures s'.db == s.db && s'.progress.cache == s.progress.cache && k < |s'.progress.counts|
    ensures Possible(c, s', OnProgress(CountChunk(k)))
    ensures s'.progress.counts[k] in {Count(file, i, i, 0, None), Count(file, i, i, 0, Some(Completed))}
  {
    if c.chunksOf[file][i] in s.progress.cache {
      run, s' := [], s;
    } else {
      var a := OnProgress(ReadStatus(k));
      s' := Next(c, s, a);
      NoSteps(c, s');
      OneStepMore(c, s, a, []);
      run := [a] + [];
    }
  }

  /** A file all of whose chunks are COMPLETED can be marked as completed, from any state. */
  lemma FileCanBeMarked(c: Config, s: State, file: Id) returns (run: seq<Step>)
    requires file in c.chunksOf && c.chunksOf[file] != []
    requires forall id :: id in c.chunksOf[file] ==> CountsAsDone(s, id)
    ensures IsRun(c, s, run) && file in After(c, s, run).progress.completed
  {
    hide IsRun, After;
    var a := OnProgress(CountFile(file));
    var s1 := Next(c, s, a);
    var rest := CountCanFinish(c, s1, |s.progress.counts|, file, 0);
    OneStepMore(c, s, a, rest);
    run := [a] + rest;
  }

  /** A count that saw a failed chunk, or one that was not completed, never marks its file. */
  lemma UnfinishedFileIsNotMarked(c: Config, s: State, k: nat)
    requires k < |s.progress.counts| && Possible(c, s, OnProgress(CountChunk(k)))
    requires s.progress.counts[k].completed <= s.progress.counts[k].idx
    ensures var n, n' := s.progress.counts[k], Next(c, s, OnProgress(CountChunk(k))).progress.counts[k];
      var id := c.chunksOf[n.file][n.idx];
      var status := if n.fetched.Some? then n.fetched.value else s.progress.cache[id];
      && n'.file == n.file && n'.idx == n.idx + 1
      && (status == Failed ==> n'.failed == n.failed + 1) && (status != Completed ==> n'.completed < n'.idx)
      && (n.completed < n.idx ==> n'.completed < n'.idx) && n.failed <= n'.failed
      && (n'.idx == |c.chunksOf[n.file]| && (n'.failed > 0 || n'.completed < n'.idx) ==>
            var s1 := Next(c, s, OnProgress(CountChunk(k)));
            Next(c, s1, OnProgress(FinishCount(k))).progress.completed == s.progress.completed)
  {
  }
}
