/** The two hand-written sequential executors: `ensureSequential` of
    `src/client/hostStorage.ts` and the queue of `src/client/storage/progress.ts`. Jobs
    are suspended at their awaits, so between two steps of a job anything may be enqueued
    and any deferred poke may fire. */
module Executor {
  import opened Common

  /** The queue, the in-progress flag, the job that is being awaited, the number of pokes
      deferred with setImmediate; and, for the record, what was enqueued and started. */
  datatype State = State(queue: seq<int>, inProgress: bool, running: Option<int>, pokes: nat,
                         enqueued: seq<int>, started: seq<int>)

  const INITIAL := State([], false, None, 0, [], [])

  datatype Step = Enqueue(job: int) | Finish | Poke

  /** `_processSequential` up to its await. */
  function Poked(s: State): State {
    if s.inProgress || s.queue == [] then s
    else s.(inProgress := true, queue := s.queue[1..], running := Some(s.queue[0]), started := s.started + [s.queue[0]])
  }

  predicate Possible(s: State, a: Step) {
    match a
    case Enqueue(_) => true
    case Finish => s.running.Some?
    case Poke => s.pokes > 0
  }

  function Next(s: State, a: Step): State {
    match a
    case Enqueue(job) => Poked(s.(queue := s.queue + [job], enqueued := s.enqueued + [job]))
    case Finish => s.(inProgress := false, running := None, pokes := s.pokes + 1)
    case Poke => if s.pokes > 0 then Poked(s.(pokes := s.pokes - 1)) else s
  }

  /** At most one job runs; jobs start in the order they came, each once; and a waiting job
      always has a running job or a pending poke to wake it. */
  predicate Inv(s: State) {
    && (s.inProgress <==> s.running.Some?)
    && s.enqueued == s.started + s.queue
    && (s.queue != [] ==> s.running.Some? || s.pokes > 0)
    && (s.running.Some? ==> s.started != [] && s.started[|s.started| - 1] == s.running.value)
  }

  predicate IsRun(s: State, run: seq<Step>)
    decreases |run|
  {
    run == [] || (Possible(s, run[0]) && IsRun(Next(s, run[0]), run[1..]))
  }

  function After(s: State, run: seq<Step>): State
    decreases |run|
  {
    if run == [] then s else After(Next(s, run[0]), run[1..])
  }

  lemma NextKeepsInv(s: State, a: Step)
    requires Inv(s) && Possible(s, a)
    ensures Inv(Next(s, a))
  {
  }

  /** Over every interleaving of enqueues, finishes and deferred pokes. */
  lemma {:induction false} RunsKeepInv(s: State, run: seq<Step>)
    requires Inv(s) && IsRun(s, run)
    ensures Inv(After(s, run))
    decreases |run|
  {
    if run == [] {
    } else {
      NextKeepsInv(s, run[0]);
      RunsKeepInv(Next(s, run[0]), run[1..]);
    }
  }

  /** An upper bound on the steps that are left when nothing more is enqueued. */
  function Work(s: State): nat {
    3 * |s.queue| + s.pokes + (if s.running.Some? then 2 else 0)
  }

  /** No wakeup is lost, whatever the schedule: without further enqueues a run has at most
      `Work(s)` steps, and when no step is left every job was started, in order. */
  lemma {:induction false} NoWakeupIsLost(s: State, run: seq<Step>)
    requires Inv(s) && IsRun(s, run) && forall a :: a in run ==> !a.Enqueue?
    ensures |run| + Work(After(s, run)) <= Work(s)
    ensures var s' := After(s, run);
      !Possible(s', Finish) && !Possible(s', Poke) ==> s'.started == s.enqueued
    decreases |run|
  {
    if run == [] {
    } else {
      NextKeepsInv(s, run[0]);
      assert run[0] in run;
      NoWakeupIsLost(Next(s, run[0]), run[1..]);
    }
  }

  /** The jobs that a run enqueues. */
  function Jobs(run: seq<Step>): seq<int> {
    if run == [] then [] else (if run[0].Enqueue? then [run[0].job] else []) + Jobs(run[1..])
  }

  lemma {:induction false} EveryJobIsEnqueued(s: State, run: seq<Step>)
    ensures After(s, run).enqueued == s.enqueued + Jobs(run)
    decreases |run|
  {
    hide Next;
    if run == [] {
    } else {
      OnlyEnqueued(s, run[0]);
      EveryJobIsEnqueued(Next(s, run[0]), run[1..]);
      var first := if run[0].Enqueue? then [run[0].job] else [];
      assert s.enqueued + first + Jobs(run[1..]) == s.enqueued + (first + Jobs(run[1..]));
    }
  }

  lemma OnlyEnqueued(s: State, a: Step)
    ensures Next(s, a).enqueued == s.enqueued + if a.Enqueue? then [a.job] else []
  {
  }

  /** From the start, over every run: what was started is a prefix of the jobs that were
      enqueued, and when no step is left it is all of them. */
  lemma JobsStartInOrder(run: seq<Step>)
    requires IsRun(INITIAL, run)
    ensures var s := After(INITIAL, run);
      && s.started <= Jobs(run)
      && (!Possible(s, Finish) && !Possible(s, Poke) ==> s.started == Jobs(run))
  {
    EveryJobIsEnqueued(INITIAL, run);
    RunsKeepInv(INITIAL, run);
    assert [] + Jobs(run) == Jobs(run);
  }

  /** `src/util/queue.ts`. */
  class Queue {
    var items: seq<int>

    constructor ()
      ensures items == []
    {
      items := [];
    }

    method Enqueue(x: int)
      modifies this
      ensures items == old(items) + [x]
    {
      items := items + [x];
    }

    method Dequeue() returns (x: Option<int>)
      modifies this
      ensures old(items) == [] ==> x == None && items == []
      ensures old(items) != [] ==> x == Some(old(items)[0]) && items == old(items)[1..]
    {
      if |items| == 0 {
        return None;
      }
      x := Some(items[0]);
      items := items[1..];
    }

    predicate IsEmpty()
      reads this
    {
      |items| == 0
    }
  }

  class Executor {
    const queue: Queue
    var inProgress: bool
    var running: Option<int>
    var pokes: nat
    ghost var enqueued: seq<int>
    ghost var started: seq<int>

    ghost function Now(): State
      reads this, queue
    {
      State(queue.items, inProgress, running, pokes, enqueued, started)
    }

    constructor ()
      ensures Now() == INITIAL && fresh(queue)
    {
      queue := new Queue();
      inProgress, running, pokes := false, None, 0;
      enqueued, started := [], [];
    }

    /** `_processSequential`, up to the await of the job. */
    method ProcessSequential()
      modifies this, queue
      ensures Now() == Poked(old(Now()))
    {
      if inProgress {
        return;
      }
      inProgress := true;
      if !queue.IsEmpty() {
        var job := queue.Dequeue();
        running := job;
        started := started + [job.value];
        return;
      }
      inProgress := false;
    }

    /** `processQueue` of the progress updates: the same transition, checked in another order. */
    method ProcessQueue()
      modifies this, queue
      ensures Now() == Poked(old(Now()))
    {
      if inProgress {
        return;
      }
      if queue.IsEmpty() {
        return;
      }
      inProgress := true;
      var job := queue.Dequeue();
      running := job;
      started := started + [job.value];
    }

    /** `ensureSequential`: enqueue the job, then poke. */
    method EnsureSequential(job: int)
      requires Inv(Now())
      modifies this, queue
      ensures Now() == Next(old(Now()), Enqueue(job)) && Inv(Now())
    {
      NextKeepsInv(Now(), Enqueue(job));
      queue.Enqueue(job);
      enqueued := enqueued + [job];
      ProcessSequential();
    }

    /** What follows the await: the next poke is deferred, then the flag is cleared. */
    method JobFinished()
      requires Inv(Now()) && running.Some?
      modifies this
      ensures Now() == Next(old(Now()), Finish) && Inv(Now())
    {
      NextKeepsInv(Now(), Finish);
      pokes := pokes + 1;
      running := None;
      inProgress := false;
    }

    /** A deferred poke fires. */
    method PokeFires()
      requires Inv(Now()) && pokes > 0
      modifies this, queue
      ensures Now() == Next(old(Now()), Poke) && Inv(Now())
    {
      NextKeepsInv(Now(), Poke);
      pokes := pokes - 1;
      ProcessSequential();
    }
  }
}
