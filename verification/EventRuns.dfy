/** Queries over the event-scan cache and whole runs of them: what the cache answers
    is what the chain would have answered. */
module EventRuns {
  import opened Common
  import opened EventCache

  datatype Bound = Latest | At(block: nat)
  datatype Request = Request(key: Key, name: string, from: nat, to: Bound, filter: map<string, string>)

  function ToBlock(w: World, req: Request): nat {
    if req.to.Latest? then Head(w, req.key.chainId) else req.to.block
  }

  function Lowest(w: World, req: Request): nat { Min(req.from, ToBlock(w, req)) }
  function Highest(w: World, req: Request): nat { Max(req.from, ToBlock(w, req)) }

  predicate Passes(l: Log, filter: map<string, string>) {
    forall k :: k in filter ==> k in l.returnValues && l.returnValues[k] == filter[k]
  }

  predicate Wanted(l: Log, w: World, req: Request) {
    && l.key == req.key && l.name == req.name
    && Lowest(w, req) <= l.block <= Highest(w, req)
    && Passes(l, req.filter)
  }

  /** The simple thing the cache speeds up: asking the chain. */
  function DirectAnswer(w: World, req: Request): set<Log> {
    set l | l in w.logs && Wanted(l, w, req)
  }

  /** What the local Event table answers. */
  function CachedAnswer(w: World, t: Tables, req: Request): set<Log> {
    set id | id in t.events && Wanted(t.events[id], w, req) :: t.events[id]
  }

  /** What a query asks the chain for, in terms of the chain alone: logs of the event that
      pass the filter, between the two bounds in either order, and with `latest` up to the
      head of the chain. */
  lemma DirectAnswerIs(cfg: Config, w: World, req: Request, l: Log)
    requires ValidWorld(cfg, w) && req.key.chainId in w.heads
    ensures l in DirectAnswer(w, req) <==>
      && l in w.logs && l.key == req.key && l.name == req.name
      && (forall k :: k in req.filter ==> k in l.returnValues && l.returnValues[k] == req.filter[k])
      && match req.to
         case At(b) => req.from <= l.block <= b || b <= l.block <= req.from
         case Latest => req.from <= l.block || l.block == w.heads[req.key.chainId] <= req.from
  {
  }

  /** `latest` from a block at or below the head: every log from there on. */
  lemma LatestAnswer(cfg: Config, w: World, key: Key, name: string, from: nat, filter: map<string, string>, l: Log)
    requires ValidWorld(cfg, w) && from <= Head(w, key.chainId)
    ensures l in DirectAnswer(w, Request(key, name, from, Latest, filter)) <==>
      && l in w.logs && l.key == key && l.name == name && from <= l.block
      && forall k :: k in filter ==> k in l.returnValues && l.returnValues[k] == filter[k]
  {
  }

  /** `latest` is the head: asked with it, or with its number, both chain and cache give the
      same answer. */
  lemma LatestIsTheHead(w: World, t: Tables, req: Request)
    requires req.to.Latest? && req.key.chainId in w.heads
    ensures var req' := req.(to := At(w.heads[req.key.chainId]));
      DirectAnswer(w, req) == DirectAnswer(w, req') && CachedAnswer(w, t, req) == CachedAnswer(w, t, req')
  {
  }

  predicate InBlockOrder(ls: seq<Log>, ascending: bool) {
    forall i, j :: 0 <= i < j < |ls| ==>
      if ascending then ls[i].block <= ls[j].block else ls[j].block <= ls[i].block
  }

  /** `ls` lists `answer`, each log once, in block order. */
  ghost predicate Lists(ls: seq<Log>, answer: set<Log>, ascending: bool) {
    && (forall l :: l in ls <==> l in answer)
    && (forall i, j :: 0 <= i < j < |ls| ==> ls[i] != ls[j])
    && InBlockOrder(ls, ascending)
  }

  // ------------------------------------------------------------------ whole runs

  datatype State = State(world: World, tables: Tables)

  /** The chain grows, or a query is served; `ranges` and `picked` are the database's
      answers to the two lookups the query makes. */
  datatype Action =
    | Grow(world: World)
    | Serve(req: Request, ranges: seq<Range>, picked: Option<ScanId>)

  ghost predicate CanServe(cfg: Config, s: State, req: Request, rs: seq<Range>, picked: Option<ScanId>)
    requires cfg.pageSize > 0 && DistinctIds(cfg, s.world)
  {
    var lo, hi := Lowest(s.world, req), Highest(s.world, req);
    && WellFormedScans(s.tables.scans)
    && IsRangeAnswer(s.tables.scans, req.key, lo, hi, rs)
    && (RangeAnswerIsQueryable(s.tables.scans, req.key, lo, hi, rs);
        IsPick(Scanned(cfg, s.world, s.tables, req.key, lo, hi, rs).scans, picked))
  }

  /** The hypotheses on one step: mined blocks are immutable and event ids distinct; a
      query stays at or below the head; the row `findOne` picked matches the query, is left
      as it is, or is widened over claimed blocks only. */
  ghost predicate Allowed(cfg: Config, s: State, a: Action)
    requires cfg.pageSize > 0 && DistinctIds(cfg, s.world)
  {
    match a
    case Grow(w') => Extends(s.world, w') && ValidWorld(cfg, w')
    case Serve(req, rs, picked) =>
      var lo, hi := Lowest(s.world, req), Highest(s.world, req);
      && CanServe(cfg, s, req, rs, picked)
      && hi <= Head(s.world, req.key.chainId)
      && (RangeAnswerIsQueryable(s.tables.scans, req.key, lo, hi, rs);
          PickIsGood(cfg, s.world, s.tables, req.key, lo, hi, rs, picked))
  }

  ghost function Next(cfg: Config, s: State, a: Action): State
    requires cfg.pageSize > 0 && DistinctIds(cfg, s.world) && Allowed(cfg, s, a)
  {
    match a
    case Grow(w') => State(w', s.tables)
    case Serve(req, rs, picked) =>
      var lo, hi := Lowest(s.world, req), Highest(s.world, req);
      RangeAnswerIsQueryable(s.tables.scans, req.key, lo, hi, rs);
      State(s.world, Renew(cfg, s.world, s.tables, req.key, lo, hi, rs, picked))
  }

  lemma ServeKeepsSound(cfg: Config, s: State, a: Action)
    requires cfg.pageSize > 0 && a.Serve? && ValidWorld(cfg, s.world) && Sound(cfg, s.world, s.tables)
    requires Allowed(cfg, s, a)
    ensures var t' := Next(cfg, s, a).tables;
      && Sound(cfg, s.world, t')
      && Fetched(cfg, s.world, t', a.req.key, Lowest(s.world, a.req), Highest(s.world, a.req))
  {
    hide Sound, Fetched, EventCache.Renew, PickIsGood;
    RenewSound(cfg, s.world, s.tables, a.req.key, Lowest(s.world, a.req), Highest(s.world, a.req), a.ranges, a.picked);
  }

  lemma GrowthKeepsSound(cfg: Config, w: World, w': World, t: Tables)
    requires Sound(cfg, w, t) && Extends(w, w')
    ensures Sound(cfg, w', t)
  {
    forall id | id in t.scans
      ensures t.scans[id].to <= Head(w', t.scans[id].key.chainId)
      ensures Fetched(cfg, w', t, t.scans[id].key, t.scans[id].from, t.scans[id].to)
    {
      var row := t.scans[id];
      assert row.to <= Head(w, row.key.chainId) <= Head(w', row.key.chainId);
      forall l | l in LogsIn(w', row.key, row.from, row.to) ensures EventId(cfg, l) in t.events {
        assert l in LogsIn(w, row.key, row.from, row.to);
      }
    }
  }

  /** Soundness of the scan table is kept by every step: new blocks never fall into an
      interval that was recorded before they were mined. */
  lemma NextKeepsSound(cfg: Config, s: State, a: Action)
    requires cfg.pageSize > 0 && ValidWorld(cfg, s.world) && Sound(cfg, s.world, s.tables)
    requires Allowed(cfg, s, a)
    ensures ValidWorld(cfg, Next(cfg, s, a).world)
    ensures Sound(cfg, Next(cfg, s, a).world, Next(cfg, s, a).tables)
  {
    match a
    case Grow(w') => GrowthKeepsSound(cfg, s.world, w', s.tables);
    case Serve(_, _, _) => ServeKeepsSound(cfg, s, a);
  }

  ghost predicate IsRun(cfg: Config, s: State, run: seq<Action>)
    requires cfg.pageSize > 0
    decreases |run|
  {
    && ValidWorld(cfg, s.world)
    && (run != [] ==> Allowed(cfg, s, run[0]) && IsRun(cfg, Next(cfg, s, run[0]), run[1..]))
  }

  ghost function After(cfg: Config, s: State, run: seq<Action>): State
    requires cfg.pageSize > 0 && IsRun(cfg, s, run)
    decreases |run|
  {
    if run == [] then s else After(cfg, Next(cfg, s, run[0]), run[1..])
  }

  /** No reachable row claims a block whose events were not fetched. */
  lemma {:induction false} ReachableTablesAreSound(cfg: Config, s: State, run: seq<Action>)
    requires cfg.pageSize > 0 && Sound(cfg, s.world, s.tables) && IsRun(cfg, s, run)
    ensures ValidWorld(cfg, After(cfg, s, run).world)
    ensures Sound(cfg, After(cfg, s, run).world, After(cfg, s, run).tables)
    decreases |run|
  {
    if run == [] {
    } else {
      NextKeepsSound(cfg, s, run[0]);
      ReachableTablesAreSound(cfg, Next(cfg, s, run[0]), run[1..]);
    }
  }

  lemma SoundTablesAnswerDirectly(cfg: Config, w: World, t: Tables, req: Request)
    requires ValidWorld(cfg, w) && Sound(cfg, w, t)
    requires Fetched(cfg, w, t, req.key, Lowest(w, req), Highest(w, req))
    ensures CachedAnswer(w, t, req) == DirectAnswer(w, req)
  {
    forall l | l in DirectAnswer(w, req) ensures l in CachedAnswer(w, t, req) {
      assert l in LogsIn(w, req.key, Lowest(w, req), Highest(w, req));
      assert t.events[EventId(cfg, l)] == l;
    }
  }

  /** Cache transparency over whole runs: start from an empty database, let the chain
      grow and any queries with any ranges be served, in any order; the next query is
      answered from the cache with exactly the logs the chain would have returned. */
  lemma CacheTransparency(cfg: Config, w0: World, run: seq<Action>, req: Request,
                          rs: seq<Range>, picked: Option<ScanId>)
    requires cfg.pageSize > 0 && IsRun(cfg, State(w0, Tables(map[], map[])), run)
    requires var s := After(cfg, State(w0, Tables(map[], map[])), run);
      ValidWorld(cfg, s.world) && Allowed(cfg, s, Serve(req, rs, picked))
    ensures var s := After(cfg, State(w0, Tables(map[], map[])), run);
      CachedAnswer(s.world, Next(cfg, s, Serve(req, rs, picked)).tables, req) == DirectAnswer(s.world, req)
    ensures var s := After(cfg, State(w0, Tables(map[], map[])), run);
      req.key.chainId in s.world.heads ==>
        forall l :: l in CachedAnswer(s.world, Next(cfg, s, Serve(req, rs, picked)).tables, req) <==>
          && l in s.world.logs && l.key == req.key && l.name == req.name
          && (forall k :: k in req.filter ==> k in l.returnValues && l.returnValues[k] == req.filter[k])
          && match req.to
             case At(b) => req.from <= l.block <= b || b <= l.block <= req.from
             case Latest => req.from <= l.block || l.block == s.world.heads[req.key.chainId] <= req.from
  {
    var s0 := State(w0, Tables(map[], map[]));
    ReachableTablesAreSound(cfg, s0, run);
    var s := After(cfg, s0, run);
    ServeKeepsSound(cfg, s, Serve(req, rs, picked));
    SoundTablesAnswerDirectly(cfg, s.world, Next(cfg, s, Serve(req, rs, picked)).tables, req);
    if req.key.chainId in s.world.heads {
      forall l {
        DirectAnswerIs(cfg, s.world, req, l);
      }
    }
  }

  // -------------------------------------- what the matching-row hypothesis is for

  ghost predicate CollapseSafe(cfg: Config, w: World, t: Tables, key: Key, from: nat, to: nat,
                               maxScanned: nat, picked: ScanId)
    requires picked in t.scans
  {
    forall logs, events ::
      var w', t' := World(w.heads, logs), Tables(events, t.scans);
      ValidWorld(cfg, w') && Sound(cfg, w', t') ==>
        Sound(cfg, w', Collapse(t', key, from, to, maxScanned, Some(picked)))
  }

  /** Exactly which rows `findOne()` may return: the collapse keeps the table sound
      whatever the chain holds if and only if every block of the widened interval was
      already claimed for the contract of the picked row. */
  lemma CollapseSafeIff(cfg: Config, w: World, t: Tables, key: Key, from: nat, to: nat,
                        maxScanned: nat, picked: ScanId)
    requires picked in t.scans && WellFormedScans(t.scans)
    requires forall id :: id in t.scans ==> t.scans[id].to <= Head(w, t.scans[id].key.chainId)
    requires maxScanned <= Head(w, t.scans[picked].key.chainId)
    requires !(t.scans[picked].from == from && t.scans[picked].to == maxScanned)
    ensures var wide := Widen(t.scans[picked], from, maxScanned);
      CollapseSafe(cfg, w, t, key, from, to, maxScanned, picked)
      <==> forall b: nat :: wide.from <= b <= wide.to ==> Claimed(t.scans, wide.key, b)
  {
    var wide := Widen(t.scans[picked], from, maxScanned);
    if b: nat :| wide.from <= b <= wide.to && !Claimed(t.scans, wide.key, b) {
      UnclaimedBlockBreaksCollapse(cfg, w, t, key, from, to, maxScanned, picked, b);
    } else {
      forall logs, events |
          ValidWorld(cfg, World(w.heads, logs)) && Sound(cfg, World(w.heads, logs), Tables(events, t.scans))
        ensures Sound(cfg, World(w.heads, logs),
                      Collapse(Tables(events, t.scans), key, from, to, maxScanned, Some(picked)))
      {
        var w', t' := World(w.heads, logs), Tables(events, t.scans);
        forall l | l in LogsIn(w', wide.key, wide.from, wide.to) ensures EventId(cfg, l) in events {
          assert Claimed(t.scans, wide.key, l.block);
          var id :| id in t.scans && t.scans[id].key == wide.key && t.scans[id].from <= l.block <= t.scans[id].to;
          assert l in LogsIn(w', wide.key, t.scans[id].from, t.scans[id].to);
        }
      }
    }
  }

  lemma UnclaimedBlockBreaksCollapse(cfg: Config, w: World, t: Tables, key: Key, from: nat, to: nat,
                                     maxScanned: nat, picked: ScanId, b: nat)
    requires picked in t.scans && WellFormedScans(t.scans)
    requires forall id :: id in t.scans ==> t.scans[id].to <= Head(w, t.scans[id].key.chainId)
    requires maxScanned <= Head(w, t.scans[picked].key.chainId)
    requires !(t.scans[picked].from == from && t.scans[picked].to == maxScanned)
    requires var wide := Widen(t.scans[picked], from, maxScanned);
      wide.from <= b <= wide.to && !Claimed(t.scans, wide.key, b)
    ensures !CollapseSafe(cfg, w, t, key, from, to, maxScanned, picked)
  {
    var wide := Widen(t.scans[picked], from, maxScanned);
    var l := Log(wide.key, "", "", b, "", map[]);
    var logs, events := {l}, map[];
    var w', t' := World(w.heads, logs), Tables(events, t.scans);
    assert ValidWorld(cfg, w');
    assert Sound(cfg, w', t') by {
      forall id | id in t.scans
        ensures Fetched(cfg, w', t', t.scans[id].key, t.scans[id].from, t.scans[id].to)
      {
        assert l !in LogsIn(w', t.scans[id].key, t.scans[id].from, t.scans[id].to);
      }
    }
    var c := Collapse(t', key, from, to, maxScanned, Some(picked));
    assert c.scans[picked] == wide;
    assert l in LogsIn(w', wide.key, wide.from, wide.to) && EventId(cfg, l) !in c.events;
    assert !Sound(cfg, w', c);
  }

  /** Blocks 0..5 and 100..150 of the log's contract are recorded, and the head is 200. */
  function TwoRows(l: Log): Tables {
    Tables(map[], map[ScanId(l.key.contract, 0, 5) := ScanRow(l.key, 0, 5),
                      ScanId(l.key.contract, 100, 150) := ScanRow(l.key, 100, 150)])
  }

  function OneLog(l: Log): World { World(map[l.key.chainId := 200], {l}) }

  lemma TwoRowsCanServe(cfg: Config, l: Log)
    requires l.block == 50 && cfg.pageSize == 1000
    ensures var rs := [Range(100, 150, false)];
      && ValidWorld(cfg, OneLog(l)) && Sound(cfg, OneLog(l), TwoRows(l))
      && IsRangeAnswer(TwoRows(l).scans, l.key, 100, 200, rs)
      && var t1 := Scanned(cfg, OneLog(l), TwoRows(l), l.key, 100, 200, rs);
      && t1.events == map[]
      && t1.scans == TwoRows(l).scans[ScanId(l.key.contract, 151, 200) := ScanRow(l.key, 151, 200)]
  {
    var t, w := TwoRows(l), OneLog(l);
    assert t.scans[ScanId(l.key.contract, 100, 150)] == ScanRow(l.key, 100, 150);
    SweepOfOneRange(Range(100, 150, false));
    var p := Page(151, 200);
    assert ScanPages(cfg, w, t, l.key, [p][..0]) == t;
    assert ScanPages(cfg, w, t, l.key, [p]) == ScanPage(cfg, w, t, l.key, [p][0]);
    assert LogsIn(w, l.key, 151, 200) == {};
  }

  /** The hypothesis is needed: rows 0..5 and 100..150 of one contract are recorded, the
      query is 100..200, and `findOne()` returns the first row. It is widened to 0..150,
      so a query of blocks 0..60 fetches no page and misses the log in block 50. */
  lemma PickedRowMustMatch(cfg: Config, l: Log)
    requires l.block == 50 && cfg.pageSize == 1000
    ensures var key, w, t := l.key, OneLog(l), TwoRows(l);
      var picked, rs := ScanId(key.contract, 0, 5), [Range(100, 150, false)];
      var later := Request(key, l.name, 0, At(60), map[]);
      && ValidWorld(cfg, w) && Sound(cfg, w, t)
      && CanServe(cfg, State(w, t), Request(key, l.name, 100, At(200), map[]), rs, Some(picked))
      && var t' := Renew(cfg, w, t, key, 100, 200, rs, Some(picked));
      && !Sound(cfg, w, t')
      && IsRangeAnswer(t'.scans, key, 0, 60, [Range(0, 150, false)])
      && SweepQuery([Range(0, 150, false)], 0, 60, 1000).pages == []
      && CachedAnswer(w, t', later) != DirectAnswer(w, later)
  {
    hide Sweep, GapPages, ScanPages, Sound, LogsIn, DirectAnswer, CachedAnswer;
    var key, w, picked := l.key, OneLog(l), ScanId(l.key.contract, 0, 5);
    TwoRowsCanServe(cfg, l);
    SweepOfOneRange(Range(100, 150, false));
    var t' := Renew(cfg, w, TwoRows(l), key, 100, 200, [Range(100, 150, false)], Some(picked));
    assert t' == Tables(map[], map[picked := ScanRow(key, 0, 150)]);
    WidenedRowHidesLog(cfg, l);
  }

  lemma WidenedRowHidesLog(cfg: Config, l: Log)
    requires l.block == 50
    ensures var t := Tables(map[], map[ScanId(l.key.contract, 0, 5) := ScanRow(l.key, 0, 150)]);
      var later := Request(l.key, l.name, 0, At(60), map[]);
      && !Sound(cfg, OneLog(l), t)
      && IsRangeAnswer(t.scans, l.key, 0, 60, [Range(0, 150, false)])
      && SweepQuery([Range(0, 150, false)], 0, 60, 1000).pages == []
      && CachedAnswer(OneLog(l), t, later) != DirectAnswer(OneLog(l), later)
  {
    var t := Tables(map[], map[ScanId(l.key.contract, 0, 5) := ScanRow(l.key, 0, 150)]);
    assert t.scans[ScanId(l.key.contract, 0, 5)] == ScanRow(l.key, 0, 150);
    assert l in LogsIn(OneLog(l), l.key, 0, 150) && EventId(cfg, l) !in t.events;
    assert WithFake([Range(0, 150, false)], 60)[0] == Range(0, 150, false);
    assert l in DirectAnswer(OneLog(l), Request(l.key, l.name, 0, At(60), map[]));
  }

  lemma SweepOfOneRange(r: Range)
    requires r == Range(100, 150, false)
    ensures SweepQuery([r], 100, 200, 1000) == Sweeping([Page(151, 200)], 202, 150)
  {
    var fake := Range(201, 201, true);
    assert WithFake([r], 200) == [r, fake];
    assert GapPages([], 151, 200, 200, 1000) == [Page(151, 200)];
    var s1 := SweepOne(Sweeping([], 100, 0), r, 200, 1000);
    assert s1 == Sweeping([], 151, 150);
    assert SweepOne(s1, fake, 200, 1000) == Sweeping([Page(151, 200)], 202, 150);
    assert [r, fake][1..] == [fake];
    assert Sweep(s1, [fake], 200, 1000) == Sweeping([Page(151, 200)], 202, 150);
  }

  // ------------------------------------------------- what the head hypothesis is for

  /** However the chain grows, no row of the table will claim a block whose logs are missing. */
  ghost predicate StaysFetched(cfg: Config, w: World, t: Tables) {
    forall w', id :: Extends(w, w') && ValidWorld(cfg, w') && id in t.scans ==>
      Fetched(cfg, w', t, t.scans[id].key, t.scans[id].from, t.scans[id].to)
  }

  /** Exactly which queries leave a table that stays true, whatever good row `findOne()`
      picks: those that end at or below the head. `l` is any log that may be mined in the
      last block of the query. */
  lemma StaysFetchedIff(cfg: Config, w: World, t: Tables, key: Key, from: nat, to: nat, rs: seq<Range>, l: Log)
    requires cfg.pageSize > 0 && ValidWorld(cfg, w) && Sound(cfg, w, t)
    requires from <= to && IsRangeAnswer(t.scans, key, from, to, rs)
    requires l.key == key && l.block == to && forall x :: x in w.logs ==> EventId(cfg, x) != EventId(cfg, l)
    ensures Queryable(rs, to)
    ensures (forall picked :: PickIsGood(cfg, w, t, key, from, to, rs, picked) ==>
               StaysFetched(cfg, w, Renew(cfg, w, t, key, from, to, rs, picked)))
      <==> to <= Head(w, key.chainId)
  {
    hide Sound, Scanned, SweepQuery, PickMatches, PickIsClaimed, EventCache.Renew, StaysFetched;
    RangeIsQueryable(cfg, w, t, key, from, to, rs);
    if to <= Head(w, key.chainId) {
      forall picked | PickIsGood(cfg, w, t, key, from, to, rs, picked)
        ensures StaysFetched(cfg, w, Renew(cfg, w, t, key, from, to, rs, picked))
      {
        RenewSound(cfg, w, t, key, from, to, rs, picked);
        SoundStaysFetched(cfg, w, Renew(cfg, w, t, key, from, to, rs, picked));
      }
    } else {
      var picked := LastPageCanBePicked(cfg, w, t, key, from, to, rs);
      RowBeyondHeadLies(cfg, w, Renew(cfg, w, t, key, from, to, rs, picked), picked.value, l);
    }
  }

  lemma RangeIsQueryable(cfg: Config, w: World, t: Tables, key: Key, from: nat, to: nat, rs: seq<Range>)
    requires Sound(cfg, w, t) && from <= to && IsRangeAnswer(t.scans, key, from, to, rs)
    ensures Queryable(rs, to) && forall r :: r in rs ==> r.to <= Head(w, key.chainId)
  {
    RangeAnswerIsQueryable(t.scans, key, from, to, rs);
    forall r | r in rs ensures r.to <= Head(w, key.chainId) {
      var id :| id in t.scans && t.scans[id] == ScanRow(key, r.from, r.to);
    }
  }

  lemma SoundStaysFetched(cfg: Config, w: World, t: Tables)
    requires Sound(cfg, w, t)
    ensures StaysFetched(cfg, w, t)
  {
    forall w' | Extends(w, w') ensures Sound(cfg, w', t) {
      GrowthKeepsSound(cfg, w, w', t);
    }
  }

  /** Beyond the head the last page of the query is fetched, recorded, and may be picked; it
      matches the query, and after the collapse it claims the last block. */
  lemma LastPageCanBePicked(cfg: Config, w: World, t: Tables, key: Key, from: nat, to: nat, rs: seq<Range>)
      returns (picked: Option<ScanId>)
    requires cfg.pageSize > 0 && ValidWorld(cfg, w) && Sound(cfg, w, t)
    requires from <= to && Queryable(rs, to) && to > Head(w, key.chainId)
    requires forall r :: r in rs ==> r.to <= Head(w, key.chainId)
    ensures PickIsGood(cfg, w, t, key, from, to, rs, picked) && picked.Some?
    ensures var t' := Renew(cfg, w, t, key, from, to, rs, picked);
      && picked.value in t'.scans && t'.scans[picked.value] == ScanRow(key, from, to)
      && EventsTrue(cfg, w, t'.events)
  {
    hide SweepQuery, ScanPages, EventsTrue;
    var s := SweepQuery(rs, from, to, cfg.pageSize);
    GapFiller(rs, from, to, cfg.pageSize);
    PagesAreRecorded(cfg, w, t, key, s.pages);
    assert Covered(to, s.pages, rs);
    var p :| p in s.pages && InPage(to, p);
    picked := Some(ScanId(key.contract, p.from, p.to));
  }

  lemma RowBeyondHeadLies(cfg: Config, w: World, t: Tables, id: ScanId, l: Log)
    requires ValidWorld(cfg, w) && EventsTrue(cfg, w, t.events) && id in t.scans
    requires t.scans[id].key == l.key && t.scans[id].from <= l.block <= t.scans[id].to
    requires l.block > Head(w, l.key.chainId) && forall x :: x in w.logs ==> EventId(cfg, x) != EventId(cfg, l)
    ensures !StaysFetched(cfg, w, t)
  {
    var w' := World(w.heads[l.key.chainId := l.block], w.logs + {l});
    assert Extends(w, w') && ValidWorld(cfg, w');
    assert l in LogsIn(w', l.key, t.scans[id].from, t.scans[id].to) && EventId(cfg, l) !in t.events;
  }

  /** What it costs: with the head at 10 a query of blocks 0..25 leaves the row 0..25, the
      only one, so it is picked. Then block 20 is mined; the same query, legal by now,
      fetches no page and misses the log. */
  lemma QueryMustNotPassHead(digest: string -> string, l: Log)
    requires l.block == 20
    ensures var cfg := Config(1000, digest);
      var key := l.key;
      var w, w' := World(map[key.chainId := 10], {}), World(map[key.chainId := 30], {l});
      var none := Tables(map[], map[]);
      var picked := Some(ScanId(key.contract, 0, 25));
      var later := Request(key, l.name, 0, At(25), map[]);
      && ValidWorld(cfg, w) && ValidWorld(cfg, w') && Extends(w, w')
      && IsRangeAnswer(none.scans, key, 0, 25, []) && PickIsGood(cfg, w, none, key, 0, 25, [], picked)
      && var t := Renew(cfg, w, none, key, 0, 25, [], picked);
      && IsRangeAnswer(t.scans, key, 0, 25, [Range(0, 25, false)])
      && SweepQuery([Range(0, 25, false)], 0, 25, 1000).pages == []
      && CachedAnswer(w', t, later) != DirectAnswer(w', later)
  {
    hide Sweep, GapPages, DirectAnswer, CachedAnswer;
    var cfg, key := Config(1000, digest), l.key;
    var w, none := World(map[key.chainId := 10], {}), Tables(map[], map[]);
    var id := ScanId(key.contract, 0, 25);
    OnePageScanned(cfg, w, key);
    var row := Tables(map[], map[id := ScanRow(key, 0, 25)]);
    assert Matches(row.scans[id], key, 0, 25);
    var t := Collapse(row, key, 0, 25, 0, Some(id));
    assert t.scans == row.scans;
    RowHidesMinedLog(cfg, l);
  }

  lemma OnePageSweep()
    ensures SweepQuery([], 0, 25, 1000) == Sweeping([Page(0, 25)], 27, 0)
  {
    var fake := Range(26, 26, true);
    assert WithFake([], 25) == [fake];
    assert GapPages([], 0, 25, 25, 1000) == [Page(0, 25)];
    assert SweepOne(Sweeping([], 0, 0), fake, 25, 1000) == Sweeping([Page(0, 25)], 27, 0);
  }

  lemma OnePageScanned(cfg: Config, w: World, key: Key)
    requires cfg.pageSize == 1000 && w.logs == {}
    ensures SweepQuery([], 0, 25, 1000).maxScanned == 0
    ensures Scanned(cfg, w, Tables(map[], map[]), key, 0, 25, [])
         == Tables(map[], map[ScanId(key.contract, 0, 25) := ScanRow(key, 0, 25)])
  {
    hide SweepQuery;
    OnePageSweep();
    var p, t := Page(0, 25), Tables(map[], map[]);
    assert ScanPages(cfg, w, t, key, [p][..0]) == t;
    assert ScanPages(cfg, w, t, key, [p]) == ScanPage(cfg, w, t, key, [p][0]);
    assert LogsIn(w, key, 0, 25) == {};
  }

  lemma RowHidesMinedLog(cfg: Config, l: Log)
    requires l.block == 20 && cfg.pageSize == 1000
    ensures var t := Tables(map[], map[ScanId(l.key.contract, 0, 25) := ScanRow(l.key, 0, 25)]);
      var w' := World(map[l.key.chainId := 30], {l});
      var later := Request(l.key, l.name, 0, At(25), map[]);
      && IsRangeAnswer(t.scans, l.key, 0, 25, [Range(0, 25, false)])
      && SweepQuery([Range(0, 25, false)], 0, 25, 1000).pages == []
      && CachedAnswer(w', t, later) != DirectAnswer(w', later)
  {
    var t := Tables(map[], map[ScanId(l.key.contract, 0, 25) := ScanRow(l.key, 0, 25)]);
    assert WithFake([Range(0, 25, false)], 25)[0] == Range(0, 25, false);
    assert t.scans[ScanId(l.key.contract, 0, 25)] == ScanRow(l.key, 0, 25);
    assert l in DirectAnswer(World(map[l.key.chainId := 30], {l}), Request(l.key, l.name, 0, At(25), map[]));
  }

  // ------------------------------------------------------------- the cursor walk

  /** `handlePaginatedEvents`: where the page that ends at `cursor` begins. */
  function PageStart(cursor: nat, pageSize: nat): nat {
    if cursor - pageSize <= 1 then 0 else cursor - pageSize
  }

  function NextCursor(cursor: nat, pageSize: nat): Option<nat> {
    var from := PageStart(cursor, pageSize);
    if from > 0 then Some(from - 1) else None
  }

  /** The pages a client sees that follows `nextCursor` until it is null. */
  function Walk(cursor: nat, pageSize: nat): seq<Page>
    decreases cursor
  {
    [Page(PageStart(cursor, pageSize), cursor)]
    + match NextCursor(cursor, pageSize) { case None => [] case Some(c) => Walk(c, pageSize) }
  }

  /** The walk partitions blocks 0..cursor: each block is in exactly one page. No
      `nextCursor` is 0, which the controller would take for a missing cursor. */
  lemma {:induction false} WalkPartitions(cursor: nat, pageSize: nat)
    requires cursor >= 1
    ensures var ps := Walk(cursor, pageSize);
      && ps[0].to == cursor && ps[|ps| - 1].from == 0
      && (forall i :: 0 <= i < |ps| ==> 1 <= ps[i].to && ps[i].from <= ps[i].to)
      && (forall i, j :: 0 <= i < j < |ps| ==> ps[j].to < ps[i].from)
      && (forall b: nat :: b <= cursor ==> InPages(b, ps))
      && (forall i :: 0 <= i < |ps| - 1 ==> ps[i].to - ps[i].from == pageSize)
      && ps[|ps| - 1].to <= pageSize + 1
    decreases cursor
  {
    var first := Page(PageStart(cursor, pageSize), cursor);
    var ps := Walk(cursor, pageSize);
    assert ps[0] == first;
    var rest := ps[1..];
    match NextCursor(cursor, pageSize) {
      case None =>
      case Some(c) =>
        WalkPartitions(c, pageSize);
        assert rest == Walk(c, pageSize);
        assert forall i :: 0 <= i < |rest| ==> rest[i].to <= c;
    }
    forall b: nat | b <= cursor ensures InPages(b, ps) {
      if b >= first.from {
        assert first in ps && InPage(b, first);
      } else {
        assert InPages(b, rest);
        var p :| p in rest && InPage(b, p);
        assert p in ps;
      }
    }
  }

  function PageRequest(req: Request, p: Page): Request {
    req.(from := p.from, to := At(p.to))
  }

  /** Walking the cursor from `n` shows every matching log up to block `n`, and each on
      one page only. */
  lemma WalkShowsEachLogOnce(w: World, req: Request, n: nat, pageSize: nat, l: Log)
    requires n >= 1
    ensures var ps := Walk(n, pageSize);
      && (l in DirectAnswer(w, PageRequest(req, Page(0, n)))
          <==> exists p :: p in ps && l in DirectAnswer(w, PageRequest(req, p)))
      && (forall i, j :: 0 <= i < j < |ps| ==>
            DirectAnswer(w, PageRequest(req, ps[i])) !! DirectAnswer(w, PageRequest(req, ps[j])))
  {
    hide Walk, Passes;
    WalkPartitions(n, pageSize);
    var ps := Walk(n, pageSize);
    if l in DirectAnswer(w, PageRequest(req, Page(0, n))) {
      assert InPages(l.block, ps);
      var p :| p in ps && InPage(l.block, p);
      PageAnswer(w, req, p, l);
    }
    if p :| p in ps && l in DirectAnswer(w, PageRequest(req, p)) {
      var i :| 0 <= i < |ps| && ps[i] == p;
      PageAnswer(w, req, p, l);
      PageAnswer(w, req, Page(0, n), l);
    }
    forall i, j | 0 <= i < j < |ps|
      ensures DirectAnswer(w, PageRequest(req, ps[i])) !! DirectAnswer(w, PageRequest(req, ps[j]))
    {
      forall x
        ensures x !in DirectAnswer(w, PageRequest(req, ps[i])) || x !in DirectAnswer(w, PageRequest(req, ps[j]))
      {
        PageAnswer(w, req, ps[i], x);
        PageAnswer(w, req, ps[j], x);
      }
    }
  }

  /** A page is asked for from its first block up to its last, so its logs come in ascending
      order. */
  lemma PagesAscend(w: World, req: Request, n: nat, pageSize: nat, p: Page)
    requires n >= 1 && p in Walk(n, pageSize)
    ensures var r := PageRequest(req, p);
      r.from == p.from <= p.to && ToBlock(w, r) == p.to && r.(from := req.from, to := req.to) == req
  {
    hide Walk;
    WalkPartitions(n, pageSize);
  }

  lemma PageAnswer(w: World, req: Request, p: Page, l: Log)
    requires p.from <= p.to
    ensures l in DirectAnswer(w, PageRequest(req, p))
      <==> l in w.logs && l.key == req.key && l.name == req.name && InPage(l.block, p) && Passes(l, req.filter)
  {
  }
}
