/** The node's side of the event-scan cache: the Event and EventScan tables are fields
    that the methods update, one page and one row at a time. */
module EventCacheNode {
  import opened Common
  import opened EventCache
  import opened EventRuns

  /** The `where` clause of `fetchCachedEvents`. */
  predicate Selected(l: Log, key: Key, name: string, from: nat, to: nat) {
    l.key == key && l.name == name && from <= l.block <= to
  }

  /** A set of logs as rows of the Event table. */
  ghost function ById(cfg: Config, w: World, ls: set<Log>): map<string, Log>
    requires DistinctIds(cfg, w) && ls <= w.logs
  {
    map l | l in ls :: EventId(cfg, l) := l
  }

  lemma ByIdInsert(cfg: Config, w: World, ls: set<Log>, l: Log)
    requires DistinctIds(cfg, w) && ls <= w.logs && l in w.logs
    ensures ById(cfg, w, ls + {l}) == ById(cfg, w, ls)[EventId(cfg, l) := l]
  {
  }

  lemma StoredById(cfg: Config, w: World, key: Key, from: nat, to: nat)
    requires DistinctIds(cfg, w)
    ensures ById(cfg, w, {}) == map[]
    ensures forall t: Tables :: t.events + ById(cfg, w, LogsIn(w, key, from, to))
                             == ScanPage(cfg, w, t, key, Page(from, to)).events
  {
  }

  lemma ScanNoPages(cfg: Config, w: World, t: Tables, key: Key)
    requires DistinctIds(cfg, w)
    ensures ScanPages(cfg, w, t, key, []) == t
  {
  }

  lemma ScanPagesSnoc(cfg: Config, w: World, t: Tables, key: Key, pages: seq<Page>, p: Page)
    requires DistinctIds(cfg, w)
    ensures ScanPages(cfg, w, t, key, pages + [p]) == ScanPage(cfg, w, ScanPages(cfg, w, t, key, pages), key, p)
  {
  }

  class Node {
    const cfg: Config
    var world: World  // what the chains answer; the node only asks
    var events: map<string, Log>
    var scans: map<ScanId, ScanRow>

    function Current(): Tables
      reads this
    {
      Tables(events, scans)
    }

    ghost predicate Valid()
      reads this
    {
      cfg.pageSize > 0 && ValidWorld(cfg, world) && Sound(cfg, world, Current())
    }

    constructor (cfg: Config, world: World)
      requires cfg.pageSize > 0 && ValidWorld(cfg, world)
      ensures Valid() && this.cfg == cfg && this.world == world
      ensures Current() == Tables(map[], map[])
    {
      this.cfg := cfg;
      this.world := world;
      this.events := map[];
      this.scans := map[];
    }

    /** `_performScanForContractEvents`: one chain query, one upsert per log, one row. */
    method PerformScan(key: Key, from: nat, to: nat)
      requires DistinctIds(cfg, world)
      modifies this`events, this`scans
      ensures Current() == ScanPage(cfg, world, old(Current()), key, Page(from, to))
    {
      hide DistinctIds, ById;
      var logs := LogsIn(world, key, from, to);
      StoredById(cfg, world, key, from, to);
      var todo := logs;
      assert logs - todo == {} && events + map[] == events;
      while todo != {}
        invariant todo <= logs
        invariant events == old(events) + ById(cfg, world, logs - todo)
        invariant scans == old(scans)
        decreases todo
      {
        var l :| l in todo;
        ByIdInsert(cfg, world, logs - todo, l);
        assert logs - (todo - {l}) == (logs - todo) + {l};
        events := events[EventId(cfg, l) := l];
        todo := todo - {l};
      }
      assert logs - todo == logs;
      scans := scans[ScanId(key.contract, from, to) := ScanRow(key, from, to)];
    }

    /** The range query: the matching rows, in ascending order of `from_block`. */
    method FindRanges(key: Key, from: nat, to: nat) returns (rs: seq<Range>)
      ensures IsRangeAnswer(scans, key, from, to, rs)
    {
      rs := [];
      var todo := scans.Keys;
      while todo != {}
        invariant todo <= scans.Keys
        invariant SortedByFrom(rs)
        invariant forall r :: r in rs ==> !r.fake && Matches(ScanRow(key, r.from, r.to), key, from, to)
        invariant forall r :: r in rs ==> exists id :: id in scans && scans[id] == ScanRow(key, r.from, r.to)
        invariant forall id :: id in scans && id !in todo && Matches(scans[id], key, from, to) ==>
          Range(scans[id].from, scans[id].to, false) in rs
        decreases todo
      {
        var id :| id in todo;
        todo := todo - {id};
        if Matches(scans[id], key, from, to) {
          rs := InsertRange(rs, Range(scans[id].from, scans[id].to, false));
        }
      }
    }

    static method InsertRange(rs: seq<Range>, r: Range) returns (rs': seq<Range>)
      requires SortedByFrom(rs)
      ensures SortedByFrom(rs')
      ensures forall x :: x in rs' <==> x in rs || x == r
    {
      var i := 0;
      while i < |rs| && rs[i].from <= r.from
        invariant 0 <= i <= |rs|
        invariant forall j :: 0 <= j < i ==> rs[j].from <= r.from
      {
        i := i + 1;
      }
      rs' := rs[..i] + [r] + rs[i..];
      assert rs == rs[..i] + rs[i..];
      assert rs'[i] == r;
    }

    /** `findOne()`: some row, if there is one. */
    method FindOne() returns (picked: Option<ScanId>)
      ensures IsPick(scans, picked)
    {
      if scans.Keys == {} {
        picked := None;
      } else {
        var id :| id in scans;
        picked := Some(id);
      }
    }

    /** The paging loop over one gap; `t0` and `done` record how the tables got here. */
    method ScanGap(key: Key, cursor: nat, cursorEnd: nat, to: nat, ghost t0: Tables, ghost done: seq<Page>)
        returns (ghost pages: seq<Page>)
      requires cfg.pageSize > 0 && DistinctIds(cfg, world) && cursorEnd <= to
      requires Current() == ScanPages(cfg, world, t0, key, done)
      modifies this`events, this`scans
      ensures pages == GapPages(done, cursor, cursorEnd, to, cfg.pageSize)
      ensures Current() == ScanPages(cfg, world, t0, key, pages)
    {
      hide ScanPages;
      pages := done;
      var scanFrom := cursor;
      while scanFrom <= cursorEnd
        invariant GapPages(done, cursor, cursorEnd, to, cfg.pageSize)
               == GapPages(pages, scanFrom, cursorEnd, to, cfg.pageSize)
        invariant Current() == ScanPages(cfg, world, t0, key, pages)
        decreases cursorEnd + 1 - scanFrom
      {
        var scanTo := Min(Min(to, scanFrom + cfg.pageSize - 1), cursorEnd);
        ScanNext(key, scanFrom, scanTo, t0, pages);
        pages := pages + [Page(scanFrom, scanTo)];
        scanFrom := scanFrom + cfg.pageSize;
      }
    }

    method ScanNext(key: Key, from: nat, to: nat, ghost t0: Tables, ghost pages: seq<Page>)
      requires DistinctIds(cfg, world)
      requires Current() == ScanPages(cfg, world, t0, key, pages)
      modifies this`events, this`scans
      ensures Current() == ScanPages(cfg, world, t0, key, pages + [Page(from, to)])
    {
      PerformScan(key, from, to);
      ScanPagesSnoc(cfg, world, t0, key, pages, Page(from, to));
    }

    /** `_renewContractEventsCache`, the loop over the ranges with the paging loop inside. */
    method FillGaps(key: Key, from: nat, to: nat, rs: seq<Range>) returns (maxScanned: nat)
      requires cfg.pageSize > 0 && DistinctIds(cfg, world)
      requires forall r :: r in rs ==> r.from <= to
      modifies this`events, this`scans
      ensures Current() == Scanned(cfg, world, old(Current()), key, from, to, rs)
      ensures maxScanned == SweepQuery(rs, from, to, cfg.pageSize).maxScanned
    {
      hide GapPages, ScanPages;
      ghost var t0 := Current();
      ScanNoPages(cfg, world, t0, key);
      var ranges := WithFake(rs, to);
      ghost var pages := [];
      var cursor: nat := from;
      maxScanned := 0;
      var i := 0;
      ghost var goal := SweepQuery(rs, from, to, cfg.pageSize);
      assert ranges[0..] == ranges;
      while i < |ranges|
        invariant 0 <= i <= |ranges|
        invariant Current() == ScanPages(cfg, world, t0, key, pages)
        invariant forall r :: r in ranges[i..] ==> r.from <= to + 1
        invariant goal == Sweep(Sweeping(pages, cursor, maxScanned), ranges[i..], to, cfg.pageSize)
      {
        var range := ranges[i];
        ghost var before := Sweeping(pages, cursor, maxScanned);
        if range.from <= cursor {
          cursor := Max(cursor, range.to + 1);
        } else {
          var cursorEnd := range.from - 1;
          pages := ScanGap(key, cursor, cursorEnd, to, t0, pages);
          cursor := Max(cursor, range.to + 1);
        }
        if !range.fake {
          maxScanned := Max(maxScanned, range.to);
        }
        assert Sweeping(pages, cursor, maxScanned) == SweepOne(before, range, to, cfg.pageSize);
        assert ranges[i..][0] == range && ranges[i..][1..] == ranges[i + 1..];
        i := i + 1;
        if cursor > to {
          return;
        }
      }
    }

    /** The rest of `_renewContractEventsCache`: widen the picked row, drop the others. */
    method CollapseRanges(key: Key, from: nat, to: nat, maxScanned: nat) returns (picked: Option<ScanId>)
      modifies this`scans
      ensures IsPick(old(scans), picked)
      ensures Current() == Collapse(old(Current()), key, from, to, maxScanned, picked)
    {
      picked := FindOne();
      if picked.None? {
        return;
      }
      var first := scans[picked.value];
      if first.from == from && first.to == maxScanned {
        return;
      }
      scans := scans[picked.value := Widen(first, from, maxScanned)];
      scans := map id | id in scans && (id == picked.value || !Matches(scans[id], key, from, to)) :: scans[id];
    }

    method Renew(key: Key, queryFrom: nat, queryTo: nat) returns (rs: seq<Range>, picked: Option<ScanId>)
      requires cfg.pageSize > 0 && DistinctIds(cfg, world) && WellFormedScans(scans)
      modifies this`events, this`scans
      ensures var from, to := Min(queryFrom, queryTo), Max(queryFrom, queryTo);
        && IsRangeAnswer(old(scans), key, from, to, rs)
        && Queryable(rs, to)
        && IsPick(Scanned(cfg, world, old(Current()), key, from, to, rs).scans, picked)
        && Current() == EventCache.Renew(cfg, world, old(Current()), key, from, to, rs, picked)
    {
      var from, to := queryFrom, queryTo;
      if from > to {
        from, to := to, from;
      }
      rs := FindRanges(key, from, to);
      RangeAnswerIsQueryable(scans, key, from, to, rs);
      var maxScanned := FillGaps(key, from, to, rs);
      picked := CollapseRanges(key, from, to, maxScanned);
    }

    static method InsertLog(ls: seq<Log>, l: Log, ascending: bool) returns (ls': seq<Log>)
      requires InBlockOrder(ls, ascending) && l !in ls
      requires forall i, j :: 0 <= i < j < |ls| ==> ls[i] != ls[j]
      ensures InBlockOrder(ls', ascending)
      ensures forall x :: x in ls' <==> x in ls || x == l
      ensures forall i, j :: 0 <= i < j < |ls'| ==> ls'[i] != ls'[j]
    {
      var i := 0;
      while i < |ls| && (if ascending then ls[i].block <= l.block else l.block <= ls[i].block)
        invariant 0 <= i <= |ls|
        invariant forall j :: 0 <= j < i ==> if ascending then ls[j].block <= l.block else l.block <= ls[j].block
      {
        i := i + 1;
      }
      ls' := ls[..i] + [l] + ls[i..];
      assert ls == ls[..i] + ls[i..];
      assert ls'[i] == l;
      assert forall x :: x in ls' <==> x in ls || x == l;
    }

    /** `fetchCachedEvents`: the cached logs of one event name in the range, in block
        order, descending if the range was given reversed. */
    method FetchCachedEvents(key: Key, name: string, queryFrom: nat, queryTo: nat) returns (ls: seq<Log>)
      requires DistinctIds(cfg, world)
      requires EventsTrue(cfg, world, events)
      ensures Lists(ls, CachedAnswer(world, Current(), Request(key, name, queryFrom, At(queryTo), map[])),
                    queryFrom <= queryTo)
    {
      hide ListedSoFar, EventsTrue, Selected, CachedAnswer, DistinctIds;
      var from, to, ascending := queryFrom, queryTo, true;
      if from > to {
        from, to, ascending := to, from, false;
      }
      ls := [];
      var todo := events.Keys;
      NothingListed(cfg, events, key, name, from, to);
      while todo != {}
        invariant todo <= events.Keys
        invariant InBlockOrder(ls, ascending)
        invariant forall i, j :: 0 <= i < j < |ls| ==> ls[i] != ls[j]
        invariant ListedSoFar(cfg, events, todo, ls, key, name, from, to)
        decreases todo
      {
        var id :| id in todo;
        var l := events[id];
        NotListedYet(cfg, world, events, todo, ls, key, name, from, to, id);
        ghost var before := ls;
        if Selected(l, key, name, from, to) {
          ls := InsertLog(ls, l, ascending);
        }
        ListOneMore(cfg, world, events, todo, before, ls, key, name, from, to, id);
        todo := todo - {id};
      }
      AllListed(cfg, world, Current(), ls, key, name, queryFrom, queryTo);
    }

    /** `Array.filter` with one key of the filter object. */
    static method KeepMatching(ls: seq<Log>, k: string, v: string) returns (kept: seq<Log>)
      ensures forall l :: l in kept <==> l in ls && k in l.returnValues && l.returnValues[k] == v
      ensures (forall i, j :: 0 <= i < j < |ls| ==> ls[i] != ls[j]) ==>
                forall i, j :: 0 <= i < j < |kept| ==> kept[i] != kept[j]
      ensures forall ascending :: InBlockOrder(ls, ascending) ==> InBlockOrder(kept, ascending)
    {
      kept := [];
      ghost var at: seq<nat> := [];
      for i := 0 to |ls|
        invariant |at| == |kept|
        invariant forall j :: 0 <= j < |at| ==> at[j] < i && kept[j] == ls[at[j]]
        invariant forall j, m :: 0 <= j < m < |at| ==> at[j] < at[m]
        invariant forall l :: l in kept ==> l in ls && k in l.returnValues && l.returnValues[k] == v
        invariant forall j :: 0 <= j < i && k in ls[j].returnValues && ls[j].returnValues[k] == v ==> ls[j] in kept
      {
        if k in ls[i].returnValues && ls[i].returnValues[k] == v {
          kept, at := kept + [ls[i]], at + [i];
        }
      }
    }

    /** The loop over the keys of the filter object. */
    static method ApplyFilter(all: seq<Log>, filter: map<string, string>) returns (ls: seq<Log>)
      ensures forall l :: l in ls <==> l in all && Passes(l, filter)
      ensures (forall i, j :: 0 <= i < j < |all| ==> all[i] != all[j]) ==>
                forall i, j :: 0 <= i < j < |ls| ==> ls[i] != ls[j]
      ensures forall ascending :: InBlockOrder(all, ascending) ==> InBlockOrder(ls, ascending)
    {
      ls := all;
      var keys := filter.Keys;
      while keys != {}
        invariant keys <= filter.Keys
        invariant forall l :: l in ls <==> l in all && forall k :: k in filter && k !in keys ==>
          k in l.returnValues && l.returnValues[k] == filter[k]
        invariant (forall i, j :: 0 <= i < j < |all| ==> all[i] != all[j]) ==>
                    forall i, j :: 0 <= i < j < |ls| ==> ls[i] != ls[j]
        invariant forall ascending :: InBlockOrder(all, ascending) ==> InBlockOrder(ls, ascending)
        decreases keys
      {
        var k :| k in keys;
        ls := KeepMatching(ls, k, filter[k]);
        keys := keys - {k};
      }
    }

    /** `getPaginatedPastEvents`. The tables move exactly as `EventCache.Renew` says, and the
        answer lists what they hold; from a sound table, with the query at or below the head
        and a good picked row, that is exactly what the chain holds. */
    method GetPaginatedPastEvents(req: Request)
        returns (ls: seq<Log>, ghost rs: seq<Range>, ghost picked: Option<ScanId>)
      requires Valid()
      modifies this`events, this`scans
      ensures CanServe(cfg, old(State(world, Current())), req, rs, picked)
      ensures Queryable(rs, Highest(world, req))
      ensures Current() == EventCache.Renew(cfg, world, old(Current()), req.key,
                                            Lowest(world, req), Highest(world, req), rs, picked)
      ensures Lists(ls, CachedAnswer(world, Current(), req), req.from <= ToBlock(world, req))
      ensures Allowed(cfg, old(State(world, Current())), Serve(req, rs, picked)) ==>
        Valid() && Lists(ls, DirectAnswer(world, req), req.from <= ToBlock(world, req))
      ensures Allowed(cfg, old(State(world, Current())), Serve(req, rs, picked)) && req.key.chainId in world.heads ==>
        forall l :: l in ls <==>
          && l in world.logs && l.key == req.key && l.name == req.name
          && (forall k :: k in req.filter ==> k in l.returnValues && l.returnValues[k] == req.filter[k])
          && match req.to
             case At(b) => req.from <= l.block <= b || b <= l.block <= req.from
             case Latest => req.from <= l.block || l.block == world.heads[req.key.chainId] <= req.from
      ensures forall i, j :: 0 <= i < j < |ls| ==> ls[i] != ls[j]
      ensures req.to.At? || req.key.chainId in world.heads ==>
        var to := if req.to.At? then req.to.block else world.heads[req.key.chainId];
        forall i, j :: 0 <= i < j < |ls| ==>
          if req.from <= to then ls[i].block <= ls[j].block else ls[j].block <= ls[i].block
    {
      hide Scanned, SweepQuery, Collapse, CachedAnswer, DirectAnswer, PickIsGood;
      ghost var t0 := Current();
      var to := if req.to.Latest? then Head(world, req.key.chainId) else req.to.block;
      var rs0, picked0 := Renew(req.key, req.from, to);
      rs, picked := rs0, picked0;
      RenewedEventsTrue(cfg, world, t0, req.key, Lowest(world, req), Highest(world, req), rs, picked);
      if Allowed(cfg, State(world, t0), Serve(req, rs, picked)) {
        ServedAnswer(cfg, State(world, t0), req, rs, picked);
      }
      ls := FetchCachedEvents(req.key, req.name, req.from, to);
      ghost var all := ls;
      ls := ApplyFilter(ls, req.filter);
      FilteredListing(world, Current(), req, all, ls);
      if req.key.chainId in world.heads {
        forall l {
          DirectAnswerIs(cfg, world, req, l);
        }
      }
    }
  }

  /** The logs listed are the selected ones of the rows that are not left to do. */
  ghost predicate ListedSoFar(cfg: Config, events: map<string, Log>, todo: set<string>, ls: seq<Log>,
                              key: Key, name: string, from: nat, to: nat)
  {
    && (forall l :: l in ls ==>
          && EventId(cfg, l) in events && EventId(cfg, l) !in todo
          && events[EventId(cfg, l)] == l && Selected(l, key, name, from, to))
    && (forall id :: id in events && id !in todo && Selected(events[id], key, name, from, to) ==> events[id] in ls)
  }

  lemma NothingListed(cfg: Config, events: map<string, Log>, key: Key, name: string, from: nat, to: nat)
    ensures ListedSoFar(cfg, events, events.Keys, [], key, name, from, to)
  {
  }

  lemma NotListedYet(cfg: Config, w: World, events: map<string, Log>, todo: set<string>, ls: seq<Log>,
                     key: Key, name: string, from: nat, to: nat, id: string)
    requires EventsTrue(cfg, w, events) && ListedSoFar(cfg, events, todo, ls, key, name, from, to)
    requires id in todo && id in events
    ensures events[id] !in ls
  {
  }

  lemma ListOneMore(cfg: Config, w: World, events: map<string, Log>, todo: set<string>, ls: seq<Log>, ls': seq<Log>,
                    key: Key, name: string, from: nat, to: nat, id: string)
    requires EventsTrue(cfg, w, events) && ListedSoFar(cfg, events, todo, ls, key, name, from, to)
    requires id in todo && id in events
    requires if Selected(events[id], key, name, from, to) then forall x :: x in ls' <==> x in ls || x == events[id]
             else ls' == ls
    ensures ListedSoFar(cfg, events, todo - {id}, ls', key, name, from, to)
  {
  }

  lemma AllListed(cfg: Config, w: World, t: Tables, ls: seq<Log>, key: Key, name: string, from: nat, to: nat)
    requires ListedSoFar(cfg, t.events, {}, ls, key, name, Min(from, to), Max(from, to))
    ensures forall l :: l in ls <==> l in CachedAnswer(w, t, Request(key, name, from, At(to), map[]))
  {
  }

  /** No renewal stores anything but what the chain returned. */
  lemma RenewedEventsTrue(cfg: Config, w: World, t: Tables, key: Key, from: nat, to: nat,
                          rs: seq<Range>, picked: Option<ScanId>)
    requires cfg.pageSize > 0 && Sound(cfg, w, t) && DistinctIds(cfg, w) && forall r :: r in rs ==> r.from <= to
    requires IsPick(Scanned(cfg, w, t, key, from, to, rs).scans, picked)
    ensures EventsTrue(cfg, w, EventCache.Renew(cfg, w, t, key, from, to, rs, picked).events)
  {
    hide SweepQuery, ScanPages;
    PagesAreRecorded(cfg, w, t, key, SweepQuery(rs, from, to, cfg.pageSize).pages);
  }

  lemma ServedAnswer(cfg: Config, s: State, req: Request, rs: seq<Range>, picked: Option<ScanId>)
    requires cfg.pageSize > 0 && ValidWorld(cfg, s.world) && Sound(cfg, s.world, s.tables)
    requires Allowed(cfg, s, Serve(req, rs, picked))
    ensures var t' := Next(cfg, s, Serve(req, rs, picked)).tables;
      Sound(cfg, s.world, t') && CachedAnswer(s.world, t', req) == DirectAnswer(s.world, req)
  {
    hide Sound, Allowed, Next, CachedAnswer, DirectAnswer, Fetched;
    ServeKeepsSound(cfg, s, Serve(req, rs, picked));
    SoundTablesAnswerDirectly(cfg, s.world, Next(cfg, s, Serve(req, rs, picked)).tables, req);
  }

  lemma FilteredListing(w: World, t: Tables, req: Request, all: seq<Log>, ls: seq<Log>)
    requires Lists(all, CachedAnswer(w, t, req.(to := At(ToBlock(w, req)), filter := map[])),
                   req.from <= ToBlock(w, req))
    requires forall l :: l in ls <==> l in all && Passes(l, req.filter)
    requires forall i, j :: 0 <= i < j < |ls| ==> ls[i] != ls[j]
    requires InBlockOrder(ls, req.from <= ToBlock(w, req))
    ensures Lists(ls, CachedAnswer(w, t, req), req.from <= ToBlock(w, req))
  {
  }
}
