/** The event-scan cache of `src/network/providers/ethereum.js`: which block
    intervals have been scanned, how the gaps of a query are filled page by page,
    how the intervals are collapsed, and what a query may then read locally.

    This module holds the values and the transition functions; the methods that
    update the tables in place are in `EventCacheNode`. */
module EventCache {
  import opened Common

  datatype Config = Config(pageSize: nat, digest: string -> string)

  /** A contract on a chain: every table lookup is by this pair. */
  datatype Key = Key(chainId: int, contract: string)

  /** An event log, as the chain returns it and as the Event table keeps it. */
  datatype Log = Log(key: Key, rawId: string, txHash: string, block: nat,
                     name: string, returnValues: map<string, string>)

  /** What the chains hold at one moment. */
  datatype World = World(heads: map<int, nat>, logs: set<Log>)

  datatype ScanId = ScanId(contract: string, from: nat, to: nat)
  datatype ScanRow = ScanRow(key: Key, from: nat, to: nat)
  datatype Tables = Tables(events: map<string, Log>, scans: map<ScanId, ScanRow>)

  datatype Page = Page(from: nat, to: nat)
  datatype Range = Range(from: nat, to: nat, fake: bool)
  datatype Sweeping = Sweeping(pages: seq<Page>, cursor: nat, maxScanned: nat)

  // ---------------------------------------------------------------- the chain

  function Head(w: World, chainId: int): nat {
    if chainId in w.heads then w.heads[chainId] else 0
  }

  function LogsIn(w: World, key: Key, from: nat, to: nat): set<Log> {
    set l | l in w.logs && l.key == key && from <= l.block <= to
  }

  function EventId(cfg: Config, l: Log): string {
    cfg.digest(l.key.contract + "_" + l.rawId + "_" + l.txHash)
  }

  ghost predicate DistinctIds(cfg: Config, w: World) {
    forall a, b :: a in w.logs && b in w.logs && EventId(cfg, a) == EventId(cfg, b) ==> a == b
  }

  ghost predicate ValidWorld(cfg: Config, w: World) {
    && DistinctIds(cfg, w)
    && forall l :: l in w.logs ==> l.block <= Head(w, l.key.chainId)
  }

  /** Chains only grow: what is at or below the head never changes. */
  ghost predicate Extends(w: World, w': World) {
    && (forall c :: Head(w, c) <= Head(w', c))
    && w.logs <= w'.logs
    && forall l :: l in w'.logs && l !in w.logs ==> l.block > Head(w, l.key.chainId)
  }

  // ------------------------------------------------------- filling the gaps

  /** Storing what one `getPastEvents` call returned, then recording the interval. */
  function ScanPage(cfg: Config, w: World, t: Tables, key: Key, p: Page): Tables
    requires DistinctIds(cfg, w)
  {
    Tables(
      t.events + (map l | l in LogsIn(w, key, p.from, p.to) :: EventId(cfg, l) := l),
      t.scans[ScanId(key.contract, p.from, p.to) := ScanRow(key, p.from, p.to)])
  }

  function ScanPages(cfg: Config, w: World, t: Tables, key: Key, pages: seq<Page>): Tables
    requires DistinctIds(cfg, w)
  {
    if pages == [] then t
    else ScanPage(cfg, w, ScanPages(cfg, w, t, key, pages[..|pages| - 1]), key, pages[|pages| - 1])
  }

  /** The pages of one gap, after those fetched so far: the inner `for` loop. */
  function GapPages(done: seq<Page>, from: nat, end: nat, queryTo: nat, pageSize: nat): seq<Page>
    requires pageSize > 0 && end <= queryTo
    decreases end + 1 - from
  {
    if from > end then done
    else GapPages(done + [Page(from, Min(Min(queryTo, from + pageSize - 1), end))],
                  from + pageSize, end, queryTo, pageSize)
  }

  /** One iteration of the loop over the scanned ranges. */
  function SweepOne(s: Sweeping, r: Range, queryTo: nat, pageSize: nat): Sweeping
    requires pageSize > 0 && r.from <= queryTo + 1
  {
    Sweeping(
      if r.from <= s.cursor then s.pages else GapPages(s.pages, s.cursor, r.from - 1, queryTo, pageSize),
      Max(s.cursor, r.to + 1),
      if r.fake then s.maxScanned else Max(s.maxScanned, r.to))
  }

  function Sweep(s: Sweeping, rs: seq<Range>, queryTo: nat, pageSize: nat): Sweeping
    requires pageSize > 0 && forall r :: r in rs ==> r.from <= queryTo + 1
    decreases |rs|
  {
    if rs == [] then s
    else
      var s' := SweepOne(s, rs[0], queryTo, pageSize);
      if s'.cursor > queryTo then s' else Sweep(s', rs[1..], queryTo, pageSize)
  }

  // -------------------------------------------------------------- the query

  /** The `where` clause of the range query, with its "surrounding" disjunct as written. */
  predicate Matches(row: ScanRow, key: Key, from: nat, to: nat) {
    && row.key == key
    && (|| from <= row.to <= to
        || from <= row.from <= to
        || (row.from <= from && row.from >= to))
  }

  ghost predicate SortedByFrom(rs: seq<Range>) {
    forall i, j :: 0 <= i < j < |rs| ==> rs[i].from <= rs[j].from
  }

  /** `rs` is an answer the database may give to the range query. */
  ghost predicate IsRangeAnswer(scans: map<ScanId, ScanRow>, key: Key, from: nat, to: nat, rs: seq<Range>) {
    && SortedByFrom(rs)
    && (forall r :: r in rs ==> !r.fake && Matches(ScanRow(key, r.from, r.to), key, from, to))
    && (forall r :: r in rs ==> exists id :: id in scans && scans[id] == ScanRow(key, r.from, r.to))
    && (forall id :: id in scans && Matches(scans[id], key, from, to)
          ==> Range(scans[id].from, scans[id].to, false) in rs)
  }

  function WithFake(rs: seq<Range>, queryTo: nat): seq<Range> {
    rs + [Range(queryTo + 1, queryTo + 1, true)]
  }

  /** Every recorded interval is non-empty: true of a page, kept by every step. */
  predicate WellFormedScans(scans: map<ScanId, ScanRow>) {
    forall id :: id in scans ==> scans[id].from <= scans[id].to
  }

  function SweepQuery(rs: seq<Range>, from: nat, to: nat, pageSize: nat): Sweeping
    requires pageSize > 0 && forall r :: r in rs ==> r.from <= to
  {
    Sweep(Sweeping([], from, 0), WithFake(rs, to), to, pageSize)
  }

  function Widen(row: ScanRow, from: nat, maxScanned: nat): ScanRow {
    ScanRow(row.key, Min(row.from, from), Max(row.to, maxScanned))
  }

  /** The collapse: widen the row `findOne` picked, drop the other matching rows. */
  function Collapse(t: Tables, key: Key, from: nat, to: nat, maxScanned: nat, picked: Option<ScanId>): Tables
    requires picked.Some? ==> picked.value in t.scans
  {
    if picked.None? then t
    else
      var first := t.scans[picked.value];
      if first.from == from && first.to == maxScanned then t
      else
        var widened := t.scans[picked.value := Widen(first, from, maxScanned)];
        Tables(t.events,
               map id | id in widened && (id == picked.value || !Matches(widened[id], key, from, to))
                 :: widened[id])
  }

  /** `findOne()` may return any row, and returns none only from an empty table. */
  predicate IsPick(scans: map<ScanId, ScanRow>, picked: Option<ScanId>) {
    if picked.None? then scans == map[] else picked.value in scans
  }

  /** The tables after the gaps of the query have been scanned and before the collapse. */
  function Scanned(cfg: Config, w: World, t: Tables, key: Key, from: nat, to: nat, rs: seq<Range>): Tables
    requires cfg.pageSize > 0 && DistinctIds(cfg, w) && forall r :: r in rs ==> r.from <= to
  {
    ScanPages(cfg, w, t, key, SweepQuery(rs, from, to, cfg.pageSize).pages)
  }

  /** All of `_renewContractEventsCache` on a chronological range. */
  function Renew(cfg: Config, w: World, t: Tables, key: Key, from: nat, to: nat,
                 rs: seq<Range>, picked: Option<ScanId>): Tables
    requires cfg.pageSize > 0 && DistinctIds(cfg, w) && forall r :: r in rs ==> r.from <= to
    requires IsPick(Scanned(cfg, w, t, key, from, to, rs).scans, picked)
  {
    Collapse(Scanned(cfg, w, t, key, from, to, rs), key, from, to,
             SweepQuery(rs, from, to, cfg.pageSize).maxScanned, picked)
  }

  // ------------------------------------------------------------ the gap filler

  predicate InPage(b: nat, p: Page) { p.from <= b <= p.to }
  predicate InRange(b: nat, r: Range) { r.from <= b <= r.to }

  ghost predicate InPages(b: nat, pages: seq<Page>) { exists p :: p in pages && InPage(b, p) }
  ghost predicate InRanges(b: nat, rs: seq<Range>) { exists r :: r in rs && InRange(b, r) }

  ghost predicate Covered(b: nat, pages: seq<Page>, rs: seq<Range>) {
    InPages(b, pages) || InRanges(b, rs)
  }

  ghost predicate Ordered(pages: seq<Page>) {
    forall i, j :: 0 <= i < j < |pages| ==> pages[i].to < pages[j].from
  }

  ghost predicate Within(pages: seq<Page>, from: nat, to: nat, pageSize: nat) {
    forall p :: p in pages ==> from <= p.from <= p.to <= to && p.to - p.from < pageSize
  }

  ghost predicate Apart(pages: seq<Page>, rs: seq<Range>) {
    forall p, r :: p in pages && r in rs ==> p.to < r.from || r.to < p.from
  }

  lemma {:induction false} GapPagesFillTheGap(done: seq<Page>, from: nat, end: nat, queryTo: nat, pageSize: nat)
      returns (gap: seq<Page>)
    requires pageSize > 0 && end <= queryTo
    ensures GapPages(done, from, end, queryTo, pageSize) == done + gap
    ensures Ordered(gap) && Within(gap, from, end, pageSize)
    ensures forall b: nat :: from <= b <= end ==> InPages(b, gap)
    ensures forall i :: 0 <= i < |gap| - 1 ==> gap[i].to + 1 - gap[i].from == pageSize
    decreases end + 1 - from
  {
    if from > end {
      gap := [];
    } else {
      var first := Page(from, Min(Min(queryTo, from + pageSize - 1), end));
      var rest := GapPagesFillTheGap(done + [first], from + pageSize, end, queryTo, pageSize);
      gap := [first] + rest;
      assert done + [first] + rest == done + gap;
      assert rest != [] ==> first.to < end by {
        if rest != [] {
          assert rest[0] in rest;
        }
      }
      forall b: nat | from <= b <= end
        ensures InPages(b, gap)
      {
        if b <= first.to {
          assert first in gap && InPage(b, first);
        } else {
          assert InPages(b, rest);
          var p :| p in rest && InPage(b, p);
          assert p in gap;
        }
      }
    }
  }

  ghost predicate AllCovered(from: nat, cursor: nat, pages: seq<Page>, rs: seq<Range>) {
    forall b: nat :: from <= b < cursor ==> Covered(b, pages, rs)
  }

  /** What the sweep has covered after the first `i` ranges of `all`. */
  ghost predicate SweepCovers(all: seq<Range>, i: nat, s: Sweeping, from: nat)
    requires i <= |all|
  {
    && from <= s.cursor
    && (forall j :: 0 <= j < i ==> all[j].to < s.cursor)
    && AllCovered(from, s.cursor, s.pages, all[..i])
    && (s.maxScanned == 0 || exists j :: 0 <= j < i && !all[j].fake && all[j].to == s.maxScanned)
    && (forall j :: 0 <= j < i && !all[j].fake ==> all[j].to <= s.maxScanned)
    && (s.cursor == from || exists j :: 0 <= j < i && all[j].to + 1 == s.cursor)
  }

  /** The shape of the pages fetched so far. */
  ghost predicate SweepPagesInv(all: seq<Range>, s: Sweeping, from: nat, to: nat, pageSize: nat) {
    && Ordered(s.pages) && Within(s.pages, from, to, pageSize) && Apart(s.pages, all)
    && forall p :: p in s.pages ==> p.to < s.cursor
  }

  ghost predicate Sweepable(all: seq<Range>, to: nat) {
    && SortedByFrom(all)
    && forall r :: r in all ==> r.from <= r.to && r.from <= to + 1
  }

  lemma SweepOneCovers(all: seq<Range>, i: nat, s: Sweeping, from: nat, to: nat, pageSize: nat)
    requires pageSize > 0 && i < |all| && Sweepable(all, to)
    requires SweepCovers(all, i, s, from)
    ensures all[i] in all && SweepCovers(all, i + 1, SweepOne(s, all[i], to, pageSize), from)
  {
    hide GapPages, AllCovered;
    var s' := SweepOne(s, all[i], to, pageSize);
    SweepOneBlocks(all, i, s, from, to, pageSize);
    if s.maxScanned != 0 {
      var j :| 0 <= j < i && !all[j].fake && all[j].to == s.maxScanned;
      assert 0 <= j < i + 1;
    }
    if s'.cursor != from && s'.cursor == s.cursor {
      var j :| 0 <= j < i && all[j].to + 1 == s.cursor;
      assert 0 <= j < i + 1;
    }
  }

  /** Every block that the cursor has passed lies in a page or in a range that was seen. */
  lemma SweepOneBlocks(all: seq<Range>, i: nat, s: Sweeping, from: nat, to: nat, pageSize: nat)
    requires pageSize > 0 && i < |all| && Sweepable(all, to)
    requires from <= s.cursor && AllCovered(from, s.cursor, s.pages, all[..i])
    ensures all[i] in all
    ensures var s' := SweepOne(s, all[i], to, pageSize); AllCovered(from, s'.cursor, s'.pages, all[..i + 1])
  {
    hide GapPages;
    var r := all[i];
    var s' := SweepOne(s, r, to, pageSize);
    var gap := [];
    if r.from > s.cursor {
      gap := GapPagesFillTheGap(s.pages, s.cursor, r.from - 1, to, pageSize);
    }
    assert s'.pages == s.pages + gap;
    var seen := all[..i + 1];
    forall b: nat | from <= b < s'.cursor
      ensures Covered(b, s'.pages, seen)
    {
      if b < s.cursor {
        assert Covered(b, s.pages, all[..i]);
        if InPages(b, s.pages) {
          var p :| p in s.pages && InPage(b, p);
          assert p in s'.pages;
        } else {
          var q :| q in all[..i] && InRange(b, q);
          assert q in seen;
        }
      } else if b < r.from {
        assert InPages(b, gap);
        var p :| p in gap && InPage(b, p);
        assert p in s'.pages;
      } else {
        assert seen[i] == r && InRange(b, r);
      }
    }
  }

  lemma OrderedConcat(ps: seq<Page>, qs: seq<Page>)
    requires Ordered(ps) && Ordered(qs)
    requires forall p, q :: p in ps && q in qs ==> p.to < q.from
    ensures Ordered(ps + qs)
  {
  }

  lemma GapIsApart(all: seq<Range>, i: nat, cursor: nat, gap: seq<Page>, pageSize: nat)
    requires i < |all| && SortedByFrom(all) && all[i].from > 0
    requires forall j :: 0 <= j < i ==> all[j].to < cursor
    requires Within(gap, cursor, all[i].from - 1, pageSize)
    ensures Apart(gap, all)
  {
  }

  lemma SweepOnePages(all: seq<Range>, i: nat, s: Sweeping, from: nat, to: nat, pageSize: nat)
    requires pageSize > 0 && i < |all| && Sweepable(all, to) && from <= s.cursor
    requires forall j :: 0 <= j < i ==> all[j].to < s.cursor
    requires SweepPagesInv(all, s, from, to, pageSize)
    ensures all[i] in all
    ensures SweepPagesInv(all, SweepOne(s, all[i], to, pageSize), from, to, pageSize)
  {
    hide GapPages, SortedByFrom, Ordered, Apart;
    var r := all[i];
    if r.from > s.cursor {
      var gap := GapPagesFillTheGap(s.pages, s.cursor, r.from - 1, to, pageSize);
      assert forall p, q :: p in s.pages && q in gap ==> p.to < q.from;
      OrderedConcat(s.pages, gap);
      GapIsApart(all, i, s.cursor, gap, pageSize);
      PagesTogether(all, s.pages, gap, from, to, pageSize);
      assert forall p :: p in s.pages + gap ==> p.to < Max(s.cursor, r.to + 1);
    }
  }

  lemma PagesTogether(all: seq<Range>, ps: seq<Page>, qs: seq<Page>, from: nat, to: nat, pageSize: nat)
    requires Within(ps, from, to, pageSize) && Within(qs, from, to, pageSize) && Apart(ps, all) && Apart(qs, all)
    ensures Within(ps + qs, from, to, pageSize) && Apart(ps + qs, all)
  {
  }

  lemma {:induction false} SweepKeepsInv(all: seq<Range>, i: nat, s: Sweeping, from: nat, to: nat, pageSize: nat)
      returns (n: nat)
    requires pageSize > 0 && i <= |all| && Sweepable(all, to)
    requires SweepCovers(all, i, s, from) && SweepPagesInv(all, s, from, to, pageSize)
    ensures i <= n <= |all| && forall r :: r in all[i..] ==> r in all
    ensures var s' := Sweep(s, all[i..], to, pageSize);
      && SweepCovers(all, n, s', from) && SweepPagesInv(all, s', from, to, pageSize)
      && (n == |all| || s'.cursor > to)
    decreases |all| - i
  {
    hide SweepOne, SweepPagesInv, SortedByFrom, Covered;
    n := i;
    if i == |all| {
    } else {
      SweepOneCovers(all, i, s, from, to, pageSize);
      SweepOnePages(all, i, s, from, to, pageSize);
      var s' := SweepOne(s, all[i], to, pageSize);
      assert all[i..][0] == all[i] && all[i..][1..] == all[i + 1..];
      n := i + 1;
      if s'.cursor <= to {
        n := SweepKeepsInv(all, i + 1, s', from, to, pageSize);
      }
    }
  }

  ghost predicate Queryable(rs: seq<Range>, to: nat) {
    SortedByFrom(rs) && forall r :: r in rs ==> !r.fake && r.from <= r.to && r.from <= to
  }

  /** The gap filler, for any from-sorted list of possibly overlapping ranges that
      start no later than the query ends: the fetched pages and the ranges cover the
      query; the pages are disjoint from one another and from every range, lie inside
      the query and are at most a page long; and everything from the start of the query
      up to `maxScanned` is covered as well, which is the end of some range, and no range
      reaches further inside the query. */
  lemma GapFiller(rs: seq<Range>, from: nat, to: nat, pageSize: nat)
    requires pageSize > 0 && from <= to && Queryable(rs, to)
    ensures var s := SweepQuery(rs, from, to, pageSize);
      && (forall b: nat :: from <= b <= to || from <= b <= s.maxScanned ==> Covered(b, s.pages, rs))
      && Ordered(s.pages) && Within(s.pages, from, to, pageSize) && Apart(s.pages, rs)
      && (s.maxScanned == 0 || exists r :: r in rs && r.to == s.maxScanned)
      && (forall r :: r in rs ==> Min(r.to, to) <= s.maxScanned)
  {
    hide SweepQuery, Ordered, Within;
    var n := SweepEnds(rs, from, to, pageSize);
    SweepReaches(rs, n, from, to, pageSize);
    var s, all := SweepQuery(rs, from, to, pageSize), WithFake(rs, to);
    assert forall r :: r in rs ==> r in all;
    forall b: nat | from <= b <= to || from <= b <= s.maxScanned
      ensures Covered(b, s.pages, rs)
    {
      if b <= to {
        assert Covered(b, s.pages, all[..n]);
        if InRanges(b, all[..n]) {
          var r :| r in all[..n] && InRange(b, r);
          assert r in rs;
        }
      } else {
        var r :| r in rs && r.to == s.maxScanned;
        assert InRange(b, r);
      }
    }
  }

  /** Where the loop over the ranges ends: behind the query. */
  lemma SweepEnds(rs: seq<Range>, from: nat, to: nat, pageSize: nat) returns (n: nat)
    requires pageSize > 0 && from <= to && Queryable(rs, to)
    ensures var s, all := SweepQuery(rs, from, to, pageSize), WithFake(rs, to);
      && n <= |all| && SweepCovers(all, n, s, from) && SweepPagesInv(all, s, from, to, pageSize) && s.cursor > to
  {
    hide Sweep, GapPages, SweepPagesInv;
    var all := WithFake(rs, to);
    assert all[0..] == all && all[|rs|] == Range(to + 1, to + 1, true);
    NothingSwept(all, from, to, pageSize);
    n := SweepKeepsInv(all, 0, Sweeping([], from, 0), from, to, pageSize);
  }

  lemma NothingSwept(all: seq<Range>, from: nat, to: nat, pageSize: nat)
    ensures SweepCovers(all, 0, Sweeping([], from, 0), from)
    ensures SweepPagesInv(all, Sweeping([], from, 0), from, to, pageSize)
  {
  }

  /** The ranges that the loop has not come to lie behind one that reaches to its end. */
  lemma SweepReaches(rs: seq<Range>, n: nat, from: nat, to: nat, pageSize: nat)
    requires pageSize > 0 && from <= to && Queryable(rs, to) && n <= |WithFake(rs, to)|
    requires var s := SweepQuery(rs, from, to, pageSize); SweepCovers(WithFake(rs, to), n, s, from) && s.cursor > to
    ensures var s := SweepQuery(rs, from, to, pageSize);
      && (s.maxScanned == 0 || exists r :: r in rs && r.to == s.maxScanned)
      && (forall r :: r in rs ==> Min(r.to, to) <= s.maxScanned)
  {
    hide SweepQuery, Covered;
    var s, all := SweepQuery(rs, from, to, pageSize), WithFake(rs, to);
    if s.maxScanned != 0 {
      var j :| 0 <= j < n && !all[j].fake && all[j].to == s.maxScanned;
      assert all[j] in rs;
    }
    forall r | r in rs ensures Min(r.to, to) <= s.maxScanned {
      var i :| 0 <= i < |rs| && rs[i] == r;
      assert all[i] == r;
      if n <= i {
        var j :| 0 <= j < n && all[j].to + 1 == s.cursor;
        assert all[j] == rs[j];
      }
    }
  }

  // -------------------------------------------------------- scan-table soundness

  /** Every log of `key` in blocks from..to is in the local table. */
  ghost predicate Fetched(cfg: Config, w: World, t: Tables, key: Key, from: nat, to: nat) {
    forall l :: l in LogsIn(w, key, from, to) ==> EventId(cfg, l) in t.events
  }

  /** The Event table holds nothing but logs of the chain under their own ids. */
  ghost predicate EventsTrue(cfg: Config, w: World, events: map<string, Log>) {
    forall id :: id in events ==> events[id] in w.logs && EventId(cfg, events[id]) == id
  }

  ghost predicate EventsTrueAfter(cfg: Config, w: World, t: Tables, t': Tables) {
    EventsTrue(cfg, w, t.events) ==> EventsTrue(cfg, w, t'.events)
  }

  lemma PageEventsTrue(cfg: Config, w: World, t: Tables, key: Key, p: Page)
    requires DistinctIds(cfg, w)
    ensures EventsTrueAfter(cfg, w, t, ScanPage(cfg, w, t, key, p))
  {
    var t' := ScanPage(cfg, w, t, key, p);
    if EventsTrue(cfg, w, t.events) {
      forall id | id in t'.events ensures t'.events[id] in w.logs && EventId(cfg, t'.events[id]) == id {
        if l :| l in LogsIn(w, key, p.from, p.to) && EventId(cfg, l) == id {
          assert t'.events[id] == l;
        } else {
          assert t'.events[id] == t.events[id];
        }
      }
    }
  }

  /** No row claims a block that is beyond the head or whose logs are missing, and
      the Event table holds nothing but logs of the chain under their own ids. */
  ghost predicate Sound(cfg: Config, w: World, t: Tables) {
    && EventsTrue(cfg, w, t.events)
    && WellFormedScans(t.scans)
    && (forall id :: id in t.scans ==>
          && t.scans[id].to <= Head(w, t.scans[id].key.chainId)
          && Fetched(cfg, w, t, t.scans[id].key, t.scans[id].from, t.scans[id].to))
  }

  lemma ScanPageSound(cfg: Config, w: World, t: Tables, key: Key, p: Page)
    requires ValidWorld(cfg, w) && Sound(cfg, w, t)
    requires p.from <= p.to <= Head(w, key.chainId)
    ensures var t' := ScanPage(cfg, w, t, key, p);
      && Sound(cfg, w, t') && t.events.Keys <= t'.events.Keys
      && Fetched(cfg, w, t', key, p.from, p.to)
  {
    PageEventsTrue(cfg, w, t, key, p);
  }

  lemma {:induction false} ScanPagesSound(cfg: Config, w: World, t: Tables, key: Key, pages: seq<Page>)
    requires ValidWorld(cfg, w) && Sound(cfg, w, t)
    requires forall p :: p in pages ==> p.from <= p.to <= Head(w, key.chainId)
    ensures var t' := ScanPages(cfg, w, t, key, pages);
      && Sound(cfg, w, t')
      && t.events.Keys <= t'.events.Keys
      && forall p :: p in pages ==> Fetched(cfg, w, t', key, p.from, p.to)
  {
    if pages == [] {
    } else {
      var front, last := pages[..|pages| - 1], pages[|pages| - 1];
      assert forall p :: p in front ==> p in pages;
      ScanPagesSound(cfg, w, t, key, front);
      ScanPageSound(cfg, w, ScanPages(cfg, w, t, key, front), key, last);
      var t' := ScanPages(cfg, w, t, key, pages);
      forall p | p in pages ensures Fetched(cfg, w, t', key, p.from, p.to) {
        assert p in front || p == last;
      }
    }
  }

  lemma RangeAnswerIsQueryable(scans: map<ScanId, ScanRow>, key: Key, from: nat, to: nat, rs: seq<Range>)
    requires WellFormedScans(scans) && from <= to && IsRangeAnswer(scans, key, from, to, rs)
    ensures Queryable(rs, to)
  {
  }

  lemma CoveredIsFetched(cfg: Config, w: World, t: Tables, key: Key, pages: seq<Page>, rs: seq<Range>, l: Log)
    requires l in w.logs && l.key == key && Covered(l.block, pages, rs)
    requires forall p :: p in pages ==> Fetched(cfg, w, t, key, p.from, p.to)
    requires forall r :: r in rs ==> Fetched(cfg, w, t, key, r.from, r.to)
    ensures EventId(cfg, l) in t.events
  {
  }

  /** After the gaps are filled the table is still sound and holds every log of the
      query, and every log from its start up to `maxScanned`. */
  lemma ScannedFetchesQuery(cfg: Config, w: World, t: Tables, key: Key, from: nat, to: nat, rs: seq<Range>)
    requires cfg.pageSize > 0 && ValidWorld(cfg, w) && Sound(cfg, w, t)
    requires from <= to <= Head(w, key.chainId)
    requires IsRangeAnswer(t.scans, key, from, to, rs)
    ensures Queryable(rs, to)
    ensures var t' := Scanned(cfg, w, t, key, from, to, rs);
      var s := SweepQuery(rs, from, to, cfg.pageSize);
      && Sound(cfg, w, t')
      && Fetched(cfg, w, t', key, from, to)
      && Fetched(cfg, w, t', key, from, s.maxScanned)
      && s.maxScanned <= Head(w, key.chainId)
  {
    RangeAnswerIsQueryable(t.scans, key, from, to, rs);
    GapFiller(rs, from, to, cfg.pageSize);
    var s := SweepQuery(rs, from, to, cfg.pageSize);
    ScanPagesSound(cfg, w, t, key, s.pages);
    var t' := Scanned(cfg, w, t, key, from, to, rs);
    forall r | r in rs ensures Fetched(cfg, w, t', key, r.from, r.to) && r.to <= Head(w, key.chainId) {
      var id :| id in t.scans && t.scans[id] == ScanRow(key, r.from, r.to);
    }
    forall l | l in LogsIn(w, key, from, to) || l in LogsIn(w, key, from, s.maxScanned)
      ensures EventId(cfg, l) in t'.events
    {
      CoveredIsFetched(cfg, w, t', key, s.pages, rs, l);
    }
  }

  // -------------------------------------------------------------- the collapse

  /** The row that `findOne()` returned satisfies the query's own `where` clause. The
      source states this in a comment and relies on it, but the call carries no filter. */
  predicate PickMatches(t: Tables, key: Key, from: nat, to: nat, picked: Option<ScanId>)
    requires IsPick(t.scans, picked)
  {
    picked.Some? ==> Matches(t.scans[picked.value], key, from, to)
  }

  ghost predicate Claimed(scans: map<ScanId, ScanRow>, key: Key, b: nat) {
    exists id :: id in scans && scans[id].key == key && scans[id].from <= b <= scans[id].to
  }

  /** The row that `findOne()` returned is left as it is, or every block of its widened
      interval is claimed already. */
  ghost predicate PickIsClaimed(t: Tables, from: nat, maxScanned: nat, picked: Option<ScanId>)
    requires IsPick(t.scans, picked)
  {
    picked.Some? ==>
      var first := t.scans[picked.value];
      var wide := Widen(first, from, maxScanned);
      || (first.from == from && first.to == maxScanned)
      || forall b: nat :: wide.from <= b <= wide.to ==> Claimed(t.scans, first.key, b)
  }

  lemma CollapseSound(cfg: Config, w: World, t: Tables, key: Key, from: nat, to: nat,
                      maxScanned: nat, picked: Option<ScanId>)
    requires ValidWorld(cfg, w) && Sound(cfg, w, t) && from <= to
    requires Fetched(cfg, w, t, key, from, to) && Fetched(cfg, w, t, key, from, maxScanned)
    requires maxScanned <= Head(w, key.chainId)
    requires IsPick(t.scans, picked)
    requires PickMatches(t, key, from, to, picked) || PickIsClaimed(t, from, maxScanned, picked)
    ensures Sound(cfg, w, Collapse(t, key, from, to, maxScanned, picked))
    ensures Collapse(t, key, from, to, maxScanned, picked).events == t.events
  {
    if picked.Some? {
      var first := t.scans[picked.value];
      var wide := Widen(first, from, maxScanned);
      if !(first.from == from && first.to == maxScanned) {
        if PickMatches(t, key, from, to, picked) {
          forall l | l in LogsIn(w, key, wide.from, wide.to) ensures EventId(cfg, l) in t.events {
            assert || l in LogsIn(w, key, first.from, first.to)
                   || l in LogsIn(w, key, from, to)
                   || l in LogsIn(w, key, from, maxScanned);
          }
        } else {
          ClaimedIsFetched(cfg, w, t, wide);
        }
      }
    }
  }

  /** A row whose blocks are all claimed claims nothing new. */
  lemma ClaimedIsFetched(cfg: Config, w: World, t: Tables, row: ScanRow)
    requires Sound(cfg, w, t) && row.from <= row.to
    requires forall b: nat :: row.from <= b <= row.to ==> Claimed(t.scans, row.key, b)
    ensures Fetched(cfg, w, t, row.key, row.from, row.to) && row.to <= Head(w, row.key.chainId)
  {
    assert Claimed(t.scans, row.key, row.to);
    forall l | l in LogsIn(w, row.key, row.from, row.to) ensures EventId(cfg, l) in t.events {
      assert Claimed(t.scans, row.key, l.block);
      var id :| id in t.scans && t.scans[id].key == row.key && t.scans[id].from <= l.block <= t.scans[id].to;
      assert l in LogsIn(w, row.key, t.scans[id].from, t.scans[id].to);
    }
  }

  /** What the range query finds: the rows of the contract with an end in the query. The
      third clause adds nothing, so a row that surrounds the query is not found. */
  lemma MatchesIff(row: ScanRow, key: Key, from: nat, to: nat)
    requires from <= to
    ensures Matches(row, key, from, to) <==>
      row.key == key && (from <= row.from <= to || from <= row.to <= to)
  {
  }

  /** A query inside one scanned interval is fetched again as a whole. */
  lemma SurroundedQueryIsFetchedAgain(scans: map<ScanId, ScanRow>, key: Key, from: nat, to: nat,
                                      rs: seq<Range>, pageSize: nat)
    requires pageSize > 0 && from <= to && IsRangeAnswer(scans, key, from, to, rs)
    requires forall id :: id in scans && scans[id].key == key ==> scans[id].from < from && to < scans[id].to
    ensures rs == []
    ensures forall b: nat :: from <= b <= to ==> InPages(b, SweepQuery(rs, from, to, pageSize).pages)
  {
    hide Sweep, GapPages;
    if rs != [] {
      assert rs[0] in rs;
      MatchesIff(ScanRow(key, rs[0].from, rs[0].to), key, from, to);
    }
    GapFiller(rs, from, to, pageSize);
    var s := SweepQuery(rs, from, to, pageSize);
    forall b: nat | from <= b <= to ensures InPages(b, s.pages) {
      assert Covered(b, s.pages, rs);
    }
  }

  /** What the table claims after a collapse that changes it: all that the picked row
      claimed, the blocks from the start of the query to `maxScanned`, those between, and
      what the rows claim that are not found by the range query; nothing else. */
  lemma CollapseClaims(t: Tables, key: Key, from: nat, to: nat, maxScanned: nat, picked: ScanId, k: Key, b: nat)
    requires picked in t.scans && from <= to
    requires t.scans[picked].from != from || t.scans[picked].to != maxScanned
    ensures var first := t.scans[picked];
      Claimed(Collapse(t, key, from, to, maxScanned, Some(picked)).scans, k, b) <==>
        || (k == first.key && (first.from <= b || from <= b) && (b <= first.to || b <= maxScanned))
        || exists id :: id in t.scans && id != picked && t.scans[id].key == k && t.scans[id].from <= b <= t.scans[id].to
             && !(k == key && (from <= t.scans[id].from <= to || from <= t.scans[id].to <= to))
  {
    var first, t' := t.scans[picked], Collapse(t, key, from, to, maxScanned, Some(picked));
    assert picked in t'.scans && t'.scans[picked] == Widen(first, from, maxScanned);
    forall id | id in t.scans && id != picked
      ensures id in t'.scans <==> !Matches(t.scans[id], key, from, to)
      ensures id in t'.scans ==> t'.scans[id] == t.scans[id]
    {
    }
  }

  /** Without a row, or with one that is right already, nothing changes. */
  lemma NothingToCollapse(t: Tables, key: Key, from: nat, to: nat, maxScanned: nat, picked: Option<ScanId>)
    requires picked.Some? ==> picked.value in t.scans
    requires picked.Some? ==> t.scans[picked.value].from == from && t.scans[picked.value].to == maxScanned
    ensures Collapse(t, key, from, to, maxScanned, picked) == t
  {
  }

  /** Two logs share an id only if contract, log id and transaction agree, for a digest
      without collisions and names without underscores; the chain is not part of it. */
  lemma IdsTellLogsApart(cfg: Config, a: Log, b: Log)
    requires forall x, y :: cfg.digest(x) == cfg.digest(y) ==> x == y
    requires '_' !in a.key.contract && '_' !in b.key.contract && '_' !in a.rawId && '_' !in b.rawId
    ensures EventId(cfg, a) == EventId(cfg, b) <==>
      a.key.contract == b.key.contract && a.rawId == b.rawId && a.txHash == b.txHash
  {
    if EventId(cfg, a) == EventId(cfg, b) {
      var x, y := a.rawId + "_" + a.txHash, b.rawId + "_" + b.txHash;
      var s := a.key.contract + "_" + x;
      assert s == a.key.contract + "_" + a.rawId + "_" + a.txHash;
      assert b.key.contract + "_" + y == b.key.contract + "_" + b.rawId + "_" + b.txHash;
      UnderscoreSplits(s, a.key.contract, x, b.key.contract, y);
      UnderscoreSplits(x, a.rawId, a.txHash, b.rawId, b.txHash);
    }
  }

  lemma UnderscoreSplits(s: string, x: string, y: string, x': string, y': string)
    requires '_' !in x && '_' !in x' && s == x + "_" + y == x' + "_" + y'
    ensures x == x' && y == y'
  {
    FirstUnderscore(s, x, y);
    FirstUnderscore(s, x', y');
    assert |x| == |x'|;
  }

  lemma FirstUnderscore(s: string, x: string, y: string)
    requires '_' !in x && s == x + "_" + y
    ensures |x| < |s| && s[|x|] == '_' && forall i :: 0 <= i < |x| ==> s[i] != '_'
    ensures x == s[..|x|] && y == s[|x| + 1..]
  {
    assert forall i :: 0 <= i < |x| ==> s[i] == x[i];
  }

  // -------------------------------------------------------- a whole renewal

  /** The picks after which a renewal of a query at or below the head leaves a sound table. */
  ghost predicate PickIsGood(cfg: Config, w: World, t: Tables, key: Key, from: nat, to: nat,
                             rs: seq<Range>, picked: Option<ScanId>)
    requires cfg.pageSize > 0 && DistinctIds(cfg, w) && forall r :: r in rs ==> r.from <= to
  {
    var t1 := Scanned(cfg, w, t, key, from, to, rs);
    && IsPick(t1.scans, picked)
    && (|| PickMatches(t1, key, from, to, picked)
        || PickIsClaimed(t1, from, SweepQuery(rs, from, to, cfg.pageSize).maxScanned, picked))
  }

  lemma RenewSound(cfg: Config, w: World, t: Tables, key: Key, from: nat, to: nat,
                   rs: seq<Range>, picked: Option<ScanId>)
    requires cfg.pageSize > 0 && ValidWorld(cfg, w) && Sound(cfg, w, t)
    requires from <= to <= Head(w, key.chainId)
    requires IsRangeAnswer(t.scans, key, from, to, rs)
    ensures Queryable(rs, to)
    ensures PickIsGood(cfg, w, t, key, from, to, rs, picked) ==>
      var t' := Renew(cfg, w, t, key, from, to, rs, picked);
      Sound(cfg, w, t') && Fetched(cfg, w, t', key, from, to)
  {
    hide Scanned, SweepQuery, Sound, Fetched, Collapse;
    ScannedFetchesQuery(cfg, w, t, key, from, to, rs);
    if PickIsGood(cfg, w, t, key, from, to, rs, picked) {
      var t1 := Scanned(cfg, w, t, key, from, to, rs);
      var maxScanned := SweepQuery(rs, from, to, cfg.pageSize).maxScanned;
      CollapseSound(cfg, w, t1, key, from, to, maxScanned, picked);
      SameEvents(cfg, w, t1, Collapse(t1, key, from, to, maxScanned, picked), key, from, to);
    }
  }

  lemma SameEvents(cfg: Config, w: World, t: Tables, t': Tables, key: Key, from: nat, to: nat)
    requires Fetched(cfg, w, t, key, from, to) && t'.events == t.events
    ensures Fetched(cfg, w, t', key, from, to)
  {
  }

  /** Every page that was scanned is recorded. */
  lemma {:induction false} PagesAreRecorded(cfg: Config, w: World, t: Tables, key: Key, pages: seq<Page>)
    requires DistinctIds(cfg, w)
    ensures var t' := ScanPages(cfg, w, t, key, pages);
      && EventsTrueAfter(cfg, w, t, t')
      && forall p :: p in pages ==>
           var id := ScanId(key.contract, p.from, p.to);
           id in t'.scans && t'.scans[id] == ScanRow(key, p.from, p.to)
  {
    if pages == [] {
    } else {
      var front, last := pages[..|pages| - 1], pages[|pages| - 1];
      PagesAreRecorded(cfg, w, t, key, front);
      PageEventsTrue(cfg, w, ScanPages(cfg, w, t, key, front), key, last);
    }
  }
}
