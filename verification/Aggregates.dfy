/**
 Site analytics as a state machine: pageviews arrive, raw rows are purged, days are
 rolled up into aggregates and aggregates expire. `World` also remembers the full
 history, against which stored rows and aggregates are judged.
 */
module Aggregates {
  import opened Calendar
  import opened Visits
  import opened Tallies
  import opened Losses

  datatype Config = Config(days: DayStarts, retention: int)

  /** Days follow one another, and a visit cannot be purged while it can still continue. */
  ghost predicate Sane(cfg: Config) {
    Advancing(cfg.days) && (cfg.retention <= 0 || VISIT_IDLE <= cfg.retention)
  }

  /** A row key of `analytics_daily`. */
  datatype DailyKey = DailyKey(site: SiteId, day: int, dim: Dimension, value: string)

  type Daily = map<DailyKey, Counts>

  /** What a refresh had before it: so much of the history, less the rows purged by then. */
  datatype Sight = Sight(upto: nat, goneVisits: set<nat>, gonePages: set<nat>)

  /**
   The database at `now`, and what only the proofs remember: every pageview ever
   recorded, the purged row ids, and what each aggregated day's refresh had before it.
   */
  datatype World = World(
    tables: Tables, daily: Daily, now: int,
    history: seq<Pageview>, goneVisits: set<nat>, gonePages: set<nat>, seen: map<(SiteId, int), Sight>)

  datatype Event =
    | Tick(now: int)
    | Collect(site: SiteId, path: string, ip: string, ua: string, attrs: map<string, string>)
    | PurgeRows(before: int, visits: set<nat>, pages: set<nat>)
    | Refresh(site: SiteId, day: int)
    | PurgeDaily(before: int)

  // ----- reading the tables -----

  function Values(t: Tables, dim: Dimension): set<string> {
    if dim.Page? then set p | p in t.pages :: p.path else set v | v in t.visits :: Column(v, dim)
  }

  /** SELECT value, ... GROUP BY value over the raw rows of [from, to). */
  function RawRows(
      t: Tables, site: SiteId, dim: Dimension, from: int, to: int, filters: seq<Filter>): map<string, Counts> {
    map x | x in Values(t, dim) && Tally(Selector(site, dim, x, from, to, filters), t).visits > 0
      :: Tally(Selector(site, dim, x, from, to, filters), t)
  }

  function At(rows: map<string, Counts>, value: string): Counts {
    if value in rows then rows[value] else ZERO
  }

  function Lookup(daily: Daily, key: DailyKey): Counts {
    if key in daily then daily[key] else ZERO
  }

  function DayKeys(t: Tables, site: SiteId, day: int): set<DailyKey> {
    set dim, x | dim in Dimensions() && x in Values(t, dim) :: DailyKey(site, day, dim, x)
  }

  /** What RefreshDay stores: every breakdown of the day, and a zero total when there is no visit. */
  function DayRows(c: DayStarts, t: Tables, site: SiteId, day: int): Daily {
    map k | k in DayKeys(t, site, day) + {DailyKey(site, day, Total, "")}
      && (Tally(DaySelector(c, site, day, k.dim, k.value), t).visits > 0 || k.dim.Total?)
      :: Tally(DaySelector(c, site, day, k.dim, k.value), t)
  }

  function WithoutDay(daily: Daily, site: SiteId, day: int): Daily {
    map k | k in daily && !(k.site == site && k.day == day) :: daily[k]
  }

  // ----- steps -----

  function Beacon(cfg: Config, now: int, e: Event): Pageview
    requires e.Collect? && Advancing(cfg.days)
  {
    Pageview(e.site, now, e.path, Hash(DayOf(cfg.days, e.site, now), e.site, e.ip, e.ua), e.attrs)
  }

  /** Every row of the day is still stored: the day is not older than the first whole raw day. */
  predicate Whole(cfg: Config, now: int, site: SiteId, day: int) {
    cfg.retention <= 0 || now - cfg.retention < cfg.days(site, day)
  }

  /** Stored visits last seen before the cut, and stored rows that are older than it or cascade with their visit. */
  ghost predicate Purgeable(w: World, before: int, visits: set<nat>, pages: set<nat>) {
    && (forall x :: x in visits || x in pages ==> x < |w.history|)
    && (forall i :: 0 <= i < |w.tables.visits| && w.tables.visits[i].id in visits ==>
          w.tables.visits[i].lastAt < before)
    && (forall i :: 0 <= i < |w.tables.pages| && w.tables.pages[i].id in pages ==>
          w.tables.pages[i].ts < before || w.tables.pages[i].visitId in visits)
  }

  ghost predicate Enabled(cfg: Config, w: World, e: Event) {
    match e
    case Tick(now) => w.now <= now
    case Collect(_, _, _, _, _) => true
    case PurgeRows(before, visits, pages) =>
      0 < cfg.retention && before <= w.now - cfg.retention && Purgeable(w, before, visits, pages)
    case Refresh(_, _) => true
    case PurgeDaily(_) => true
  }

  function CollectStep(w: World, p: Pageview): World {
    w.(tables := Record(w.tables, |w.history|, p), history := w.history + [p])
  }

  function PurgeStep(w: World, visits: set<nat>, pages: set<nat>): World {
    w.(tables := Tables(KeepVisits(w.tables.visits, visits), KeepPages(w.tables.pages, pages)),
       goneVisits := w.goneVisits + visits, gonePages := w.gonePages + pages)
  }

  function RefreshStep(c: DayStarts, w: World, site: SiteId, day: int): World {
    w.(daily := WithoutDay(w.daily, site, day) + DayRows(c, w.tables, site, day),
       seen := w.seen[(site, day) := Sight(|w.history|, w.goneVisits, w.gonePages)])
  }

  function PurgeDailyStep(w: World, before: int): World {
    w.(daily := map k | k in w.daily && before <= k.day :: w.daily[k],
       seen := map s | s in w.seen && before <= s.1 :: w.seen[s])
  }

  function Next(cfg: Config, w: World, e: Event): World
    requires Advancing(cfg.days)
  {
    match e
    case Tick(now) => w.(now := now)
    case Collect(_, _, _, _, _) => CollectStep(w, Beacon(cfg, w.now, e))
    case PurgeRows(_, visits, pages) => PurgeStep(w, visits, pages)
    case Refresh(site, day) => RefreshStep(cfg.days, w, site, day)
    case PurgeDaily(before) => PurgeDailyStep(w, before)
  }

  // ----- the invariant -----

  /** A day without an aggregate has seen nothing. */
  function SightOf(w: World, site: SiteId, day: int): Sight {
    if (site, day) in w.seen then w.seen[(site, day)] else Sight(0, {}, {})
  }

  function Seen(w: World, site: SiteId, day: int): nat {
    SightOf(w, site, day).upto
  }

  function Shown(h: seq<Pageview>, s: Sight): Tables
    requires s.upto <= |h|
  {
    Remaining(Replay(h[..s.upto]), s.goneVisits, s.gonePages)
  }

  /** What a day's aggregate must say: the breakdown of what its refresh had before it. */
  ghost predicate DayKept(c: DayStarts, w: World, site: SiteId, day: int)
    requires Seen(w, site, day) <= |w.history|
  {
    forall dim, x :: dim in Dimensions() ==>
      Lookup(w.daily, DailyKey(site, day, dim, x))
      == Tally(DaySelector(c, site, day, dim, x), Shown(w.history, SightOf(w, site, day)))
  }

  ghost predicate HistoryOk(cfg: Config, w: World) {
    Orderly(cfg.days, w.history) && forall i :: 0 <= i < |w.history| ==> w.history[i].ts <= w.now
  }

  /** Stored rows are the whole history's rows less the purged ones, all of which are old. */
  ghost predicate RowsOk(cfg: Config, w: World) {
    var full := Replay(w.history);
    && w.tables == Tables(KeepVisits(full.visits, w.goneVisits), KeepPages(full.pages, w.gonePages))
    && (forall x :: x in w.goneVisits || x in w.gonePages ==> x < |w.history|)
    && (cfg.retention <= 0 ==> w.goneVisits == {} && w.gonePages == {})
    && (0 < cfg.retention ==> GoneBelow(full, w.goneVisits, w.gonePages, w.now - cfg.retention))
  }

  ghost predicate DailyOk(cfg: Config, w: World) {
    && (forall s, d :: Seen(w, s, d) <= |w.history| && DayKept(cfg.days, w, s, d))
    && (forall k :: k in w.daily ==> (k.site, k.day) in w.seen)
    && (forall s, d :: (s, d) in w.seen ==> DailyKey(s, d, Total, "") in w.daily)
  }

  ghost predicate Inv(cfg: Config, w: World) {
    HistoryOk(cfg, w) && RowsOk(cfg, w) && DailyOk(cfg, w)
  }

  function Start(now: int): World {
    World(EMPTY, map[], now, [], {}, {}, map[])
  }

  // ----- the tables under a pageview -----

  lemma {:induction false} FindKept(vs: seq<Visit>, gone: set<nat>, site: SiteId, hash: Hash, after: int)
    requires forall i :: 0 <= i < |vs| && vs[i].id in gone ==> vs[i].lastAt <= after
    ensures Find(KeepVisits(vs, gone), site, hash, after) == Find(vs, site, hash, after)
  {
    if vs != [] {
      var init, v := vs[..|vs| - 1], Last(vs);
      FindKept(init, gone, site, hash, after);
      var k := KeepVisits(init, gone);
      assert (k + [v])[..|k|] == k;
    }
  }

  lemma {:induction false} TouchKept(vs: seq<Visit>, gone: set<nat>, id: nat, p: Pageview)
    ensures KeepVisits(Touch(vs, id, p), gone) == Touch(KeepVisits(vs, gone), id, p)
  {
    if vs != [] {
      var n := |vs| - 1;
      TouchKept(vs[..n], gone, id, p);
      assert Touch(vs, id, p)[..n] == Touch(vs[..n], id, p);
      var k := KeepVisits(vs[..n], gone);
      assert Touch(k + [vs[n]], id, p) == Touch(k, id, p) + [Touch(vs, id, p)[n]];
    }
  }

  /** Purged visits are too old to continue, so recording commutes with purging. */
  lemma RecordKept(t: Tables, goneV: set<nat>, goneP: set<nat>, n: nat, p: Pageview)
    requires forall i :: 0 <= i < |t.visits| && t.visits[i].id in goneV ==> t.visits[i].lastAt <= p.ts - VISIT_IDLE
    requires n !in goneV && n !in goneP
    ensures Record(Tables(KeepVisits(t.visits, goneV), KeepPages(t.pages, goneP)), n, p)
      == var u := Record(t, n, p); Tables(KeepVisits(u.visits, goneV), KeepPages(u.pages, goneP))
  {
    FindKept(t.visits, goneV, p.site, p.hash, p.ts - VISIT_IDLE);
    var open := Find(t.visits, p.site, p.hash, p.ts - VISIT_IDLE);
    var u := Record(t, n, p);
    assert u.pages[..|t.pages|] == t.pages;
    if open.Some? {
      TouchKept(t.visits, goneV, open.value.id, p);
    } else {
      assert u.visits[..|t.visits|] == t.visits;
    }
  }

  lemma GoneStays(t: Tables, goneV: set<nat>, goneP: set<nat>, n: nat, p: Pageview, floor: int)
    requires Rising(t.visits) && GoneBelow(t, goneV, goneP, floor) && floor <= p.ts - VISIT_IDLE
    requires n !in goneV && n !in goneP
    ensures GoneBelow(Record(t, n, p), goneV, goneP, floor)
  {
    hide Rising, Record;
    var k, row := RecordCases(t, n, p);
  }

  lemma CollectRows(cfg: Config, w: World, p: Pageview)
    requires Sane(cfg) && HistoryOk(cfg, w) && RowsOk(cfg, w) && p.ts == w.now
    ensures RowsOk(cfg, CollectStep(w, p))
  {
    hide Record, Rising, Apart, Dated, AllOwned, Orderly, Advancing, KeepVisits, KeepPages;
    var full, n := Replay(w.history), |w.history|;
    assert (w.history + [p])[..n] == w.history;
    ReplaySound(cfg.days, w.history, w.now);
    RecordKept(full, w.goneVisits, w.gonePages, n, p);
    if 0 < cfg.retention { GoneStays(full, w.goneVisits, w.gonePages, n, p, w.now - cfg.retention); }
    if cfg.retention <= 0 { GoneStays(full, {}, {}, n, p, w.now - VISIT_IDLE); }
  }

  // ----- the tables under a purge -----

  lemma {:induction false} KeepVisitsTwice(vs: seq<Visit>, a: set<nat>, b: set<nat>)
    ensures KeepVisits(KeepVisits(vs, a), b) == KeepVisits(vs, a + b)
  {
    if vs != [] {
      var init := vs[..|vs| - 1];
      KeepVisitsTwice(init, a, b);
      var k := KeepVisits(init, a);
      assert (k + [Last(vs)])[..|k|] == k;
    }
  }

  lemma {:induction false} KeepPagesTwice(ps: seq<PageRow>, a: set<nat>, b: set<nat>)
    ensures KeepPages(KeepPages(ps, a), b) == KeepPages(ps, a + b)
  {
    if ps != [] {
      var init := ps[..|ps| - 1];
      KeepPagesTwice(init, a, b);
      var k := KeepPages(init, a);
      assert (k + [Last(ps)])[..|k|] == k;
    }
  }

  lemma {:induction false} KeptVisit(vs: seq<Visit>, gone: set<nat>, i: nat)
    requires i < |vs| && vs[i].id !in gone
    ensures vs[i] in KeepVisits(vs, gone)
  {
    if i < |vs| - 1 { KeptVisit(vs[..|vs| - 1], gone, i); }
  }

  lemma {:induction false} KeptPage(ps: seq<PageRow>, gone: set<nat>, i: nat)
    requires i < |ps| && ps[i].id !in gone
    ensures ps[i] in KeepPages(ps, gone)
  {
    if i < |ps| - 1 { KeptPage(ps[..|ps| - 1], gone, i); }
  }

  lemma PurgeBelow(c: DayStarts, w: World, before: int, visits: set<nat>, pages: set<nat>, floor: int)
    requires var full := Replay(w.history);
      && w.tables == Tables(KeepVisits(full.visits, w.goneVisits), KeepPages(full.pages, w.gonePages))
      && GoneBelow(full, w.goneVisits, w.gonePages, floor) && AllOwned(full)
    requires Purgeable(w, before, visits, pages) && before <= floor
    ensures GoneBelow(Replay(w.history), w.goneVisits + visits, w.gonePages + pages, floor)
  {
    var full := Replay(w.history);
    forall i | 0 <= i < |full.visits| && full.visits[i].id in w.goneVisits + visits
      ensures full.visits[i].lastAt < floor
    {
      if full.visits[i].id !in w.goneVisits { KeptVisit(full.visits, w.goneVisits, i); }
    }
    forall i | 0 <= i < |full.pages| && full.pages[i].id in w.gonePages + pages
      ensures full.pages[i].ts < floor
    {
      if full.pages[i].id !in w.gonePages {
        KeptPage(full.pages, w.gonePages, i);
        assert full.pages[i].id == i && Owned(full.pages[i], full.visits);
        var m :| 0 <= m < |full.visits| && RowOf(full.pages[i], full.visits[m]);
        if full.visits[m].id !in w.goneVisits { KeptVisit(full.visits, w.goneVisits, m); }
      }
    }
  }

  lemma PurgeRowsOk(cfg: Config, w: World, before: int, visits: set<nat>, pages: set<nat>)
    requires Sane(cfg) && HistoryOk(cfg, w) && RowsOk(cfg, w)
    requires 0 < cfg.retention && before <= w.now - cfg.retention && Purgeable(w, before, visits, pages)
    ensures RowsOk(cfg, PurgeStep(w, visits, pages))
  {
    hide GoneBelow, Advancing, Replay, KeepVisits, KeepPages, Rising, Apart, Dated, AllOwned, Orderly;
    ReplaySound(cfg.days, w.history, w.now);
    PurgeBelow(cfg.days, w, before, visits, pages, w.now - cfg.retention);
    KeepVisitsTwice(Replay(w.history).visits, w.goneVisits, visits);
    KeepPagesTwice(Replay(w.history).pages, w.gonePages, pages);
  }

  // ----- rows returned by a breakdown -----

  lemma {:induction false} GatherEmpty(sel: Selector, vs: seq<Visit>, pages: seq<PageRow>)
    ensures var g := Gather(sel, vs, pages); 0 <= g.sums.visits && g.sums.visitors == 0 && (g.sums.visits == 0 ==>
      g == NOTHING)
  {
    hide Member, Weight, Join;
    if vs != [] {
      GatherEmpty(sel, vs[..|vs| - 1], pages);
      JoinEmpty(Gather(sel, vs[..|vs| - 1], pages), One(sel, Last(vs), pages));
    }
  }

  lemma JoinEmpty(a: Part, b: Part)
    requires 0 <= a.sums.visits && a.sums.visitors == 0 && (a.sums.visits == 0 ==> a == NOTHING)
    requires 0 <= b.sums.visits && b.sums.visitors == 0 && (b.sums.visits == 0 ==> b == NOTHING)
    ensures var j := Join(a, b); 0 <= j.sums.visits && j.sums.visitors == 0 && (j.sums.visits == 0 ==> j == NOTHING)
  {
    hide Join;
    JoinSums(a, b);
    JoinNothing(NOTHING);
  }

  lemma JoinSums(a: Part, b: Part)
    ensures Join(a, b).sums == Add(a.sums, b.sums)
  {
  }

  lemma {:induction false} HasMember(sel: Selector, vs: seq<Visit>, pages: seq<PageRow>) returns (v: Visit)
    requires Gather(sel, vs, pages).sums.visits > 0
    ensures v in vs && Member(sel, v, pages)
  {
    hide Member, Weight;
    v := Last(vs);
    if !Member(sel, v, pages) { v := HasMember(sel, vs[..|vs| - 1], pages); }
  }

  lemma {:induction false} HasHit(sel: Selector, v: Visit, pages: seq<PageRow>) returns (p: PageRow)
    requires Hits(sel, v, pages) > 0
    ensures p in pages && Hit(sel, v, p)
  {
    hide Hit;
    p := Last(pages);
    if !Hit(sel, v, p) { p := HasHit(sel, v, pages[..|pages| - 1]); }
  }

  /** A value no visit has is absent and counts zero; a counted value occurs in the table. */
  lemma CountedValueOccurs(sel: Selector, t: Tables)
    ensures Tally(sel, t).visits == 0 ==> Tally(sel, t) == ZERO
    ensures 0 <= Tally(sel, t).visits
    ensures Tally(sel, t).visits > 0 ==> sel.value in Values(t, sel.dim)
  {
    GatherEmpty(sel, t.visits, t.pages);
    if Tally(sel, t).visits > 0 {
      var v := HasMember(sel, t.visits, t.pages);
      if sel.dim.Page? {
        var p := HasHit(sel, v, t.pages);
      }
    }
  }

  /** The grouped rows say exactly what each value counts. */
  lemma RawRowsExact(t: Tables, sel: Selector)
    ensures At(RawRows(t, sel.site, sel.dim, sel.from, sel.to, sel.filters), sel.value) == Tally(sel, t)
  {
    hide Tally, Values;
    CountedValueOccurs(sel, t);
  }

  lemma DayRowsExact(c: DayStarts, t: Tables, site: SiteId, day: int, dim: Dimension, x: string)
    requires dim in Dimensions()
    ensures Lookup(DayRows(c, t, site, day), DailyKey(site, day, dim, x)) == Tally(DaySelector(c, site, day, dim, x), t)
  {
    hide Tally, Values, Dimensions;
    CountedValueOccurs(DaySelector(c, site, day, dim, x), t);
    if x in Values(t, dim) { assert DailyKey(site, day, dim, x) in DayKeys(t, site, day); }
  }

  lemma EmptyTally(sel: Selector, h: seq<Pageview>)
    ensures Tally(sel, Shown(h, Sight(0, {}, {}))) == ZERO
  {
    assert h[..0] == [];
  }

  // ----- the aggregates under each step -----

  lemma CollectDaily(cfg: Config, w: World, p: Pageview)
    requires DailyOk(cfg, w)
    ensures DailyOk(cfg, CollectStep(w, p))
  {
    hide Tally, Replay, Dimensions, Remaining;
    var u := CollectStep(w, p);
    forall s, d ensures Seen(u, s, d) <= |u.history| && DayKept(cfg.days, u, s, d) {
      assert Seen(w, s, d) <= |w.history| && DayKept(cfg.days, w, s, d);
      assert u.history[..Seen(w, s, d)] == w.history[..Seen(w, s, d)];
    }
  }

  /** While a day is whole, the raw rows still say of it what the full history says. */
  lemma WholeDayExact(cfg: Config, w: World, sel: Selector)
    requires Sane(cfg) && HistoryOk(cfg, w) && RowsOk(cfg, w)
    requires cfg.retention <= 0 || w.now - cfg.retention <= sel.from
    ensures Tally(sel, w.tables) == Tally(sel, Replay(w.history))
  {
    hide Record, Rising, Apart, Dated, AllOwned, Advancing, KeepVisits, KeepPages, Replay, Tally, Orderly;
    var full := Replay(w.history);
    ReplaySound(cfg.days, w.history, w.now);
    SoundIsJoined(cfg.days, full, |w.history|, w.now);
    if cfg.retention <= 0 {
      TallyKept(cfg.days, sel, full, {}, {}, sel.from);
    } else {
      TallyKept(cfg.days, sel, full, w.goneVisits, w.gonePages, w.now - cfg.retention);
    }
  }

  lemma RefreshDaily(cfg: Config, w: World, site: SiteId, day: int)
    requires RowsOk(cfg, w) && DailyOk(cfg, w)
    ensures DailyOk(cfg, RefreshStep(cfg.days, w, site, day))
  {
    hide RowsOk, Tally, Replay, Dimensions, DayRows, Remaining;
    var u := RefreshStep(cfg.days, w, site, day);
    var rows := DayRows(cfg.days, w.tables, site, day);
    DayRowsKeys(cfg.days, w.tables, site, day);
    ShownNow(cfg, w);
    forall s, d ensures Seen(u, s, d) <= |u.history| && DayKept(cfg.days, u, s, d) {
      assert Seen(w, s, d) <= |w.history| && DayKept(cfg.days, w, s, d);
      if s == site && d == day {
        forall dim, x | dim in Dimensions()
          ensures Lookup(u.daily, DailyKey(s, d, dim, x)) == Tally(DaySelector(cfg.days, s, d, dim, x), w.tables)
        {
          DayRowsExact(cfg.days, w.tables, site, day, dim, x);
        }
      } else {
        forall dim, x | dim in Dimensions()
          ensures Lookup(u.daily, DailyKey(s, d, dim, x)) == Lookup(w.daily, DailyKey(s, d, dim, x))
        {
          assert DailyKey(s, d, dim, x) !in rows;
        }
      }
    }
  }

  /** A refresh has the stored tables before it. */
  lemma ShownNow(cfg: Config, w: World)
    requires RowsOk(cfg, w)
    ensures Shown(w.history, Sight(|w.history|, w.goneVisits, w.gonePages)) == w.tables
  {
    hide Replay, KeepVisits, KeepPages, GoneBelow;
    assert w.history[..|w.history|] == w.history;
  }

  lemma DayRowsKeys(c: DayStarts, t: Tables, site: SiteId, day: int)
    ensures forall k :: k in DayRows(c, t, site, day) ==> k.site == site && k.day == day
    ensures DailyKey(site, day, Total, "") in DayRows(c, t, site, day)
  {
    hide Tally, Values, Dimensions;
  }

  lemma PurgeDailyOk(cfg: Config, w: World, before: int)
    requires DailyOk(cfg, w)
    ensures DailyOk(cfg, PurgeDailyStep(w, before))
  {
    hide Tally, Dimensions;
    var u := PurgeDailyStep(w, before);
    forall s, d ensures Seen(u, s, d) <= |u.history| && DayKept(cfg.days, u, s, d) {
      assert Seen(w, s, d) <= |w.history| && DayKept(cfg.days, w, s, d);
      if d < before {
        forall dim, x | dim in Dimensions()
          ensures Lookup(u.daily, DailyKey(s, d, dim, x))
                == Tally(DaySelector(cfg.days, s, d, dim, x), Shown(u.history, Sight(0, {}, {})))
        {
          EmptyTally(DaySelector(cfg.days, s, d, dim, x), u.history);
        }
      }
    }
  }

  lemma TickOk(cfg: Config, w: World, now: int)
    requires Inv(cfg, w) && w.now <= now
    ensures Inv(cfg, w.(now := now))
  {
    hide Tally, Replay, Dimensions, KeepVisits, KeepPages;
    var u := w.(now := now);
    forall s, d ensures Seen(u, s, d) <= |u.history| && DayKept(cfg.days, u, s, d) {
      assert Seen(w, s, d) <= |w.history| && DayKept(cfg.days, w, s, d);
    }
  }

  lemma CollectHistory(cfg: Config, w: World, e: Event)
    requires Sane(cfg) && HistoryOk(cfg, w) && e.Collect?
    ensures HistoryOk(cfg, CollectStep(w, Beacon(cfg, w.now, e)))
  {
    hide Record, Advancing;
  }

  /** Every step keeps the invariant. */
  lemma StepKeeps(cfg: Config, w: World, e: Event)
    requires Sane(cfg) && Inv(cfg, w) && Enabled(cfg, w, e)
    ensures Inv(cfg, Next(cfg, w, e))
  {
    hide HistoryOk, RowsOk, DailyOk, Purgeable, CollectStep, PurgeStep, RefreshStep, PurgeDailyStep, Beacon;
    match e
    case Tick(now) => TickOk(cfg, w, now);
    case Collect(_, _, _, _, _) =>
      CollectKeeps(cfg, w, e);
    case PurgeRows(before, visits, pages) => PurgeKeeps(cfg, w, before, visits, pages);
    case Refresh(site, day) => RefreshKeeps(cfg, w, site, day);
    case PurgeDaily(before) => PurgeDailyKeeps(cfg, w, before);
  }

  lemma CollectKeeps(cfg: Config, w: World, e: Event)
    requires Sane(cfg) && Inv(cfg, w) && e.Collect?
    ensures Inv(cfg, CollectStep(w, Beacon(cfg, w.now, e)))
  {
    hide HistoryOk, RowsOk, DailyOk, CollectStep;
    CollectHistory(cfg, w, e);
    CollectRows(cfg, w, Beacon(cfg, w.now, e));
    CollectDaily(cfg, w, Beacon(cfg, w.now, e));
  }

  lemma PurgeKeeps(cfg: Config, w: World, before: int, visits: set<nat>, pages: set<nat>)
    requires Sane(cfg) && Inv(cfg, w)
    requires 0 < cfg.retention && before <= w.now - cfg.retention && Purgeable(w, before, visits, pages)
    ensures Inv(cfg, PurgeStep(w, visits, pages))
  {
    hide Tally, Replay, Dimensions, KeepVisits, KeepPages, RowsOk, Purgeable, Orderly;
    PurgeRowsOk(cfg, w, before, visits, pages);
    var u := PurgeStep(w, visits, pages);
    forall s, d ensures Seen(u, s, d) <= |u.history| && DayKept(cfg.days, u, s, d) {
      assert Seen(w, s, d) <= |w.history| && DayKept(cfg.days, w, s, d);
    }
  }

  lemma RefreshKeeps(cfg: Config, w: World, site: SiteId, day: int)
    requires Inv(cfg, w)
    ensures Inv(cfg, RefreshStep(cfg.days, w, site, day))
  {
    hide Replay, DailyOk, DayRows, WithoutDay, KeepVisits, KeepPages, GoneBelow, Orderly;
    RefreshDaily(cfg, w, site, day);
  }

  lemma PurgeDailyKeeps(cfg: Config, w: World, before: int)
    requires Inv(cfg, w)
    ensures Inv(cfg, PurgeDailyStep(w, before))
  {
    hide Replay, DailyOk, KeepVisits, KeepPages, GoneBelow, Orderly;
    PurgeDailyOk(cfg, w, before);
  }

  // ----- days that are whole, and days that are closed -----

  /** No row of the day, nor the visit of one, has been purged. */
  ghost predicate IntactNow(w: World, site: SiteId, d: int) {
    Intact(Replay(w.history), w.goneVisits, w.gonePages, site, d)
  }

  /** What the retention has not reached is stored. */
  lemma WholeIsIntact(cfg: Config, w: World, site: SiteId, d: int)
    requires Inv(cfg, w) && Whole(cfg, w.now, site, d)
    ensures IntactNow(w, site, d)
  {
    hide Replay, DailyOk, KeepVisits, KeepPages, Orderly, Rising, Apart;
    var t := Replay(w.history);
    ReplaySound(cfg.days, w.history, w.now);
    forall i | 0 <= i < |t.pages| && RowOn(t.pages[i], site, d)
      ensures t.pages[i].id !in w.gonePages && t.pages[i].visitId !in w.goneVisits
    {
      assert t.pages[i].id == i && Owned(t.pages[i], t.visits);
      var m :| 0 <= m < |t.visits| && RowOf(t.pages[i], t.visits[m]);
      assert InOneDay(cfg.days, t.visits[m]);
    }
  }

  /** A stored visit of a closed day is left alone by every step, or purged by one. */
  lemma ClosedVisitStays(cfg: Config, w: World, e: Event, v: Visit)
    requires Sane(cfg) && Inv(cfg, w) && Enabled(cfg, w, e)
    requires v in w.tables.visits && cfg.days(v.site, v.hash.day + 1) <= w.now
    ensures v in Next(cfg, w, e).tables.visits || (e.PurgeRows? && v.id in e.visits && v.lastAt < w.now - cfg.retention)
  {
    hide Replay, DailyOk, GoneBelow, Orderly, Advancing, RefreshStep, KeepVisits, KeepPages, Record, Beacon;
    match e
    case Collect(_, _, _, _, _) => ClosedIsNotContinued(cfg, w, e, v);
    case PurgeRows(before, visits, pages) =>
      var i :| 0 <= i < |w.tables.visits| && w.tables.visits[i] == v;
      if v.id !in visits { KeptVisit(w.tables.visits, visits, i); }
    case Refresh(site, day) => RefreshedTables(cfg.days, w, site, day);
    case _ =>
  }

  lemma RefreshedTables(c: DayStarts, w: World, site: SiteId, day: int)
    ensures RefreshStep(c, w, site, day).tables == w.tables
  {
  }

  lemma ClosedIsNotContinued(cfg: Config, w: World, e: Event, v: Visit)
    requires Sane(cfg) && Inv(cfg, w) && e.Collect?
    requires v in w.tables.visits && cfg.days(v.site, v.hash.day + 1) <= w.now
    ensures v in CollectStep(w, Beacon(cfg, w.now, e)).tables.visits
  {
    hide Advancing, Record, Replay, DailyOk, GoneBelow, Orderly, KeepVisits, KeepPages, Apart, Dated, AllOwned, Rising;
    var p := Beacon(cfg, w.now, e);
    DayBefore(cfg.days, v.site, w.now, v.hash.day + 1);
    ReplaySound(cfg.days, w.history, w.now);
    KeepRising(Replay(w.history).visits, w.goneVisits);
    var i :| 0 <= i < |w.tables.visits| && w.tables.visits[i] == v;
    var k, row := RecordCases(w.tables, |w.history|, p);
    assert k != i;
    assert CollectStep(w, p).tables.visits[i] == v;
  }

  // ----- whole runs -----

  ghost predicate Legal(cfg: Config, w: World, es: seq<Event>)
    requires Advancing(cfg.days)
    decreases es
  {
    es == [] || (Enabled(cfg, w, es[0]) && Legal(cfg, Next(cfg, w, es[0]), es[1..]))
  }

  function Run(cfg: Config, w: World, es: seq<Event>): World
    requires Advancing(cfg.days)
    decreases es
  {
    if es == [] then w else Run(cfg, Next(cfg, w, es[0]), es[1..])
  }

  lemma {:induction false} RunKeeps(cfg: Config, w: World, es: seq<Event>)
    requires Sane(cfg) && Inv(cfg, w) && Legal(cfg, w, es)
    ensures Inv(cfg, Run(cfg, w, es))
    decreases es
  {
    hide Inv, Next, Enabled;
    if es != [] {
      StepKeeps(cfg, w, es[0]);
      RunKeeps(cfg, Next(cfg, w, es[0]), es[1..]);
    }
  }

  /** The invariant holds after every legal run from the empty database. */
  lemma Reachable(cfg: Config, now: int, es: seq<Event>)
    requires Sane(cfg) && Legal(cfg, Start(now), es)
    ensures Inv(cfg, Run(cfg, Start(now), es))
  {
    StartOk(cfg, now);
    RunKeeps(cfg, Start(now), es);
  }

  lemma StartOk(cfg: Config, now: int)
    ensures Inv(cfg, Start(now))
  {
    hide Tally, Dimensions;
    forall dim, s, d, x ensures Tally(DaySelector(cfg.days, s, d, dim, x), Shown([], Sight(0, {}, {}))) == ZERO {
      EmptyTally(DaySelector(cfg.days, s, d, dim, x), []);
    }
  }
}
