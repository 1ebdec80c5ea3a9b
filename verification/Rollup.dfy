/**
 The aggregate job (internal/analytics/application/rollup.go): which days it rebuilds,
 and which days' aggregates are right afterwards and stay right.
 */
module Rollup {
  import opened Calendar
  import opened Wrappers
  import opened Visits
  import opened Tallies
  import opened Losses
  import opened Aggregates
  import opened Reports

  /** SELECT MIN(started_at) FROM visits WHERE site_id = ?. */
  function FirstVisit(vs: seq<Visit>, site: SiteId): Option<int> {
    if vs == [] then None
    else
      var rest, v := FirstVisit(vs[..|vs| - 1], site), Last(vs);
      if v.site == site && (rest.None? || v.startedAt < rest.value) then Some(v.startedAt) else rest
  }

  function AggregatedDays(daily: Daily, site: SiteId, from: int, to: int): set<int> {
    set k | k in daily && k.site == site && from <= k.day <= to :: k.day
  }

  /** A day already aggregated is left alone unless it is today or yesterday. */
  predicate Skipped(done: set<int>, d: int, today: int) {
    d in done && d < today - 1
  }

  function RollDays(c: DayStarts, w: World, site: SiteId, d: int, today: int, done: set<int>): World
    decreases today - d
  {
    if today < d then w
    else RollDays(c, if Skipped(done, d, today) then w else RefreshStep(c, w, site, d), site, d + 1, today, done)
  }

  /** The first day a run looks at: the earliest stored visit's, but never one the raw rows no longer hold whole. */
  function FirstDay(cfg: Config, now: int, site: SiteId, first: int): int
    requires Advancing(cfg.days)
  {
    var from, raw := DayOf(cfg.days, site, first), RawFrom(cfg, now, site);
    if raw.Some? && from < raw.value then raw.value else from
  }

  function RollupSite(cfg: Config, w: World, site: SiteId): World
    requires Advancing(cfg.days)
  {
    var first := FirstVisit(w.tables.visits, site);
    if first.None? then w
    else
      var today := DayOf(cfg.days, site, w.now);
      var from := FirstDay(cfg, w.now, site, first.value);
      RollDays(cfg.days, w, site, from, today, AggregatedDays(w.daily, site, from, today))
  }

  // ----- what a run of the job does -----

  /** Only aggregates change; every day looked at and not skipped has now seen the tables as they stand. */
  lemma {:induction false} RollDaysSeen(cfg: Config, w: World, site: SiteId, d: int, today: int, done: set<int>)
    requires Inv(cfg, w)
    ensures var u := RollDays(cfg.days, w, site, d, today, done);
      && Inv(cfg, u) && OnlyDaily(w, u)
      && forall s, e :: SightOf(u, s, e) ==
           if s == site && d <= e <= today && !Skipped(done, e, today)
           then Sight(|w.history|, w.goneVisits, w.gonePages)
           else SightOf(w, s, e)
    decreases today - d
  {
    hide Inv, Skipped, RefreshStep, SightOf;
    if d <= today {
      if Skipped(done, d, today) {
        RollDaysSeen(cfg, w, site, d + 1, today, done);
      } else {
        RefreshKeeps(cfg, w, site, d);
        SeenAfterRefresh(cfg.days, w, site, d);
        RollDaysSeen(cfg, RefreshStep(cfg.days, w, site, d), site, d + 1, today, done);
      }
    }
  }

  /** Nothing but aggregates differs. */
  predicate OnlyDaily(w: World, u: World) {
    && u.history == w.history && u.tables == w.tables && u.now == w.now
    && u.goneVisits == w.goneVisits && u.gonePages == w.gonePages
  }

  lemma SeenAfterRefresh(c: DayStarts, w: World, site: SiteId, d: int)
    ensures var u := RefreshStep(c, w, site, d);
      && OnlyDaily(w, u)
      && forall s, e :: SightOf(u, s, e) ==
           if s == site && e == d then Sight(|w.history|, w.goneVisits, w.gonePages) else SightOf(w, s, e)
  {
  }

  lemma {:induction false} FirstVisitIsLeast(vs: seq<Visit>, site: SiteId, i: nat)
    requires i < |vs| && vs[i].site == site
    ensures FirstVisit(vs, site).Some? && FirstVisit(vs, site).value <= vs[i].startedAt
  {
    if i < |vs| - 1 { FirstVisitIsLeast(vs[..|vs| - 1], site, i); }
  }

  lemma DoneMeansSeen(cfg: Config, w: World, site: SiteId, from: int, to: int, d: int)
    requires DailyOk(cfg, w) && from <= d <= to
    ensures d in AggregatedDays(w.daily, site, from, to) <==> (site, d) in w.seen
  {
    hide DayKept;
    if (site, d) in w.seen { assert DailyKey(site, d, Total, "") in w.daily; }
  }

  /** A whole day with a pageview has a stored visit, so the job starts no later than it. */
  lemma BusyDayIsLookedAt(cfg: Config, w: World, site: SiteId, d: int)
    requires Sane(cfg) && Inv(cfg, w) && Whole(cfg, w.now, site, d) && CountOn(w.history, site, d) > 0
    ensures FirstVisit(w.tables.visits, site).Some?
    ensures FirstDay(cfg, w.now, site, FirstVisit(w.tables.visits, site).value) <= d
  {
    hide Replay, RowsOk, DailyOk, Orderly, VisitPasses, Gather, Advancing;
    var sel := DaySelector(cfg.days, site, d, Total, "");
    TotalCountsPageviews(cfg.days, w.history, site, d);
    WholeDayExact(cfg, w, sel);
    CountedValueOccurs(sel, w.tables);
    var v := HasMember(sel, w.tables.visits, w.tables.pages);
    var i :| 0 <= i < |w.tables.visits| && w.tables.visits[i] == v;
    FirstVisitIsLeast(w.tables.visits, site, i);
    DayBefore(cfg.days, site, FirstVisit(w.tables.visits, site).value, d + 1);
    BoundaryIsWhole(cfg, w.now, site, d);
  }

  lemma {:induction false} SomethingCounted(h: seq<Pageview>, site: SiteId, d: int, i: nat)
    requires i < |h| && On(h[i], site, d)
    ensures CountOn(h, site, d) > 0
  {
    if i < |h| - 1 { SomethingCounted(h[..|h| - 1], site, d, i); }
  }

  lemma RollupKeeps(cfg: Config, w: World, site: SiteId)
    requires Sane(cfg) && Inv(cfg, w)
    ensures var u := RollupSite(cfg, w, site); Inv(cfg, u) && OnlyDaily(w, u)
  {
    hide Inv, Advancing, RollDays, AggregatedDays, RawFrom;
    var first := FirstVisit(w.tables.visits, site);
    if first.Some? {
      var today, from := DayOf(cfg.days, site, w.now), FirstDay(cfg, w.now, site, first.value);
      RollDaysSeen(cfg, w, site, from, today, AggregatedDays(w.daily, site, from, today));
    }
  }

  /**
   Exactly which closed days a run leaves right: those that were right already,
   yesterday, and those that had no aggregate. A day aggregated while it was open
   and passed over on the day after it stays as it was.
   */
  lemma RollupSealsExactly(cfg: Config, w: World, site: SiteId, d: int)
    requires Sane(cfg) && Inv(cfg, w) && Whole(cfg, w.now, site, d)
    requires d < DayOf(cfg.days, site, w.now)
    ensures Fresh(RollupSite(cfg, w, site), site, d)
      <==> Fresh(w, site, d) || d == DayOf(cfg.days, site, w.now) - 1 || (site, d) !in w.seen
  {
    hide Inv, Advancing, RollDays, AggregatedDays, Whole, FirstDay, On, Fresh;
    var today, u := DayOf(cfg.days, site, w.now), RollupSite(cfg, w, site);
    if i: nat :| i < |w.history| && On(w.history[i], site, d) {
      SomethingCounted(w.history, site, d, i);
      BusyDayIsLookedAt(cfg, w, site, d);
      var from := FirstDay(cfg, w.now, site, FirstVisit(w.tables.visits, site).value);
      var done := AggregatedDays(w.daily, site, from, today);
      RollDaysSeen(cfg, w, site, from, today, done);
      SeenDays(cfg, w, site, from, today, d);
      if Skipped(done, d, today) {
        SameFresh(w, u, site, d);
      } else {
        WholeIsIntact(cfg, w, site, d);
        SeenNowIsFresh(w, u, site, d);
      }
    } else {
      RollupKeeps(cfg, w, site);
      UnvisitedIsFresh(cfg, w, site, d);
      UnvisitedIsFresh(cfg, u, site, d);
    }
  }

  /** A day aggregated before yesterday keeps what its refresh saw. */
  lemma RollupSkips(cfg: Config, w: World, site: SiteId, d: int)
    requires Sane(cfg) && Inv(cfg, w) && Whole(cfg, w.now, site, d) && d < DayOf(cfg.days, site, w.now) - 1
    requires (site, d) in w.seen
    ensures SightOf(RollupSite(cfg, w, site), site, d) == SightOf(w, site, d)
  {
    hide Inv, Advancing, RollDays, AggregatedDays, Whole, FirstDay, On;
    var first := FirstVisit(w.tables.visits, site);
    if first.Some? {
      var today, from := DayOf(cfg.days, site, w.now), FirstDay(cfg, w.now, site, first.value);
      RollDaysSeen(cfg, w, site, from, today, AggregatedDays(w.daily, site, from, today));
      if from <= d { SeenDays(cfg, w, site, from, today, d); }
    }
  }

  lemma SameFresh(w: World, u: World, site: SiteId, d: int)
    requires OnlyDaily(w, u) && SightOf(u, site, d) == SightOf(w, site, d)
    ensures Fresh(u, site, d) <==> Fresh(w, site, d)
  {
  }

  /** A refresh just now leaves the day right exactly when the day is intact. */
  lemma SeenNowIsFresh(w: World, u: World, site: SiteId, d: int)
    requires OnlyDaily(w, u) && SightOf(u, site, d) == Sight(|w.history|, w.goneVisits, w.gonePages)
    ensures Fresh(u, site, d) <==> IntactNow(w, site, d)
  {
    hide Intact, Replay;
    assert u.history[..|w.history|] == w.history;
  }

  /** A day nobody visited is right whatever its aggregate saw. */
  lemma UnvisitedIsFresh(cfg: Config, w: World, site: SiteId, d: int)
    requires Inv(cfg, w) && forall i :: 0 <= i < |w.history| ==> !On(w.history[i], site, d)
    ensures Fresh(w, site, d) && IntactNow(w, site, d)
  {
    hide RowsOk, DailyOk, HistoryOk, Replay;
    var s := SightOf(w, site, d);
    forall i | 0 <= i < |w.history|
      ensures i < |Replay(w.history).pages| && !RowOn(Replay(w.history).pages[i], site, d)
    {
      RowIsPageview(w.history, i);
    }
    ReplayPages(w.history, |w.history|);
    if s.upto <= |w.history| { ReplayPages(w.history, s.upto); }
  }

  lemma SeenDays(cfg: Config, w: World, site: SiteId, from: int, to: int, d: int)
    requires Inv(cfg, w) && from <= d <= to
    ensures d in AggregatedDays(w.daily, site, from, to) <==> (site, d) in w.seen
  {
    hide HistoryOk, RowsOk, DailyOk, AggregatedDays;
    DoneMeansSeen(cfg, w, site, from, to, d);
  }

  // ----- a closed day stays right -----

  ghost predicate Closed(c: DayStarts, w: World, site: SiteId, d: int) {
    c(site, d + 1) <= w.now
  }

  /** In the run the day's aggregate does not expire, and a refresh of the day finds it intact. */
  ghost predicate Spares(cfg: Config, w: World, es: seq<Event>, site: SiteId, d: int)
    requires Advancing(cfg.days)
    decreases es
  {
    es == [] ||
    (&& (es[0].PurgeDaily? ==> es[0].before <= d)
     && (es[0] == Refresh(site, d) ==> IntactNow(w, site, d))
     && Spares(cfg, Next(cfg, w, es[0]), es[1..], site, d))
  }

  lemma SealedStep(cfg: Config, w: World, e: Event, site: SiteId, d: int)
    requires Sane(cfg) && Inv(cfg, w) && Enabled(cfg, w, e) && Closed(cfg.days, w, site, d) && Fresh(w, site, d)
    requires (e.PurgeDaily? ==> e.before <= d) && (e == Refresh(site, d) ==> IntactNow(w, site, d))
    ensures Closed(cfg.days, Next(cfg, w, e), site, d) && Fresh(Next(cfg, w, e), site, d)
  {
    hide Purgeable, Record, DayRows, WithoutDay, KeepVisits, KeepPages, Intact, Replay, HistoryOk, RowsOk, DayKept;
    var u, s := Next(cfg, w, e), SightOf(w, site, d);
    assert Seen(w, site, d) <= |w.history|;
    if e == Refresh(site, d) {
      SeenAfterRefresh(cfg.days, w, site, d);
      SeenNowIsFresh(w, u, site, d);
    } else {
      if e.Collect? { DayBefore(cfg.days, site, w.now, d + 1); }
      assert SightOf(u, site, d) == s && u.history[..s.upto] == w.history[..s.upto];
    }
  }

  /** Once a closed day is right, every legal run that spares it keeps it right. */
  lemma {:induction false} SealedForever(cfg: Config, w: World, es: seq<Event>, site: SiteId, d: int)
    requires Sane(cfg) && Inv(cfg, w) && Legal(cfg, w, es) && Spares(cfg, w, es, site, d)
    requires Closed(cfg.days, w, site, d) && Fresh(w, site, d)
    ensures Fresh(Aggregates.Run(cfg, w, es), site, d)
    decreases es
  {
    hide Next, Enabled, Closed, Fresh, Advancing, Inv, IntactNow;
    if es != [] {
      SealedStep(cfg, w, es[0], site, d);
      StepKeeps(cfg, w, es[0]);
      SealedForever(cfg, Next(cfg, w, es[0]), es[1..], site, d);
    }
  }

  // ----- a day that is never right -----

  const DAY_MS: int := 86_400_000

  function UtcDays(): DayStarts {
    (s: SiteId, d: int) => d * DAY_MS
  }

  /**
   A pageview, a run of the job, another pageview, and no run until the day after
   next (the server was down): day 0 is skipped, and once the raw rows have passed
   out of the retention of 30 days its report misses the second pageview.
   */
  lemma MissedDayIsReportedShort()
    ensures var cfg := Config(UtcDays(), 30 * DAY_MS);
      var view := Collect("s", "/", "ip", "ua", map[]);
      && Sane(cfg)
      && Legal(cfg, Start(0), [view, Refresh("s", 0), view, Tick(2 * DAY_MS)])
      && var w := Aggregates.Run(cfg, Start(0), [view, Refresh("s", 0), view, Tick(2 * DAY_MS)]);
        var late := RollupSite(cfg, w, "s").(now := 40 * DAY_MS);
        && Inv(cfg, late)
        && Reported(cfg, late, "s", Total, "", Range(0, 0), []).pageviews
         < Scanned(cfg, late, "s", Total, "", Range(0, 0), []).pageviews
  {
    hide Inv, Legal, Next, Enabled, RollupSite, Reported, Scanned, On;
    var w := MissedDay();
    StaleAfterRollup(Config(UtcDays(), 30 * DAY_MS), w);
  }

  /** The world after the second pageview, two days on. */
  lemma MissedDay() returns (w: World)
    ensures var cfg := Config(UtcDays(), 30 * DAY_MS);
      var view := Collect("s", "/", "ip", "ua", map[]);
      var es := [view, Refresh("s", 0), view, Tick(2 * DAY_MS)];
      && Sane(cfg) && Legal(cfg, Start(0), es) && w == Aggregates.Run(cfg, Start(0), es) && Inv(cfg, w)
      && w.now == 2 * DAY_MS && |w.history| == 2 && On(w.history[1], "s", 0)
      && ("s", 0) in w.seen && w.seen[("s", 0)].upto == 1
  {
    hide Inv, Record, DayRows, WithoutDay, Legal;
    var cfg := Config(UtcDays(), 30 * DAY_MS);
    var view := Collect("s", "/", "ip", "ua", map[]);
    DayIs(cfg.days, "s", 0, 0);
    var w1 := Next(cfg, Start(0), view);
    var w2 := Next(cfg, w1, Refresh("s", 0));
    var w3 := Next(cfg, w2, view);
    w := Next(cfg, w3, Tick(2 * DAY_MS));
    FourSteps(cfg, Start(0), view, Refresh("s", 0), view, Tick(2 * DAY_MS));
    Reachable(cfg, 0, [view, Refresh("s", 0), view, Tick(2 * DAY_MS)]);
  }

  lemma FourSteps(cfg: Config, w: World, a: Event, b: Event, c: Event, d: Event)
    requires Advancing(cfg.days) && Enabled(cfg, w, a) && Enabled(cfg, Next(cfg, w, a), b)
    requires Enabled(cfg, Next(cfg, Next(cfg, w, a), b), c)
    requires Enabled(cfg, Next(cfg, Next(cfg, Next(cfg, w, a), b), c), d)
    ensures Legal(cfg, w, [a, b, c, d])
    ensures Aggregates.Run(cfg, w, [a, b, c, d]) == Next(cfg, Next(cfg, Next(cfg, Next(cfg, w, a), b), c), d)
  {
    hide Next, Enabled, Advancing;
    assert [a, b, c, d][1..] == [b, c, d] && [b, c, d][1..] == [c, d] && [c, d][1..] == [d] && [d][1..] == [];
    var w1 := Next(cfg, w, a);
    var w2 := Next(cfg, w1, b);
    var w3 := Next(cfg, w2, c);
    assert Legal(cfg, w3, [d]) && Aggregates.Run(cfg, w3, [d]) == Next(cfg, w3, d);
    assert Legal(cfg, w2, [c, d]) && Aggregates.Run(cfg, w2, [c, d]) == Next(cfg, w3, d);
    assert Legal(cfg, w1, [b, c, d]) && Aggregates.Run(cfg, w1, [b, c, d]) == Next(cfg, w3, d);
  }

  lemma StaleAfterRollup(cfg: Config, w: World)
    requires cfg == Config(UtcDays(), 30 * DAY_MS) && Sane(cfg) && Inv(cfg, w) && w.now == 2 * DAY_MS
    requires |w.history| == 2 && On(w.history[1], "s", 0) && ("s", 0) in w.seen && w.seen[("s", 0)].upto == 1
    ensures var late := RollupSite(cfg, w, "s").(now := 40 * DAY_MS);
      && Inv(cfg, late)
      && Reported(cfg, late, "s", Total, "", Range(0, 0), []).pageviews
       < Scanned(cfg, late, "s", Total, "", Range(0, 0), []).pageviews
  {
    hide Inv, RollupSite, Reported, Scanned, AggSum;
    DayIs(cfg.days, "s", w.now, 2);
    RollupKeeps(cfg, w, "s");
    var u := RollupSite(cfg, w, "s");
    var late := u.(now := 40 * DAY_MS);
    TickOk(cfg, u, 40 * DAY_MS);
    assert !Settled(w, "s", 0) by { assert Seen(w, "s", 0) <= 1; }
    RollupSkips(cfg, w, "s", 0);
    assert !Settled(late, "s", 0) by { assert Seen(late, "s", 0) == Seen(w, "s", 0); }
    DayIs(cfg.days, "s", late.now - cfg.retention, 10);
    TotalsAddUp(cfg, late, "s", 0, 0);
    ReportedRest(cfg, late, "s", Total, "", Range(0, 0));
  }
}
