/**
 The aggregate job over whole runs (internal/analytics/application/rollup.go): a run of the
 job is a series of day refreshes, with anything interleaved, and which reports are right is
 decided by what happened in the run.
 */
module AggregateRuns {
  import opened Calendar
  import opened Visits
  import opened Tallies
  import opened Losses
  import opened Aggregates
  import opened Reports
  import opened Rollup

  // ----- the job as events -----

  /** The refreshes a run of the job decides on for the days from `d` to today. */
  function DayEvents(site: SiteId, d: int, today: int, done: set<int>): seq<Event>
    decreases today - d
  {
    if today < d then []
    else (if Skipped(done, d, today) then [] else [Refresh(site, d)]) + DayEvents(site, d + 1, today, done)
  }

  function JobEvents(cfg: Config, w: World, site: SiteId): seq<Event>
    requires Advancing(cfg.days)
  {
    var first := FirstVisit(w.tables.visits, site);
    if first.None? then []
    else
      var today := DayOf(cfg.days, site, w.now);
      var from := FirstDay(cfg, w.now, site, first.value);
      DayEvents(site, from, today, AggregatedDays(w.daily, site, from, today))
  }

  lemma {:induction false} DaysAreLegal(cfg: Config, w: World, site: SiteId, d: int, today: int, done: set<int>)
    requires Advancing(cfg.days)
    ensures Legal(cfg, w, DayEvents(site, d, today, done))
    ensures Aggregates.Run(cfg, w, DayEvents(site, d, today, done)) == RollDays(cfg.days, w, site, d, today, done)
    decreases today - d
  {
    hide Skipped, Advancing, RefreshStep;
    if d <= today {
      var rest := DayEvents(site, d + 1, today, done);
      if Skipped(done, d, today) {
        assert [] + rest == rest;
        DaysAreLegal(cfg, w, site, d + 1, today, done);
      } else {
        DaysAreLegal(cfg, RefreshStep(cfg.days, w, site, d), site, d + 1, today, done);
        assert ([Refresh(site, d)] + rest)[1..] == rest;
      }
    }
  }

  /** The job is a legal series of refreshes. */
  lemma RollupIsLegal(cfg: Config, w: World, site: SiteId)
    requires Advancing(cfg.days)
    ensures Legal(cfg, w, JobEvents(cfg, w, site))
    ensures Aggregates.Run(cfg, w, JobEvents(cfg, w, site)) == RollupSite(cfg, w, site)
  {
    hide Advancing, DayEvents, RollDays, FirstDay, AggregatedDays;
    var first := FirstVisit(w.tables.visits, site);
    if first.Some? {
      var today, from := DayOf(cfg.days, site, w.now), FirstDay(cfg, w.now, site, first.value);
      DaysAreLegal(cfg, w, site, from, today, AggregatedDays(w.daily, site, from, today));
    }
  }

  lemma {:induction false} EventsOfDays(site: SiteId, d: int, today: int, done: set<int>, e: int)
    requires d <= e <= today && !Skipped(done, e, today)
    ensures Refresh(site, e) in DayEvents(site, d, today, done)
    decreases today - d
  {
    if d < e { EventsOfDays(site, d + 1, today, done, e); }
  }

  // ----- runs, cut at any point -----

  lemma {:induction false} RunSplits(cfg: Config, w: World, es: seq<Event>, k: nat)
    requires Advancing(cfg.days) && k <= |es|
    ensures Aggregates.Run(cfg, w, es) == Aggregates.Run(cfg, Aggregates.Run(cfg, w, es[..k]), es[k..])
    ensures Legal(cfg, w, es) <==> Legal(cfg, w, es[..k]) && Legal(cfg, Aggregates.Run(cfg, w, es[..k]), es[k..])
    decreases k
  {
    hide Next, Enabled, Advancing;
    if k == 0 {
      assert es[..0] == [] && es[0..] == es;
    } else {
      var u := Next(cfg, w, es[0]);
      RunSplits(cfg, u, es[1..], k - 1);
      assert es[..k][1..] == es[1..][..k - 1] && es[1..][k - 1..] == es[k..];
    }
  }

  lemma RunLast(cfg: Config, w: World, es: seq<Event>)
    requires Advancing(cfg.days) && es != [] && Legal(cfg, w, es)
    ensures var n := |es| - 1;
      var u := Aggregates.Run(cfg, w, es[..n]);
      Legal(cfg, w, es[..n]) && Enabled(cfg, u, es[n]) && Aggregates.Run(cfg, w, es) == Next(cfg, u, es[n])
  {
    hide Next, Enabled, Advancing;
    var n := |es| - 1;
    RunSplits(cfg, w, es, n);
    assert es[n..] == [es[n]] && [es[n]][1..] == [];
  }

  lemma RunSnoc(cfg: Config, w: World, es: seq<Event>, e: Event)
    requires Advancing(cfg.days) && Legal(cfg, w, es) && Enabled(cfg, Aggregates.Run(cfg, w, es), e)
    ensures Legal(cfg, w, es + [e]) && Aggregates.Run(cfg, w, es + [e]) == Next(cfg, Aggregates.Run(cfg, w, es), e)
  {
    hide Advancing, Next, Enabled;
    var all := es + [e];
    RunSplits(cfg, w, all, |es|);
    assert all[..|es|] == es && all[|es|..] == [e] && [e][1..] == [];
  }

  // ----- which days a run leaves right -----

  /** The i-th event records a pageview of that day of the site. */
  ghost predicate Views(cfg: Config, w: World, es: seq<Event>, i: int, site: SiteId, d: int)
    requires Advancing(cfg.days)
  {
    && 0 <= i < |es| && es[i].Collect? && es[i].site == site
    && DayOf(cfg.days, site, Aggregates.Run(cfg, w, es[..i]).now) == d
  }

  /** No later event refreshes the day again or lets its aggregate expire. */
  ghost predicate Lasts(es: seq<Event>, k: int, site: SiteId, d: int) {
    forall j :: 0 <= j < |es| && k < j ==> es[j] != Refresh(site, d) && (es[j].PurgeDaily? ==> es[j].before <= d)
  }

  /**
   After the i-th event the day is refreshed for the last time, finds every row of the day stored,
   and does not expire.
   */
  ghost predicate Rebuilt(cfg: Config, w: World, es: seq<Event>, i: int, site: SiteId, d: int)
    requires Advancing(cfg.days)
  {
    exists k :: 0 <= k < |es| && i < k && es[k] == Refresh(site, d) && Lasts(es, k, site, d)
      && IntactNow(Aggregates.Run(cfg, w, es[..k]), site, d)
  }

  /** Every pageview of the day is followed by such a refresh. */
  ghost predicate CaughtUp(cfg: Config, w: World, es: seq<Event>, site: SiteId, d: int)
    requires Advancing(cfg.days)
  {
    forall i :: Views(cfg, w, es, i, site, d) ==> Rebuilt(cfg, w, es, i, site, d)
  }

  ghost predicate Visited(w: World, site: SiteId, d: int) {
    exists j :: 0 <= j < |w.history| && On(w.history[j], site, d)
  }

  /** What one event does to a day's history and to what its aggregate has seen. */
  lemma StepTells(cfg: Config, w: World, e: Event, site: SiteId, d: int)
    requires Advancing(cfg.days)
    ensures var u := Next(cfg, w, e);
      && (e.Collect? ==>
            && |u.history| == |w.history| + 1 && u.history[..|w.history|] == w.history
            && (On(u.history[|w.history|], site, d) <==> e.site == site && DayOf(cfg.days, site, w.now) == d))
      && (!e.Collect? ==> u.history == w.history)
      && SightOf(u, site, d) ==
           if e == Refresh(site, d) then Sight(|w.history|, w.goneVisits, w.gonePages)
           else if e.PurgeDaily? && d < e.before then Sight(0, {}, {})
           else SightOf(w, site, d)
  {
    hide Record, DayRows, WithoutDay, KeepVisits, KeepPages, Advancing;
  }

  lemma ViewsPrefix(cfg: Config, w: World, es: seq<Event>, i: int, site: SiteId, d: int)
    requires Advancing(cfg.days) && es != []
    ensures var n := |es| - 1;
      && (i < n ==> (Views(cfg, w, es, i, site, d) <==> Views(cfg, w, es[..n], i, site, d)))
      && (i == n ==> (Views(cfg, w, es, i, site, d) <==>
            es[n].Collect? && es[n].site == site && DayOf(cfg.days, site, Aggregates.Run(cfg, w, es[..n]).now) == d))
      && (Views(cfg, w, es, i, site, d) ==> i <= n) && (Views(cfg, w, es[..n], i, site, d) ==> i < n)
  {
    hide Aggregates.Run, Advancing;
    var n := |es| - 1;
    if 0 <= i <= n { assert es[..n][..i] == es[..i]; }
  }

  lemma RebuiltPrefix(cfg: Config, w: World, es: seq<Event>, i: int, site: SiteId, d: int)
    requires Advancing(cfg.days) && es != [] && i < |es| - 1
    ensures var n := |es| - 1;
      Rebuilt(cfg, w, es, i, site, d) <==>
        if es[n] == Refresh(site, d) then 0 <= n && IntactNow(Aggregates.Run(cfg, w, es[..n]), site, d)
        else !(es[n].PurgeDaily? && d < es[n].before) && Rebuilt(cfg, w, es[..n], i, site, d)
  {
    hide Advancing, Aggregates.Run, IntactNow;
    var n := |es| - 1;
    var init := es[..n];
    if es[n] == Refresh(site, d) {
      assert Lasts(es, n, site, d);
    } else {
      assert forall k :: 0 <= k < n ==> es[..k] == init[..k];
      assert forall k :: 0 <= k < n && !(es[n].PurgeDaily? && d < es[n].before) ==>
          (Lasts(es, k, site, d) <==> Lasts(init, k, site, d)) by {
        forall k | 0 <= k < n && !(es[n].PurgeDaily? && d < es[n].before)
          ensures Lasts(es, k, site, d) <==> Lasts(init, k, site, d)
        {
          LastsPrefix(es, k, site, d);
        }
      }
    }
  }

  lemma LastsPrefix(es: seq<Event>, k: nat, site: SiteId, d: int)
    requires k < |es| - 1 && es[|es| - 1] != Refresh(site, d)
    requires !(es[|es| - 1].PurgeDaily? && d < es[|es| - 1].before)
    ensures Lasts(es, k, site, d) <==> Lasts(es[..|es| - 1], k, site, d)
  {
    var init := es[..|es| - 1];
    assert forall j :: 0 <= j < |init| ==> init[j] == es[j];
  }

  /** The history has a pageview of the day exactly when some event recorded one. */
  lemma {:induction false} VisitedIff(cfg: Config, now: int, es: seq<Event>, site: SiteId, d: int)
    requires Advancing(cfg.days) && Legal(cfg, Start(now), es)
    ensures Visited(Aggregates.Run(cfg, Start(now), es), site, d) <==>
      exists i :: Views(cfg, Start(now), es, i, site, d)
  {
    hide Advancing, Aggregates.Run, Legal, Next, Enabled, Views, On;
    if es == [] {
      assert !Visited(Aggregates.Run(cfg, Start(now), es), site, d) by { NothingHappened(cfg, Start(now)); }
      forall i ensures !Views(cfg, Start(now), es, i, site, d) { NoViews(cfg, Start(now), i, site, d); }
    } else {
      var n := |es| - 1;
      var w := Aggregates.Run(cfg, Start(now), es[..n]);
      RunLast(cfg, Start(now), es);
      VisitedIff(cfg, now, es[..n], site, d);
      StepTells(cfg, w, es[n], site, d);
      VisitedStep(w.history, Next(cfg, w, es[n]).history, site, d);
      forall i ensures Views(cfg, Start(now), es, i, site, d) ==>
        Views(cfg, Start(now), es[..n], i, site, d) || (i == n && Views(cfg, Start(now), es, n, site, d))
      {
        ViewsPrefix(cfg, Start(now), es, i, site, d);
      }
      forall i ensures Views(cfg, Start(now), es[..n], i, site, d) ==> Views(cfg, Start(now), es, i, site, d) {
        ViewsPrefix(cfg, Start(now), es, i, site, d);
      }
      ViewsPrefix(cfg, Start(now), es, n, site, d);
    }
  }

  lemma NothingHappened(cfg: Config, w: World)
    requires Advancing(cfg.days)
    ensures Aggregates.Run(cfg, w, []) == w
  {
  }

  lemma NoViews(cfg: Config, w: World, i: int, site: SiteId, d: int)
    requires Advancing(cfg.days)
    ensures !Views(cfg, w, [], i, site, d)
  {
  }

  lemma VisitedStep(h: seq<Pageview>, g: seq<Pageview>, site: SiteId, d: int)
    requires h <= g && |g| <= |h| + 1
    ensures (exists j :: 0 <= j < |g| && On(g[j], site, d)) <==>
      (exists j :: 0 <= j < |h| && On(h[j], site, d)) || (|g| == |h| + 1 && On(g[|h|], site, d))
  {
    hide On;
    if j :| 0 <= j < |h| && On(h[j], site, d) { assert g[j] == h[j]; }
  }

  /**
   A day is right after a run exactly when every pageview of it is followed by the day's
   last refresh, which found every row of the day still stored and whose aggregate lasts.
   */
  lemma {:induction false} FreshIff(cfg: Config, now: int, es: seq<Event>, site: SiteId, d: int)
    requires Sane(cfg) && Legal(cfg, Start(now), es)
    ensures Fresh(Aggregates.Run(cfg, Start(now), es), site, d) <==> CaughtUp(cfg, Start(now), es, site, d)
  {
    hide Advancing, Aggregates.Run, Legal, Next, Enabled, Views, On, Rebuilt, Fresh, IntactNow, Inv;
    var start := Start(now);
    if es == [] {
      StartIsFresh(now, site, d);
      NothingHappened(cfg, start);
      forall i ensures !Views(cfg, start, es, i, site, d) { NoViews(cfg, start, i, site, d); }
    } else {
      var n := |es| - 1;
      var w := Aggregates.Run(cfg, start, es[..n]);
      RunLast(cfg, start, es);
      Aggregates.Reachable(cfg, now, es[..n]);
      FreshIff(cfg, now, es[..n], site, d);
      VisitedIff(cfg, now, es[..n], site, d);
      if !Visited(w, site, d) { UnvisitedIsFresh(cfg, w, site, d); }
      forall i ensures Views(cfg, start, es, i, site, d) <==>
        Views(cfg, start, es[..n], i, site, d) || (i == n && Views(cfg, start, es, n, site, d))
      {
        ViewsPrefix(cfg, start, es, i, site, d);
      }
      forall i | Views(cfg, start, es[..n], i, site, d)
        ensures Rebuilt(cfg, start, es, i, site, d) <==>
          if es[n] == Refresh(site, d) then IntactNow(w, site, d)
          else !(es[n].PurgeDaily? && d < es[n].before) && Rebuilt(cfg, start, es[..n], i, site, d)
      {
        ViewsPrefix(cfg, start, es, i, site, d);
        RebuiltPrefix(cfg, start, es, i, site, d);
      }
      ViewsPrefix(cfg, start, es, n, site, d);
      NotRebuilt(cfg, start, es, n, site, d);
      FreshStep(cfg, w, es[n], site, d);
    }
  }

  lemma StartIsFresh(now: int, site: SiteId, d: int)
    ensures Fresh(Start(now), site, d)
  {
  }

  lemma NotRebuilt(cfg: Config, w: World, es: seq<Event>, n: int, site: SiteId, d: int)
    requires Advancing(cfg.days) && n == |es| - 1
    ensures !Rebuilt(cfg, w, es, n, site, d)
  {
  }

  /** How one event changes whether a day is right. */
  lemma FreshStep(cfg: Config, w: World, e: Event, site: SiteId, d: int)
    requires Sane(cfg) && Inv(cfg, w)
    ensures var u := Next(cfg, w, e);
      Fresh(u, site, d) <==>
        if e == Refresh(site, d) then IntactNow(w, site, d)
        else if e.PurgeDaily? && d < e.before then !Visited(w, site, d)
        else Fresh(w, site, d) && !(e.Collect? && e.site == site && DayOf(cfg.days, site, w.now) == d)
  {
    hide Advancing, Next, On, SightOf, Replay, HistoryOk, RowsOk, DayKept, Intact;
    StepTells(cfg, w, e, site, d);
    var u, s := Next(cfg, w, e), SightOf(w, site, d);
    assert Seen(w, site, d) <= |w.history|;
    if e == Refresh(site, d) {
      assert u.history[..|w.history|] == w.history;
    } else if e.PurgeDaily? && d < e.before {
      NothingIntact(u.history, site, d);
    } else {
      assert u.history[..s.upto] == w.history[..s.upto];
      if e.Collect? {
        assert forall i :: 0 <= i < |w.history| ==> u.history[i] == u.history[..|w.history|][i] == w.history[i];
      }
    }
  }

  lemma NothingIntact(h: seq<Pageview>, site: SiteId, d: int)
    ensures Intact(Replay(h[..0]), {}, {}, site, d)
  {
    assert h[..0] == [];
  }

  // ----- reports after whole runs -----

  /**
   Right or wrong, a report over any run: exact for every breakdown exactly when each of its
   days is whole or caught up.
   */
  lemma RunReportExactIff(cfg: Config, now: int, es: seq<Event>, site: SiteId, r: Range)
    requires Sane(cfg) && Legal(cfg, Start(now), es) && r.from <= r.to
    ensures var w := Aggregates.Run(cfg, Start(now), es);
      (forall dim, x :: dim in Dimensions() ==>
        Reported(cfg, w, site, dim, x, r, []) == Scanned(cfg, w, site, dim, x, r, []))
      <==> (forall d :: r.from <= d <= r.to ==> Whole(cfg, w.now, site, d) || CaughtUp(cfg, Start(now), es, site, d))
  {
    hide Advancing, Aggregates.Run, Legal, Inv, Fresh, CaughtUp, Reported, Scanned, Whole;
    var w := Aggregates.Run(cfg, Start(now), es);
    Aggregates.Reachable(cfg, now, es);
    ReportExactIff(cfg, w, site, r);
    forall d ensures Fresh(w, site, d) <==> CaughtUp(cfg, Start(now), es, site, d) { FreshIff(cfg, now, es, site, d); }
  }

  /** From position `k` on the run carries out all that the job decides there, with anything in between. */
  ghost predicate JobRuns(cfg: Config, w: World, es: seq<Event>, k: nat, site: SiteId)
    requires Advancing(cfg.days) && k <= |es|
  {
    forall e :: e in JobEvents(cfg, Aggregates.Run(cfg, w, es[..k]), site) ==> exists j :: k <= j < |es| && es[j] == e
  }

  /** From position `k` on the day's aggregate does not expire. */
  ghost predicate Spared(es: seq<Event>, k: nat, d: int) {
    forall j :: k <= j < |es| && es[j].PurgeDaily? ==> es[j].before <= d
  }

  /** From position `k` on the day is refreshed only while the retention has not reached it. */
  ghost predicate OnTime(cfg: Config, w: World, es: seq<Event>, k: nat, site: SiteId, d: int)
    requires Advancing(cfg.days)
  {
    forall j :: k <= j < |es| && es[j] == Refresh(site, d) ==>
      Whole(cfg, Aggregates.Run(cfg, w, es[..j]).now, site, d)
  }

  /**
   The job runs at `k` on the day after `d`, or later while `d` has no aggregate and its
   raw rows are whole; it and every later one carry out a refresh of the day while its
   rows are whole; and the aggregate does not expire afterwards.
   */
  ghost predicate Seals(cfg: Config, w: World, es: seq<Event>, site: SiteId, d: int, k: nat)
    requires Advancing(cfg.days)
  {
    && k <= |es| && JobRuns(cfg, w, es, k, site) && Spared(es, k, d) && OnTime(cfg, w, es, k, site, d)
    && var u := Aggregates.Run(cfg, w, es[..k]);
      var today := DayOf(cfg.days, site, u.now);
      Whole(cfg, u.now, site, d) && (d == today - 1 || (d < today && d !in AggregatedDays(u.daily, site, d, d)))
  }

  ghost predicate Sealed(cfg: Config, w: World, es: seq<Event>, site: SiteId, d: int)
    requires Advancing(cfg.days)
  {
    exists k :: Seals(cfg, w, es, site, d, k)
  }

  /** The job carried out without interruption is such a run. */
  lemma JobInOneGo(cfg: Config, w: World, before: seq<Event>, site: SiteId, after: seq<Event>)
    requires Advancing(cfg.days)
    ensures var job := JobEvents(cfg, Aggregates.Run(cfg, w, before), site);
      JobRuns(cfg, w, before + job + after, |before|, site)
  {
    hide Advancing, Aggregates.Run, JobEvents;
    var job := JobEvents(cfg, Aggregates.Run(cfg, w, before), site);
    var es, k := before + job + after, |before|;
    assert es[..k] == before;
    forall e | e in job ensures exists j :: k <= j < |es| && es[j] == e {
      var i :| 0 <= i < |job| && job[i] == e;
      assert es[k + i] == e;
    }
  }

  lemma {:induction false} NowGrows(cfg: Config, w: World, es: seq<Event>)
    requires Advancing(cfg.days) && Legal(cfg, w, es)
    ensures w.now <= Aggregates.Run(cfg, w, es).now
    decreases es
  {
    hide Advancing, Record, DayRows, WithoutDay, KeepVisits, KeepPages, Purgeable, Whole;
    if es != [] { NowGrows(cfg, Next(cfg, w, es[0]), es[1..]); }
  }

  /** No pageview of a day is recorded once the clock has left it. */
  lemma ClosedIsQuiet(cfg: Config, w: World, es: seq<Event>, k: nat, i: int, site: SiteId, d: int)
    requires Advancing(cfg.days) && Legal(cfg, w, es) && k <= |es|
    requires d < DayOf(cfg.days, site, Aggregates.Run(cfg, w, es[..k]).now) && Views(cfg, w, es, i, site, d)
    ensures i < k
  {
    hide Advancing, Aggregates.Run, Legal;
    if k <= i {
      RunSplits(cfg, w, es, i);
      RunSplits(cfg, w, es[..i], k);
      assert es[..i][..k] == es[..k];
      NowGrows(cfg, Aggregates.Run(cfg, w, es[..k]), es[..i][k..]);
      DayMonotone(cfg.days, site, Aggregates.Run(cfg, w, es[..k]).now, Aggregates.Run(cfg, w, es[..i]).now);
    }
  }

  lemma SkipsNot(cfg: Config, w: World, site: SiteId, from: int, today: int, d: int)
    requires from <= d < today && (d == today - 1 || d !in AggregatedDays(w.daily, site, d, d))
    ensures !Skipped(AggregatedDays(w.daily, site, from, today), d, today)
  {
  }

  /** A day with pageviews is among those such a run of the job refreshes. */
  lemma JobTakesDay(cfg: Config, w: World, site: SiteId, d: int)
    requires Sane(cfg) && Inv(cfg, w) && Whole(cfg, w.now, site, d) && Visited(w, site, d)
    requires var today := DayOf(cfg.days, site, w.now);
      d == today - 1 || (d < today && d !in AggregatedDays(w.daily, site, d, d))
    ensures Refresh(site, d) in JobEvents(cfg, w, site)
  {
    hide Inv, Advancing, Whole, FirstDay, AggregatedDays, DayEvents, On;
    var today := DayOf(cfg.days, site, w.now);
    var j :| 0 <= j < |w.history| && On(w.history[j], site, d);
    SomethingCounted(w.history, site, d, j);
    BusyDayIsLookedAt(cfg, w, site, d);
    var from := FirstDay(cfg, w.now, site, FirstVisit(w.tables.visits, site).value);
    SkipsNot(cfg, w, site, from, today, d);
    EventsOfDays(site, from, today, AggregatedDays(w.daily, site, from, today), d);
  }

  lemma {:induction false} OnlyEventsOfDays(site: SiteId, d: int, today: int, done: set<int>, e: Event)
    requires e in DayEvents(site, d, today, done)
    ensures e.Refresh? && e.site == site && d <= e.day <= today && !Skipped(done, e.day, today)
    decreases today - d
  {
    hide Skipped;
    if d <= today && e in DayEvents(site, d + 1, today, done) { OnlyEventsOfDays(site, d + 1, today, done, e); }
  }

  lemma {:induction false} FirstVisitIsStored(vs: seq<Visit>, site: SiteId) returns (v: Visit)
    requires FirstVisit(vs, site).Some?
    ensures v in vs && v.site == site && v.startedAt == FirstVisit(vs, site).value
  {
    var init := vs[..|vs| - 1];
    v := Last(vs);
    if v.site != site || (FirstVisit(init, site).Some? && FirstVisit(init, site).value <= v.startedAt) {
      v := FirstVisitIsStored(init, site);
      assert v in init && init <= vs;
    }
  }

  /** The site has a stored visit that started on the day or before. */
  ghost predicate VisitedBy(cfg: Config, w: World, site: SiteId, d: int)
    requires Advancing(cfg.days)
  {
    exists v :: v in w.tables.visits && v.site == site && DayOf(cfg.days, site, v.startedAt) <= d
  }

  lemma FirstDayIs(cfg: Config, w: World, site: SiteId, d: int)
    requires Advancing(cfg.days)
    ensures var first := FirstVisit(w.tables.visits, site);
      VisitedBy(cfg, w, site, d) && Whole(cfg, w.now, site, d)
      <==> first.Some? && FirstDay(cfg, w.now, site, first.value) <= d
  {
    hide Advancing, DayOf, Whole, FirstVisit, RawFrom;
    BoundaryIsWhole(cfg, w.now, site, d);
    var vs, first := w.tables.visits, FirstVisit(w.tables.visits, site);
    if VisitedBy(cfg, w, site, d) {
      var v :| v in vs && v.site == site && DayOf(cfg.days, site, v.startedAt) <= d;
      var i :| 0 <= i < |vs| && vs[i] == v;
      FirstVisitIsLeast(vs, site, i);
      DayMonotone(cfg.days, site, first.value, v.startedAt);
    }
    if first.Some? { var v := FirstVisitIsStored(vs, site); }
  }

  /**
   Exactly which refreshes a run of the job decides on: the days from the site's earliest
   stored visit to today that are whole, save those before yesterday that have an aggregate.
   */
  lemma JobDecides(cfg: Config, w: World, site: SiteId, e: Event)
    requires Sane(cfg) && Inv(cfg, w)
    ensures var today := DayOf(cfg.days, site, w.now);
      e in JobEvents(cfg, w, site) <==>
        && e.Refresh? && e.site == site && e.day <= today && VisitedBy(cfg, w, site, e.day)
        && Whole(cfg, w.now, site, e.day) && ((site, e.day) !in w.seen || today - 1 <= e.day)
  {
    hide Inv, Advancing, Whole, FirstDay, AggregatedDays, DayEvents, VisitedBy, DayOf;
    var today, first := DayOf(cfg.days, site, w.now), FirstVisit(w.tables.visits, site);
    if e.Refresh? { FirstDayIs(cfg, w, site, e.day); }
    if first.Some? {
      var from := FirstDay(cfg, w.now, site, first.value);
      var done := AggregatedDays(w.daily, site, from, today);
      if e in JobEvents(cfg, w, site) { OnlyEventsOfDays(site, from, today, done, e); }
      if e.Refresh? && from <= e.day <= today {
        SeenDays(cfg, w, site, from, today, e.day);
        if !Skipped(done, e.day, today) { EventsOfDays(site, from, today, done, e.day); }
      }
    }
  }

  /** The last refresh of a day from some position on. */
  lemma {:induction false} LastRefresh(es: seq<Event>, site: SiteId, d: int, j: nat) returns (m: nat)
    requires j < |es| && es[j] == Refresh(site, d)
    ensures j <= m < |es| && es[m] == Refresh(site, d) && forall i :: m < i < |es| ==> es[i] != Refresh(site, d)
    decreases |es| - j
  {
    m := j;
    if i :| j < i < |es| && es[i] == Refresh(site, d) { m := LastRefresh(es, site, d, i); }
  }

  lemma JobSeals(cfg: Config, now: int, es: seq<Event>, site: SiteId, d: int, k: nat)
    requires Sane(cfg) && Legal(cfg, Start(now), es) && Seals(cfg, Start(now), es, site, d, k)
    ensures CaughtUp(cfg, Start(now), es, site, d)
  {
    hide Advancing, Aggregates.Run, Legal, Inv, Whole, AggregatedDays, JobEvents, Views, IntactNow;
    var start := Start(now);
    var w := Aggregates.Run(cfg, start, es[..k]);
    RunSplits(cfg, start, es, k);
    Aggregates.Reachable(cfg, now, es[..k]);
    forall i | Views(cfg, start, es, i, site, d) ensures Rebuilt(cfg, start, es, i, site, d) {
      ClosedIsQuiet(cfg, start, es, k, i, site, d);
      ViewedEarlier(cfg, start, es, k, i, site, d);
      VisitedIff(cfg, now, es[..k], site, d);
      JobTakesDay(cfg, w, site, d);
      var j :| k <= j < |es| && es[j] == Refresh(site, d);
      var m := LastRefresh(es, site, d, j);
      RunSplits(cfg, start, es, m);
      Aggregates.Reachable(cfg, now, es[..m]);
      WholeIsIntact(cfg, Aggregates.Run(cfg, start, es[..m]), site, d);
      assert Lasts(es, m, site, d);
    }
  }

  lemma ViewedEarlier(cfg: Config, w: World, es: seq<Event>, k: nat, i: int, site: SiteId, d: int)
    requires Advancing(cfg.days) && i < k <= |es| && Views(cfg, w, es, i, site, d)
    ensures Views(cfg, w, es[..k], i, site, d)
  {
    hide Advancing, Aggregates.Run;
    assert es[..k][..i] == es[..i];
  }

  /**
   In any run: if for each day of a report that is no longer whole the job ran on the day
   after it, or first while its raw rows were whole, the report equals the scan of the full history
   from then on, for every dimension and value.
   */
  lemma JobsMakeReportsExact(cfg: Config, now: int, es: seq<Event>, site: SiteId, r: Range)
    requires Sane(cfg) && Legal(cfg, Start(now), es) && r.from <= r.to
    requires var w := Aggregates.Run(cfg, Start(now), es);
      forall d :: r.from <= d <= r.to ==> Whole(cfg, w.now, site, d) || Sealed(cfg, Start(now), es, site, d)
    ensures var w := Aggregates.Run(cfg, Start(now), es);
      forall dim, x :: dim in Dimensions() ==>
        Reported(cfg, w, site, dim, x, r, []) == Scanned(cfg, w, site, dim, x, r, [])
  {
    hide Advancing, Aggregates.Run, Legal, CaughtUp, Seals, Reported, Scanned, Whole;
    var w := Aggregates.Run(cfg, Start(now), es);
    forall d | r.from <= d <= r.to && !Whole(cfg, w.now, site, d) ensures CaughtUp(cfg, Start(now), es, site, d) {
      assert Sealed(cfg, Start(now), es, site, d);
      var k: nat :| Seals(cfg, Start(now), es, site, d, k);
      JobSeals(cfg, now, es, site, d, k);
    }
    RunReportExactIff(cfg, now, es, site, r);
  }

  // ----- when the breakdowns of a day are read -----

  /** Once the clock has left a day, what is recorded later is not of it. */
  lemma {:induction false} LaterIsElsewhere(cfg: Config, w: World, es: seq<Event>, site: SiteId, d: int)
    requires Advancing(cfg.days) && Legal(cfg, w, es) && d < DayOf(cfg.days, site, w.now)
    ensures var u := Aggregates.Run(cfg, w, es);
      && w.history <= u.history
      && forall i :: |w.history| <= i < |u.history| ==> !On(u.history[i], site, d)
    decreases es
  {
    hide Advancing, Next, On;
    if es != [] {
      var v := Next(cfg, w, es[0]);
      StepTells(cfg, w, es[0], site, d);
      StepsOn(cfg, w, es[0]);
      DayMonotone(cfg.days, site, w.now, v.now);
      LaterIsElsewhere(cfg, v, es[1..], site, d);
    }
  }

  lemma StepsOn(cfg: Config, w: World, e: Event)
    requires Advancing(cfg.days) && Enabled(cfg, w, e)
    ensures w.now <= Next(cfg, w, e).now
  {
    hide Advancing, Purgeable;
  }

  /**
   Of a closed day the retention has not reached, every breakdown reads the same whenever it
   is read: a refresh that reads its dimensions one after another stores what one reading
   them all at once would.
   */
  lemma ReadsAgree(cfg: Config, w: World, es: seq<Event>, site: SiteId, d: int, dim: Dimension, x: string)
    requires Sane(cfg) && Inv(cfg, w) && Legal(cfg, w, es) && d < DayOf(cfg.days, site, w.now)
    requires Whole(cfg, Aggregates.Run(cfg, w, es).now, site, d)
    ensures var sel := DaySelector(cfg.days, site, d, dim, x);
      Tally(sel, Aggregates.Run(cfg, w, es).tables) == Tally(sel, w.tables)
  {
    hide Advancing, Aggregates.Run, Legal, Tally, Replay, RowsOk, DailyOk, On, Orderly;
    var u, sel := Aggregates.Run(cfg, w, es), DaySelector(cfg.days, site, d, dim, x);
    RunKeeps(cfg, w, es);
    NowGrows(cfg, w, es);
    LaterIsElsewhere(cfg, w, es, site, d);
    WholeDayExact(cfg, w, sel);
    WholeDayExact(cfg, u, sel);
    QuietSuffix(cfg.days, u.history, |w.history|, site, d, dim, x);
    assert u.history[..|w.history|] == w.history;
  }

  // ----- a decided refresh that comes too late -----

  lemma RunGrows(cfg: Config, w: World, es: seq<Event>, k: nat)
    requires Advancing(cfg.days) && k < |es| && Legal(cfg, w, es[..k])
    requires Enabled(cfg, Aggregates.Run(cfg, w, es[..k]), es[k])
    ensures Legal(cfg, w, es[..k + 1])
    ensures Aggregates.Run(cfg, w, es[..k + 1]) == Next(cfg, Aggregates.Run(cfg, w, es[..k]), es[k])
  {
    hide Advancing, Next, Enabled;
    RunSnoc(cfg, w, es[..k], es[k]);
    assert es[..k + 1] == es[..k] + [es[k]];
  }

  const VIEW := Collect("s", "/", "ip", "ua", map[])

  /** The pageview at the first instant of day 0. */
  const FIRST := Pageview("s", 0, "/", Hash(0, "s", "ip", "ua"), map[])

  /** The database with that pageview, at some time. */
  function OneView(now: int): World {
    World(Tables([Open(0, FIRST)], [PageRow(0, "s", 0, "/", FIRST.hash, 0)]), map[], now, [FIRST], {}, {}, map[])
  }

  lemma FirstRecorded()
    ensures Record(EMPTY, 0, FIRST) == OneView(0).tables
  {
  }

  lemma OneViewIs(cfg: Config)
    requires cfg.days == UtcDays() && Advancing(cfg.days)
    ensures Next(cfg, Start(0), VIEW) == OneView(0)
    ensures Replay([FIRST]) == OneView(0).tables
  {
    hide Record, OneView, Advancing, Beacon, Replay;
    FirstRecorded();
    BeaconIs(cfg);
    ReplayOne();
    OneViewParts(0);
  }

  lemma BeaconIs(cfg: Config)
    requires cfg.days == UtcDays() && Advancing(cfg.days)
    ensures Beacon(cfg, 0, VIEW) == FIRST
  {
    hide Advancing, DayOf;
    DayIs(cfg.days, "s", 0, 0);
  }

  lemma ReplayOne()
    ensures Replay([FIRST]) == Record(EMPTY, 0, FIRST)
  {
    hide Record;
    assert [FIRST][..0] == [];
  }

  lemma OneViewParts(now: int)
    ensures OneView(now) == World(OneView(0).tables, map[], now, [FIRST], {}, {}, map[])
  {
  }

  /**
   A retention of some days, and the run: a pageview; a job that decides in time; a purge; and only
   then the refresh.
   */
  function Days(n: nat): Config {
    Config(UtcDays(), n * DAY_MS)
  }

  lemma DaysAreSane(n: nat)
    requires 2 <= n
    ensures Sane(Days(n))
  {
  }

  function Late(n: nat): seq<Event> {
    [VIEW, Tick(n * DAY_MS - 1), Tick(n * DAY_MS + 1), PurgeRows(1, {0}, {0}), Refresh("s", 0)]
  }

  lemma LateStates(n: nat)
    requires 2 <= n
    ensures var cfg, es := Days(n), Late(n);
      && Sane(cfg) && Legal(cfg, Start(0), es[..4])
      && Aggregates.Run(cfg, Start(0), es[..2]) == OneView(n * DAY_MS - 1)
      && Aggregates.Run(cfg, Start(0), es[..4]) == PurgeStep(OneView(n * DAY_MS + 1), {0}, {0})
  {
    hide Aggregates.Run, Legal, KeepVisits, KeepPages, Advancing, DayOf;
    var cfg, es, w := Days(n), Late(n), Start(0);
    DaysAreSane(n);
    assert Legal(cfg, w, es[..0]) && Aggregates.Run(cfg, w, es[..0]) == w by { NothingRun(cfg, w, es); }
    OneViewIs(cfg);
    RunGrows(cfg, w, es, 0);
    RunGrows(cfg, w, es, 1);
    RunGrows(cfg, w, es, 2);
    RunGrows(cfg, w, es, 3);
  }

  lemma NothingRun(cfg: Config, w: World, es: seq<Event>)
    requires Advancing(cfg.days)
    ensures Legal(cfg, w, es[..0]) && Aggregates.Run(cfg, w, es[..0]) == w
  {
    assert es[..0] == [];
  }

  /**
   The job decides on a day while its rows are whole and carries the refresh out after
   midnight and a purge have passed: the report of the day is short.
   */
  lemma LateRefreshIsShort(n: nat)
    requires 2 <= n
    ensures var cfg, es := Days(n), Late(n);
      && Sane(cfg) && Legal(cfg, Start(0), es)
      && var decided := Aggregates.Run(cfg, Start(0), es[..2]);
        var w := Aggregates.Run(cfg, Start(0), es);
        && Whole(cfg, decided.now, "s", 0) && Refresh("s", 0) in JobEvents(cfg, decided, "s")
        && Reported(cfg, w, "s", Page, "/", Range(0, 0), []).pageviews
           < Scanned(cfg, w, "s", Page, "/", Range(0, 0), []).pageviews
  {
    hide Aggregates.Run, Legal, Inv, JobEvents, Reported;
    hide Scanned, KeepVisits, KeepPages, DayRows, WithoutDay, Advancing;
    var cfg, es := Days(n), Late(n);
    LateStates(n);
    RunGrows(cfg, Start(0), es, 4);
    assert es[..5] == es;
    var decided, w := Aggregates.Run(cfg, Start(0), es[..2]), Aggregates.Run(cfg, Start(0), es);
    assert es[..4][..2] == es[..2];
    RunSplits(cfg, Start(0), es[..4], 2);
    Aggregates.Reachable(cfg, 0, es[..2]);
    Aggregates.Reachable(cfg, 0, es);
    DayIs(cfg.days, "s", decided.now, n - 1);
    assert On(decided.history[0], "s", 0) && Visited(decided, "s", 0);
    JobTakesDay(cfg, decided, "s", 0);
    OneViewIs(cfg);
    assert w.history == [FIRST] && SightOf(w, "s", 0) == Sight(1, {0}, {0});
    assert Missing(w, "s", 0, "/") by { assert Replay(w.history).pages[0].id == 0; }
    DayIs(cfg.days, "s", w.now - cfg.retention, 0);
    MissingShows(cfg, w, "s", Range(0, 0), 0, "/");
  }

  /**
   With a retention of two days: the day after, the day is made right; then a job decides on it once
   more, too late.
   */
  function Again(): seq<Event> {
    [VIEW, Tick(DAY_MS), Refresh("s", 0),
     Tick(2 * DAY_MS - 1), Tick(2 * DAY_MS + 1), PurgeRows(1, {0}, {0}), Refresh("s", 0)]
  }

  /** Day 0 made right one day after. */
  function Right(now: int): World {
    RefreshStep(UtcDays(), OneView(DAY_MS), "s", 0).(now := now)
  }

  lemma AgainStates()
    ensures var cfg, es := Days(2), Again();
      && Sane(cfg) && Legal(cfg, Start(0), es)
      && Aggregates.Run(cfg, Start(0), es[..3]) == Right(DAY_MS)
      && Aggregates.Run(cfg, Start(0), es[..4]) == Right(2 * DAY_MS - 1)
      && Aggregates.Run(cfg, Start(0), es)
         == RefreshStep(cfg.days, PurgeStep(Right(2 * DAY_MS + 1), {0}, {0}), "s", 0)
  {
    hide Aggregates.Run, Legal, KeepVisits, KeepPages, DayRows, WithoutDay, Advancing, DayOf;
    var cfg, es, w := Days(2), Again(), Start(0);
    DaysAreSane(2);
    NothingRun(cfg, w, es);
    OneViewIs(cfg);
    RunGrows(cfg, w, es, 0);
    RunGrows(cfg, w, es, 1);
    RunGrows(cfg, w, es, 2);
    RunGrows(cfg, w, es, 3);
    RunGrows(cfg, w, es, 4);
    RunGrows(cfg, w, es, 5);
    RunGrows(cfg, w, es, 6);
    assert es[..7] == es;
  }

  /** A right aggregate is replaced by a short one: with two days of retention yesterday is never skipped. */
  lemma RightDayIsOverwritten()
    ensures var cfg, es := Days(2), Again();
      && Sane(cfg) && Legal(cfg, Start(0), es)
      && var right, decided := Aggregates.Run(cfg, Start(0), es[..3]), Aggregates.Run(cfg, Start(0), es[..4]);
        var w := Aggregates.Run(cfg, Start(0), es);
        && Closed(cfg.days, right, "s", 0) && Fresh(right, "s", 0)
        && Whole(cfg, decided.now, "s", 0) && Refresh("s", 0) in JobEvents(cfg, decided, "s")
        && Reported(cfg, w, "s", Page, "/", Range(0, 0), []).pageviews
           < Scanned(cfg, w, "s", Page, "/", Range(0, 0), []).pageviews
  {
    hide Aggregates.Run, Legal, Inv, JobEvents, Reported;
    hide Scanned, KeepVisits, KeepPages, DayRows, WithoutDay, Advancing;
    var cfg, es := Days(2), Again();
    AgainStates();
    OneViewIs(cfg);
    var right, decided := Aggregates.Run(cfg, Start(0), es[..3]), Aggregates.Run(cfg, Start(0), es[..4]);
    var w := Aggregates.Run(cfg, Start(0), es);
    RunSplits(cfg, Start(0), es, 4);
    Aggregates.Reachable(cfg, 0, es[..4]);
    Aggregates.Reachable(cfg, 0, es);
    DayIs(cfg.days, "s", decided.now, 1);
    assert On(decided.history[0], "s", 0) && Visited(decided, "s", 0);
    JobTakesDay(cfg, decided, "s", 0);
    assert right.history[..1] == [FIRST] && SightOf(right, "s", 0) == Sight(1, {}, {});
    assert w.history == [FIRST] && SightOf(w, "s", 0) == Sight(1, {0}, {0});
    assert Missing(w, "s", 0, "/") by { assert Replay(w.history).pages[0].id == 0; }
    DayIs(cfg.days, "s", w.now - cfg.retention, 0);
    MissingShows(cfg, w, "s", Range(0, 0), 0, "/");
  }
}
