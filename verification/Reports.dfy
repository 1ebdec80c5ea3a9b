/**
 A report reads aggregates for the days before the raw boundary and raw rows for the
 rest (internal/analytics/application/query.go). This module relates that fast form to
 one scan over the whole, never purged history.
 */
module Reports {
  import opened Arithmetic
  import opened Calendar
  import opened Wrappers
  import opened Visits
  import opened Tallies
  import opened Losses
  import opened Aggregates

  datatype Range = Range(from: int, to: int)

  /** The least day from which on no purge can have touched a row; None without retention. */
  function RawFrom(cfg: Config, now: int, site: SiteId): Option<int>
    requires Advancing(cfg.days)
  {
    if cfg.retention <= 0 then None else Some(DayOf(cfg.days, site, now - cfg.retention) + 1)
  }

  /** The aggregated part and the raw part of a range; either may be missing. */
  function Split(r: Range, rawFrom: Option<int>): (parts: (Option<Range>, Option<Range>)) {
    match rawFrom
    case None => (None, Some(r))
    case Some(b) =>
      if b <= r.from then (None, Some(r))
      else if r.to < b then (Some(r), None)
      else (Some(Range(r.from, b - 1)), Some(Range(b, r.to)))
  }

  /** SELECT SUM(...) FROM analytics_daily over the days of [from, to], for one value. */
  function AggSum(daily: Daily, site: SiteId, dim: Dimension, x: string, from: int, to: int): Counts
    decreases (to - from)
  {
    if to < from then ZERO
    else Add(AggSum(daily, site, dim, x, from, to - 1), Lookup(daily, DailyKey(site, to, dim, x)))
  }

  function Over(c: DayStarts, site: SiteId, dim: Dimension, x: string, r: Range, filters: seq<Filter>): Selector {
    Selector(site, dim, x, c(site, r.from), c(site, r.to + 1), filters)
  }

  /** The counts a report gives a value: its aggregate part plus its raw part. */
  function Reported(
      cfg: Config, w: World, site: SiteId, dim: Dimension, x: string, r: Range,
      filters: seq<Filter>): Counts
    requires Advancing(cfg.days)
  {
    var parts := Split(r, RawFrom(cfg, w.now, site));
    Add(
      if parts.0.Some? then AggSum(w.daily, site, dim, x, parts.0.value.from, parts.0.value.to) else ZERO,
      if parts.1.Some? then Tally(Over(cfg.days, site, dim, x, parts.1.value, filters), w.tables) else ZERO)
  }

  /** The same value in one scan over everything ever recorded. */
  function Scanned(
      cfg: Config, w: World, site: SiteId, dim: Dimension, x: string, r: Range,
      filters: seq<Filter>): Counts {
    Tally(Over(cfg.days, site, dim, x, r, filters), Replay(w.history))
  }

  /** No pageview of the day came after its aggregate was last refreshed. */
  ghost predicate Settled(w: World, site: SiteId, day: int) {
    forall i :: Seen(w, site, day) <= i < |w.history| ==> !On(w.history[i], site, day)
  }

  /** That refresh found every row of the day, and its visit, still stored. */
  ghost predicate Found(w: World, site: SiteId, day: int) {
    var s := SightOf(w, site, day);
    s.upto <= |w.history| ==> Intact(Replay(w.history[..s.upto]), s.goneVisits, s.gonePages, site, day)
  }

  ghost predicate Fresh(w: World, site: SiteId, day: int) {
    Settled(w, site, day) && Found(w, site, day)
  }

  // ----- a single day -----

  lemma {:induction false} QuietSuffix(
      c: DayStarts, h: seq<Pageview>, k: nat, site: SiteId, d: int, dim: Dimension, x: string)
    requires Advancing(c) && Orderly(c, h) && k <= |h|
    requires forall i :: k <= i < |h| ==> !On(h[i], site, d)
    ensures Tally(DaySelector(c, site, d, dim, x), Replay(h)) == Tally(DaySelector(c, site, d, dim, x), Replay(h[..k]))
  {
    hide Advancing, Hashed, Tally, DaySelector, Record;
    if k == |h| {
      assert h[..k] == h;
    } else {
      var n := |h| - 1;
      QuietSuffix(c, h[..n], k, site, d, dim, x);
      assert h[..n][..k] == h[..k];
      ReplaySound(c, h[..n], h[n].ts);
      UndisturbedStep(c, site, d, dim, x, Replay(h[..n]), n, h[n]);
    }
  }

  lemma UndisturbedStep(c: DayStarts, site: SiteId, d: int, dim: Dimension, x: string, t: Tables, n: nat, p: Pageview)
    requires Advancing(c) && Sound(c, t, n, p.ts) && Hashed(c, p) && !On(p, site, d)
    ensures var sel := DaySelector(c, site, d, dim, x); Tally(sel, Record(t, n, p)) == Tally(sel, t)
  {
    hide Advancing, Sound, Hashed, On, Tally, Record;
    DayUndisturbed(c, DaySelector(c, site, d, dim, x), d, t, n, p);
  }

  /** CountOn of a prefix never exceeds the whole, and equals it exactly when the rest is quiet. */
  lemma {:induction false} CountOnPrefix(h: seq<Pageview>, k: nat, site: SiteId, d: int)
    requires k <= |h|
    ensures CountOn(h[..k], site, d) <= CountOn(h, site, d)
    ensures CountOn(h[..k], site, d) == CountOn(h, site, d) <==> forall i :: k <= i < |h| ==> !On(h[i], site, d)
  {
    hide On;
    if k == |h| {
      assert h[..k] == h;
    } else {
      var n := |h| - 1;
      CountOnPrefix(h[..n], k, site, d);
      assert h[..n][..k] == h[..k];
      assert forall i :: k <= i < n ==> h[..n][i] == h[i];
      if forall i :: k <= i < n ==> !On(h[i], site, d) {
        assert forall i :: k <= i < |h[..n]| ==> !On(h[..n][i], site, d);
      }
    }
  }

  /** A fresh day's aggregate says of every breakdown what the whole history says. */
  lemma FreshDayExact(cfg: Config, w: World, site: SiteId, d: int, dim: Dimension, x: string)
    requires Sane(cfg) && Inv(cfg, w) && Fresh(w, site, d) && dim in Dimensions()
    ensures Lookup(w.daily, DailyKey(site, d, dim, x))
          == Tally(DaySelector(cfg.days, site, d, dim, x), Replay(w.history))
  {
    hide Tally, Replay, RowsOk, Advancing, Dimensions, Intact, Hashed;
    var s := SightOf(w, site, d);
    assert Seen(w, site, d) <= |w.history| && DayKept(cfg.days, w, site, d);
    QuietSuffix(cfg.days, w.history, s.upto, site, d, dim, x);
    var sel := DaySelector(cfg.days, site, d, dim, x);
    TallyIntact(cfg.days, w.history[..s.upto], w.now, s.goneVisits, s.gonePages, sel, d);
  }

  lemma RecordPages(t: Tables, n: nat, p: Pageview)
    ensures var u := Record(t, n, p); |u.pages| == |t.pages| + 1 && u.pages[..|t.pages|] == t.pages
  {
  }

  lemma {:induction false} ReplayPages(h: seq<Pageview>, k: nat)
    requires k <= |h|
    ensures |Replay(h).pages| == |h| && Replay(h[..k]).pages == Replay(h).pages[..k]
  {
    hide Record;
    var n := |h| - 1;
    if h != [] {
      ReplayPages(h[..n], Min(k, n));
      RecordPages(Replay(h[..n]), n, h[n]);
    }
    if k == |h| {
      assert h[..k] == h;
    } else {
      assert h[..n][..k] == h[..k];
    }
  }

  lemma {:induction false} RowIsPageview(h: seq<Pageview>, i: nat)
    requires i < |h|
    ensures i < |Replay(h).pages| && Replay(h).pages[i].hash == h[i].hash && Replay(h).pages[i].path == h[i].path
  {
    ReplayPages(h, |h| - 1);
    if i < |h| - 1 { RowIsPageview(h[..|h| - 1], i); }
  }

  /**
   Fresh or not, no page is stored with more pageviews than were recorded; one of a day that is not
   fresh with fewer.
   */
  lemma StoredPages(cfg: Config, w: World, site: SiteId, d: int, path: string)
    requires Sane(cfg) && Inv(cfg, w)
    ensures var stored := Lookup(w.daily, DailyKey(site, d, Page, path)).pageviews;
      var recorded := Tally(DaySelector(cfg.days, site, d, Page, path), Replay(w.history)).pageviews;
      stored <= recorded && (Missing(w, site, d, path) ==> stored < recorded)
  {
    hide Tally, RowsOk, Advancing, Hashed, Replay, KeepVisits, KeepPages, Rows, RowOn;
    var s := SightOf(w, site, d);
    assert Seen(w, site, d) <= |w.history| && DayKept(cfg.days, w, site, d);
    assert Dimensions()[1] == Page;
    var ps := Replay(w.history).pages;
    PageCount(cfg.days, w.history[..s.upto], w.now, s.goneVisits, s.gonePages, site, d, path);
    PageCount(cfg.days, w.history, w.now, {}, {}, site, d, path);
    NothingGone(Replay(w.history));
    ReplayPages(w.history, s.upto);
    FewerRows(ps, s.upto, s.goneVisits, s.gonePages, site, d, path);
  }

  lemma {:induction false} KeepAll(vs: seq<Visit>)
    ensures KeepVisits(vs, {}) == vs
  {
    if vs != [] {
      KeepAll(vs[..|vs| - 1]);
      assert vs == vs[..|vs| - 1] + [Last(vs)];
    }
  }

  lemma {:induction false} KeepAllPages(ps: seq<PageRow>)
    ensures KeepPages(ps, {}) == ps
  {
    if ps != [] {
      KeepAllPages(ps[..|ps| - 1]);
      assert ps == ps[..|ps| - 1] + [Last(ps)];
    }
  }

  lemma NothingGone(t: Tables)
    ensures Remaining(t, {}, {}) == t
  {
    KeepAll(t.visits);
    KeepAllPages(t.pages);
  }

  /** Some pageview of the path on the day came after the refresh, or its row or visit was gone by then. */
  ghost predicate Missing(w: World, site: SiteId, d: int, path: string) {
    var s, ps := SightOf(w, site, d), Replay(w.history).pages;
    exists i :: 0 <= i < |ps| && RowOn(ps[i], site, d) && ps[i].path == path
      && (s.upto <= i || ps[i].id in s.gonePages || ps[i].visitId in s.goneVisits)
  }

  /** A day that is not fresh misses a pageview of some path. */
  lemma StaleIsMissing(cfg: Config, w: World, site: SiteId, d: int) returns (path: string)
    requires Inv(cfg, w) && !Fresh(w, site, d)
    ensures Missing(w, site, d, path)
  {
    hide RowsOk, Replay, HistoryOk;
    var s, ps := SightOf(w, site, d), Replay(w.history).pages;
    assert Seen(w, site, d) <= |w.history| && DayKept(cfg.days, w, site, d);
    ReplayPages(w.history, s.upto);
    if !Settled(w, site, d) {
      var i :| s.upto <= i < |w.history| && On(w.history[i], site, d);
      RowIsPageview(w.history, i);
      path := ps[i].path;
      assert RowOn(ps[i], site, d) && s.upto <= i;
    } else {
      var qs := Replay(w.history[..s.upto]).pages;
      var i :| 0 <= i < |qs| && RowOn(qs[i], site, d) && (qs[i].id in s.gonePages || qs[i].visitId in s.goneVisits);
      assert ps[i] == qs[i];
      path := ps[i].path;
    }
  }

  /** The day's stored total never exceeds the recorded pageviews, and falls short when one came after the refresh. */
  lemma StoredTotal(cfg: Config, w: World, site: SiteId, d: int)
    requires Sane(cfg) && Inv(cfg, w)
    ensures var stored := Lookup(w.daily, DailyKey(site, d, Total, "")).pageviews;
      && stored <= CountOn(w.history, site, d)
      && (!Settled(w, site, d) ==> stored < CountOn(w.history, site, d))
  {
    hide Replay, RowsOk, Advancing, On, KeepVisits, KeepPages, Gather;
    var s := SightOf(w, site, d);
    var sel, t := DaySelector(cfg.days, site, d, Total, ""), Replay(w.history[..s.upto]);
    assert Seen(w, site, d) <= |w.history| && DayKept(cfg.days, w, site, d);
    assert Dimensions()[0] == Total;
    assert Orderly(cfg.days, w.history[..s.upto]);
    TotalCountsPageviews(cfg.days, w.history[..s.upto], site, d);
    TotalShrinks(sel, t.visits, t.pages, s.goneVisits, s.gonePages);
    CountOnPrefix(w.history, s.upto, site, d);
  }

  // ----- a range of days -----

  lemma {:induction false} EmptyGather(sel: Selector, vs: seq<Visit>, pages: seq<PageRow>)
    requires sel.to <= sel.from
    ensures Gather(sel, vs, pages) == NOTHING
  {
    hide VisitPasses, PagePasses, Join;
    if vs != [] {
      EmptyGather(sel, vs[..|vs| - 1], pages);
      NoHits(sel, Last(vs), pages);
      JoinNothing(NOTHING);
    }
  }

  lemma {:induction false} DaysAddUp(cfg: Config, w: World, site: SiteId, dim: Dimension, x: string, from: int, to: int)
    requires Sane(cfg) && Inv(cfg, w) && dim in Dimensions() && from <= to + 1
    requires forall d :: from <= d <= to ==> Fresh(w, site, d)
    ensures AggSum(w.daily, site, dim, x, from, to) == Scanned(cfg, w, site, dim, x, Range(from, to), [])
    decreases (to - from)
  {
    hide Tally, Replay, Inv, Fresh, Dimensions, Advancing, Scanned, DaySelector, Lookup;
    if to < from {
      EmptyScan(cfg, w, site, dim, x, from);
    } else {
      DaysAddUp(cfg, w, site, dim, x, from, to - 1);
      FreshDayExact(cfg, w, site, to, dim, x);
      DayScan(cfg, w, site, dim, x, to);
      ScanSplits(cfg, w, site, dim, x, Range(from, to), to, []);
    }
  }

  lemma DayScan(cfg: Config, w: World, site: SiteId, dim: Dimension, x: string, d: int)
    ensures Scanned(cfg, w, site, dim, x, Range(d, d), [])
          == Tally(DaySelector(cfg.days, site, d, dim, x), Replay(w.history))
  {
    hide Tally, Replay;
  }

  lemma EmptyScan(cfg: Config, w: World, site: SiteId, dim: Dimension, x: string, from: int)
    ensures Scanned(cfg, w, site, dim, x, Range(from, from - 1), []) == ZERO
  {
    hide Replay;
    var t := Replay(w.history);
    EmptyGather(Over(cfg.days, site, dim, x, Range(from, from - 1), []), t.visits, t.pages);
  }

  /** A scan of a range is the sum of the scans of its two parts, for every day it is cut at. */
  lemma ScanSplits(
      cfg: Config, w: World, site: SiteId, dim: Dimension, x: string, r: Range, d: int,
      filters: seq<Filter>)
    requires Sane(cfg) && Inv(cfg, w) && r.from <= d <= r.to + 1
    ensures Scanned(cfg, w, site, dim, x, r, filters)
      == Add(Scanned(cfg, w, site, dim, x, Range(r.from, d - 1), filters),
             Scanned(cfg, w, site, dim, x, Range(d, r.to), filters))
  {
    hide Tally, Replay, RowsOk, DailyOk, Orderly, Sound, Joined;
    var c := cfg.days;
    ReplaySound(c, w.history, w.now);
    SoundIsJoined(c, Replay(w.history), |w.history|, w.now);
    assert c(site, r.from) <= c(site, d) by { assert r.from < d || r.from == d; }
    assert c(site, d) <= c(site, r.to + 1) by { assert d < r.to + 1 || d == r.to + 1; }
    TallySplits(c, Over(c, site, dim, x, r, filters), d, Replay(w.history));
  }

  /**
   Aggregated totals never exceed the recorded pageviews, and reach them only when none came after a
   day's refresh.
   */
  lemma {:induction false} TotalsAddUp(cfg: Config, w: World, site: SiteId, from: int, to: int)
    requires Sane(cfg) && Inv(cfg, w) && from <= to + 1
    ensures var stored := AggSum(w.daily, site, Total, "", from, to).pageviews;
      var recorded := Scanned(cfg, w, site, Total, "", Range(from, to), []).pageviews;
      && stored <= recorded
      && (stored == recorded ==> forall d :: from <= d <= to ==> Settled(w, site, d))
      && ((forall d :: from <= d <= to ==> Fresh(w, site, d)) ==> stored == recorded)
    decreases (to - from)
  {
    hide Replay, Inv, Settled, Found, Advancing, Tally, Scanned, Lookup, CountOn;
    if to < from {
      EmptyScan(cfg, w, site, Total, "", from);
    } else {
      TotalsAddUp(cfg, w, site, from, to - 1);
      StoredTotal(cfg, w, site, to);
      DayTotal(cfg, w, site, to);
      ScanSplits(cfg, w, site, Total, "", Range(from, to), to, []);
      if Fresh(w, site, to) {
        assert Dimensions()[0] == Total;
        FreshDayExact(cfg, w, site, to, Total, "");
        DayScan(cfg, w, site, Total, "", to);
      }
    }
  }

  /** Page by page, aggregates never exceed the recorded pageviews, and fall short for a path some day is missing. */
  lemma {:induction false} PagesAddUp(cfg: Config, w: World, site: SiteId, path: string, from: int, to: int)
    requires Sane(cfg) && Inv(cfg, w) && from <= to + 1
    ensures var stored := AggSum(w.daily, site, Page, path, from, to).pageviews;
      var recorded := Scanned(cfg, w, site, Page, path, Range(from, to), []).pageviews;
      stored <= recorded && ((exists d :: from <= d <= to && Missing(w, site, d, path)) ==> stored < recorded)
    decreases (to - from)
  {
    hide Replay, Inv, Missing, Advancing, Tally, Scanned, Lookup, DaySelector;
    if to < from {
      EmptyScan(cfg, w, site, Page, path, from);
    } else {
      PagesAddUp(cfg, w, site, path, from, to - 1);
      StoredPages(cfg, w, site, to, path);
      DayScan(cfg, w, site, Page, path, to);
      ScanSplits(cfg, w, site, Page, path, Range(from, to), to, []);
    }
  }

  lemma DayTotal(cfg: Config, w: World, site: SiteId, d: int)
    requires Sane(cfg) && Inv(cfg, w)
    ensures Scanned(cfg, w, site, Total, "", Range(d, d), []).pageviews == CountOn(w.history, site, d)
  {
    hide Replay, RowsOk, DailyOk, Advancing, Orderly, Tally, Scanned;
    DayScan(cfg, w, site, Total, "", d);
    TotalCountsPageviews(cfg.days, w.history, site, d);
  }

  // ----- the report -----

  lemma BoundaryIsWhole(cfg: Config, now: int, site: SiteId, d: int)
    requires Advancing(cfg.days)
    ensures Whole(cfg, now, site, d) <==> (RawFrom(cfg, now, site).None? || RawFrom(cfg, now, site).value <= d)
  {
    if 0 < cfg.retention { DayBefore(cfg.days, site, now - cfg.retention, d); }
  }

  /** The raw part of a report equals the scan, filters and all. */
  lemma RawPartExact(cfg: Config, w: World, site: SiteId, dim: Dimension, x: string, r: Range, filters: seq<Filter>)
    requires Sane(cfg) && Inv(cfg, w) && Whole(cfg, w.now, site, r.from)
    ensures Tally(Over(cfg.days, site, dim, x, r, filters), w.tables) == Scanned(cfg, w, site, dim, x, r, filters)
  {
    hide Tally, Replay, RowsOk, DailyOk, HistoryOk;
    WholeDayExact(cfg, w, Over(cfg.days, site, dim, x, r, filters));
  }

  predicate InPart(part: Option<Range>, d: int) {
    part.Some? && part.value.from <= d <= part.value.to
  }

  /** A day of a range is read from aggregates exactly when it is not whole, else from raw rows. */
  lemma DaysAreReadFrom(cfg: Config, now: int, site: SiteId, r: Range, d: int)
    requires Advancing(cfg.days)
    ensures var parts := Split(r, RawFrom(cfg, now, site));
      && (InPart(parts.0, d) <==> r.from <= d <= r.to && !Whole(cfg, now, site, d))
      && (InPart(parts.1, d) <==> r.from <= d <= r.to && Whole(cfg, now, site, d))
  {
    hide Advancing, RawFrom, Whole;
    BoundaryIsWhole(cfg, now, site, d);
  }

  ghost predicate AllWhole(cfg: Config, now: int, site: SiteId, r: Range) {
    forall d :: r.from <= d <= r.to ==> Whole(cfg, now, site, d)
  }

  /** Aggregates are read exactly when some day is not whole; then the first day is not. */
  lemma ReadsAggregatesIff(cfg: Config, now: int, site: SiteId, r: Range)
    requires Advancing(cfg.days) && r.from <= r.to
    ensures Split(r, RawFrom(cfg, now, site)).0.Some? <==> !AllWhole(cfg, now, site, r)
    ensures AllWhole(cfg, now, site, r) <==> Whole(cfg, now, site, r.from)
  {
    hide Advancing, RawFrom, Whole;
    var b := RawFrom(cfg, now, site);
    forall d ensures Whole(cfg, now, site, d) <==> (b.None? || b.value <= d) {
      BoundaryIsWhole(cfg, now, site, d);
    }
    assert Whole(cfg, now, site, r.from) <==> (b.None? || b.value <= r.from);
  }

  /** The day's count in a report: from the raw rows while the day is whole, else from its aggregate. */
  function DayShare(
      cfg: Config, w: World, site: SiteId, dim: Dimension, x: string, d: int, filters: seq<Filter>): Counts
  {
    if Whole(cfg, w.now, site, d) then Tally(DaySelector(cfg.days, site, d, dim, x).(filters := filters), w.tables)
    else Lookup(w.daily, DailyKey(site, d, dim, x))
  }

  /** A report day by day. */
  function ByDay(
      cfg: Config, w: World, site: SiteId, dim: Dimension, x: string, from: int, end: int, filters: seq<Filter>): Counts
    decreases end - from
  {
    if end < from then ZERO
    else Add(ByDay(cfg, w, site, dim, x, from, end - 1, filters), DayShare(cfg, w, site, dim, x, end, filters))
  }

  lemma OneDayReport(cfg: Config, w: World, site: SiteId, dim: Dimension, x: string, d: int, filters: seq<Filter>)
    requires Advancing(cfg.days)
    ensures Reported(cfg, w, site, dim, x, Range(d, d), filters) == DayShare(cfg, w, site, dim, x, d, filters)
  {
    hide Tally, Advancing, RawFrom, Whole, Lookup, Add;
    BoundaryIsWhole(cfg, w.now, site, d);
    AddNothing(DayShare(cfg, w, site, dim, x, d, filters));
    AggSumOne(w.daily, site, dim, x, d);
  }

  lemma AggSumOne(daily: Daily, site: SiteId, dim: Dimension, x: string, d: int)
    ensures AggSum(daily, site, dim, x, d, d) == Lookup(daily, DailyKey(site, d, dim, x))
  {
    hide Lookup;
    assert AggSum(daily, site, dim, x, d, d - 1) == ZERO;
  }

  /** A report is the sum of its days, each read from where it is whole, stale aggregates or not. */
  lemma {:induction false} ReportedByDay(
      cfg: Config, w: World, site: SiteId, dim: Dimension, x: string, r: Range, filters: seq<Filter>)
    requires Sane(cfg) && Inv(cfg, w) && r.from <= r.to
    ensures Reported(cfg, w, site, dim, x, r, filters) == ByDay(cfg, w, site, dim, x, r.from, r.to, filters)
    decreases r.to - r.from
  {
    hide Inv, Advancing, Reported, DayShare, Add;
    OneDayReport(cfg, w, site, dim, x, r.to, filters);
    if r.from < r.to {
      ReportedByDay(cfg, w, site, dim, x, Range(r.from, r.to - 1), filters);
      ReportedSplits(cfg, w, site, dim, x, r, r.to, filters);
    } else {
      AddNothing(DayShare(cfg, w, site, dim, x, r.to, filters));
      assert ByDay(cfg, w, site, dim, x, r.from, r.to - 1, filters) == ZERO;
    }
  }

  /**
   The fast form agrees with one scan over the full history: for every reachable
   state, dimension, value and range, when each day is whole, or fresh and unfiltered.
   */
  lemma ReportExact(
      cfg: Config, w: World, site: SiteId, dim: Dimension, x: string, r: Range,
      filters: seq<Filter>)
    requires Sane(cfg) && Inv(cfg, w) && r.from <= r.to && dim in Dimensions()
    requires forall d :: r.from <= d <= r.to ==> Whole(cfg, w.now, site, d) || (filters == [] && Fresh(w, site, d))
    ensures Reported(cfg, w, site, dim, x, r, filters) == Scanned(cfg, w, site, dim, x, r, filters)
  {
    hide Tally, Replay, Inv, Fresh, Dimensions, Advancing, RawFrom, AggSum, Over, Scanned, Whole;
    var parts := Split(r, RawFrom(cfg, w.now, site));
    forall d ensures InPart(parts.0, d) <==> r.from <= d <= r.to && !Whole(cfg, w.now, site, d) {
      DaysAreReadFrom(cfg, w.now, site, r, d);
    }
    if parts.1.Some? {
      BoundaryIsWhole(cfg, w.now, site, parts.1.value.from);
      RawPartExact(cfg, w, site, dim, x, parts.1.value, filters);
    }
    if parts.0.Some? {
      assert !Whole(cfg, w.now, site, parts.0.value.from);
      DaysAddUp(cfg, w, site, dim, x, parts.0.value.from, parts.0.value.to);
      if parts.1.Some? { ScanSplits(cfg, w, site, dim, x, r, parts.1.value.from, filters); }
    }
  }

  /** Days that are all whole need no aggregates: the report is exact under any filters, whatever the job did. */
  lemma WholeReportExact(
      cfg: Config, w: World, site: SiteId, dim: Dimension, x: string, r: Range, filters: seq<Filter>)
    requires Sane(cfg) && Inv(cfg, w) && r.from <= r.to && dim in Dimensions()
    requires forall d :: r.from <= d <= r.to ==> Whole(cfg, w.now, site, d)
    ensures Reported(cfg, w, site, dim, x, r, filters) == Scanned(cfg, w, site, dim, x, r, filters)
  {
    hide Inv, Fresh, Dimensions, Advancing, Reported, Scanned, Whole;
    ReportExact(cfg, w, site, dim, x, r, filters);
  }

  /** Sums of aggregates are cut at any day, right or not. */
  lemma {:induction false} AggSumSplits(
      daily: Daily, site: SiteId, dim: Dimension, x: string, from: int, d: int, to: int)
    requires from <= d <= to + 1
    ensures AggSum(daily, site, dim, x, from, to)
      == Add(AggSum(daily, site, dim, x, from, d - 1), AggSum(daily, site, dim, x, d, to))
    decreases (to - d)
  {
    hide Lookup;
    if d <= to { AggSumSplits(daily, site, dim, x, from, d, to - 1); }
  }

  function AggShare(w: World, site: SiteId, dim: Dimension, x: string, part: Option<Range>): Counts {
    if part.Some? then AggSum(w.daily, site, dim, x, part.value.from, part.value.to) else ZERO
  }

  function RawShare(
      cfg: Config, w: World, site: SiteId, dim: Dimension, x: string, part: Option<Range>,
      filters: seq<Filter>): Counts {
    if part.Some? then Tally(Over(cfg.days, site, dim, x, part.value, filters), w.tables) else ZERO
  }

  lemma AggShareSplits(w: World, site: SiteId, dim: Dimension, x: string, r: Range, d: int, b: Option<int>)
    requires r.from < d <= r.to
    ensures AggShare(w, site, dim, x, Split(r, b).0)
      == Add(AggShare(w, site, dim, x, Split(Range(r.from, d - 1), b).0),
             AggShare(w, site, dim, x, Split(Range(d, r.to), b).0))
  {
    hide AggSum, Add;
    var agg := Split(r, b).0;
    AddNothing(AggShare(w, site, dim, x, agg));
    if agg.Some? && d <= agg.value.to { AggSumSplits(w.daily, site, dim, x, r.from, d, agg.value.to); }
  }

  lemma RawShareSplits(
      cfg: Config, w: World, site: SiteId, dim: Dimension, x: string, r: Range, d: int,
      filters: seq<Filter>)
    requires Sane(cfg) && Inv(cfg, w) && r.from < d <= r.to
    ensures var b := RawFrom(cfg, w.now, site);
      RawShare(cfg, w, site, dim, x, Split(r, b).1, filters)
      == Add(RawShare(cfg, w, site, dim, x, Split(Range(r.from, d - 1), b).1, filters),
             RawShare(cfg, w, site, dim, x, Split(Range(d, r.to), b).1, filters))
  {
    hide Tally, Inv, Advancing, RawFrom, Over, Add;
    var raw := Split(r, RawFrom(cfg, w.now, site)).1;
    AddNothing(RawShare(cfg, w, site, dim, x, raw, filters));
    if raw.Some? && raw.value.from < d { RawSplits(cfg, w, site, dim, x, raw.value, d, filters); }
  }

  /**
   A report is the sum of the reports of its two parts, whatever day it is cut at and
   however stale the aggregates: for every dimension, value and filter.
   */
  lemma ReportedSplits(
      cfg: Config, w: World, site: SiteId, dim: Dimension, x: string, r: Range, d: int,
      filters: seq<Filter>)
    requires Sane(cfg) && Inv(cfg, w) && r.from < d <= r.to
    ensures Reported(cfg, w, site, dim, x, r, filters)
      == Add(Reported(cfg, w, site, dim, x, Range(r.from, d - 1), filters),
             Reported(cfg, w, site, dim, x, Range(d, r.to), filters))
  {
    hide Inv, Advancing, RawFrom, AggSum, Tally, Over, Split, Add;
    var b := RawFrom(cfg, w.now, site);
    var left, right := Split(Range(r.from, d - 1), b), Split(Range(d, r.to), b);
    AggShareSplits(w, site, dim, x, r, d, b);
    RawShareSplits(cfg, w, site, dim, x, r, d, filters);
    AddShuffles(AggShare(w, site, dim, x, left.0), AggShare(w, site, dim, x, right.0),
                RawShare(cfg, w, site, dim, x, left.1, filters), RawShare(cfg, w, site, dim, x, right.1, filters));
  }

  lemma AddNothing(a: Counts)
    ensures Add(a, ZERO) == a == Add(ZERO, a)
  {
  }

  lemma AddShuffles(a: Counts, b: Counts, c: Counts, d: Counts)
    ensures Add(Add(a, b), Add(c, d)) == Add(Add(a, c), Add(b, d))
  {
  }

  lemma RawSplits(
      cfg: Config, w: World, site: SiteId, dim: Dimension, x: string, r: Range, d: int,
      filters: seq<Filter>)
    requires Sane(cfg) && Inv(cfg, w) && r.from < d <= r.to
    requires RawFrom(cfg, w.now, site).None? || RawFrom(cfg, w.now, site).value <= r.from
    ensures Tally(Over(cfg.days, site, dim, x, r, filters), w.tables)
      == Add(Tally(Over(cfg.days, site, dim, x, Range(r.from, d - 1), filters), w.tables),
             Tally(Over(cfg.days, site, dim, x, Range(d, r.to), filters), w.tables))
  {
    hide Tally, Inv, Advancing, RawFrom, Over, Scanned, Whole;
    BoundaryIsWhole(cfg, w.now, site, r.from);
    BoundaryIsWhole(cfg, w.now, site, d);
    RawPartExact(cfg, w, site, dim, x, r, filters);
    RawPartExact(cfg, w, site, dim, x, Range(r.from, d - 1), filters);
    RawPartExact(cfg, w, site, dim, x, Range(d, r.to), filters);
    ScanSplits(cfg, w, site, dim, x, r, d, filters);
  }

  /** What a report misses is what its aggregates miss. */
  lemma ReportedRest(cfg: Config, w: World, site: SiteId, dim: Dimension, x: string, r: Range)
    requires Sane(cfg) && Inv(cfg, w) && r.from <= r.to
    requires Split(r, RawFrom(cfg, w.now, site)).0.Some?
    ensures var agg := Split(r, RawFrom(cfg, w.now, site)).0.value;
      Scanned(cfg, w, site, dim, x, r, []).pageviews - Reported(cfg, w, site, dim, x, r, []).pageviews
      == Scanned(cfg, w, site, dim, x, agg, []).pageviews - AggSum(w.daily, site, dim, x, agg.from, agg.to).pageviews
  {
    hide Tally, Replay, Inv, Advancing, RawFrom, AggSum, Over, Scanned, Whole;
    var parts := Split(r, RawFrom(cfg, w.now, site));
    if parts.1.Some? {
      BoundaryIsWhole(cfg, w.now, site, parts.1.value.from);
      RawPartExact(cfg, w, site, dim, x, parts.1.value, []);
      ScanSplits(cfg, w, site, dim, x, r, parts.1.value.from, []);
    }
  }

  /** A report misses the pageviews of a path that a day of it that is not whole misses. */
  lemma MissingShows(cfg: Config, w: World, site: SiteId, r: Range, d: int, path: string)
    requires Sane(cfg) && Inv(cfg, w) && r.from <= d <= r.to && Missing(w, site, d, path)
    requires !Whole(cfg, w.now, site, d)
    ensures Reported(cfg, w, site, Page, path, r, []).pageviews < Scanned(cfg, w, site, Page, path, r, []).pageviews
  {
    hide Inv, Missing, Advancing, RawFrom, Reported, Scanned, AggSum, Whole;
    DaysAreReadFrom(cfg, w.now, site, r, d);
    var agg := Split(r, RawFrom(cfg, w.now, site)).0;
    PagesAddUp(cfg, w, site, path, agg.value.from, agg.value.to);
    ReportedRest(cfg, w, site, Page, path, r);
  }

  /** Every unfiltered breakdown of a range is right exactly when each of its days is whole or fresh. */
  lemma ReportExactIff(cfg: Config, w: World, site: SiteId, r: Range)
    requires Sane(cfg) && Inv(cfg, w) && r.from <= r.to
    ensures (forall dim, x :: dim in Dimensions() ==>
        Reported(cfg, w, site, dim, x, r, []) == Scanned(cfg, w, site, dim, x, r, []))
      <==> (forall d :: r.from <= d <= r.to ==> Whole(cfg, w.now, site, d) || Fresh(w, site, d))
  {
    hide Inv, Fresh, Advancing, Reported, Scanned, Missing, Whole;
    if forall d :: r.from <= d <= r.to ==> Whole(cfg, w.now, site, d) || Fresh(w, site, d) {
      forall dim, x | dim in Dimensions()
        ensures Reported(cfg, w, site, dim, x, r, []) == Scanned(cfg, w, site, dim, x, r, [])
      {
        ReportExact(cfg, w, site, dim, x, r, []);
      }
    } else {
      var d :| r.from <= d <= r.to && !Whole(cfg, w.now, site, d) && !Fresh(w, site, d);
      var path := StaleIsMissing(cfg, w, site, d);
      MissingShows(cfg, w, site, r, d, path);
      assert Dimensions()[1] == Page;
    }
  }
}
