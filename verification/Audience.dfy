/**
 A day's numbers in terms of the beacons that were sent (internal/analytics/application/service.go,
 `collect` and `visitorHash`): pages count the beacons that name them, visitors the distinct
 addresses and user agents, and columns are those of the first or last beacon of a visit.
 */
module Audience {
  import opened Calendar
  import opened Visits
  import opened Tallies
  import opened Losses
  import opened Counting
  import opened Aggregates
  import opened Reports
  import opened Rollup
  import opened AggregateRuns

  // ----- visits and their pageviews -----

  lemma {:induction false} SelectHas(vs: seq<Visit>, v: Visit) returns (k: nat)
    requires v in vs
    ensures k < |Select(vs, v.hash)| && Select(vs, v.hash)[k] == v
  {
    var n := |vs| - 1;
    if vs[n] == v {
      k := |Select(vs[..n], v.hash)|;
    } else {
      k := SelectHas(vs[..n], v);
    }
  }

  /** A visit's entry and other columns are those of the first pageview of a run of its visitor, its exit the last's. */
  lemma ColumnsAreOfItsRun(c: DayStarts, h: seq<Pageview>, v: Visit) returns (r: Run)
    requires Orderly(c, h) && v in Replay(h).visits
    ensures r in Runs(Only(h, v.hash)) && v.startedAt == r[0].ts && v.lastAt == r[|r| - 1].ts && v.pageviews == |r|
    ensures Column(v, Entry) == r[0].path && Column(v, Exit) == r[|r| - 1].path
    ensures forall name :: Column(v, Attr(name)) == if name in r[0].attrs then r[0].attrs[name] else ""
    ensures Column(v, Total) == ""
  {
    hide Replay, Runs, Only, Select, Orderly;
    OnlineIsOffline(c, h, v.hash);
    var k := SelectHas(Replay(h).visits, v);
    r := Runs(Only(h, v.hash))[k];
  }

  // ----- pages -----

  /** The beacons of a run for a page on a day. */
  ghost function PageBeacons(cfg: Config, now: int, es: seq<Event>, site: SiteId, d: int, path: string): set<int>
    requires Advancing(cfg.days)
  {
    set i | 0 <= i < |es| && Views(cfg, Start(now), es, i, site, d) && es[i].Collect? && es[i].path == path
  }

  lemma Recorded(cfg: Config, w: World, e: Event)
    requires Advancing(cfg.days) && e.Collect?
    ensures var u := Next(cfg, w, e);
      && |u.history| == |w.history| + 1 && u.history[..|w.history|] == w.history
      && var p := u.history[|w.history|];
        && p.path == e.path && p.ts == w.now && p.site == e.site && p.attrs == e.attrs
        && p.hash == Hash(DayOf(cfg.days, e.site, w.now), e.site, e.ip, e.ua)
  {
    hide Record, Advancing;
  }

  lemma NotRecorded(cfg: Config, w: World, e: Event)
    requires Advancing(cfg.days) && !e.Collect?
    ensures Next(cfg, w, e).history == w.history
  {
    hide Record, Advancing, RefreshStep, PurgeStep;
    assert forall c, site, day :: RefreshStep(c, w, site, day).history == w.history by {
      forall c, site, day ensures RefreshStep(c, w, site, day).history == w.history {
        SeenAfterRefresh(c, w, site, day);
      }
    }
    assert forall vs, ps :: PurgeStep(w, vs, ps).history == w.history by { PurgeTells(w); }
  }

  lemma PurgeTells(w: World)
    ensures forall vs, ps :: PurgeStep(w, vs, ps).history == w.history
  {
  }

  lemma RowsOfOne(h: seq<Pageview>, g: seq<Pageview>, site: SiteId, d: int, path: string)
    requires |g| == |h| + 1 && g[..|h|] == h
    ensures Rows(Replay(g).pages, {}, {}, site, d, path)
      == Rows(Replay(h).pages, {}, {}, site, d, path)
         + if On(g[|h|], site, d) && g[|h|].path == path then 1 else 0
  {
    var ps := Replay(g).pages;
    assert ps[..|ps| - 1] == Replay(h).pages;
  }

  lemma {:induction false} RowsOfRun(cfg: Config, now: int, es: seq<Event>, site: SiteId, d: int, path: string)
    requires Advancing(cfg.days) && Legal(cfg, Start(now), es)
    ensures Rows(Replay(Aggregates.Run(cfg, Start(now), es).history).pages, {}, {}, site, d, path)
      == |PageBeacons(cfg, now, es, site, d, path)|
  {
    hide Advancing, Aggregates.Run, Legal, Next, Enabled, Views, On, Rows, Replay, PageBeacons;
    var start := Start(now);
    if es == [] {
      NothingHappened(cfg, start);
      NoRows(site, d, path);
      NoBeacons(cfg, now, site, d, path);
    } else {
      var n := |es| - 1;
      var w := Aggregates.Run(cfg, start, es[..n]);
      RunLast(cfg, start, es);
      RowsOfRun(cfg, now, es[..n], site, d, path);
      PageBeaconsGrow(cfg, now, es, site, d, path);
      ViewsPrefix(cfg, start, es, n, site, d);
      if es[n].Collect? {
        Recorded(cfg, w, es[n]);
        StepTells(cfg, w, es[n], site, d);
        RowsOfOne(w.history, Next(cfg, w, es[n]).history, site, d, path);
      } else {
        NotRecorded(cfg, w, es[n]);
      }
    }
  }

  lemma PageBeaconsGrow(cfg: Config, now: int, es: seq<Event>, site: SiteId, d: int, path: string)
    requires Advancing(cfg.days) && es != []
    ensures var n := |es| - 1;
      var more := es[n].Collect? && Views(cfg, Start(now), es, n, site, d) && es[n].path == path;
      |PageBeacons(cfg, now, es, site, d, path)|
      == |PageBeacons(cfg, now, es[..n], site, d, path)| + if more then 1 else 0
  {
    hide Advancing, Views;
    var n := |es| - 1;
    var before, all := PageBeacons(cfg, now, es[..n], site, d, path), PageBeacons(cfg, now, es, site, d, path);
    forall i ensures Views(cfg, Start(now), es, i, site, d) <==>
      Views(cfg, Start(now), es[..n], i, site, d) || (i == n && Views(cfg, Start(now), es, n, site, d))
    {
      ViewsPrefix(cfg, Start(now), es, i, site, d);
    }
    forall i | i in before ensures i < n { ViewsPrefix(cfg, Start(now), es, i, site, d); }
    var more := es[n].Collect? && Views(cfg, Start(now), es, n, site, d) && es[n].path == path;
    assert all == before + if more then {n} else {};
  }

  lemma NoBeacons(cfg: Config, now: int, site: SiteId, d: int, path: string)
    requires Advancing(cfg.days)
    ensures PageBeacons(cfg, now, [], site, d, path) == {}
  {
    hide Advancing;
  }

  lemma NoRows(site: SiteId, d: int, path: string)
    ensures Rows(Replay([]).pages, {}, {}, site, d, path) == 0
  {
  }

  /** A page's count on a day is the number of beacons for it on that day. */
  lemma PagesAreBeacons(cfg: Config, now: int, es: seq<Event>, site: SiteId, d: int, path: string)
    requires Sane(cfg) && Legal(cfg, Start(now), es)
    ensures var w := Aggregates.Run(cfg, Start(now), es);
      Scanned(cfg, w, site, Page, path, Range(d, d), []).pageviews == |PageBeacons(cfg, now, es, site, d, path)|
  {
    hide Advancing, Aggregates.Run, Legal, Rows, Replay, Tally, RowsOk, DailyOk, PageBeacons, Scanned, DaySelector;
    var w := Aggregates.Run(cfg, Start(now), es);
    Aggregates.Reachable(cfg, now, es);
    RowsOfRun(cfg, now, es, site, d, path);
    DayScan(cfg, w, site, Page, path, d);
    PageCount(cfg.days, w.history, w.now, {}, {}, site, d, path);
    NothingGone(Replay(w.history));
  }

  // ----- visitors -----

  /** The addresses and user agents of a day's beacons. */
  ghost function Senders(cfg: Config, now: int, es: seq<Event>, site: SiteId, d: int): set<(string, string)>
    requires Advancing(cfg.days)
  {
    set i | 0 <= i < |es| && Views(cfg, Start(now), es, i, site, d) && es[i].Collect? :: (es[i].ip, es[i].ua)
  }

  ghost function DayHashes(h: seq<Pageview>, site: SiteId, d: int): set<Hash> {
    set i | 0 <= i < |h| && On(h[i], site, d) :: h[i].hash
  }

  function HashOf(site: SiteId, d: int, sender: (string, string)): Hash {
    Hash(d, site, sender.0, sender.1)
  }

  lemma {:induction false} HashesOfRun(cfg: Config, now: int, es: seq<Event>, site: SiteId, d: int)
    requires Advancing(cfg.days) && Legal(cfg, Start(now), es)
    ensures DayHashes(Aggregates.Run(cfg, Start(now), es).history, site, d)
      == set q | q in Senders(cfg, now, es, site, d) :: HashOf(site, d, q)
  {
    hide Advancing, Aggregates.Run, Legal, Next, Enabled, Views;
    var start := Start(now);
    if es == [] {
      NothingHappened(cfg, start);
    } else {
      var n := |es| - 1;
      var w := Aggregates.Run(cfg, start, es[..n]);
      RunLast(cfg, start, es);
      HashesOfRun(cfg, now, es[..n], site, d);
      forall i ensures Views(cfg, start, es, i, site, d) <==>
        Views(cfg, start, es[..n], i, site, d) || (i == n && Views(cfg, start, es, n, site, d))
      {
        ViewsPrefix(cfg, start, es, i, site, d);
      }
      ViewsPrefix(cfg, start, es, n, site, d);
      var seen := es[n].Collect? && Views(cfg, start, es, n, site, d);
      SendersGrow(cfg, now, es, site, d);
      if es[n].Collect? {
        Recorded(cfg, w, es[n]);
        HashesGrow(w.history, Next(cfg, w, es[n]).history, site, d);
      } else {
        NotRecorded(cfg, w, es[n]);
      }
    }
  }

  lemma HashesGrow(h: seq<Pageview>, g: seq<Pageview>, site: SiteId, d: int)
    requires |g| == |h| + 1 && g[..|h|] == h
    ensures DayHashes(g, site, d) == DayHashes(h, site, d) + if On(g[|h|], site, d) then {g[|h|].hash} else {}
  {
    hide On;
    assert forall i :: 0 <= i < |h| ==> g[i] == g[..|h|][i] == h[i];
  }

  lemma SendersGrow(cfg: Config, now: int, es: seq<Event>, site: SiteId, d: int)
    requires Advancing(cfg.days) && es != []
    ensures var n := |es| - 1;
      Senders(cfg, now, es, site, d) == Senders(cfg, now, es[..n], site, d)
        + if es[n].Collect? && Views(cfg, Start(now), es, n, site, d) then {(es[n].ip, es[n].ua)} else {}
  {
    hide Advancing, Views;
    var n := |es| - 1;
    forall i ensures Views(cfg, Start(now), es, i, site, d) <==>
      Views(cfg, Start(now), es[..n], i, site, d) || (i == n && Views(cfg, Start(now), es, n, site, d))
    {
      ViewsPrefix(cfg, Start(now), es, i, site, d);
    }
    forall i | Views(cfg, Start(now), es[..n], i, site, d) ensures i < n {
      ViewsPrefix(cfg, Start(now), es, i, site, d);
    }
  }

  lemma {:induction false} AsMany(site: SiteId, d: int, s: set<(string, string)>)
    ensures |set q | q in s :: HashOf(site, d, q)| == |s|
    decreases |s|
  {
    if s != {} {
      var q :| q in s;
      AsMany(site, d, s - {q});
      var rest := s - {q};
      assert (set r | r in s :: HashOf(site, d, r)) == (set r | r in rest :: HashOf(site, d, r)) + {HashOf(site, d, q)};
    }
  }

  /** The visits a day's total chooses are those of the day. */
  lemma DayChooses(c: DayStarts, v: Visit, pages: seq<PageRow>, site: SiteId, d: int)
    requires Advancing(c) && InOneDay(c, v)
    ensures Chosen(DaySelector(c, site, d, Total, ""), v, pages) <==> v.hash.site == site && v.hash.day == d
  {
    hide Advancing;
    OneSide(c, v, d);
    OneSide(c, v, d + 1);
  }

  /** A day's visitors are the distinct hashes of its pageviews. */
  lemma VisitorsAreHashes(c: DayStarts, h: seq<Pageview>, now: int, site: SiteId, d: int)
    requires Advancing(c) && Orderly(c, h) && forall i :: 0 <= i < |h| ==> h[i].ts <= now
    ensures Tally(DaySelector(c, site, d, Total, ""), Replay(h)).visitors == |DayHashes(h, site, d)|
  {
    hide Advancing, Orderly, Replay, Tally, Apart, Dated, AllOwned, DaySelector, Chosen, Rooted, DayHashes;
    var t, sel := Replay(h), DaySelector(c, site, d, Total, "");
    ReplaySound(c, h, now);
    ReplayRooted(c, h);
    SoundIsRising(c, t, |h|, now);
    TallyMeans(sel, t);
    var hashes := set v | v in ChosenVisits(sel, t) :: v.hash;
    forall x ensures x in hashes <==> x in DayHashes(h, site, d) {
      if x in hashes {
        var v :| v in ChosenVisits(sel, t) && v.hash == x;
        VisitHasPageview(c, h, now, site, d, v);
      }
      if x in DayHashes(h, site, d) {
        var v := PageviewHasVisit(c, h, now, site, d, x);
      }
    }
    assert hashes == DayHashes(h, site, d);
  }

  lemma SoundIsRising(c: DayStarts, t: Tables, n: nat, now: int)
    requires Sound(c, t, n, now)
    ensures RisingPages(t.pages)
  {
  }

  lemma VisitHasPageview(c: DayStarts, h: seq<Pageview>, now: int, site: SiteId, d: int, v: Visit)
    requires Advancing(c) && Sound(c, Replay(h), |h|, now) && Rooted(Replay(h))
    requires v in ChosenVisits(DaySelector(c, site, d, Total, ""), Replay(h))
    ensures v.hash in DayHashes(h, site, d)
  {
    hide Advancing, Replay, Apart, Chosen, DaySelector;
    var t := Replay(h);
    var i :| 0 <= i < |t.visits| && t.visits[i] == v;
    DayChooses(c, v, t.pages, site, d);
    RowHasVisitsHash(t, i);
    RowIsPageview(h, v.id);
  }

  lemma PageviewHasVisit(c: DayStarts, h: seq<Pageview>, now: int, site: SiteId, d: int, x: Hash) returns (v: Visit)
    requires Advancing(c) && Sound(c, Replay(h), |h|, now) && x in DayHashes(h, site, d)
    ensures v in ChosenVisits(DaySelector(c, site, d, Total, ""), Replay(h)) && v.hash == x
  {
    hide Advancing, Replay, Apart, Chosen, DaySelector, Rising;
    var t := Replay(h);
    var i :| 0 <= i < |h| && On(h[i], site, d) && h[i].hash == x;
    RowIsPageview(h, i);
    assert t.pages[i].id == i && Owned(t.pages[i], t.visits);
    var m :| 0 <= m < |t.visits| && RowOf(t.pages[i], t.visits[m]);
    v := t.visits[m];
    DayChooses(c, v, t.pages, site, d);
  }

  lemma RowHasVisitsHash(t: Tables, i: nat)
    requires Rooted(t) && AllOwned(t) && Rising(t.visits) && i < |t.visits|
    ensures t.visits[i].id < |t.pages| && t.pages[t.visits[i].id].hash == t.visits[i].hash
  {
    var k := t.visits[i].id;
    assert t.pages[k].id == k && Owned(t.pages[k], t.visits);
    var m :| 0 <= m < |t.visits| && RowOf(t.pages[k], t.visits[m]);
    assert m < i || i < m || m == i;
  }

  /** A day's visitors are the distinct pairs of address and user agent among its beacons. */
  lemma VisitorsAreSenders(cfg: Config, now: int, es: seq<Event>, site: SiteId, d: int)
    requires Sane(cfg) && Legal(cfg, Start(now), es)
    ensures var w := Aggregates.Run(cfg, Start(now), es);
      Scanned(cfg, w, site, Total, "", Range(d, d), []).visitors == |Senders(cfg, now, es, site, d)|
  {
    hide Advancing, Aggregates.Run, Legal, Replay, Tally, RowsOk, DailyOk, Senders, Scanned, DaySelector, DayHashes;
    var w := Aggregates.Run(cfg, Start(now), es);
    Aggregates.Reachable(cfg, now, es);
    HashesOfRun(cfg, now, es, site, d);
    AsMany(site, d, Senders(cfg, now, es, site, d));
    DayScan(cfg, w, site, Total, "", d);
    VisitorsAreHashes(cfg.days, w.history, w.now, site, d);
  }
}
