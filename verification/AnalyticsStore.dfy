/**
 The analytics database and its jobs in the form the program has them: tables that
 methods update (internal/analytics/infrastructure/store.go and query.go, the purge of
 application/service.go and the job of application/rollup.go). Each method is proved to
 take the steps of `Aggregates` and `Rollup`.
 */
module AnalyticsStore {
  import opened Arithmetic
  import opened Calendar
  import opened Wrappers
  import opened Visits
  import opened Tallies
  import opened Losses
  import opened Counting
  import opened Aggregates
  import opened Reports
  import opened Rollup
  import opened AggregateRuns

  class Store {
    const cfg: Config
    var visits: seq<Visit>
    var pages: seq<PageRow>
    var daily: Daily
    var nextId: nat
    /** The state the steps are about: these tables, and the history behind them. */
    ghost var w: World

    ghost predicate Valid()
      reads this
    {
      Sane(cfg) && Inv(cfg, w) && w.tables == Tables(visits, pages) && w.daily == daily && nextId == |w.history|
    }

    constructor (cfg: Config, now: int)
      requires Sane(cfg)
      ensures Valid() && this.cfg == cfg && w == Start(now)
    {
      StartOk(cfg, now);
      this.cfg := cfg;
      visits, pages, daily, nextId := [], [], map[], 0;
      w := Start(now);
    }

    /** Time passes between calls. */
    ghost method AdvanceTo(now: int)
      requires Valid() && w.now <= now
      modifies this`w
      ensures Valid() && w == old(w).(now := now)
    {
      TickOk(cfg, w, now);
      w := w.(now := now);
    }

    method RecordPageview(now: int, e: Event)
      requires Valid() && w.now <= now && e.Collect?
      modifies this
      ensures Valid() && w == Next(cfg, old(w).(now := now), e)
    {
      hide Inv, Advancing, Record, Touch, Matches;
      AdvanceTo(now);
      CollectKeeps(cfg, w, e);
      var p := Beacon(cfg, now, e);
      var open: Option<Visit> := None;
      for i := 0 to |visits|
        invariant open == Find(visits[..i], p.site, p.hash, p.ts - VISIT_IDLE)
      {
        assert visits[..i + 1][..i] == visits[..i];
        var matches := Matches(visits[i], p.site, p.hash, p.ts - VISIT_IDLE);
        if matches && (open.None? || open.value.lastAt <= visits[i].lastAt) {
          open := Some(visits[i]);
        }
      }
      assert visits[..|visits|] == visits;
      var visitId := nextId;
      StoredRow(w.tables, nextId, p, open);
      if open.Some? {
        visitId := open.value.id;
        visits := Touch(visits, visitId, p);
      } else {
        visits := visits + [Open(nextId, p)];
      }
      pages := pages + [PageRow(nextId, p.site, p.ts, p.path, p.hash, visitId)];
      nextId := nextId + 1;
      w := CollectStep(w, p);
    }

    /** Deletes up to `limit` old pageviews, then up to `limit` old visits with what is left of their pageviews. */
    method PurgePageviews(
        before: int, limit: nat) returns (n: nat, ghost goneV: set<nat>, ghost goneP: set<nat>, ghost direct: set<nat>)
      requires Valid() && 0 < cfg.retention && before <= w.now - cfg.retention && 0 < limit
      modifies this
      ensures Valid() && w == PurgeStep(old(w), goneV, goneP) && Purgeable(old(w), before, goneV, goneP)
      ensures forall i :: 0 <= i < |old(visits)| && old(visits)[i].id in goneV ==> old(visits)[i].lastAt < before
      ensures forall i :: 0 <= i < |old(pages)| && old(pages)[i].id in goneP ==> old(pages)[i].ts < before
      ensures |goneV| == Min(limit, |OldVisits(old(visits), before)|)
      ensures |direct| == Min(limit, |OldPages(old(pages), before)|)
      ensures goneP == direct + CascadedIds(old(pages), goneV) && n == |direct| + |goneV|
      ensures n == 0 ==> (forall v :: v in visits ==> before <= v.lastAt) && (forall p :: p in pages ==> before <= p.ts)
      ensures n > 0 ==> |visits| + |pages| < |old(visits)| + |old(pages)|
    {
      hide Inv, Advancing, KeepVisits, KeepPages, OldPages, OldVisits, EndedIds, DeletedIds, CascadedIds;
      PurgeCall(cfg, w, before, limit);
      n := Min(limit, |OldPages(pages, before)|) + Min(limit, |OldVisits(visits, before)|);
      var deleted, ended := DeletedIds(pages, before, limit), EndedIds(visits, before, limit);
      var doomed := deleted + CascadedIds(pages, ended);
      goneV, goneP, direct := ended, doomed, deleted;
      PurgeKeeps(cfg, w, before, goneV, goneP);
      w := PurgeStep(w, goneV, goneP);
      pages := KeepPages(pages, doomed);
      visits := KeepVisits(visits, ended);
    }

    /** Service.Purge: everything older than the retention goes, in bounded batches, and nothing else. */
    method Purge(now: int)
      requires Valid() && w.now <= now
      modifies this
      ensures Valid() && w.now == now && w.history == old(w.history) && daily == old(daily) && w.seen == old(w.seen)
      ensures cfg.retention <= 0 ==> visits == old(visits) && pages == old(pages)
      ensures 0 < cfg.retention ==> forall v :: v in visits <==> v in old(visits) && now - cfg.retention <= v.lastAt
      ensures 0 < cfg.retention ==> forall p :: p in pages <==> p in old(pages) && now - cfg.retention <= p.ts
    {
      hide Inv, Sane, KeepVisits, KeepPages;
      AdvanceTo(now);
      if cfg.retention <= 0 { return; }
      var before := now - cfg.retention;
      while true
        invariant Valid() && w.now == now && w.history == old(w.history) && daily == old(daily) && w.seen == old(w.seen)
        invariant forall v :: v in visits ==> v in old(visits)
        invariant forall v :: v in old(visits) && before <= v.lastAt ==> v in visits
        invariant forall p :: p in pages ==> p in old(pages)
        invariant forall p :: p in old(pages) && before <= p.ts ==> p in pages
        decreases |visits| + |pages|
      {
        ghost var vs, ps := visits, pages;
        var n, goneV, goneP, direct := PurgePageviews(before, 5000);
        assert visits == KeepVisits(vs, goneV) && pages == KeepPages(ps, goneP) by {
          assert w.tables == Tables(visits, pages);
        }
        KeptExactly(vs, goneV);
        KeptPagesExactly(ps, goneP);
        if n == 0 { return; }
      }
    }

    /** The day's stored breakdowns become those of the raw rows as they stand. */
    method RefreshDay(site: SiteId, day: int)
      requires Valid()
      modifies this`daily, this`w
      ensures Valid() && w == RefreshStep(cfg.days, old(w), site, day)
    {
      hide Inv, Sane, DayRows, RefreshStep, WithoutDay;
      RefreshKeeps(cfg, w, site, day);
      Refreshed(cfg.days, w, site, day);
      var rows := RowsOfDay(cfg.days, Tables(visits, pages), site, day);
      daily := WithoutDay(daily, site, day) + rows;
      w := RefreshStep(cfg.days, w, site, day);
    }

    /** What the rest of the server does in a pause: the clock goes on, pageviews arrive, old rows are purged. */
    method Meanwhile(p: Pause, ghost w0: World, ghost past: seq<Event>) returns (ghost es: seq<Event>)
      requires Valid() && w.now <= p.now && Follows(cfg, w0, past, w) && forall e :: e in p.views ==> e.Collect?
      modifies this
      ensures Valid() && past <= es && Follows(cfg, w0, es, w) && w.now == p.now
      ensures forall e :: e in es && e.Refresh? ==> e in past
    {
      hide Inv, Sane, Legal, Aggregates.Run, Advancing, Purgeable, Beacon, Record, KeepVisits, KeepPages;
      EventFollows(cfg, w0, past, w, Tick(p.now));
      AdvanceTo(p.now);
      es := past + [Tick(p.now)];
      for k := 0 to |p.views|
        invariant Valid() && past <= es && Follows(cfg, w0, es, w) && w.now == p.now
        invariant forall e :: e in es && e.Refresh? ==> e in past
      {
        assert p.views[k] in p.views;
        EventFollows(cfg, w0, es, w, p.views[k]);
        assert w.(now := p.now) == w;
        RecordPageview(p.now, p.views[k]);
        es := es + [p.views[k]];
      }
      if p.purges && 0 < cfg.retention {
        var before := p.now - cfg.retention;
        ghost var u := w;
        var n, goneV, goneP, direct := PurgePageviews(before, 5000);
        EventFollows(cfg, w0, es, u, PurgeRows(before, goneV, goneP));
        es := es + [PurgeRows(before, goneV, goneP)];
      }
    }

    /** One refresh of the job, after a pause. */
    method PauseAndRefresh(
        pause: Option<Pause>, site: SiteId, d: int, ghost w0: World, ghost past: seq<Event>)
      returns (ghost es: seq<Event>)
      requires Valid() && Follows(cfg, w0, past, w)
      requires pause.Some? ==> w.now <= pause.value.now && forall e :: e in pause.value.views ==> e.Collect?
      modifies this
      ensures Valid() && past <= es && Follows(cfg, w0, es, w)
      ensures w.now == if pause.Some? then pause.value.now else old(w.now)
      ensures Refresh(site, d) in es && forall e :: e in es && e.Refresh? ==> e in past || e == Refresh(site, d)
      ensures pause.None? ==> w == RefreshStep(cfg.days, old(w), site, d)
    {
      hide Inv, Sane, Advancing, RefreshStep, Follows;
      es := past;
      if pause.Some? { es := Meanwhile(pause.value, w0, es); }
      EventFollows(cfg, w0, es, w, Refresh(site, d));
      SeenAfterRefresh(cfg.days, w, site, d);
      RefreshDay(site, d);
      es := es + [Refresh(site, d)];
    }

    /**
     One site's share of the aggregate job. It decides at one reading of the clock which
     days to refresh, and carries that out with pauses in between.
     */
    method RollupOne(site: SiteId, now: int, pauses: nat -> Option<Pause>) returns (ghost es: seq<Event>)
      requires Valid() && w.now == now && Ticking(now, pauses)
      modifies this
      ensures Valid() && Follows(cfg, old(w), es, w)
      ensures forall e :: e in JobEvents(cfg, old(w), site) ==> e in es
      ensures forall e :: e in es && e.Refresh? ==> e in JobEvents(cfg, old(w), site)
      ensures (forall k :: pauses(k).None?) ==> w == Rollup.RollupSite(cfg, old(w), site)
    {
      hide Inv, Sane, Advancing, RefreshStep, AggregatedDays;
      hide Skipped, RawFrom, FirstDay, Legal, Aggregates.Run, Ticking;
      es := [];
      NothingFollows(cfg, w);
      FirstPause(now, pauses);
      var first := FirstVisit(visits, site);
      if first.None? { return; }
      var today, from := DayOf(cfg.days, site, now), FirstDay(cfg, now, site, first.value);
      var done := AggregatedDays(daily, site, from, today);
      var d, k := from, 0;
      while d <= today
        invariant Valid() && Follows(cfg, old(w), es, w) && from <= d && Awaits(now, pauses, k, w.now)
        invariant forall e :: e in DayEvents(site, from, today, done) ==>
          e in es || e in DayEvents(site, d, today, done)
        invariant forall e :: e in es && e.Refresh? ==> e in DayEvents(site, from, today, done)
        invariant (forall k :: pauses(k).None?) ==>
          RollDays(cfg.days, w, site, d, today, done) == RollDays(cfg.days, old(w), site, from, today, done)
        decreases today - d
      {
        if !Skipped(done, d, today) {
          NextPause(now, pauses, k, w.now);
          EventsOfDays(site, from, today, done, d);
          es := PauseAndRefresh(pauses(k), site, d, old(w), es);
          k := k + 1;
        }
        d := d + 1;
      }
    }

    /** The aggregate job: every site in turn, then aggregates too old to keep are dropped. */
    method RollupAll(sites: seq<SiteId>, now: int, keepFrom: int)
      requires Valid() && w.now <= now
      modifies this
      ensures Valid() && w == PurgeDailyStep(RollupSites(cfg, old(w).(now := now), sites), keepFrom)
      ensures var all := RollupSites(cfg, old(w).(now := now), sites).daily;
        forall k :: (k in daily <==> k in all && keepFrom <= k.day) && (k in daily ==> daily[k] == all[k])
    {
      hide Inv, Advancing, Rollup.RollupSite, PurgeDailyStep;
      AdvanceTo(now);
      for i := 0 to |sites|
        invariant Valid() && w == RollupSites(cfg, old(w).(now := now), sites[..i]) && w.now == now
      {
        RollupKeeps(cfg, w, sites[i]);
        var none: nat -> Option<Pause> := _ => None;
        NoPauses(now, none);
        ghost var es := RollupOne(sites[i], now, none);
        assert sites[..i + 1][..i] == sites[..i];
      }
      assert sites[..|sites|] == sites;
      PurgeDailyKeeps(cfg, w, keepFrom);
      DailyPurged(w, keepFrom);
      daily := map k | k in daily && keepFrom <= k.day :: daily[k];
      w := PurgeDailyStep(w, keepFrom);
    }
  }

  /** A pause of the job: the clock's new reading, the pageviews that arrive, and whether a purge runs. */
  datatype Pause = Pause(now: int, views: seq<Event>, purges: bool)

  /** The clock never steps back from one pause to the next, and pageviews are what arrives. */
  ghost predicate Ticking(now: int, pauses: nat -> Option<Pause>) {
    && (forall k :: pauses(k).Some? ==> now <= pauses(k).value.now && forall e :: e in pauses(k).value.views ==>
          e.Collect?)
    && (forall j, k :: j < k && pauses(j).Some? && pauses(k).Some? ==> pauses(j).value.now <= pauses(k).value.now)
  }

  /** The clock shows no more than the pauses from the k-th on. */
  ghost predicate Awaits(now: int, pauses: nat -> Option<Pause>, k: nat, at: int) {
    Ticking(now, pauses) && now <= at && forall j: nat :: k <= j && pauses(j).Some? ==> at <= pauses(j).value.now
  }

  /** The state is the one a legal series of events leads to. */
  ghost predicate Follows(cfg: Config, w0: World, es: seq<Event>, w: World) {
    Advancing(cfg.days) && Legal(cfg, w0, es) && Aggregates.Run(cfg, w0, es) == w
  }

  lemma FirstPause(now: int, pauses: nat -> Option<Pause>)
    requires Ticking(now, pauses)
    ensures Awaits(now, pauses, 0, now)
  {
  }

  lemma NextPause(now: int, pauses: nat -> Option<Pause>, k: nat, at: int)
    requires Awaits(now, pauses, k, at)
    ensures pauses(k).Some? ==>
      var p := pauses(k).value;
      at <= p.now && (forall e :: e in p.views ==> e.Collect?) && Awaits(now, pauses, k + 1, p.now)
    ensures pauses(k).None? ==> Awaits(now, pauses, k + 1, at)
  {
  }

  lemma NoPauses(now: int, pauses: nat -> Option<Pause>)
    requires forall k :: pauses(k).None?
    ensures Ticking(now, pauses)
  {
  }

  lemma NothingFollows(cfg: Config, w: World)
    requires Sane(cfg)
    ensures Follows(cfg, w, [], w)
  {
  }

  lemma EventFollows(cfg: Config, w0: World, es: seq<Event>, w: World, e: Event)
    requires Follows(cfg, w0, es, w) && Enabled(cfg, w, e)
    ensures Follows(cfg, w0, es + [e], Next(cfg, w, e))
  {
    hide Legal, Aggregates.Run, Enabled, Next, Advancing;
    RunSnoc(cfg, w0, es, e);
  }

  function RollupSites(cfg: Config, w: World, sites: seq<SiteId>): World
    requires Advancing(cfg.days)
  {
    if sites == [] then w else Rollup.RollupSite(cfg, RollupSites(cfg, w, sites[..|sites| - 1]), Last(sites))
  }

  lemma Refreshed(c: DayStarts, w: World, site: SiteId, day: int)
    ensures var u := RefreshStep(c, w, site, day);
      && u.daily == WithoutDay(w.daily, site, day) + DayRows(c, w.tables, site, day)
      && u.tables == w.tables && u.history == w.history && u.now == w.now
  {
  }

  lemma DailyPurged(w: World, before: int)
    ensures var u := PurgeDailyStep(w, before);
      && u.daily == (map k | k in w.daily && before <= k.day :: w.daily[k])
      && u.tables == w.tables && u.history == w.history && u.now == w.now
  {
  }

  /** Stored rows are told apart by their ids, and a row is no newer than its visit. */
  ghost predicate Clean(w: World) {
    && (forall u, v :: u in w.tables.visits && v in w.tables.visits && u.id == v.id ==> u == v)
    && (forall p, q :: p in w.tables.pages && q in w.tables.pages && p.id == q.id ==> p == q)
    && (forall v :: v in w.tables.visits ==> v.id < |w.history|)
    && (forall p :: p in w.tables.pages ==> p.id < |w.history|)
    && (forall p, v :: p in w.tables.pages && v in w.tables.visits && p.visitId == v.id ==> p.ts <= v.lastAt)
  }

  lemma {:induction false} KeptExactly(vs: seq<Visit>, gone: set<nat>)
    ensures forall v :: v in KeepVisits(vs, gone) <==> v in vs && v.id !in gone
  {
    if vs != [] {
      KeptExactly(vs[..|vs| - 1], gone);
      assert vs == vs[..|vs| - 1] + [Last(vs)];
    }
  }

  lemma {:induction false} KeptPagesExactly(ps: seq<PageRow>, gone: set<nat>)
    ensures forall p :: p in KeepPages(ps, gone) <==> p in ps && p.id !in gone
  {
    if ps != [] {
      KeptPagesExactly(ps[..|ps| - 1], gone);
      assert ps == ps[..|ps| - 1] + [Last(ps)];
    }
  }

  lemma SoundTold(c: DayStarts, t: Tables, n: nat, now: int)
    requires Sound(c, t, n, now)
    ensures forall u, v :: u in t.visits && v in t.visits && u.id == v.id ==> u == v
    ensures forall p, q :: p in t.pages && q in t.pages && p.id == q.id ==> p == q
    ensures forall v :: v in t.visits ==> v.id < n
    ensures forall p :: p in t.pages ==> p.id < n
    ensures forall p, v :: p in t.pages && v in t.visits && p.visitId == v.id ==> p.ts <= v.lastAt
  {
    SoundIsJoined(c, t, n, now);
    forall u, v | u in t.visits && v in t.visits && u.id == v.id ensures u == v {
      var i :| 0 <= i < |t.visits| && t.visits[i] == u;
      var j :| 0 <= j < |t.visits| && t.visits[j] == v;
      assert i < j || j < i || i == j;
    }
    forall p, v | p in t.pages && v in t.visits && p.visitId == v.id ensures p.ts <= v.lastAt {
      var i :| 0 <= i < |t.pages| && t.pages[i] == p;
      var j :| 0 <= j < |t.visits| && t.visits[j] == v;
      assert RowsOf(t.visits[j], t.pages);
    }
  }

  lemma InvIsClean(cfg: Config, w: World)
    requires Inv(cfg, w)
    ensures Clean(w)
  {
    hide Replay, DailyOk, GoneBelow, KeepVisits, KeepPages, Orderly, Sound;
    ReplaySound(cfg.days, w.history, w.now);
    var full := Replay(w.history);
    SoundTold(cfg.days, full, |w.history|, w.now);
    KeptExactly(full.visits, w.goneVisits);
    KeptPagesExactly(full.pages, w.gonePages);
  }

  /** What one purge call deletes is what a purge step may delete. */
  lemma Purging(cfg: Config, w: World, before: int, ended: set<nat>, deleted: set<nat>, cascaded: set<nat>)
    requires Inv(cfg, w)
    requires forall x :: x in ended ==> exists v :: v in w.tables.visits && v.lastAt < before && v.id == x
    requires forall x :: x in deleted ==> exists p :: p in w.tables.pages && p.ts < before && p.id == x
    requires forall x :: x in cascaded ==> exists p :: p in w.tables.pages && p.visitId in ended && p.id == x
    ensures Purgeable(w, before, ended, deleted + cascaded)
    ensures forall i :: 0 <= i < |w.tables.pages| && w.tables.pages[i].id in deleted + cascaded ==>
      w.tables.pages[i].ts < before
  {
    hide Inv;
    InvIsClean(cfg, w);
    forall p | p in w.tables.pages && p.id in deleted + cascaded
      ensures p.ts < before
    {
      if p.id in deleted {
        var q :| q in w.tables.pages && q.ts < before && q.id == p.id;
      } else {
        var q :| q in w.tables.pages && q.visitId in ended && q.id == p.id;
        var v :| v in w.tables.visits && v.lastAt < before && v.id == q.visitId;
      }
    }
    forall x | x in ended || x in deleted + cascaded ensures x < |w.history| {
      if x in ended {
        var v :| v in w.tables.visits && v.lastAt < before && v.id == x;
      } else if x in deleted {
        var p :| p in w.tables.pages && p.ts < before && p.id == x;
      } else {
        var p :| p in w.tables.pages && p.visitId in ended && p.id == x;
      }
    }
    forall i | 0 <= i < |w.tables.visits| && w.tables.visits[i].id in ended ensures w.tables.visits[i].lastAt < before {
      var v :| v in w.tables.visits && v.lastAt < before && v.id == w.tables.visits[i].id;
    }
  }

  lemma PickedVisits(vs: seq<Visit>, before: int, limit: nat)
    requires 0 < limit
    ensures forall x :: x in EndedIds(vs, before, limit) ==> exists v :: v in vs && v.lastAt < before && v.id == x
    ensures OldVisits(vs, before) == [] ==> forall v :: v in vs ==> before <= v.lastAt
    ensures OldVisits(vs, before) == [] ==> EndedIds(vs, before, limit) == {}
    ensures OldVisits(vs, before) != [] ==> exists v :: v in vs && v.id in EndedIds(vs, before, limit)
  {
    var aged := OldVisits(vs, before);
    assert forall v :: v in aged ==> v in vs && v.lastAt < before;
    if aged != [] {
      assert aged[0] in aged[..Min(limit, |aged|)];
      assert aged[0].id in EndedIds(vs, before, limit);
    } else {
      assert forall v :: v in vs && v.lastAt < before ==> v in aged;
    }
  }

  lemma PickedPages(ps: seq<PageRow>, before: int, limit: nat)
    requires 0 < limit
    ensures forall x :: x in DeletedIds(ps, before, limit) ==> exists p :: p in ps && p.ts < before && p.id == x
    ensures OldPages(ps, before) == [] ==> forall p :: p in ps ==> before <= p.ts
    ensures OldPages(ps, before) == [] ==> DeletedIds(ps, before, limit) == {}
    ensures OldPages(ps, before) != [] ==> exists p :: p in ps && p.id in DeletedIds(ps, before, limit)
  {
    var aged := OldPages(ps, before);
    assert forall p :: p in aged ==> p in ps && p.ts < before;
    if aged != [] {
      assert aged[0] in aged[..Min(limit, |aged|)];
      assert aged[0].id in DeletedIds(ps, before, limit);
    } else {
      assert forall p :: p in ps && p.ts < before ==> p in aged;
    }
  }

  lemma PurgeCall(cfg: Config, w: World, before: int, limit: nat)
    requires Inv(cfg, w) && 0 < limit
    ensures var ended := EndedIds(w.tables.visits, before, limit);
      var doomed := DeletedIds(w.tables.pages, before, limit) + CascadedIds(w.tables.pages, ended);
      var n := |OldPages(w.tables.pages, before)| + |OldVisits(w.tables.visits, before)|;
      var vs, ps := KeepVisits(w.tables.visits, ended), KeepPages(w.tables.pages, doomed);
      && Purgeable(w, before, ended, doomed)
      && |ended| == Min(limit, |OldVisits(w.tables.visits, before)|)
      && |DeletedIds(w.tables.pages, before, limit)| == Min(limit, |OldPages(w.tables.pages, before)|)
      && (forall i :: 0 <= i < |w.tables.pages| && w.tables.pages[i].id in doomed ==> w.tables.pages[i].ts < before)
      && (n == 0 ==> (forall v :: v in vs ==> before <= v.lastAt) && (forall p :: p in ps ==> before <= p.ts))
      && (n > 0 ==> |vs| + |ps| < |w.tables.visits| + |w.tables.pages|)
  {
    hide Inv, OldPages, OldVisits, EndedIds, DeletedIds, KeepVisits, KeepPages, Purgeable;
    var t := w.tables;
    var ended, deleted := EndedIds(t.visits, before, limit), DeletedIds(t.pages, before, limit);
    var doomed := deleted + CascadedIds(t.pages, ended);
    PickedVisits(t.visits, before, limit);
    PickedPages(t.pages, before, limit);
    Purging(cfg, w, before, ended, deleted, CascadedIds(t.pages, ended));
    StoredInOrder(cfg, w);
    CountedVisits(t.visits, before, limit);
    CountedPages(t.pages, before, limit);
    FewerVisits(t.visits, ended);
    FewerPages(t.pages, doomed);
    KeptExactly(t.visits, ended);
    KeptPagesExactly(t.pages, doomed);
  }

  lemma {:induction false} FewerVisits(vs: seq<Visit>, gone: set<nat>)
    ensures |KeepVisits(vs, gone)| <= |vs|
    ensures (exists v :: v in vs && v.id in gone) ==> |KeepVisits(vs, gone)| < |vs|
  {
    if vs != [] {
      FewerVisits(vs[..|vs| - 1], gone);
      assert vs == vs[..|vs| - 1] + [Last(vs)];
    }
  }

  lemma {:induction false} FewerPages(ps: seq<PageRow>, gone: set<nat>)
    ensures |KeepPages(ps, gone)| <= |ps|
    ensures (exists p :: p in ps && p.id in gone) ==> |KeepPages(ps, gone)| < |ps|
  {
    if ps != [] {
      FewerPages(ps[..|ps| - 1], gone);
      assert ps == ps[..|ps| - 1] + [Last(ps)];
    }
  }

  // ----- how many rows a call deletes -----

  lemma {:induction false} KeepPagesRising(ps: seq<PageRow>, gone: set<nat>)
    requires RisingPages(ps)
    ensures RisingPages(KeepPages(ps, gone))
  {
    if ps != [] {
      KeepPagesRising(ps[..|ps| - 1], gone);
      KeptPagesExactly(ps[..|ps| - 1], gone);
      var kept := KeepPages(ps[..|ps| - 1], gone);
      forall i | 0 <= i < |kept| ensures kept[i].id < Last(ps).id { assert kept[i] in kept; }
    }
  }

  /** Stored rows stand in the order of their ids. */
  lemma StoredInOrder(cfg: Config, w: World)
    requires Inv(cfg, w)
    ensures Rising(w.tables.visits) && RisingPages(w.tables.pages)
  {
    hide Replay, DailyOk, GoneBelow, KeepVisits, KeepPages, Orderly;
    ReplaySound(cfg.days, w.history, w.now);
    KeepRising(Replay(w.history).visits, w.goneVisits);
    KeepPagesRising(Replay(w.history).pages, w.gonePages);
  }

  lemma {:induction false} OldRising(vs: seq<Visit>, before: int)
    requires Rising(vs)
    ensures Rising(OldVisits(vs, before))
  {
    if vs != [] {
      OldRising(vs[..|vs| - 1], before);
      var aged := OldVisits(vs[..|vs| - 1], before);
      forall i | 0 <= i < |aged| ensures aged[i].id < Last(vs).id { assert aged[i] in aged; }
    }
  }

  lemma {:induction false} OldPagesRising(ps: seq<PageRow>, before: int)
    requires RisingPages(ps)
    ensures RisingPages(OldPages(ps, before))
  {
    if ps != [] {
      OldPagesRising(ps[..|ps| - 1], before);
      var aged := OldPages(ps[..|ps| - 1], before);
      forall i | 0 <= i < |aged| ensures aged[i].id < Last(ps).id { assert aged[i] in aged; }
    }
  }

  lemma {:induction false} IdsOfVisits(vs: seq<Visit>)
    requires Rising(vs)
    ensures |set v | v in vs :: v.id| == |vs|
  {
    hide Rising;
    if vs != [] {
      var init := vs[..|vs| - 1];
      NewestVisit(vs);
      IdsOfVisits(init);
      assert vs == init + [Last(vs)];
      assert (set v | v in vs :: v.id) == (set v | v in init :: v.id) + {Last(vs).id};
    }
  }

  lemma NewestVisit(vs: seq<Visit>)
    requires Rising(vs) && vs != []
    ensures Rising(vs[..|vs| - 1]) && Last(vs).id !in (set v | v in vs[..|vs| - 1] :: v.id)
  {
  }

  lemma {:induction false} IdsOfPages(ps: seq<PageRow>)
    requires RisingPages(ps)
    ensures |set p | p in ps :: p.id| == |ps|
  {
    hide RisingPages;
    if ps != [] {
      var init := ps[..|ps| - 1];
      NewestPage(ps);
      IdsOfPages(init);
      assert ps == init + [Last(ps)];
      assert (set p | p in ps :: p.id) == (set p | p in init :: p.id) + {Last(ps).id};
    }
  }

  lemma NewestPage(ps: seq<PageRow>)
    requires RisingPages(ps) && ps != []
    ensures RisingPages(ps[..|ps| - 1]) && Last(ps).id !in (set p | p in ps[..|ps| - 1] :: p.id)
  {
  }

  lemma CountedVisits(vs: seq<Visit>, before: int, limit: nat)
    requires Rising(vs)
    ensures |EndedIds(vs, before, limit)| == Min(limit, |OldVisits(vs, before)|)
  {
    hide OldVisits;
    OldRising(vs, before);
    var aged := OldVisits(vs, before);
    IdsOfVisits(aged[..Min(limit, |aged|)]);
  }

  lemma CountedPages(ps: seq<PageRow>, before: int, limit: nat)
    requires RisingPages(ps)
    ensures |DeletedIds(ps, before, limit)| == Min(limit, |OldPages(ps, before)|)
  {
    hide OldPages;
    OldPagesRising(ps, before);
    var aged := OldPages(ps, before);
    IdsOfPages(aged[..Min(limit, |aged|)]);
  }

  /** SELECT id FROM pageviews WHERE ts < ?. */
  function OldPages(ps: seq<PageRow>, before: int): (r: seq<PageRow>)
    ensures forall p :: p in r <==> p in ps && p.ts < before
  {
    if ps == [] then []
    else
      assert ps == ps[..|ps| - 1] + [Last(ps)];
      var rest := OldPages(ps[..|ps| - 1], before);
      if Last(ps).ts < before then rest + [Last(ps)] else rest
  }

  function OldVisits(vs: seq<Visit>, before: int): (r: seq<Visit>)
    ensures forall v :: v in r <==> v in vs && v.lastAt < before
  {
    if vs == [] then []
    else
      assert vs == vs[..|vs| - 1] + [Last(vs)];
      var rest := OldVisits(vs[..|vs| - 1], before);
      if Last(vs).lastAt < before then rest + [Last(vs)] else rest
  }

  /** WHERE id IN (SELECT id ... LIMIT ?). */
  function DeletedIds(ps: seq<PageRow>, before: int, limit: nat): set<nat> {
    var aged := OldPages(ps, before);
    set p | p in aged[..Min(limit, |aged|)] :: p.id
  }

  function EndedIds(vs: seq<Visit>, before: int, limit: nat): set<nat> {
    var aged := OldVisits(vs, before);
    set v | v in aged[..Min(limit, |aged|)] :: v.id
  }

  /** ON DELETE CASCADE from visits to their pageviews. */
  function CascadedIds(ps: seq<PageRow>, ended: set<nat>): set<nat> {
    set p | p in ps && p.visitId in ended :: p.id
  }

  /** One dimension's rows of a day, as they are inserted. */
  function Keyed(site: SiteId, day: int, dim: Dimension, rows: map<string, Counts>): Daily {
    map x | x in rows :: DailyKey(site, day, dim, x) := rows[x]
  }

  function DimRows(c: DayStarts, t: Tables, site: SiteId, day: int, dims: seq<Dimension>): Daily {
    if dims == [] then map[]
    else
      DimRows(c, t, site, day, dims[..|dims| - 1]) + Keyed(site, day, Last(dims), Inserted(c, t, site, day, Last(dims)))
  }

  /** A day's rows, dimension by dimension. */
  method RowsOfDay(c: DayStarts, t: Tables, site: SiteId, day: int) returns (rows: Daily)
    ensures rows == DayRows(c, t, site, day)
  {
    hide Tally, Values, RawRows, Dimensions, Keyed, DayRows, DimRows;
    var start, end, dims := c(site, day), c(site, day + 1), Dimensions();
    rows := map[];
    NoDimRows(c, t, site, day);
    for i := 0 to |dims|
      invariant rows == DimRows(c, t, site, day, dims[..i])
    {
      var r := RawRows(t, site, dims[i], start, end, []);
      if dims[i] == Total && |r| == 0 { r := map["" := ZERO]; }
      DimRowsGrow(c, t, site, day, dims, i);
      rows := rows + Keyed(site, day, dims[i], r);
    }
    assert dims[..|dims|] == dims;
    DimRowsAreDayRows(c, t, site, day);
  }

  lemma NoDimRows(c: DayStarts, t: Tables, site: SiteId, day: int)
    ensures DimRows(c, t, site, day, []) == map[]
  {
  }

  lemma DimRowsGrow(c: DayStarts, t: Tables, site: SiteId, day: int, dims: seq<Dimension>, i: nat)
    requires i < |dims|
    ensures DimRows(c, t, site, day, dims[..i + 1])
         == DimRows(c, t, site, day, dims[..i]) + Keyed(site, day, dims[i], Inserted(c, t, site, day, dims[i]))
  {
    hide Keyed, Inserted;
    assert dims[..i + 1][..i] == dims[..i];
  }

  lemma StoredRow(t: Tables, n: nat, p: Pageview, open: Option<Visit>)
    requires open == Find(t.visits, p.site, p.hash, p.ts - VISIT_IDLE)
    ensures var id := if open.Some? then open.value.id else n;
      Record(t, n, p) == Tables(
        if open.Some? then Touch(t.visits, id, p) else t.visits + [Open(n, p)],
        t.pages + [PageRow(n, p.site, p.ts, p.path, p.hash, id)])
  {
  }

  /** The rows one dimension inserts: its breakdown, or a zero total when there is no visit. */
  function Inserted(c: DayStarts, t: Tables, site: SiteId, day: int, dim: Dimension): map<string, Counts> {
    var r := RawRows(t, site, dim, c(site, day), c(site, day + 1), []);
    if dim == Total && |r| == 0 then map["" := ZERO] else r
  }

  lemma InsertedRows(c: DayStarts, t: Tables, site: SiteId, day: int, dim: Dimension, x: string)
    ensures x in Inserted(c, t, site, day, dim) <==>
      (Tally(DaySelector(c, site, day, dim, x), t).visits > 0 || (dim == Total && x == ""))
    ensures x in Inserted(c, t, site, day, dim) ==>
      Inserted(c, t, site, day, dim)[x] == Tally(DaySelector(c, site, day, dim, x), t)
  {
    hide Tally;
    var r := RawRows(t, site, dim, c(site, day), c(site, day + 1), []);
    CountedValueOccurs(DaySelector(c, site, day, dim, x), t);
    if dim == Total {
      assert forall y :: y in r ==> y == "";
      if |r| > 0 {
        var y :| y in r;
      } else {
        assert x !in r && Tally(DaySelector(c, site, day, dim, x), t).visits == 0;
      }
    }
  }

  /** Inserting the dimensions' rows one by one gives the whole day. */
  lemma {:induction false} DimRowsHave(
      c: DayStarts, t: Tables, site: SiteId, day: int, dims: seq<Dimension>, k: DailyKey)
    ensures k in DimRows(c, t, site, day, dims) <==>
      (k.site == site && k.day == day && k.dim in dims
       && (Tally(DaySelector(c, site, day, k.dim, k.value), t).visits > 0 || (k.dim == Total && k.value == "")))
    ensures k in DimRows(c, t, site, day, dims) ==>
      DimRows(c, t, site, day, dims)[k] == Tally(DaySelector(c, site, day, k.dim, k.value), t)
  {
    hide Tally, Inserted, DaySelector;
    if dims != [] {
      var init, dim := dims[..|dims| - 1], Last(dims);
      assert dims == init + [dim];
      DimRowsHave(c, t, site, day, init, k);
      InsertedRows(c, t, site, day, dim, k.value);
    }
  }

  lemma TotalValues(t: Tables)
    ensures forall x :: x in Values(t, Total) ==> x == ""
  {
  }

  lemma DimRowsAreDayRows(c: DayStarts, t: Tables, site: SiteId, day: int)
    ensures DimRows(c, t, site, day, Dimensions()) == DayRows(c, t, site, day)
  {
    hide Tally, DimRows, Values;
    assert Total in Dimensions() by { assert Dimensions()[0] == Total; }
    hide Dimensions;
    TotalValues(t);
    var a, b := DimRows(c, t, site, day, Dimensions()), DayRows(c, t, site, day);
    forall k ensures (k in a <==> k in b) && (k in a && k in b ==> a[k] == b[k]) {
      DimRowsHave(c, t, site, day, Dimensions(), k);
      CountedValueOccurs(DaySelector(c, site, day, k.dim, k.value), t);
    }
  }
}
