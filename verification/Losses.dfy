/**
 Purged rows and what a breakdown of a day shows of them: nothing is missing while every
 row of the day and its visit are stored, and a missing one shows in the page breakdown.
 */
module Losses {
  import opened Calendar
  import opened Visits
  import opened Tallies

  /** The tables less some purged rows. */
  function Remaining(t: Tables, goneV: set<nat>, goneP: set<nat>): Tables {
    Tables(KeepVisits(t.visits, goneV), KeepPages(t.pages, goneP))
  }

  predicate RowOn(p: PageRow, site: SiteId, d: int) {
    p.hash.site == site && p.hash.day == d
  }

  /** Every row of the day is stored, and so is its visit. */
  ghost predicate Intact(t: Tables, goneV: set<nat>, goneP: set<nat>, site: SiteId, d: int) {
    forall i :: 0 <= i < |t.pages| && RowOn(t.pages[i], site, d) ==>
      t.pages[i].id !in goneP && t.pages[i].visitId !in goneV
  }

  // ----- nothing is missing while the day is intact -----

  /** A visit bears the number of the pageview that opened it. */
  ghost predicate Rooted(t: Tables) {
    forall i :: 0 <= i < |t.visits| ==> t.visits[i].id < |t.pages| && t.pages[t.visits[i].id].visitId == t.visits[i].id
  }

  lemma {:induction false} ReplayRooted(c: DayStarts, h: seq<Pageview>)
    requires Orderly(c, h)
    ensures Rooted(Replay(h)) && |Replay(h).pages| == |h|
  {
    hide Hashed, Record;
    if h != [] {
      var n := |h| - 1;
      ReplayRooted(c, h[..n]);
      ReplaySound(c, h[..n], h[n].ts);
      RecordRooted(Replay(h[..n]), n, h[n]);
    }
  }

  lemma RecordRooted(t: Tables, n: nat, p: Pageview)
    requires Rooted(t) && Rising(t.visits) && |t.pages| == n
    ensures Rooted(Record(t, n, p)) && |Record(t, n, p).pages| == n + 1
  {
    hide Rising, Record, Matches;
    var k, row := RecordCases(t, n, p);
  }

  /** A row lies on a day exactly when its time does. */
  lemma RowInRange(c: DayStarts, p: PageRow, v: Visit, site: SiteId, d: int)
    requires Advancing(c) && InOneDay(c, v) && RowOf(p, v)
    ensures RowOn(p, site, d) <==> p.site == site && c(site, d) <= p.ts < c(site, d + 1)
  {
    if p.site == site {
      if Within(c, site, d, p.ts) { SameDay(c, site, p.ts, d, v.hash.day); }
    }
  }

  lemma OneIntact(c: DayStarts, t: Tables, goneV: set<nat>, goneP: set<nat>, sel: Selector, d: int, v: Visit)
    requires Advancing(c) && InOneDay(c, v) && RowsOf(v, t.pages)
    requires sel == DaySelector(c, sel.site, d, sel.dim, sel.value)
    requires Intact(t, goneV, goneP, sel.site, d) && v.id < |t.pages| && t.pages[v.id].visitId == v.id
    ensures One(sel, v, KeepPages(t.pages, goneP)) == One(sel, v, t.pages)
    ensures v.id in goneV ==> One(sel, v, t.pages) == NOTHING
  {
    hide Advancing;
    forall i | 0 <= i < |t.pages| && t.pages[i].id in goneP ensures !Hit(sel, v, t.pages[i]) {
      if t.pages[i].visitId == v.id { RowInRange(c, t.pages[i], v, sel.site, d); }
    }
    HitsKept(sel, v, t.pages, goneP);
    assert RowOf(t.pages[v.id], v);
    if v.id in goneV && Member(sel, v, t.pages) {
      MemberOfDay(c, sel, d, v, t.pages);
    }
  }

  lemma {:induction false} GatherIntact(
      c: DayStarts, t: Tables, goneV: set<nat>, goneP: set<nat>, sel: Selector, d: int,
      vs: seq<Visit>)
    requires Advancing(c) && sel == DaySelector(c, sel.site, d, sel.dim, sel.value)
    requires Intact(t, goneV, goneP, sel.site, d)
    requires forall i :: 0 <= i < |vs| ==>
      InOneDay(c, vs[i]) && RowsOf(vs[i], t.pages) && vs[i].id < |t.pages| && t.pages[vs[i].id].visitId == vs[i].id
    ensures Gather(sel, KeepVisits(vs, goneV), KeepPages(t.pages, goneP)) == Gather(sel, vs, t.pages)
  {
    hide One, Member, RowsOf, InOneDay, Intact, Advancing, DaySelector, Join;
    if vs != [] {
      var init, v := vs[..|vs| - 1], Last(vs);
      GatherIntact(c, t, goneV, goneP, sel, d, init);
      OneIntact(c, t, goneV, goneP, sel, d, v);
      var k := KeepVisits(init, goneV);
      assert (k + [v])[..|k|] == k;
      if v.id in goneV { JoinNothing(Gather(sel, init, t.pages)); }
    }
  }

  /** While a day is intact every breakdown of it is that of the full tables. */
  lemma TallyIntact(c: DayStarts, h: seq<Pageview>, now: int, goneV: set<nat>, goneP: set<nat>, sel: Selector, d: int)
    requires Advancing(c) && Orderly(c, h) && forall i :: 0 <= i < |h| ==> h[i].ts <= now
    requires sel == DaySelector(c, sel.site, d, sel.dim, sel.value) && Intact(Replay(h), goneV, goneP, sel.site, d)
    ensures Tally(sel, Remaining(Replay(h), goneV, goneP)) == Tally(sel, Replay(h))
  {
    hide Advancing, Orderly, Intact, DaySelector, Gather, Sound, InOneDay, RowsOf;
    var t := Replay(h);
    ReplaySound(c, h, now);
    SoundIsJoined(c, t, |h|, now);
    ReplayRooted(c, h);
    GatherIntact(c, t, goneV, goneP, sel, d, t.visits);
  }

  // ----- a missing row shows in the page breakdown -----

  /** The stored rows of a day with a path. */
  function Rows(ps: seq<PageRow>, goneV: set<nat>, goneP: set<nat>, site: SiteId, d: int, path: string): nat {
    if ps == [] then 0
    else
      var p := Last(ps);
      Rows(ps[..|ps| - 1], goneV, goneP, site, d, path)
      + if RowOn(p, site, d) && p.path == path && p.id !in goneP && p.visitId !in goneV then 1 else 0
  }

  function SumHits(sel: Selector, vs: seq<Visit>, ps: seq<PageRow>): nat {
    if vs == [] then 0 else SumHits(sel, vs[..|vs| - 1], ps) + Hits(sel, Last(vs), ps)
  }

  lemma {:induction false} GatherCountsHits(sel: Selector, vs: seq<Visit>, ps: seq<PageRow>)
    requires sel.dim.Page?
    ensures Gather(sel, vs, ps).sums.pageviews == SumHits(sel, vs, ps)
  {
    if vs != [] { GatherCountsHits(sel, vs[..|vs| - 1], ps); }
  }

  /** How many of the visits a row counts for. */
  function Owners(sel: Selector, vs: seq<Visit>, p: PageRow): nat {
    if vs == [] then 0 else Owners(sel, vs[..|vs| - 1], p) + if Hit(sel, Last(vs), p) then 1 else 0
  }

  lemma {:induction false} HitsByRow(sel: Selector, vs: seq<Visit>, ps: seq<PageRow>, p: PageRow)
    ensures SumHits(sel, vs, ps + [p]) == SumHits(sel, vs, ps) + Owners(sel, vs, p)
  {
    assert (ps + [p])[..|ps|] == ps;
    if vs != [] { HitsByRow(sel, vs[..|vs| - 1], ps, p); }
  }

  lemma {:induction false} NoOwners(sel: Selector, vs: seq<Visit>, p: PageRow)
    requires forall i :: 0 <= i < |vs| ==> !Hit(sel, vs[i], p)
    ensures Owners(sel, vs, p) == 0
  {
    if vs != [] { NoOwners(sel, vs[..|vs| - 1], p); }
  }

  lemma {:induction false} OneOwner(sel: Selector, vs: seq<Visit>, p: PageRow, k: nat)
    requires Rising(vs) && k < |vs| && Hit(sel, vs[k], p)
    ensures Owners(sel, vs, p) == 1
  {
    var n := |vs| - 1;
    if k == n {
      forall i | 0 <= i < n ensures !Hit(sel, vs[i], p) { assert vs[i].id < vs[n].id; }
      NoOwners(sel, vs[..n], p);
    } else {
      assert vs[k].id < vs[n].id;
      OneOwner(sel, vs[..n], p, k);
    }
  }

  lemma {:induction false} NoSumHits(sel: Selector, vs: seq<Visit>)
    ensures SumHits(sel, vs, []) == 0
  {
    if vs != [] { NoSumHits(sel, vs[..|vs| - 1]); }
  }

  lemma {:induction false} KeepRising(vs: seq<Visit>, gone: set<nat>)
    requires Rising(vs)
    ensures Rising(KeepVisits(vs, gone))
    ensures forall v :: v in KeepVisits(vs, gone) <==> v in vs && v.id !in gone
  {
    if vs != [] {
      var init := vs[..|vs| - 1];
      KeepRising(init, gone);
      assert vs == init + [Last(vs)];
      var kept := KeepVisits(init, gone);
      forall i | 0 <= i < |kept| ensures kept[i].id < Last(vs).id { assert kept[i] in kept; }
    }
  }

  /** A stored row counts once, for its visit, when both are of the day and stored. */
  lemma RowCounts(c: DayStarts, t: Tables, goneV: set<nat>, sel: Selector, d: int, p: PageRow)
    requires Advancing(c) && Rising(t.visits) && (forall i :: 0 <= i < |t.visits| ==> InOneDay(c, t.visits[i]))
    requires Owned(p, t.visits) && sel == DaySelector(c, sel.site, d, Page, sel.value)
    ensures Owners(sel, KeepVisits(t.visits, goneV), p)
         == if RowOn(p, sel.site, d) && p.path == sel.value && p.visitId !in goneV then 1 else 0
  {
    hide Advancing, InOneDay, KeepVisits, Owners;
    KeepRising(t.visits, goneV);
    var kept := KeepVisits(t.visits, goneV);
    var m :| 0 <= m < |t.visits| && RowOf(p, t.visits[m]);
    RowInRange(c, p, t.visits[m], sel.site, d);
    if RowOn(p, sel.site, d) && p.path == sel.value && p.visitId !in goneV {
      assert t.visits[m] in kept;
      var k :| 0 <= k < |kept| && kept[k] == t.visits[m];
      OneOwner(sel, kept, p, k);
    } else {
      forall i | 0 <= i < |kept| ensures !Hit(sel, kept[i], p) { assert kept[i] in kept; }
      NoOwners(sel, kept, p);
    }
  }

  lemma {:induction false} HitsAreRows(
      c: DayStarts, t: Tables, goneV: set<nat>, goneP: set<nat>, sel: Selector, d: int, n: nat)
    requires Advancing(c) && Rising(t.visits) && (forall i :: 0 <= i < |t.visits| ==> InOneDay(c, t.visits[i]))
    requires n <= |t.pages| && (forall i :: 0 <= i < |t.pages| ==> Owned(t.pages[i], t.visits))
    requires sel == DaySelector(c, sel.site, d, Page, sel.value)
    ensures SumHits(sel, KeepVisits(t.visits, goneV), KeepPages(t.pages[..n], goneP))
         == Rows(t.pages[..n], goneV, goneP, sel.site, d, sel.value)
  {
    hide Advancing, InOneDay, Rising, Owned, DaySelector, KeepVisits, SumHits, Owners, RowOn;
    var vs := KeepVisits(t.visits, goneV);
    if n == 0 {
      NoSumHits(sel, vs);
    } else {
      var ps, p := t.pages[..n], t.pages[n - 1];
      assert ps[..n - 1] == t.pages[..n - 1];
      HitsAreRows(c, t, goneV, goneP, sel, d, n - 1);
      RowCounts(c, t, goneV, sel, d, p);
      HitsByRow(sel, vs, KeepPages(ps[..n - 1], goneP), p);
    }
  }

  /** A page's count on a day is the number of its stored rows. */
  lemma PageCount(
      c: DayStarts, h: seq<Pageview>, now: int, goneV: set<nat>, goneP: set<nat>, site: SiteId,
      d: int, path: string)
    requires Advancing(c) && Orderly(c, h) && forall i :: 0 <= i < |h| ==> h[i].ts <= now
    ensures Tally(DaySelector(c, site, d, Page, path), Remaining(Replay(h), goneV, goneP)).pageviews
         == Rows(Replay(h).pages, goneV, goneP, site, d, path)
  {
    hide Advancing, Orderly, InOneDay, Rising, Owned, Rows, SumHits, KeepVisits, KeepPages;
    var t := Replay(h);
    var sel := DaySelector(c, site, d, Page, path);
    ReplaySound(c, h, now);
    assert t.pages[..|t.pages|] == t.pages;
    HitsAreRows(c, t, goneV, goneP, sel, d, |t.pages|);
    GatherCountsHits(sel, KeepVisits(t.visits, goneV), KeepPages(t.pages, goneP));
  }

  /** Losing rows, or having fewer, never raises a count; a row of the path that is missing lowers it. */
  lemma {:induction false} FewerRows(
      ps: seq<PageRow>, k: nat, goneV: set<nat>, goneP: set<nat>, site: SiteId, d: int,
      path: string)
    requires k <= |ps|
    ensures Rows(ps[..k], goneV, goneP, site, d, path) <= Rows(ps, {}, {}, site, d, path)
    ensures (exists i :: 0 <= i < |ps| && RowOn(ps[i], site, d) && ps[i].path == path
               && (k <= i || ps[i].id in goneP || ps[i].visitId in goneV)) ==>
      Rows(ps[..k], goneV, goneP, site, d, path) < Rows(ps, {}, {}, site, d, path)
    decreases ps
  {
    if ps != [] {
      var n := |ps| - 1;
      var init := ps[..n];
      if k <= n {
        FewerRows(init, k, goneV, goneP, site, d, path);
        assert init[..k] == ps[..k];
      } else {
        FewerRows(init, n, goneV, goneP, site, d, path);
        assert init[..n] == init && ps[..k] == ps;
      }
      assert forall i :: 0 <= i < n ==> init[i] == ps[i];
    }
  }

  // ----- totals -----

  /** Losing visits never raises a total. */
  lemma {:induction false} TotalShrinks(
      sel: Selector, vs: seq<Visit>, ps: seq<PageRow>, goneV: set<nat>, goneP: set<nat>)
    requires sel.dim == Total && sel.filters == []
    ensures Gather(sel, KeepVisits(vs, goneV), KeepPages(ps, goneP)).sums.pageviews
         <= Gather(sel, vs, ps).sums.pageviews
  {
    hide One;
    if vs != [] {
      TotalShrinks(sel, vs[..|vs| - 1], ps, goneV, goneP);
      var k := KeepVisits(vs[..|vs| - 1], goneV);
      assert (k + [Last(vs)])[..|k|] == k;
      AlikeAlone(sel, Last(vs), ps, KeepPages(ps, goneP));
    }
  }

  /** Without filters a visit counts alike whatever rows are stored. */
  lemma AlikeAlone(sel: Selector, v: Visit, ps: seq<PageRow>, qs: seq<PageRow>)
    requires sel.dim == Total && sel.filters == []
    ensures One(sel, v, ps) == One(sel, v, qs) && One(sel, v, ps).sums.pageviews >= 0
  {
  }
}
