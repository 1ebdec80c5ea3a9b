/**
 What a breakdown counts (internal/analytics/infrastructure/query.go, rawRowsSQL):
 visits of a range grouped by a visit column, or the visits that viewed a page.
 */
module Tallies {
  import opened Calendar
  import opened Visits

  /** The breakdowns kept by the daily aggregates; `Attr` is any other visit column. */
  datatype Dimension = Total | Page | Entry | Exit | Attr(name: string)

  const ATTRS: seq<string> := [
    "channel", "source", "utm_source", "utm_medium", "utm_campaign", "utm_content", "utm_term", "country",
    "region", "browser", "browser_version", "os", "os_version", "device", "screen", "hostname"]

  function Dimensions(): seq<Dimension> {
    [Total, Page, Entry, Exit] + seq(|ATTRS|, i requires 0 <= i < |ATTRS| => Attr(ATTRS[i]))
  }

  function Column(v: Visit, dim: Dimension): string {
    match dim
    case Total => ""
    case Page => ""
    case Entry => v.entryPath
    case Exit => v.exitPath
    case Attr(name) => if name in v.attrs then v.attrs[name] else ""
  }

  datatype Operator = Is | IsNot | Contains

  datatype Filter = Filter(dim: Dimension, op: Operator, values: seq<string>)

  function Lower(c: char): char {
    if 'A' <= c <= 'Z' then c - 'A' + 'a' else c
  }

  function Folded(s: string): string {
    seq(|s|, i requires 0 <= i < |s| => Lower(s[i]))
  }

  predicate Substring(part: string, s: string) {
    exists k | 0 <= k <= |s| :: part <= s[k..]
  }

  /** SQLite's IN, NOT IN and (ASCII case-insensitive) LIKE '%value%'. */
  predicate Match(f: Filter, s: string) {
    match f.op
    case Is => s in f.values
    case IsNot => s !in f.values
    case Contains => exists v | v in f.values :: Substring(Folded(v), Folded(s))
  }

  datatype Counts = Counts(visitors: int, visits: int, pageviews: int, bounces: int, durationMs: int)

  const ZERO := Counts(0, 0, 0, 0, 0)

  function Add(a: Counts, b: Counts): Counts {
    Counts(a.visitors + b.visitors, a.visits + b.visits, a.pageviews + b.pageviews,
           a.bounces + b.bounces, a.durationMs + b.durationMs)
  }

  /** One group of a breakdown: the rows of a site in [from, to) whose dimension has the value. */
  datatype Selector = Selector(site: SiteId, dim: Dimension, value: string, from: int, to: int, filters: seq<Filter>)

  // ----- the meaning of the SQL -----

  /** EXISTS (SELECT 1 FROM pageviews pf WHERE pf.visit_id = v.id AND ...). */
  predicate Viewed(f: Filter, id: nat, pages: seq<PageRow>) {
    pages != [] && (Viewed(f, id, pages[..|pages| - 1]) || (Last(pages).visitId == id && Match(f, Last(pages).path)))
  }

  predicate VisitPasses(fs: seq<Filter>, v: Visit, pages: seq<PageRow>) {
    forall i | 0 <= i < |fs| ::
      if fs[i].dim.Page? then Viewed(fs[i], v.id, pages) else Match(fs[i], Column(v, fs[i].dim))
  }

  predicate PagePasses(fs: seq<Filter>, v: Visit, path: string) {
    forall i | 0 <= i < |fs| ::
      if fs[i].dim.Page? then Match(fs[i], path) else Match(fs[i], Column(v, fs[i].dim))
  }

  /** A joined pageview row of the page breakdown. */
  predicate Hit(sel: Selector, v: Visit, p: PageRow) {
    && p.visitId == v.id && p.site == sel.site && sel.from <= p.ts < sel.to && p.path == sel.value
    && PagePasses(sel.filters, v, p.path)
  }

  /** COUNT(*) of the (page, visit) group. */
  function Hits(sel: Selector, v: Visit, pages: seq<PageRow>): nat {
    if pages == [] then 0
    else Hits(sel, v, pages[..|pages| - 1]) + (if Hit(sel, v, Last(pages)) then 1 else 0)
  }

  predicate Member(sel: Selector, v: Visit, pages: seq<PageRow>) {
    if sel.dim.Page? then Hits(sel, v, pages) > 0
    else
      && v.site == sel.site && sel.from <= v.startedAt < sel.to && Column(v, sel.dim) == sel.value
      && VisitPasses(sel.filters, v, pages)
  }

  function Weight(sel: Selector, v: Visit, pages: seq<PageRow>): nat {
    if sel.dim.Page? then Hits(sel, v, pages) else v.pageviews
  }

  /** Sums together with the visitor hashes seen, so that COUNT(DISTINCT ...) can be taken last. */
  datatype Part = Part(sums: Counts, hashes: set<Hash>)

  const NOTHING := Part(ZERO, {})

  function Join(a: Part, b: Part): Part {
    Part(Add(a.sums, b.sums), a.hashes + b.hashes)
  }

  function One(sel: Selector, v: Visit, pages: seq<PageRow>): Part {
    if Member(sel, v, pages) then
      Part(Counts(0, 1, Weight(sel, v, pages), if v.pageviews == 1 then 1 else 0, v.lastAt - v.startedAt), {v.hash})
    else NOTHING
  }

  function Gather(sel: Selector, vs: seq<Visit>, pages: seq<PageRow>): Part {
    if vs == [] then NOTHING
    else Join(Gather(sel, vs[..|vs| - 1], pages), One(sel, Last(vs), pages))
  }

  function Tally(sel: Selector, t: Tables): Counts {
    var g := Gather(sel, t.visits, t.pages);
    g.sums.(visitors := |g.hashes|)
  }

  lemma {:induction false} GatherPointwise(
      sel: Selector, vs: seq<Visit>, pages: seq<PageRow>, us: seq<Visit>, qages: seq<PageRow>)
    requires |vs| == |us|
    requires forall i :: 0 <= i < |vs| ==> One(sel, vs[i], pages) == One(sel, us[i], qages)
    ensures Gather(sel, vs, pages) == Gather(sel, us, qages)
  {
    if vs != [] {
      var n := |vs| - 1;
      GatherPointwise(sel, vs[..n], pages, us[..n], qages);
      assert One(sel, vs[n], pages) == One(sel, us[n], qages);
    }
  }

  // ----- additivity over days -----

  ghost predicate RowsOf(v: Visit, pages: seq<PageRow>) {
    forall i :: 0 <= i < |pages| && pages[i].visitId == v.id ==> RowOf(pages[i], v)
  }

  /** Rows and visits that agree and that each lie in one site day. */
  ghost predicate Joined(c: DayStarts, t: Tables) {
    forall i :: 0 <= i < |t.visits| ==> InOneDay(c, t.visits[i]) && RowsOf(t.visits[i], t.pages)
  }

  lemma SoundIsJoined(c: DayStarts, t: Tables, n: nat, now: int)
    requires Sound(c, t, n, now)
    ensures Joined(c, t)
  {
    forall i, k | 0 <= i < |t.visits| && 0 <= k < |t.pages| && t.pages[k].visitId == t.visits[i].id
      ensures RowOf(t.pages[k], t.visits[i])
    {
      assert t.pages[k].id == k && Owned(t.pages[k], t.visits);
      var m :| 0 <= m < |t.visits| && RowOf(t.pages[k], t.visits[m]);
      assert m < i || i < m || m == i;
    }
  }

  /** A visit of the site is wholly before a day's start or wholly after it, as its hash says. */
  lemma OneSide(c: DayStarts, v: Visit, d: int)
    requires Advancing(c) && InOneDay(c, v)
    ensures v.hash.day < d <==> v.startedAt < c(v.site, d)
    ensures v.hash.day < d <==> v.lastAt < c(v.site, d)
  {
    var e := v.hash.day;
    if e < d && e + 1 != d { assert c(v.site, e + 1) < c(v.site, d); }
    if d < e { assert c(v.site, d) < c(v.site, e); }
  }

  lemma {:induction false} HitsAdd(sel: Selector, mid: int, v: Visit, pages: seq<PageRow>)
    requires sel.from <= mid <= sel.to
    ensures Hits(sel, v, pages) == Hits(sel.(to := mid), v, pages) + Hits(sel.(from := mid), v, pages)
  {
    if pages != [] { HitsAdd(sel, mid, v, pages[..|pages| - 1]); }
  }

  lemma {:induction false} NoHits(sel: Selector, v: Visit, pages: seq<PageRow>)
    requires forall i :: 0 <= i < |pages| ==> !Hit(sel, v, pages[i])
    ensures Hits(sel, v, pages) == 0
  {
    if pages != [] { NoHits(sel, v, pages[..|pages| - 1]); }
  }

  /** A visit outside the range, or of another site, has no row in it. */
  lemma NoHitsElsewhere(sel: Selector, v: Visit, pages: seq<PageRow>)
    requires RowsOf(v, pages)
    requires v.site != sel.site || v.lastAt < sel.from || sel.to <= v.startedAt
    ensures Hits(sel, v, pages) == 0
  {
    hide PagePasses;
    NoHits(sel, v, pages);
  }

  /** Where a visit counts once the range is cut: on the side of its day, as it counted before. */
  lemma MemberSplits(c: DayStarts, sel: Selector, d: int, v: Visit, pages: seq<PageRow>)
    requires Advancing(c) && InOneDay(c, v) && RowsOf(v, pages)
    requires sel.from <= c(sel.site, d) <= sel.to
    ensures var l, r := sel.(to := c(sel.site, d)), sel.(from := c(sel.site, d));
      && (v.hash.day < d ==>
           && Member(l, v, pages) == Member(sel, v, pages) && !Member(r, v, pages)
           && Weight(l, v, pages) == Weight(sel, v, pages))
      && (d <= v.hash.day ==>
           && Member(r, v, pages) == Member(sel, v, pages) && !Member(l, v, pages)
           && Weight(r, v, pages) == Weight(sel, v, pages))
  {
    hide RowsOf, VisitPasses, Advancing, InOneDay;
    OneSide(c, v, d);
    if sel.dim.Page? {
      HitsAdd(sel, c(sel.site, d), v, pages);
      if v.site != sel.site || v.hash.day < d { NoHitsElsewhere(sel.(from := c(sel.site, d)), v, pages); }
      if v.site != sel.site || d <= v.hash.day { NoHitsElsewhere(sel.(to := c(sel.site, d)), v, pages); }
    }
  }

  lemma OneSplits(c: DayStarts, sel: Selector, d: int, v: Visit, pages: seq<PageRow>)
    requires Advancing(c) && InOneDay(c, v) && RowsOf(v, pages)
    requires sel.from <= c(sel.site, d) <= sel.to
    ensures var l, r := One(sel.(to := c(sel.site, d)), v, pages), One(sel.(from := c(sel.site, d)), v, pages);
      One(sel, v, pages) == Join(l, r) && Sided(l, r, d)
  {
    hide Member, Weight, RowsOf, Advancing, InOneDay, Join;
    MemberSplits(c, sel, d, v, pages);
    JoinNothing(One(sel, v, pages));
  }

  /** Left hashes before the day, right ones from it on. */
  ghost predicate Sided(l: Part, r: Part, d: int) {
    && (forall x :: x in l.hashes ==> x.day < d)
    && (forall x :: x in r.hashes ==> d <= x.day)
  }

  lemma JoinNothing(a: Part)
    ensures Join(a, NOTHING) == a == Join(NOTHING, a)
  {
    assert a.hashes + {} == a.hashes == {} + a.hashes;
  }

  lemma JoinShuffles(a: Part, b: Part, x: Part, y: Part, d: int)
    requires Sided(a, b, d) && Sided(x, y, d)
    ensures Join(Join(a, b), Join(x, y)) == Join(Join(a, x), Join(b, y))
    ensures Sided(Join(a, x), Join(b, y), d)
  {
    JoinReorders(a, b, x, y);
  }

  lemma JoinReorders(a: Part, b: Part, x: Part, y: Part)
    ensures Join(Join(a, b), Join(x, y)) == Join(Join(a, x), Join(b, y))
  {
    assert (a.hashes + b.hashes) + (x.hashes + y.hashes) == (a.hashes + x.hashes) + (b.hashes + y.hashes);
  }

  lemma NothingSided(d: int)
    ensures Sided(NOTHING, NOTHING, d)
  {
  }

  lemma {:induction false} GatherSplits(c: DayStarts, sel: Selector, d: int, vs: seq<Visit>, pages: seq<PageRow>)
    requires Advancing(c)
    requires forall i :: 0 <= i < |vs| ==> InOneDay(c, vs[i]) && RowsOf(vs[i], pages)
    requires sel.from <= c(sel.site, d) <= sel.to
    ensures var l, r := Gather(sel.(to := c(sel.site, d)), vs, pages), Gather(sel.(from := c(sel.site, d)), vs, pages);
      Gather(sel, vs, pages) == Join(l, r) && Sided(l, r, d)
  {
    hide RowsOf, One, InOneDay, Advancing, Join, Sided;
    var l, r := sel.(to := c(sel.site, d)), sel.(from := c(sel.site, d));
    if vs == [] {
      JoinNothing(NOTHING);
      NothingSided(d);
    } else {
      var init, v := vs[..|vs| - 1], Last(vs);
      GatherSplits(c, sel, d, init, pages);
      OneSplits(c, sel, d, v, pages);
      JoinShuffles(Gather(l, init, pages), Gather(r, init, pages), One(l, v, pages), One(r, v, pages), d);
    }
  }

  /**
   Every count of every breakdown, distinct visitors and page groups included, is
   additive when a range is cut at the start of a day.
   */
  lemma TallySplits(c: DayStarts, sel: Selector, d: int, t: Tables)
    requires Advancing(c) && Joined(c, t)
    requires sel.from <= c(sel.site, d) <= sel.to
    ensures var mid := c(sel.site, d);
      Tally(sel, t) == Add(Tally(sel.(to := mid), t), Tally(sel.(from := mid), t))
  {
    hide RowsOf, InOneDay, Advancing, Gather;
    var mid := c(sel.site, d);
    GatherSplits(c, sel, d, t.visits, t.pages);
    var l, r := Gather(sel.(to := mid), t.visits, t.pages).hashes, Gather(sel.(from := mid), t.visits, t.pages).hashes;
    assert l !! r;
    assert |l + r| == |l| + |r|;
  }

  // ----- rows that were purged do not matter above the cut -----

  function KeepVisits(vs: seq<Visit>, gone: set<nat>): seq<Visit> {
    if vs == [] then []
    else if Last(vs).id in gone then KeepVisits(vs[..|vs| - 1], gone)
    else KeepVisits(vs[..|vs| - 1], gone) + [Last(vs)]
  }

  function KeepPages(ps: seq<PageRow>, gone: set<nat>): seq<PageRow> {
    if ps == [] then []
    else if Last(ps).id in gone then KeepPages(ps[..|ps| - 1], gone)
    else KeepPages(ps[..|ps| - 1], gone) + [Last(ps)]
  }

  ghost predicate GoneBelow(t: Tables, visits: set<nat>, pages: set<nat>, floor: int) {
    && (forall i :: 0 <= i < |t.visits| && t.visits[i].id in visits ==> t.visits[i].lastAt < floor)
    && (forall i :: 0 <= i < |t.pages| && t.pages[i].id in pages ==> t.pages[i].ts < floor)
  }

  lemma {:induction false} HitsKept(sel: Selector, v: Visit, ps: seq<PageRow>, gone: set<nat>)
    requires forall i :: 0 <= i < |ps| && ps[i].id in gone ==> !Hit(sel, v, ps[i])
    ensures Hits(sel, v, KeepPages(ps, gone)) == Hits(sel, v, ps)
  {
    if ps != [] {
      var init := ps[..|ps| - 1];
      HitsKept(sel, v, init, gone);
      var k := KeepPages(init, gone);
      assert (k + [Last(ps)])[..|k|] == k;
    }
  }

  lemma {:induction false} ViewedKept(f: Filter, id: nat, ps: seq<PageRow>, gone: set<nat>)
    requires forall i :: 0 <= i < |ps| && ps[i].visitId == id ==> ps[i].id !in gone
    ensures Viewed(f, id, KeepPages(ps, gone)) == Viewed(f, id, ps)
  {
    if ps != [] {
      var init := ps[..|ps| - 1];
      ViewedKept(f, id, init, gone);
      var k := KeepPages(init, gone);
      assert (k + [Last(ps)])[..|k|] == k;
    }
  }

  lemma OneKept(c: DayStarts, sel: Selector, v: Visit, ps: seq<PageRow>, gone: set<nat>, floor: int)
    requires InOneDay(c, v) && RowsOf(v, ps) && floor <= sel.from
    requires forall i :: 0 <= i < |ps| && ps[i].id in gone ==> ps[i].ts < floor
    ensures One(sel, v, KeepPages(ps, gone)) == One(sel, v, ps)
    ensures v.lastAt < floor ==> One(sel, v, ps) == NOTHING
  {
    if sel.dim.Page? {
      HitsKept(sel, v, ps, gone);
      if v.lastAt < floor { NoHits(sel, v, ps); }
    } else if sel.from <= v.startedAt {
      forall i | 0 <= i < |sel.filters| && sel.filters[i].dim.Page?
        ensures Viewed(sel.filters[i], v.id, KeepPages(ps, gone)) == Viewed(sel.filters[i], v.id, ps)
      {
        ViewedKept(sel.filters[i], v.id, ps, gone);
      }
    }
  }

  lemma {:induction false} GatherKept(
      c: DayStarts, sel: Selector, vs: seq<Visit>, ps: seq<PageRow>, goneV: set<nat>,
      goneP: set<nat>, floor: int)
    requires forall i :: 0 <= i < |vs| ==> InOneDay(c, vs[i]) && RowsOf(vs[i], ps)
    requires GoneBelow(Tables(vs, ps), goneV, goneP, floor) && floor <= sel.from
    ensures Gather(sel, KeepVisits(vs, goneV), KeepPages(ps, goneP)) == Gather(sel, vs, ps)
  {
    hide One, Member, RowsOf, InOneDay;
    if vs != [] {
      var init, v := vs[..|vs| - 1], Last(vs);
      GatherKept(c, sel, init, ps, goneV, goneP, floor);
      OneKept(c, sel, v, ps, goneP, floor);
      var k := KeepVisits(init, goneV);
      assert (k + [v])[..|k|] == k;
      if v.id in goneV { JoinNothing(Gather(sel, init, ps)); }
    }
  }

  /** Purging rows older than `floor` changes no breakdown, filtered or not, of a range that starts at or after it. */
  lemma TallyKept(c: DayStarts, sel: Selector, t: Tables, goneV: set<nat>, goneP: set<nat>, floor: int)
    requires Joined(c, t) && GoneBelow(t, goneV, goneP, floor) && floor <= sel.from
    ensures Tally(sel, Tables(KeepVisits(t.visits, goneV), KeepPages(t.pages, goneP))) == Tally(sel, t)
  {
    GatherKept(c, sel, t.visits, t.pages, goneV, goneP, floor);
  }

  // ----- later pageviews of other days do not matter -----

  function DaySelector(c: DayStarts, site: SiteId, d: int, dim: Dimension, value: string): Selector {
    Selector(site, dim, value, c(site, d), c(site, d + 1), [])
  }

  /** A pageview of the site on the day, as its hash says. */
  predicate On(p: Pageview, site: SiteId, d: int) {
    p.hash.site == site && p.hash.day == d
  }

  /** A moment lies in one day only. */
  lemma SameDay(c: DayStarts, s: SiteId, t: int, d: int, e: int)
    requires Advancing(c) && Within(c, s, d, t) && Within(c, s, e, t)
    ensures d == e
  {
    DayIs(c, s, t, d);
    DayIs(c, s, t, e);
  }

  lemma MemberOfDay(c: DayStarts, sel: Selector, d: int, v: Visit, pages: seq<PageRow>)
    requires Advancing(c) && InOneDay(c, v) && RowsOf(v, pages)
    requires sel == DaySelector(c, sel.site, d, sel.dim, sel.value)
    requires Member(sel, v, pages)
    ensures v.site == sel.site && v.hash.day == d
  {
    hide RowsOf, VisitPasses;
    OneSide(c, v, d);
    OneSide(c, v, d + 1);
    if sel.dim.Page? && (v.site != sel.site || v.hash.day != d) { NoHitsElsewhere(sel, v, pages); }
  }

  /** The breakdown of a site day, under any filters. */
  predicate OfDay(c: DayStarts, sel: Selector, d: int) {
    sel.from == c(sel.site, d) && sel.to == c(sel.site, d + 1)
  }

  lemma {:induction false} ViewedUntouched(f: Filter, id: nat, pages: seq<PageRow>, row: PageRow)
    requires row.visitId != id
    ensures Viewed(f, id, pages + [row]) == Viewed(f, id, pages)
  {
    assert (pages + [row])[..|pages|] == pages;
  }

  /** A visit of another day does not count, whatever was added to it. */
  lemma OtherDay(c: DayStarts, sel: Selector, d: int, v: Visit, pages: seq<PageRow>)
    requires Advancing(c) && InOneDay(c, v) && OfDay(c, sel, d) && !(v.site == sel.site && v.hash.day == d)
    requires forall i :: 0 <= i < |pages| && pages[i].visitId == v.id ==>
      !(pages[i].site == sel.site && sel.from <= pages[i].ts < sel.to)
    ensures One(sel, v, pages) == NOTHING
    ensures forall u: Visit :: u.id == v.id && u.site == v.site && u.startedAt == v.startedAt ==>
      One(sel, u, pages) == NOTHING
  {
    OneSide(c, v, d);
    OneSide(c, v, d + 1);
    forall u: Visit | u.id == v.id && u.site == v.site && u.startedAt == v.startedAt
      ensures One(sel, u, pages) == NOTHING
    {
      if sel.dim.Page? { NoHits(sel, u, pages); }
    }
  }

  /** A visit of the day counts as before when a row of another visit is added. */
  lemma OwnDay(sel: Selector, v: Visit, pages: seq<PageRow>, row: PageRow)
    requires row.visitId != v.id
    ensures One(sel, v, pages + [row]) == One(sel, v, pages)
  {
    assert (pages + [row])[..|pages|] == pages;
    forall i | 0 <= i < |sel.filters| && sel.filters[i].dim.Page?
      ensures Viewed(sel.filters[i], v.id, pages + [row]) == Viewed(sel.filters[i], v.id, pages)
    {
      ViewedUntouched(sel.filters[i], v.id, pages, row);
    }
  }

  lemma OneUntouched(c: DayStarts, sel: Selector, d: int, v: Visit, pages: seq<PageRow>, row: PageRow, p: Pageview)
    requires Advancing(c) && InOneDay(c, v) && RowsOf(v, pages) && Hashed(c, p) && !On(p, sel.site, d)
    requires OfDay(c, sel, d)
    requires row.site == p.site && row.ts == p.ts && (row.visitId == v.id ==> v.hash == p.hash)
    ensures One(sel, v, pages + [row]) == One(sel, v, pages)
    ensures v.hash == p.hash ==> One(sel, Continue(v, p), pages + [row]) == One(sel, v, pages)
  {
    hide One, Advancing, Hashed;
    NotOnDay(c, sel, d, p);
    if v.site == sel.site && v.hash.day == d {
      OwnDay(sel, v, pages, row);
    } else {
      OneSide(c, v, d);
      OneSide(c, v, d + 1);
      forall i | 0 <= i < |pages + [row]| && (pages + [row])[i].visitId == v.id
        ensures !((pages + [row])[i].site == sel.site && sel.from <= (pages + [row])[i].ts < sel.to)
      {
        if i < |pages| { assert RowOf(pages[i], v); }
      }
      forall i | 0 <= i < |pages| && pages[i].visitId == v.id
        ensures !(pages[i].site == sel.site && sel.from <= pages[i].ts < sel.to)
      {
        assert RowOf(pages[i], v);
      }
      OtherDay(c, sel, d, v, pages + [row]);
      OtherDay(c, sel, d, v, pages);
    }
  }

  lemma NotOnDay(c: DayStarts, sel: Selector, d: int, p: Pageview)
    requires Advancing(c) && Hashed(c, p) && !On(p, sel.site, d) && OfDay(c, sel, d)
    ensures !(p.site == sel.site && sel.from <= p.ts < sel.to)
  {
    if p.site == sel.site && Within(c, sel.site, d, p.ts) { SameDay(c, sel.site, p.ts, d, p.hash.day); }
  }

  lemma OpenUntouched(c: DayStarts, sel: Selector, d: int, t: Tables, n: nat, p: Pageview, row: PageRow)
    requires Advancing(c) && AllOwned(t) && Hashed(c, p) && !On(p, sel.site, d) && OfDay(c, sel, d)
    requires forall i :: 0 <= i < |t.visits| ==> t.visits[i].id < n
    requires row.site == p.site && row.ts == p.ts
    ensures One(sel, Open(n, p), t.pages + [row]) == NOTHING
  {
    hide Advancing, Hashed, RowOf, VisitPasses, PagePasses;
    var v, pages := Open(n, p), t.pages + [row];
    NotOnDay(c, sel, d, p);
    forall i | 0 <= i < |pages| ensures !Hit(sel, v, pages[i]) {
      if i < |t.pages| { NotYetUsed(t, n, i); }
    }
    NoHits(sel, v, pages);
  }

  lemma NotYetUsed(t: Tables, n: nat, i: nat)
    requires AllOwned(t) && i < |t.pages|
    requires forall i :: 0 <= i < |t.visits| ==> t.visits[i].id < n
    ensures t.pages[i].visitId != n
  {
    assert t.pages[i].id == i && Owned(t.pages[i], t.visits);
  }

  /** Recording a pageview of another day or site leaves every breakdown of the day, filtered or not, as it was. */
  lemma DayUndisturbed(c: DayStarts, sel: Selector, d: int, t: Tables, n: nat, p: Pageview)
    requires Advancing(c) && Sound(c, t, n, p.ts) && Hashed(c, p) && !On(p, sel.site, d) && OfDay(c, sel, d)
    ensures Tally(sel, Record(t, n, p)) == Tally(sel, t)
  {
    hide Advancing, Hashed, One, Join, Rising, Apart, AllOwned, InOneDay, RowsOf, On, OfDay, Record, Matches, Continue;
    SoundIsJoined(c, t, n, p.ts);
    var k, row := RecordCases(t, n, p);
    var pages := t.pages + [row];
    var us := if k < 0 then t.visits else t.visits[k := Continue(t.visits[k], p)];
    forall i | 0 <= i < |t.visits| ensures One(sel, us[i], pages) == One(sel, t.visits[i], t.pages) {
      RowOfMatch(t.visits, n, p, k, row, i);
      OneUntouched(c, sel, d, t.visits[i], t.pages, row, p);
    }
    GatherPointwise(sel, us, pages, t.visits, t.pages);
    if k < 0 {
      assert (t.visits + [Open(n, p)])[..|t.visits|] == t.visits;
      OpenUntouched(c, sel, d, t, n, p, row);
      JoinNothing(Gather(sel, t.visits, pages));
    }
  }

  /** The new row points to the visit it continues and to no other. */
  lemma RowOfMatch(vs: seq<Visit>, n: nat, p: Pageview, k: int, row: PageRow, i: nat)
    requires Rising(vs) && i < |vs| && k < |vs| && forall j :: 0 <= j < |vs| ==> vs[j].id < n
    requires row.visitId == if k < 0 then n else vs[k].id
    requires 0 <= k ==> Matches(vs[k], p.site, p.hash, p.ts - VISIT_IDLE)
    ensures row.visitId == vs[i].id ==> i == k
    ensures i == k ==> vs[i].hash == p.hash
  {
    assert k < i || i < k || i == k;
  }

  // ----- the total counts pageviews -----

  /** How many pageviews of a history fall on a site's day. */
  function CountOn(h: seq<Pageview>, site: SiteId, d: int): nat {
    if h == [] then 0 else CountOn(h[..|h| - 1], site, d) + (if On(Last(h), site, d) then 1 else 0)
  }

  lemma {:induction false} PageviewsReplaced(sel: Selector, vs: seq<Visit>, ps: seq<PageRow>, k: nat, w: Visit)
    requires k < |vs| && Member(sel, vs[k], ps) && Member(sel, w, ps)
    ensures Gather(sel, vs[k := w], ps).sums.pageviews
         == Gather(sel, vs, ps).sums.pageviews - Weight(sel, vs[k], ps) + Weight(sel, w, ps)
  {
    var n := |vs| - 1;
    if k < n {
      PageviewsReplaced(sel, vs[..n], ps, k, w);
      assert vs[k := w][..n] == vs[..n][k := w];
    } else {
      assert vs[k := w][..n] == vs[..n];
    }
  }

  lemma {:induction false} PagesIrrelevant(sel: Selector, vs: seq<Visit>, ps: seq<PageRow>, qs: seq<PageRow>)
    requires !sel.dim.Page? && sel.filters == []
    ensures Gather(sel, vs, ps) == Gather(sel, vs, qs)
  {
    if vs != [] { PagesIrrelevant(sel, vs[..|vs| - 1], ps, qs); }
  }

  /** The day's total counts exactly the pageviews recorded on it: visits' counters never drift. */
  lemma {:induction false} TotalCountsPageviews(c: DayStarts, h: seq<Pageview>, site: SiteId, d: int)
    requires Advancing(c) && Orderly(c, h)
    ensures Tally(DaySelector(c, site, d, Total, ""), Replay(h)).pageviews == CountOn(h, site, d)
  {
    hide Advancing, Hashed, Record, DaySelector;
    if h != [] {
      hide Tally;
      var n := |h| - 1;
      TotalCountsPageviews(c, h[..n], site, d);
      ReplaySound(c, h[..n], h[n].ts);
      TotalStep(c, site, d, Replay(h[..n]), n, h[n]);
    }
  }

  lemma TotalStep(c: DayStarts, site: SiteId, d: int, t: Tables, n: nat, p: Pageview)
    requires Advancing(c) && Sound(c, t, n, p.ts) && Hashed(c, p)
    ensures var sel := DaySelector(c, site, d, Total, "");
      Tally(sel, Record(t, n, p)).pageviews == Tally(sel, t).pageviews + if On(p, site, d) then 1 else 0
  {
    hide Advancing, Sound, Hashed, On, Tally, Record;
    if On(p, site, d) {
      CountedOnce(c, site, d, t, n, p);
    } else {
      DayUndisturbed(c, DaySelector(c, site, d, Total, ""), d, t, n, p);
    }
  }

  lemma CountedOnce(c: DayStarts, site: SiteId, d: int, t: Tables, n: nat, p: Pageview)
    requires Advancing(c) && Sound(c, t, n, p.ts) && Hashed(c, p) && On(p, site, d)
    ensures var sel := DaySelector(c, site, d, Total, "");
      Tally(sel, Record(t, n, p)).pageviews == Tally(sel, t).pageviews + 1
  {
    hide Advancing, Rising, Apart, AllOwned, Member, DaySelector, Record;
    var sel := DaySelector(c, site, d, Total, "");
    DayTotalMembers(c, site, d, sel);
    var k, row := RecordCases(t, n, p);
    if k < 0 {
      PagesIrrelevant(sel, t.visits + [Open(n, p)], t.pages + [row], t.pages);
      assert (t.visits + [Open(n, p)])[..|t.visits|] == t.visits;
      DayTotalMember(c, site, d, Open(n, p), t.pages);
    } else {
      var w := Continue(t.visits[k], p);
      PagesIrrelevant(sel, t.visits[k := w], t.pages + [row], t.pages);
      DayTotalMember(c, site, d, t.visits[k], t.pages);
      DayTotalMember(c, site, d, w, t.pages);
      PageviewsReplaced(sel, t.visits, t.pages, k, w);
    }
  }

  lemma DayTotalMembers(c: DayStarts, site: SiteId, d: int, sel: Selector)
    requires sel == DaySelector(c, site, d, Total, "")
    ensures sel.dim == Total && sel.filters == []
  {
  }

  lemma DayTotalMember(c: DayStarts, site: SiteId, d: int, v: Visit, pages: seq<PageRow>)
    requires InOneDay(c, v) && v.hash.site == site && v.hash.day == d
    ensures Member(DaySelector(c, site, d, Total, ""), v, pages)
  {
  }
}
