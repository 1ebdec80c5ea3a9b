/**
 The query service (internal/analytics/application/query.go): the breakdown that adds the
 aggregate part to the raw part, the cut in the database, the sort and the limit, and what a
 whole answer says about the history.
 */
module Queries {
  import opened Calendar
  import opened Wrappers
  import opened Visits
  import opened Tallies
  import opened Aggregates
  import opened Reports
  import opened Ranking
  import opened AnalyticsStore

  // ----- rows out of the database -----

  /** Rows in no particular order: one for each entry of a grouped result. */
  ghost predicate Lists(rows: seq<Row>, m: map<string, Counts>) {
    Distinct(rows) && forall r :: r in rows <==> r.value in m && r.counts == m[r.value]
  }

  method Listed(m: map<string, Counts>) returns (rows: seq<Row>)
    ensures Lists(rows, m) && |rows| == |m|
  {
    rows := [];
    var left := m.Keys;
    while left != {}
      invariant left <= m.Keys && Distinct(rows) && |rows| + |left| == |m.Keys|
      invariant forall r :: r in rows <==> r.value in m && r.value !in left && r.counts == m[r.value]
      decreases |left|
    {
      var x :| x in left;
      assert forall r :: r in rows ==> r.value != x;
      rows := rows + [Row(x, m[x])];
      left := left - {x};
    }
  }

  /** SELECT value, SUM(...) FROM analytics_daily ... GROUP BY value. */
  function DailyRows(daily: Daily, site: SiteId, dim: Dimension, from: int, to: int): map<string, Counts> {
    map x | x in (set k | k in daily && k.site == site && k.dim == dim && from <= k.day <= to :: k.value)
      :: AggSum(daily, site, dim, x, from, to)
  }

  lemma {:induction false} NoDailyRow(daily: Daily, site: SiteId, dim: Dimension, x: string, from: int, to: int)
    requires forall d :: from <= d <= to ==> DailyKey(site, d, dim, x) !in daily
    ensures AggSum(daily, site, dim, x, from, to) == ZERO
    decreases (to - from)
  {
    if from <= to {
      NoDailyRow(daily, site, dim, x, from, to - 1);
      assert DailyKey(site, to, dim, x) !in daily;
    }
  }

  lemma DailyRowsExact(daily: Daily, site: SiteId, dim: Dimension, x: string, from: int, to: int)
    ensures At(DailyRows(daily, site, dim, from, to), x) == AggSum(daily, site, dim, x, from, to)
  {
    hide AggSum;
    if x !in DailyRows(daily, site, dim, from, to) {
      NoDailyRow(daily, site, dim, x, from, to);
    }
  }

  // ----- adding the parts up -----

  /** The `sums` map and the `order` in which values were first seen. */
  datatype Pile = Pile(sums: map<string, Counts>, order: seq<string>)

  function AddRow(p: Pile, r: Row): Pile {
    Pile(p.sums[r.value := Add(At(p.sums, r.value), r.counts)],
         if r.value in p.sums then p.order else p.order + [r.value])
  }

  function AddAll(p: Pile, rows: seq<Row>): Pile {
    if rows == [] then p else AddRow(AddAll(p, rows[..|rows| - 1]), Last(rows))
  }

  ghost predicate Neat(p: Pile) {
    && (forall i, j :: 0 <= i < j < |p.order| ==> p.order[i] != p.order[j])
    && (forall x :: x in p.order <==> x in p.sums)
  }

  function RowsAt(rows: seq<Row>, x: string): Counts {
    if rows == [] then ZERO else if Last(rows).value == x then Last(rows).counts else RowsAt(rows[..|rows| - 1], x)
  }

  lemma {:induction false} RowsAtMap(rows: seq<Row>, m: map<string, Counts>, x: string)
    requires Lists(rows, m)
    ensures RowsAt(rows, x) == At(m, x)
  {
    if x in m {
      assert Row(x, m[x]) in rows;
      RowsAtPresent(rows, Row(x, m[x]));
    } else {
      assert forall r :: r in rows ==> r.value != x;
      RowsAtAbsent(rows, x);
    }
  }

  lemma {:induction false} RowsAtPresent(rows: seq<Row>, r: Row)
    requires Distinct(rows) && r in rows
    ensures RowsAt(rows, r.value) == r.counts
  {
    var i :| 0 <= i < |rows| && rows[i] == r;
    if i < |rows| - 1 {
      assert rows[..|rows| - 1][i] == r;
      RowsAtPresent(rows[..|rows| - 1], r);
      assert rows[i].value != rows[|rows| - 1].value;
    }
  }

  lemma {:induction false} RowsAtAbsent(rows: seq<Row>, x: string)
    requires forall r :: r in rows ==> r.value != x
    ensures RowsAt(rows, x) == ZERO
  {
    if rows != [] {
      assert Last(rows) in rows;
      RowsAtAbsent(rows[..|rows| - 1], x);
    }
  }

  lemma LastIsNew(rows: seq<Row>)
    requires Distinct(rows) && rows != []
    ensures Distinct(rows[..|rows| - 1]) && RowsAt(rows[..|rows| - 1], Last(rows).value) == ZERO
  {
    hide RowsAt;
    var init := rows[..|rows| - 1];
    forall q | q in init ensures q.value != Last(rows).value {
      var i :| 0 <= i < |init| && init[i] == q;
      assert rows[i].value != rows[|rows| - 1].value;
    }
    RowsAtAbsent(init, Last(rows).value);
  }

  lemma {:induction false} AddAllAdds(p: Pile, rows: seq<Row>, x: string)
    requires Distinct(rows)
    ensures At(AddAll(p, rows).sums, x) == Add(At(p.sums, x), RowsAt(rows, x))
  {
    hide Distinct;
    if rows != [] {
      LastIsNew(rows);
      AddAllAdds(p, rows[..|rows| - 1], x);
    }
  }

  lemma {:induction false} AddAllNeat(p: Pile, rows: seq<Row>)
    requires Neat(p)
    ensures Neat(AddAll(p, rows))
  {
    if rows != [] { AddAllNeat(p, rows[..|rows| - 1]); }
  }

  /** Into an empty pile, distinct rows go in their own order. */
  lemma {:induction false} AddAllOrder(rows: seq<Row>)
    requires Distinct(rows)
    ensures var p := AddAll(Pile(map[], []), rows);
      && |p.order| == |rows| && (forall i :: 0 <= i < |rows| ==> p.order[i] == rows[i].value)
      && (forall x :: x in p.sums <==> exists i :: 0 <= i < |rows| && rows[i].value == x)
  {
    hide Add, At;
    if rows != [] {
      var n := |rows| - 1;
      AddAllOrder(rows[..n]);
      var q := AddAll(Pile(map[], []), rows[..n]);
      assert rows[n].value !in q.sums by {
        forall i | 0 <= i < n ensures rows[..n][i].value != rows[n].value { assert rows[i].value != rows[n].value; }
      }
      var p := AddAll(Pile(map[], []), rows);
      forall x ensures x in p.sums <==> exists i :: 0 <= i < |rows| && rows[i].value == x {
        if x in q.sums {
          var i :| 0 <= i < n && rows[..n][i].value == x;
          assert rows[i].value == x;
        }
        if i :| 0 <= i < |rows| && rows[i].value == x {
          if i < n { assert rows[..n][i].value == x; }
        }
      }
    }
  }

  /** The rows returned: values in first-seen order, those that count nothing left out. */
  function Emit(sums: map<string, Counts>, order: seq<string>): seq<Row> {
    if order == [] then []
    else
      var x := Last(order);
      if Counted(At(sums, x)) then Emit(sums, order[..|order| - 1]) + [Row(x, At(sums, x))]
      else Emit(sums, order[..|order| - 1])
  }

  lemma {:induction false} EmitHolds(sums: map<string, Counts>, order: seq<string>)
    ensures forall r :: r in Emit(sums, order) <==>
      r.value in order && r.counts == At(sums, r.value) && Counted(r.counts)
    ensures (forall i, j :: 0 <= i < j < |order| ==> order[i] != order[j]) ==> Distinct(Emit(sums, order))
    ensures |Emit(sums, order)| <= |order|
    ensures (forall x :: x in order ==> Counted(At(sums, x))) ==> |Emit(sums, order)| == |order|
  {
    if order != [] {
      var init, x := order[..|order| - 1], Last(order);
      EmitHolds(sums, init);
      assert order == init + [x];
      if forall i, j :: 0 <= i < j < |order| ==> order[i] != order[j] {
        assert forall i :: 0 <= i < |init| ==> init[i] == order[i] && order[i] != order[|order| - 1];
      }
    }
  }

  // ----- the breakdown -----

  /** Every counted value has its exact row, and nothing else is there. */
  ghost predicate Complete(rows: seq<Row>, count: string -> Counts) {
    && Distinct(rows)
    && (forall r :: r in rows ==> r.counts == count(r.value) && Counted(r.counts))
    && (forall x :: Counted(count(x)) ==> Row(x, count(x)) in rows)
  }

  lemma CompleteIsTop(m: Metric, rows: seq<Row>, count: string -> Counts, limit: nat)
    requires Complete(rows, count) && |rows| <= limit
    ensures Top(m, rows, count, limit)
  {
  }

  function Counter(
      cfg: Config, w: World, site: SiteId, dim: Dimension, r: Range, filters: seq<Filter>): string -> Counts
    requires Advancing(cfg.days)
  {
    x => Reported(cfg, w, site, dim, x, r, filters)
  }

  lemma PileIsComplete(p: Pile, count: string -> Counts)
    requires Neat(p) && forall x :: At(p.sums, x) == count(x)
    ensures Complete(Emit(p.sums, p.order), count)
  {
    EmitHolds(p.sums, p.order);
    forall x | Counted(count(x)) ensures Row(x, count(x)) in Emit(p.sums, p.order) {
      assert At(p.sums, x) == count(x);
      assert x in p.sums;
    }
  }

  /** `topCut`: a count metric the database may sort and cut by. */
  datatype TopCut = TopCut(metric: Metric, limit: nat)

  predicate CountMetric(m: Metric) {
    m.Visitors? || m.Visits? || m.Pageviews?
  }

  /** ORDER BY metric DESC, value LIMIT ?, when the metric is a plain count. */
  function Cut(rows: seq<Row>, top: TopCut): seq<Row> {
    if !CountMetric(top.metric) then rows
    else var s := Sort(top.metric, rows); if |s| > top.limit then s[..top.limit] else s
  }

  lemma CutThroughPile(rows: seq<Row>, top: TopCut, count: string -> Counts)
    requires Complete(rows, count) && CountMetric(top.metric)
    ensures var p := AddAll(Pile(map[], []), Cut(rows, top)); Top(top.metric, Emit(p.sums, p.order), count, top.limit)
  {
    hide Before;
    var cut := if |rows| < top.limit then top.limit else |rows|;
    CompleteIsTop(top.metric, rows, count, cut);
    SortAndCut(top.metric, rows, count, cut, top.limit);
    UncutPile(Cut(rows, top));
  }

  /** Distinct counted rows pass through an empty pile unchanged. */
  lemma UncutPile(rows: seq<Row>)
    requires Distinct(rows) && forall r :: r in rows ==> Counted(r.counts)
    ensures var p := AddAll(Pile(map[], []), rows); Emit(p.sums, p.order) == rows
  {
    hide AddAll, RowsAt, Emit, Distinct, Counted;
    var p := AddAll(Pile(map[], []), rows);
    AddAllOrder(rows);
    forall i | 0 <= i < |rows| ensures At(p.sums, p.order[i]) == rows[i].counts {
      AddAllAdds(Pile(map[], []), rows, rows[i].value);
      RowsAtPresent(rows, rows[i]);
    }
    EmitInOrder(p, rows, |rows|);
    assert p.order[..|rows|] == p.order && rows[..|rows|] == rows;
  }

  lemma {:induction false} EmitInOrder(p: Pile, rows: seq<Row>, n: nat)
    requires n <= |rows| == |p.order|
    requires forall i :: 0 <= i < |rows| ==>
      rows[i] == Row(p.order[i], At(p.sums, p.order[i])) && Counted(rows[i].counts)
    ensures Emit(p.sums, p.order[..n]) == rows[..n]
  {
    if n > 0 {
      EmitInOrder(p, rows, n - 1);
      assert p.order[..n][..n - 1] == p.order[..n - 1];
    }
  }

  function AggPart(cfg: Config, now: int, daily: Daily, site: SiteId, r: Range, dim: Dimension): map<string, Counts>
    requires Advancing(cfg.days)
  {
    var part := Split(r, RawFrom(cfg, now, site)).0;
    if part.None? then map[] else DailyRows(daily, site, dim, part.value.from, part.value.to)
  }

  function RawPart(
      cfg: Config, now: int, t: Tables, site: SiteId, r: Range, dim: Dimension,
      filters: seq<Filter>): map<string, Counts>
    requires Advancing(cfg.days)
  {
    var part := Split(r, RawFrom(cfg, now, site)).1;
    if part.None? then map[]
    else RawRows(t, site, dim, cfg.days(site, part.value.from), cfg.days(site, part.value.to + 1), filters)
  }

  lemma AggPartAt(cfg: Config, now: int, daily: Daily, site: SiteId, r: Range, dim: Dimension, x: string)
    requires Advancing(cfg.days)
    ensures var part := Split(r, RawFrom(cfg, now, site)).0;
      At(AggPart(cfg, now, daily, site, r, dim), x)
      == if part.Some? then AggSum(daily, site, dim, x, part.value.from, part.value.to) else ZERO
  {
    hide Advancing, DailyRows, AggSum, RawFrom, Split;
    var part := Split(r, RawFrom(cfg, now, site)).0;
    if part.Some? { DailyRowsExact(daily, site, dim, x, part.value.from, part.value.to); }
  }

  lemma RawPartAt(
      cfg: Config, now: int, t: Tables, site: SiteId, r: Range, dim: Dimension,
      filters: seq<Filter>, x: string)
    requires Advancing(cfg.days)
    ensures var part := Split(r, RawFrom(cfg, now, site)).1;
      At(RawPart(cfg, now, t, site, r, dim, filters), x)
      == if part.Some? then Tally(Over(cfg.days, site, dim, x, part.value, filters), t) else ZERO
  {
    hide Advancing, RawRows, Tally, RawFrom, Split;
    var part := Split(r, RawFrom(cfg, now, site)).1;
    if part.Some? { RawRowsExact(t, Over(cfg.days, site, dim, x, part.value, filters)); }
  }

  lemma PartsAddUp(cfg: Config, w: World, site: SiteId, r: Range, dim: Dimension, filters: seq<Filter>, x: string)
    requires Advancing(cfg.days)
    ensures Add(At(AggPart(cfg, w.now, w.daily, site, r, dim), x),
                At(RawPart(cfg, w.now, w.tables, site, r, dim, filters), x))
         == Counter(cfg, w, site, dim, r, filters)(x)
  {
    hide Advancing, Tally, AggSum, RawFrom, At, Split, AggPart, RawPart, Over;
    AggPartAt(cfg, w.now, w.daily, site, r, dim, x);
    RawPartAt(cfg, w.now, w.tables, site, r, dim, filters, x);
  }

  lemma ListsDistinct(rows: seq<Row>, m: map<string, Counts>)
    requires Lists(rows, m)
    ensures Distinct(rows)
  {
  }

  lemma PiledTwice(a: seq<Row>, m: map<string, Counts>, b: seq<Row>, n: map<string, Counts>, x: string)
    requires Lists(a, m) && Lists(b, n)
    ensures At(AddAll(AddAll(Pile(map[], []), a), b).sums, x) == Add(At(m, x), At(n, x))
  {
    hide AddAll, RowsAt, Lists, Distinct;
    ListsDistinct(a, m);
    ListsDistinct(b, n);
    AddAllAdds(Pile(map[], []), a, x);
    AddAllAdds(AddAll(Pile(map[], []), a), b, x);
    RowsAtMap(a, m, x);
    RowsAtMap(b, n, x);
  }

  /** Both parts piled up give the complete breakdown. */
  lemma WholePile(
      cfg: Config, w: World, site: SiteId, r: Range, dim: Dimension, filters: seq<Filter>,
      aggRows: seq<Row>, rawRows: seq<Row>)
    requires Advancing(cfg.days)
    requires Lists(aggRows, AggPart(cfg, w.now, w.daily, site, r, dim))
    requires Lists(rawRows, RawPart(cfg, w.now, w.tables, site, r, dim, filters))
    ensures var p := AddAll(AddAll(Pile(map[], []), aggRows), rawRows);
      Complete(Emit(p.sums, p.order), Counter(cfg, w, site, dim, r, filters))
  {
    hide Advancing, AggPart, RawPart, AddAll, Counter, Complete, Emit, RowsAt, Neat, Lists, Distinct;
    hide At;
    EmptyNeat();
    var first := AddAll(Pile(map[], []), aggRows);
    var p, count := AddAll(first, rawRows), Counter(cfg, w, site, dim, r, filters);
    AddAllNeat(Pile(map[], []), aggRows);
    AddAllNeat(first, rawRows);
    forall x ensures At(p.sums, x) == count(x) {
      PiledTwice(aggRows, AggPart(cfg, w.now, w.daily, site, r, dim),
                 rawRows, RawPart(cfg, w.now, w.tables, site, r, dim, filters), x);
      PartsAddUp(cfg, w, site, r, dim, filters, x);
    }
    PileIsComplete(p, count);
  }

  /** With no aggregate part, the rows the database groups are already complete. */
  lemma RawOnlyComplete(
      cfg: Config, w: World, site: SiteId, r: Range, dim: Dimension, filters: seq<Filter>,
      rows: seq<Row>)
    requires Advancing(cfg.days) && Split(r, RawFrom(cfg, w.now, site)).0.None?
    requires Lists(rows, RawPart(cfg, w.now, w.tables, site, r, dim, filters))
    ensures Complete(rows, Counter(cfg, w, site, dim, r, filters))
  {
    hide Advancing, RawPart, RawFrom, Counter, Complete, AggPart, Lists, Counted, At;
    NoAggPart(cfg, w, site, r, dim);
    var raw, count := RawPart(cfg, w.now, w.tables, site, r, dim, filters), Counter(cfg, w, site, dim, r, filters);
    forall x ensures At(raw, x) == count(x) { PartsAddUp(cfg, w, site, r, dim, filters, x); }
    forall x | x in raw ensures Counted(raw[x]) { RawPartCounted(cfg, w, site, r, dim, filters, x); }
    ListedIsComplete(rows, raw, count);
  }

  lemma NoAggPart(cfg: Config, w: World, site: SiteId, r: Range, dim: Dimension)
    requires Advancing(cfg.days) && Split(r, RawFrom(cfg, w.now, site)).0.None?
    ensures forall x :: At(AggPart(cfg, w.now, w.daily, site, r, dim), x) == ZERO
  {
    hide Advancing, RawFrom;
  }

  lemma ListedIsComplete(rows: seq<Row>, m: map<string, Counts>, count: string -> Counts)
    requires Lists(rows, m) && forall x :: At(m, x) == count(x)
    requires forall x :: x in m ==> Counted(m[x])
    ensures Complete(rows, count)
  {
    hide Distinct;
    forall x | Counted(count(x)) ensures Row(x, count(x)) in rows { assert At(m, x) == count(x); }
    forall q | q in rows
      ensures q.counts == count(q.value) && Counted(q.counts)
    {
      assert At(m, q.value) == count(q.value);
    }
  }

  lemma RawPartCounted(cfg: Config, w: World, site: SiteId, r: Range, dim: Dimension, filters: seq<Filter>, x: string)
    requires Advancing(cfg.days) && x in RawPart(cfg, w.now, w.tables, site, r, dim, filters)
    ensures Counted(RawPart(cfg, w.now, w.tables, site, r, dim, filters)[x])
  {
    hide Advancing, Tally, Values, RawFrom;
  }

  /**
   The rows of a breakdown. Unless the database was asked to cut, they are complete;
   when it cut, they are the first rows of the complete result.
   */
  method Breakdown(
      st: Store, now: int, site: SiteId, r: Range, dim: Dimension, filters: seq<Filter>,
      top: Option<TopCut>)
    returns (out: seq<Row>)
    requires st.Valid() && st.w.now == now
    ensures var count := Counter(st.cfg, st.w, site, dim, r, filters);
      Complete(out, count)
      || (&& top.Some? && dim != Total && CountMetric(top.value.metric)
          && Top(top.value.metric, out, count, top.value.limit))
  {
    hide Inv, Advancing, Tally, RawRows, DailyRows, AggSum, Complete;
    hide Top, Neat, Counted, Before, RawFrom, Counter, Lists;
    var parts := Split(r, RawFrom(st.cfg, now, site));
    var agg, raw: map<string, Counts> := map[], map[];
    if parts.0.Some? { agg := DailyRows(st.daily, site, dim, parts.0.value.from, parts.0.value.to); }
    var aggRows := Listed(agg);
    EmptyNeat();
    var sums, order := AddRows(map[], [], aggRows);
    if parts.1.Some? {
      var start, end := st.cfg.days(site, parts.1.value.from), st.cfg.days(site, parts.1.value.to + 1);
      raw := RawRows(Tables(st.visits, st.pages), site, dim, start, end, filters);
    }
    var rawRows := Listed(raw);
    WholePile(st.cfg, st.w, site, r, dim, filters, aggRows, rawRows);
    if parts.0.None? && top.Some? && dim != Total {
      RawOnlyComplete(st.cfg, st.w, site, r, dim, filters, rawRows);
      if CountMetric(top.value.metric) {
        CutThroughPile(rawRows, top.value, Counter(st.cfg, st.w, site, dim, r, filters));
      }
      rawRows := Cut(rawRows, top.value);
    }
    sums, order := AddRows(sums, order, rawRows);
    out := Emitted(sums, order);
  }

  method Emitted(sums: map<string, Counts>, order: seq<string>) returns (out: seq<Row>)
    requires Neat(Pile(sums, order))
    ensures out == Emit(sums, order)
  {
    out := [];
    for i := 0 to |order|
      invariant out == Emit(sums, order[..i])
    {
      assert order[..i + 1][..i] == order[..i] && order[i] in order;
      if Counted(sums[order[i]]) { out := out + [Row(order[i], sums[order[i]])]; }
    }
    assert order[..|order|] == order;
  }

  lemma EmptyNeat()
    ensures Neat(Pile(map[], []))
  {
  }

  method AddRows(sums: map<string, Counts>, order: seq<string>, rows: seq<Row>)
    returns (sums': map<string, Counts>, order': seq<string>)
    requires Neat(Pile(sums, order))
    ensures Pile(sums', order') == AddAll(Pile(sums, order), rows) && Neat(Pile(sums', order'))
  {
    sums', order' := sums, order;
    for i := 0 to |rows|
      invariant Pile(sums', order') == AddAll(Pile(sums, order), rows[..i])
    {
      assert rows[..i + 1][..i] == rows[..i];
      if rows[i].value !in sums' { order' := order' + [rows[i].value]; }
      sums' := sums'[rows[i].value := Add(At(sums', rows[i].value), rows[i].counts)];
    }
    assert rows[..|rows|] == rows;
    AddAllNeat(Pile(sums, order), rows);
  }

  // ----- whole answers -----

  datatype Source = Raw | Mixed

  datatype Compare = NoCompare | Previous | YearAgo(shifted: Range)

  datatype Query = Query(
    dim: Dimension, filters: seq<Filter>, range: Range, compare: Compare, orderBy: Metric, limit: nat)

  datatype Error = FiltersNeedRaw

  datatype ResultRow = ResultRow(row: Row, compare: Option<Counts>)

  datatype Result = Refused(error: Error) | Answered(source: Source, rows: seq<ResultRow>)

  /** An equally long range that ends the day before, or the year-ago range, which the calendar gives. */
  function CompareRange(r: Range, compare: Compare): Option<Range> {
    match compare
    case NoCompare => None
    case Previous => Some(Range(r.from - (r.to - r.from + 1), r.from - 1))
    case YearAgo(shifted) => Some(shifted)
  }

  /**
   The previous range ends the day before and has as many days, so reports of the two add up to
   that of twice the range.
   */
  lemma PreviousAdjoins(cfg: Config, w: World, site: SiteId, dim: Dimension, x: string, r: Range, filters: seq<Filter>)
    requires Sane(cfg) && Inv(cfg, w) && r.from <= r.to
    ensures CompareRange(r, Previous).Some?
    ensures var p := CompareRange(r, Previous).value;
      && p.to == r.from - 1 && p.to - p.from == r.to - r.from
      && Reported(cfg, w, site, dim, x, Range(p.from, r.to), filters)
         == Add(Reported(cfg, w, site, dim, x, p, filters), Reported(cfg, w, site, dim, x, r, filters))
  {
    hide Sane, Inv, Reported, Add;
    var p := CompareRange(r, Previous).value;
    ReportedSplits(cfg, w, site, dim, x, Range(p.from, r.to), r.from, filters);
  }

  /** Mixed as soon as either range starts before the raw boundary. */
  function SourceOf(r: Range, cmp: Option<Range>, rawFrom: Option<int>): Source {
    if rawFrom.Some? && (r.from < rawFrom.value || (cmp.Some? && cmp.value.from < rawFrom.value)) then Mixed else Raw
  }

  /** The label decides what is read: raw means neither the range nor its comparison touches aggregates. */
  lemma RawSourceReadsRaw(r: Range, cmp: Option<Range>, rawFrom: Option<int>)
    ensures SourceOf(r, cmp, rawFrom) == Raw <==>
      (Split(r, rawFrom).0.None? && (cmp.Some? ==> Split(cmp.value, rawFrom).0.None?))
  {
  }

  /** Every day of the range, and of its comparison, is still whole. */
  ghost predicate BothWhole(cfg: Config, now: int, site: SiteId, r: Range, cmp: Option<Range>) {
    AllWhole(cfg, now, site, r) && (cmp.Some? ==> AllWhole(cfg, now, site, cmp.value))
  }

  /** The label says whether every day asked for is whole. */
  lemma SourceIsWhole(cfg: Config, now: int, site: SiteId, r: Range, cmp: Option<Range>)
    requires Advancing(cfg.days) && r.from <= r.to && (cmp.Some? ==> cmp.value.from <= cmp.value.to)
    ensures SourceOf(r, cmp, RawFrom(cfg, now, site)) == Raw <==> BothWhole(cfg, now, site, r, cmp)
  {
    hide Advancing, RawFrom, AllWhole, Split;
    RawSourceReadsRaw(r, cmp, RawFrom(cfg, now, site));
    ReadsAggregatesIff(cfg, now, site, r);
    if cmp.Some? { ReadsAggregatesIff(cfg, now, site, cmp.value); }
  }

  ghost function Truth(
      cfg: Config, w: World, site: SiteId, dim: Dimension, r: Range, filters: seq<Filter>): string -> Counts {
    x => Scanned(cfg, w, site, dim, x, r, filters)
  }

  /** Each day of the range is whole, or its aggregate has seen all of its pageviews. */
  ghost predicate FreshFor(cfg: Config, w: World, site: SiteId, r: Range) {
    forall d :: r.from <= d <= r.to ==> Whole(cfg, w.now, site, d) || Fresh(w, site, d)
  }

  lemma CountsAreTrue(cfg: Config, w: World, site: SiteId, dim: Dimension, r: Range, filters: seq<Filter>, x: string)
    requires Sane(cfg) && Inv(cfg, w) && r.from <= r.to && dim in Dimensions() && FreshFor(cfg, w, site, r)
    requires AllWhole(cfg, w.now, site, r) || filters == []
    ensures Counter(cfg, w, site, dim, r, filters)(x) == Truth(cfg, w, site, dim, r, filters)(x)
  {
    hide Inv, Advancing, Dimensions, Fresh, Whole, Reported, Scanned;
    ReportExact(cfg, w, site, dim, x, r, filters);
  }

  lemma TopOfTruth(m: Metric, rows: seq<Row>, a: string -> Counts, b: string -> Counts, limit: nat)
    requires Top(m, rows, a, limit) && forall x :: a(x) == b(x)
    ensures Top(m, rows, b, limit)
  {
    hide Before, Distinct;
    forall x | Counted(b(x)) && Row(x, b(x)) !in rows
      ensures |rows| == limit && forall r :: r in rows ==> Before(m, r, Row(x, b(x)))
    {
      assert a(x) == b(x);
    }
    forall r | r in rows ensures r.counts == b(r.value) { assert a(r.value) == b(r.value); }
  }

  function Cells(rows: seq<ResultRow>): (s: seq<Row>)
    ensures |s| == |rows| && forall i :: 0 <= i < |rows| ==> s[i] == rows[i].row
  {
    seq(|rows|, i requires 0 <= i < |rows| => rows[i].row)
  }

  function SortCut(m: Metric, rows: seq<Row>, limit: nat): seq<Row> {
    var s := Sort(m, rows);
    if |s| > limit then s[..limit] else s
  }

  lemma FinishRows(m: Metric, rows: seq<Row>, count: string -> Counts, limit: nat)
    requires Complete(rows, count) || Top(m, rows, count, limit)
    ensures Top(m, SortCut(m, rows, limit), count, limit) && Ordered(m, SortCut(m, rows, limit))
  {
    hide Top, Complete, Ordered;
    if Complete(rows, count) {
      var cut := if |rows| < limit then limit else |rows|;
      CompleteIsTop(m, rows, count, cut);
      SortAndCut(m, rows, count, cut, limit);
    } else {
      SortAndCut(m, rows, count, limit, limit);
    }
  }

  /** Cutting in the database is invisible: the report sorts and cuts the cut rows to the same rows as the full read. */
  lemma CutIsInvisible(rows: seq<Row>, top: TopCut, count: string -> Counts)
    requires Complete(rows, count)
    ensures var cut, full := AddAll(Pile(map[], []), Cut(rows, top)), AddAll(Pile(map[], []), rows);
      SortCut(top.metric, Emit(cut.sums, cut.order), top.limit)
      == SortCut(top.metric, Emit(full.sums, full.order), top.limit)
  {
    hide Before, AddAll, Emit, Sort;
    UncutPile(rows);
    if CountMetric(top.metric) {
      SortSorts(top.metric, rows);
      var c := Cut(rows, top);
      assert Ordered(top.metric, c);
      var most := if |rows| < top.limit then top.limit else |rows|;
      CompleteIsTop(top.metric, rows, count, most);
      SortAndCut(top.metric, rows, count, most, top.limit);
      UncutPile(c);
      SortOrdered(top.metric, c);
    }
  }

  /** The comparison counts by value. */
  method ByValue(rows: seq<Row>) returns (prev: map<string, Counts>)
    requires Distinct(rows)
    ensures forall x :: At(prev, x) == RowsAt(rows, x)
  {
    prev := map[];
    for i := 0 to |rows|
      invariant forall x :: At(prev, x) == RowsAt(rows[..i], x)
    {
      assert rows[..i + 1][..i] == rows[..i];
      prev := prev[rows[i].value := rows[i].counts];
    }
    assert rows[..|rows|] == rows;
  }

  lemma CompleteAt(rows: seq<Row>, count: string -> Counts, x: string)
    requires Complete(rows, count)
    ensures RowsAt(rows, x) == if Counted(count(x)) then count(x) else ZERO
  {
    if Counted(count(x)) {
      RowsAtPresent(rows, Row(x, count(x)));
    } else {
      RowsAtAbsent(rows, x);
    }
  }

  lemma UncountedIsZero(cfg: Config, w: World, site: SiteId, dim: Dimension, x: string, r: Range, filters: seq<Filter>)
    ensures var c := Scanned(cfg, w, site, dim, x, r, filters); !Counted(c) ==> c == ZERO
  {
    hide Tally, Replay;
    CountedValueOccurs(Over(cfg.days, site, dim, x, r, filters), Replay(w.history));
  }

  /** The rows of an answer for given counts: one zero row for a total of nothing, else the first values in order. */
  ghost predicate RowsFit(q: Query, count: string -> Counts, rows: seq<Row>) {
    if q.dim == Total && !Counted(count("")) then rows == [Row("", ZERO)]
    else Top(q.orderBy, rows, count, q.limit) && Ordered(q.orderBy, rows)
  }

  /** They fit the whole history. */
  ghost predicate RowsRight(cfg: Config, w: World, site: SiteId, q: Query, rows: seq<Row>) {
    RowsFit(q, Truth(cfg, w, site, q.dim, q.range, q.filters), rows)
  }

  /** The right rows are determined. */
  lemma RightRowsUnique(cfg: Config, w: World, site: SiteId, q: Query, a: seq<Row>, b: seq<Row>)
    requires RowsRight(cfg, w, site, q, a) && RowsRight(cfg, w, site, q, b)
    ensures a == b
  {
    hide Truth, Top, Ordered;
    var truth := Truth(cfg, w, site, q.dim, q.range, q.filters);
    if !(q.dim == Total && !Counted(truth(""))) {
      var n := if |a| < |b| then |a| else |b|;
      TopUnique(q.orderBy, a, b, truth, q.limit, n);
      TopUnique(q.orderBy, b, a, truth, q.limit, n);
      assert a[..n] == a && b[..n] == b;
    }
  }

  lemma TotalHasOneValue(sel: Selector, t: Tables)
    requires sel.dim == Total && sel.value != ""
    ensures Tally(sel, t) == ZERO
  {
    hide Tally;
    CountedValueOccurs(sel, t);
    TotalValues(t);
  }

  lemma {:induction false} OnlyOneTotal(
      cfg: Config, w: World, site: SiteId, x: string, from: int, end: int, filters: seq<Filter>)
    requires Inv(cfg, w) && x != ""
    ensures ByDay(cfg, w, site, Total, x, from, end, filters) == ZERO
    decreases end - from
  {
    hide Inv, Whole, Tally, DaySelector;
    if from <= end {
      OnlyOneTotal(cfg, w, site, x, from, end - 1, filters);
      TotalDayShare(cfg, w, site, x, end, filters);
    }
  }

  lemma TotalDayShare(cfg: Config, w: World, site: SiteId, x: string, d: int, filters: seq<Filter>)
    requires Inv(cfg, w) && x != ""
    ensures DayShare(cfg, w, site, Total, x, d, filters) == ZERO
  {
    hide Tally, Whole, Shown, RowsOk, HistoryOk;
    TotalHasOneValue(DaySelector(cfg.days, site, d, Total, x).(filters := filters), w.tables);
    assert Seen(w, site, d) <= |w.history| && DayKept(cfg.days, w, site, d);
    assert Dimensions()[0] == Total;
    TotalHasOneValue(DaySelector(cfg.days, site, d, Total, x), Shown(w.history, SightOf(w, site, d)));
  }

  /** Only the empty value is counted in a total. */
  lemma TotalIsOneRow(cfg: Config, w: World, site: SiteId, x: string, r: Range, filters: seq<Filter>)
    requires Sane(cfg) && Inv(cfg, w) && r.from <= r.to && Counted(Counter(cfg, w, site, Total, r, filters)(x))
    ensures x == ""
  {
    hide Inv, Advancing, Reported;
    if x != "" {
      ReportedByDay(cfg, w, site, Total, x, r, filters);
      OnlyOneTotal(cfg, w, site, x, r.from, r.to, filters);
    }
  }

  /** What the query does with the rows of its breakdown: whatever was reported, they fit it. */
  lemma RowsAreFit(cfg: Config, w: World, site: SiteId, q: Query, cur: seq<Row>)
    requires Sane(cfg) && Inv(cfg, w) && q.range.from <= q.range.to
    requires var count := Counter(cfg, w, site, q.dim, q.range, q.filters);
      Complete(cur, count) || (q.dim != Total && Top(q.orderBy, cur, count, q.limit))
    ensures RowsFit(q, Counter(cfg, w, site, q.dim, q.range, q.filters),
      if q.dim == Total && cur == [] then [Row("", ZERO)] else SortCut(q.orderBy, cur, q.limit))
  {
    hide Inv, Advancing, Counter, Top, SortCut, Ordered, Distinct;
    var count := Counter(cfg, w, site, q.dim, q.range, q.filters);
    if q.dim == Total && cur == [] {
      assert !Counted(count(""));
    } else {
      if q.dim == Total {
        assert cur[0] in cur && Counted(count(cur[0].value));
        TotalIsOneRow(cfg, w, site, cur[0].value, q.range, q.filters);
      }
      FinishRows(q.orderBy, cur, count, q.limit);
    }
  }

  /** Rows that fit what is reported are right when what is reported is. */
  lemma RowsAreRight(cfg: Config, w: World, site: SiteId, q: Query, rows: seq<Row>)
    requires Sane(cfg) && Inv(cfg, w) && q.range.from <= q.range.to && q.dim in Dimensions()
    requires FreshFor(cfg, w, site, q.range) && (AllWhole(cfg, w.now, site, q.range) || q.filters == [])
    requires RowsFit(q, Counter(cfg, w, site, q.dim, q.range, q.filters), rows)
    ensures RowsRight(cfg, w, site, q, rows)
  {
    hide Inv, Advancing, Dimensions, FreshFor, AllWhole, Counter, Truth, Top, Ordered;
    var count := Counter(cfg, w, site, q.dim, q.range, q.filters);
    var truth := Truth(cfg, w, site, q.dim, q.range, q.filters);
    forall x ensures count(x) == truth(x) { CountsAreTrue(cfg, w, site, q.dim, q.range, q.filters, x); }
    if !(q.dim == Total && !Counted(count(""))) { TopOfTruth(q.orderBy, rows, count, truth, q.limit); }
  }

  lemma CompareIsRight(cfg: Config, w: World, site: SiteId, q: Query, cmp: Range, prev: seq<Row>, x: string)
    requires Sane(cfg) && Inv(cfg, w) && cmp.from <= cmp.to && q.dim in Dimensions() && FreshFor(cfg, w, site, cmp)
    requires AllWhole(cfg, w.now, site, cmp) || q.filters == []
    requires Complete(prev, Counter(cfg, w, site, q.dim, cmp, q.filters))
    ensures RowsAt(prev, x) == Scanned(cfg, w, site, q.dim, x, cmp, q.filters)
  {
    hide Inv, Advancing, Dimensions, FreshFor, AllWhole, Counter, Complete, RowsAt, Scanned;
    CompleteAt(prev, Counter(cfg, w, site, q.dim, cmp, q.filters), x);
    CountsAreTrue(cfg, w, site, q.dim, cmp, q.filters, x);
    UncountedIsZero(cfg, w, site, q.dim, x, cmp, q.filters);
  }

  /**
   A breakdown query. It is refused exactly when it has filters and some day it asks for
   is no longer whole. Otherwise its rows are the first `limit` values of what is reported
   in report order, each with its counts and, when comparing, those of the same value in
   the other range; and where the days are whole or fresh that is the whole history.
   */
  method RunQuery(st: Store, now: int, site: SiteId, q: Query) returns (a: Result)
    requires st.Valid() && st.w.now == now && q.range.from <= q.range.to && q.dim in Dimensions() && 0 < q.limit
    requires q.compare.YearAgo? ==> q.compare.shifted.from <= q.compare.shifted.to
    ensures var cmp := CompareRange(q.range, q.compare);
      && (a.Refused? <==> q.filters != [] && !BothWhole(st.cfg, now, site, q.range, cmp))
      && (a.Answered? ==> (a.source == Raw <==> BothWhole(st.cfg, now, site, q.range, cmp)))
    ensures a.Answered? ==> RowsFit(q, Counter(st.cfg, st.w, site, q.dim, q.range, q.filters), Cells(a.rows))
    ensures a.Answered? && FreshFor(st.cfg, st.w, site, q.range) ==> RowsRight(st.cfg, st.w, site, q, Cells(a.rows))
    ensures var cmp := CompareRange(q.range, q.compare);
      a.Answered? ==> forall i :: 0 <= i < |a.rows| ==>
        && (a.rows[i].compare.Some? <==> cmp.Some?)
        && (cmp.Some? ==> ComparesTo(a.rows[i], Counter(st.cfg, st.w, site, q.dim, cmp.value, q.filters)))
        && (cmp.Some? && FreshFor(st.cfg, st.w, site, cmp.value) ==>
             a.rows[i].compare.value == Scanned(st.cfg, st.w, site, q.dim, a.rows[i].row.value, cmp.value, q.filters))
  {
    hide Inv, Advancing, Dimensions, RawFrom, Split, Scanned, AllWhole;
    hide Complete, Top, Counter, RowsFit, RowsRight, FreshFor, SortCut, RowsAt;
    var cmp := CompareRange(q.range, q.compare);
    var source := SourceOf(q.range, cmp, RawFrom(st.cfg, now, site));
    SourceIsWhole(st.cfg, now, site, q.range, cmp);
    if source == Mixed && q.filters != [] {
      return Refused(FiltersNeedRaw);
    }
    var cur := Breakdown(st, now, site, q.range, q.dim, q.filters, Some(TopCut(q.orderBy, q.limit)));
    RowsAreFit(st.cfg, st.w, site, q, cur);
    var prev: map<string, Counts> := map[];
    ghost var prevRows: seq<Row> := [];
    if cmp.Some? {
      var rows := Breakdown(st, now, site, cmp.value, q.dim, q.filters, None);
      CompleteDistinct(rows, Counter(st.cfg, st.w, site, q.dim, cmp.value, q.filters));
      prev := ByValue(rows);
      prevRows := rows;
    }
    if q.dim == Total && |cur| == 0 { cur := [Row("", ZERO)]; } else { cur := SortCut(q.orderBy, cur, q.limit); }
    if FreshFor(st.cfg, st.w, site, q.range) { RowsAreRight(st.cfg, st.w, site, q, cur); }
    var rows: seq<ResultRow> := [];
    for i := 0 to |cur|
      invariant |rows| == i
      invariant forall j :: 0 <= j < i ==>
        rows[j] == ResultRow(cur[j], if cmp.Some? then Some(At(prev, cur[j].value)) else None)
    {
      rows := rows + [ResultRow(cur[i], if cmp.Some? then Some(At(prev, cur[i].value)) else None)];
    }
    assert Cells(rows) == cur;
    a := Answered(source, rows);
    if cmp.Some? {
      forall i | 0 <= i < |rows|
        ensures ComparesTo(rows[i], Counter(st.cfg, st.w, site, q.dim, cmp.value, q.filters))
        ensures FreshFor(st.cfg, st.w, site, cmp.value) ==>
          rows[i].compare.value == Scanned(st.cfg, st.w, site, q.dim, rows[i].row.value, cmp.value, q.filters)
      {
        CompleteAt(prevRows, Counter(st.cfg, st.w, site, q.dim, cmp.value, q.filters), rows[i].row.value);
        if FreshFor(st.cfg, st.w, site, cmp.value) {
          CompareIsRight(st.cfg, st.w, site, q, cmp.value, prevRows, rows[i].row.value);
        }
      }
    }
  }

  /** The row's comparison is the value's count in the other range, zero when it has none. */
  predicate ComparesTo(r: ResultRow, count: string -> Counts) {
    var c := count(r.row.value);
    r.compare == Some(if Counted(c) then c else ZERO)
  }

  lemma CompleteDistinct(rows: seq<Row>, count: string -> Counts)
    requires Complete(rows, count)
    ensures Distinct(rows)
  {
  }
}
