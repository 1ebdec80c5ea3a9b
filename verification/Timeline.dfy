/**
 Time series (internal/analytics/application/query.go, `buckets` and `timeline`): a range
 laid out in day, week, month or hour buckets, and the counts of each bucket.
 */
module Timeline {
  import opened Arithmetic
  import opened Calendar
  import opened Wrappers
  import opened Visits
  import opened Tallies
  import opened Counting
  import opened Aggregates
  import opened Reports
  import opened AnalyticsStore

  const HOUR_MS: int := 3_600_000

  const MAX_TIMELINE_VISITS: nat := 500_000

  datatype Interval = Day | Week | Month

  /** How integer days fall into weeks and months. */
  datatype Rules = Rules(weekOffset: int, nextMonth: int -> int)

  ghost predicate Forward(rules: Rules) {
    forall d :: d < rules.nextMonth(d)
  }

  /** Days since Monday. */
  function DayOfWeek(rules: Rules, d: int): int {
    (d + rules.weekOffset) % 7
  }

  /** The day the bucket after `d`'s would start, were it not clipped. */
  function NextStart(rules: Rules, interval: Interval, d: int): int {
    match interval
    case Day => d + 1
    case Week => d + 7 - DayOfWeek(rules, d)
    case Month => rules.nextMonth(d)
  }

  function Clipped(next: int, to: int): int {
    if next > to then to + 1 else next
  }

  /** The day ranges of the buckets from day `d` on. */
  function Spans(rules: Rules, interval: Interval, d: int, to: int): seq<Range>
    requires Forward(rules)
    decreases (to - d)
  {
    if d > to then []
    else
      var next := Clipped(NextStart(rules, interval, d), to);
      [Range(d, next - 1)] + Spans(rules, interval, next, to)
  }

  /** Contiguous, disjoint and covering exactly the days `from` to `to`. */
  ghost predicate Tiles(spans: seq<Range>, from: int, to: int) {
    && (forall i :: 0 <= i < |spans| ==> from <= spans[i].from <= spans[i].to <= to)
    && (forall i :: 0 < i < |spans| ==> spans[i].from == spans[i - 1].to + 1)
    && (if from > to then spans == [] else spans != [] && spans[0].from == from && spans[|spans| - 1].to == to)
  }

  /** Buckets tile their range, clipped at both ends. */
  lemma {:induction false} SpansTile(rules: Rules, interval: Interval, d: int, to: int)
    requires Forward(rules)
    ensures Tiles(Spans(rules, interval, d, to), d, to)
    decreases (to - d)
  {
    if d <= to {
      var next := Clipped(NextStart(rules, interval, d), to);
      SpansTile(rules, interval, next, to);
      var rest := Spans(rules, interval, next, to);
      var all := Spans(rules, interval, d, to);
      assert all == [Range(d, next - 1)] + rest;
      forall i | 0 < i < |all| ensures all[i].from == all[i - 1].to + 1 {
        assert all[i] == rest[i - 1];
        if i > 1 { assert all[i - 1] == rest[i - 2]; }
      }
    }
  }

  /** Months have first days: the next one is the same from every day of a month. */
  ghost predicate Monthly(rules: Rules) {
    forall d, e :: d <= e < rules.nextMonth(d) ==> rules.nextMonth(e) == rules.nextMonth(d)
  }

  /** Any day, a Monday, or the first of a month. */
  predicate UnitStart(rules: Rules, interval: Interval, d: int) {
    match interval
    case Day => true
    case Week => DayOfWeek(rules, d) == 0
    case Month => rules.nextMonth(d - 1) == d
  }

  lemma NextUnit(rules: Rules, interval: Interval, d: int)
    requires Forward(rules) && Monthly(rules)
    ensures d < NextStart(rules, interval, d) && UnitStart(rules, interval, NextStart(rules, interval, d))
    ensures forall e :: d < e < NextStart(rules, interval, d) ==> !UnitStart(rules, interval, e)
  {
    var next := NextStart(rules, interval, d);
    if interval == Month {
      assert rules.nextMonth(next - 1) == next;
      forall e | d < e < next ensures !UnitStart(rules, interval, e) {
        assert rules.nextMonth(e - 1) == next;
      }
    }
  }

  /** Each bucket is one unit: it starts one, unless it is the first, and no other starts in it. */
  ghost predicate OneUnitEach(rules: Rules, interval: Interval, spans: seq<Range>) {
    && (forall i :: 0 < i < |spans| ==> UnitStart(rules, interval, spans[i].from))
    && (forall i, e :: 0 <= i < |spans| && spans[i].from < e <= spans[i].to ==> !UnitStart(rules, interval, e))
  }

  lemma {:induction false} SpansAreUnits(rules: Rules, interval: Interval, d: int, to: int)
    requires Forward(rules) && Monthly(rules)
    ensures OneUnitEach(rules, interval, Spans(rules, interval, d, to))
    decreases (to - d)
  {
    hide UnitStart, NextStart, Monthly, OneUnitEach;
    if d <= to {
      var next := Clipped(NextStart(rules, interval, d), to);
      NextUnit(rules, interval, d);
      SpansAreUnits(rules, interval, next, to);
      SpansTile(rules, interval, next, to);
      UnitsGrow(rules, interval, Range(d, next - 1), Spans(rules, interval, next, to));
    } else {
      assert OneUnitEach(rules, interval, []) by { NoUnits(rules, interval); }
    }
  }

  lemma NoUnits(rules: Rules, interval: Interval)
    ensures OneUnitEach(rules, interval, [])
  {
  }

  lemma UnitsGrow(rules: Rules, interval: Interval, first: Range, rest: seq<Range>)
    requires OneUnitEach(rules, interval, rest) && (rest != [] ==> UnitStart(rules, interval, rest[0].from))
    requires forall e :: first.from < e <= first.to ==> !UnitStart(rules, interval, e)
    ensures OneUnitEach(rules, interval, [first] + rest)
  {
    hide UnitStart;
    var all := [first] + rest;
    assert forall i :: 0 < i < |all| ==> all[i] == rest[i - 1];
  }

  /** Day buckets hold a day; week buckets after the first start on a Monday and hold seven, unless the range ends. */
  lemma SpanLengths(rules: Rules, interval: Interval, from: int, to: int, i: nat)
    requires Forward(rules) && Monthly(rules) && i < |Spans(rules, interval, from, to)|
    ensures var spans := Spans(rules, interval, from, to);
      && (interval == Day ==> spans[i].from == spans[i].to)
      && (interval == Week && 0 < i ==> DayOfWeek(rules, spans[i].from) == 0)
      && (interval == Week && 0 < i < |spans| - 1 ==> spans[i].to - spans[i].from == 6)
      && (interval == Week ==> spans[i].to - spans[i].from <= 6)
  {
    hide Spans, Monthly;
    var spans := Spans(rules, interval, from, to);
    SpansAreUnits(rules, interval, from, to);
    SpansTile(rules, interval, from, to);
    if interval == Day { assert !(spans[i].from < spans[i].to) by { assert UnitStart(rules, Day, spans[i].to); } }
    if interval == Week {
      NextUnit(rules, interval, spans[i].from);
      assert UnitStart(rules, Week, NextStart(rules, Week, spans[i].from));
      if i < |spans| - 1 { assert UnitStart(rules, Week, spans[i + 1].from); }
    }
  }

  datatype Bucket = Bucket(start: int, end: int)

  function BucketOf(c: DayStarts, site: SiteId, r: Range): Bucket {
    Bucket(c(site, r.from), c(site, r.to + 1))
  }

  function BucketsOf(c: DayStarts, site: SiteId, spans: seq<Range>): (bs: seq<Bucket>)
    ensures |bs| == |spans| && forall i :: 0 <= i < |spans| ==> bs[i] == BucketOf(c, site, spans[i])
  {
    seq(|spans|, i requires 0 <= i < |spans| => BucketOf(c, site, spans[i]))
  }

  /** Lays a range out by interval. */
  method Buckets(rules: Rules, c: DayStarts, site: SiteId, r: Range, interval: Interval) returns (bs: seq<Bucket>)
    requires Forward(rules)
    ensures bs == BucketsOf(c, site, Spans(rules, interval, r.from, r.to))
  {
    bs := [];
    ghost var done: seq<Range> := [];
    var d := r.from;
    while d <= r.to
      invariant done + Spans(rules, interval, d, r.to) == Spans(rules, interval, r.from, r.to)
      invariant bs == BucketsOf(c, site, done)
      decreases r.to - d
    {
      var next := Clipped(NextStart(rules, interval, d), r.to);
      done := done + [Range(d, next - 1)];
      bs := bs + [Bucket(c(site, d), c(site, next))];
      d := next;
    }
    assert done + [] == done;
  }

  /** Buckets follow one another in time. */
  ghost predicate Chained(bs: seq<Bucket>) {
    && (forall i :: 0 <= i < |bs| ==> bs[i].start < bs[i].end)
    && (forall i, j :: 0 <= i < j < |bs| ==> bs[i].end <= bs[j].start)
  }

  lemma {:induction false} TilesApart(spans: seq<Range>, from: int, to: int, i: nat, j: nat)
    requires Tiles(spans, from, to) && i < j < |spans|
    ensures spans[i].to < spans[j].from
    decreases j
  {
    if i < j - 1 { TilesApart(spans, from, to, i, j - 1); }
  }

  lemma TilesChained(c: DayStarts, site: SiteId, spans: seq<Range>, from: int, to: int)
    requires Advancing(c) && Tiles(spans, from, to)
    ensures Chained(BucketsOf(c, site, spans))
  {
    var bs := BucketsOf(c, site, spans);
    forall i, j | 0 <= i < j < |bs| ensures bs[i].end <= bs[j].start {
      TilesApart(spans, from, to, i, j);
      assert spans[i].to + 1 < spans[j].from || spans[i].to + 1 == spans[j].from;
    }
  }

  /** Binary search for the bucket that holds a moment; -1 exactly when none does. */
  method BucketAt(bs: seq<Bucket>, t: int) returns (i: int)
    requires Chained(bs)
    ensures i == -1 ==> forall k :: 0 <= k < |bs| ==> !(bs[k].start <= t < bs[k].end)
    ensures i != -1 ==> 0 <= i < |bs| && bs[i].start <= t < bs[i].end
    ensures forall k :: 0 <= k < |bs| && bs[k].start <= t < bs[k].end ==> k == i
  {
    var lo, hi := 0, |bs|;
    while lo < hi
      invariant 0 <= lo <= hi <= |bs|
      invariant forall k :: 0 <= k < lo ==> bs[k].end <= t
      invariant forall k :: hi <= k < |bs| ==> t < bs[k].end
    {
      var mid := (lo + hi) / 2;
      if bs[mid].end > t {
        forall k | mid < k < |bs| ensures t < bs[k].end { assert bs[mid].end <= bs[k].start < bs[k].end; }
        hi := mid;
      } else {
        forall k | 0 <= k < mid ensures bs[k].end <= t { assert bs[k].end <= bs[mid].start < bs[mid].end; }
        lo := mid + 1;
      }
    }
    forall k | lo < k < |bs| ensures !(bs[k].start <= t < bs[k].end) { assert bs[lo].end <= bs[k].start; }
    if lo < |bs| && bs[lo].start <= t { return lo; }
    return -1;
  }

  // ----- the aggregate part -----

  /** The aggregated days of a bucket up to a day. */
  function AggIn(daily: Daily, site: SiteId, span: Range, upto: int): Counts {
    AggSum(daily, site, Total, "", span.from, Min(span.to, upto))
  }

  lemma AggSumLast(daily: Daily, site: SiteId, from: int, last: int)
    ensures AggSum(daily, site, Total, "", from, last) ==
      if last < from then ZERO
      else Add(AggSum(daily, site, Total, "", from, last - 1), Lookup(daily, DailyKey(site, last, Total, "")))
  {
    hide Lookup;
  }

  lemma AggInStep(daily: Daily, site: SiteId, span: Range, d: int)
    ensures AggIn(daily, site, span, d) ==
      if span.from <= d <= span.to
      then Add(AggIn(daily, site, span, d - 1), Lookup(daily, DailyKey(site, d, Total, "")))
      else AggIn(daily, site, span, d - 1)
  {
    hide AggSum, Lookup;
    AggSumLast(daily, site, span.from, Min(span.to, d));
    AggSumLast(daily, site, span.from, Min(span.to, d - 1));
  }

  /** A day's start lies in the bucket whose days include it. */
  lemma DayInBucket(c: DayStarts, site: SiteId, span: Range, d: int)
    requires Advancing(c)
    ensures var b := BucketOf(c, site, span); b.start <= c(site, d) < b.end <==> span.from <= d <= span.to
  {
    assert span.from < d || span.from == d || d < span.from;
    assert d < span.to + 1 || d == span.to + 1 || span.to + 1 < d;
  }

  /** The daily totals of the aggregated days, each added to the bucket its day starts in. */
  method AddDays(
      st: Store, site: SiteId, agg: Range, bs: seq<Bucket>, ghost spans: seq<Range>, ghost r: Range)
    returns (counts: seq<Counts>)
    requires st.Valid() && Tiles(spans, r.from, r.to) && agg.from == r.from && bs == BucketsOf(st.cfg.days, site, spans)
    ensures |counts| == |spans| && forall i :: 0 <= i < |spans| ==> counts[i] == AggIn(st.daily, site, spans[i], agg.to)
  {
    hide Inv, Advancing, AggIn, Tiles, Chained;
    var c := st.cfg.days;
    TilesChained(c, site, spans, r.from, r.to);
    counts := seq(|bs|, _ => ZERO);
    NoDaysYet(st.daily, site, spans, r.from, r.to, Min(agg.from - 1, agg.to));
    var d := agg.from;
    while d <= agg.to
      invariant |counts| == |spans|
      invariant forall i :: 0 <= i < |spans| ==> counts[i] == AggIn(st.daily, site, spans[i], Min(d - 1, agg.to))
    {
      var key := DailyKey(site, d, Total, "");
      var i := -1;
      if key in st.daily {
        i := BucketAt(bs, c(site, d));
        if i >= 0 { counts := counts[i := Add(counts[i], st.daily[key])]; }
      }
      forall k | 0 <= k < |spans| ensures counts[k] == AggIn(st.daily, site, spans[k], d) {
        DayInBucket(c, site, spans[k], d);
        AggInStep(st.daily, site, spans[k], d);
      }
      d := d + 1;
    }
  }

  lemma NoDaysYet(daily: Daily, site: SiteId, spans: seq<Range>, from: int, to: int, upto: int)
    requires Tiles(spans, from, to) && upto < from
    ensures forall i :: 0 <= i < |spans| ==> AggIn(daily, site, spans[i], upto) == ZERO
  {
  }

  // ----- the raw part -----

  /** The filtered visits started in the selected range. */
  function RawVisits(sel: Selector, vs: seq<Visit>, pages: seq<PageRow>): seq<Visit> {
    if vs == [] then []
    else if Member(sel, Last(vs), pages) then RawVisits(sel, vs[..|vs| - 1], pages) + [Last(vs)]
    else RawVisits(sel, vs[..|vs| - 1], pages)
  }

  /** The total of a bucket's share of the raw range. */
  function Share(sel: Selector, b: Bucket): Selector {
    sel.(from := Max(sel.from, b.start), to := Min(sel.to, b.end))
  }

  lemma {:induction false} RawVisitsSuffice(sel: Selector, b: Bucket, vs: seq<Visit>, pages: seq<PageRow>)
    requires sel.dim == Total
    ensures Gather(Share(sel, b), RawVisits(sel, vs, pages), pages) == Gather(Share(sel, b), vs, pages)
  {
    hide VisitPasses, Join;
    if vs != [] {
      RawVisitsSuffice(sel, b, vs[..|vs| - 1], pages);
      var k := RawVisits(sel, vs[..|vs| - 1], pages);
      assert (k + [Last(vs)])[..|k|] == k;
      JoinNothing(Gather(Share(sel, b), vs[..|vs| - 1], pages));
    }
  }

  lemma {:induction false} RawVisitsMembers(sel: Selector, vs: seq<Visit>, pages: seq<PageRow>, i: nat)
    requires i < |RawVisits(sel, vs, pages)|
    ensures Member(sel, RawVisits(sel, vs, pages)[i], pages)
  {
    hide Member;
    if i < |RawVisits(sel, vs[..|vs| - 1], pages)| { RawVisitsMembers(sel, vs[..|vs| - 1], pages, i); }
  }

  /** The visits a series counts one by one: of the range, passing its filters, and started on a day still whole. */
  ghost function WholeDayVisits(
      cfg: Config, now: int, site: SiteId, r: Range, filters: seq<Filter>, t: Tables): set<Visit>
    requires Advancing(cfg.days)
  {
    set v | v in ChosenVisits(Over(cfg.days, site, Total, "", r, filters), t)
      && Whole(cfg, now, site, DayOf(cfg.days, site, v.startedAt))
  }

  lemma {:induction false} RawVisitsAre(sel: Selector, vs: seq<Visit>, pages: seq<PageRow>)
    requires Rising(vs)
    ensures |RawVisits(sel, vs, pages)| == |Members(sel, vs, pages)|
  {
    hide Member, Members, Rising;
    if vs == [] {
      NoMembers(sel, pages);
    } else {
      MembersGrow(sel, vs, pages);
      RawVisitsAre(sel, vs[..|vs| - 1], pages);
    }
  }

  lemma RawVisitsChosen(cfg: Config, w: World, sel: Selector)
    requires Inv(cfg, w)
    ensures |RawVisits(sel, w.tables.visits, w.tables.pages)| == |ChosenVisits(sel, w.tables)|
  {
    hide Inv, Chosen, Member, RawVisits, Rising, RisingPages;
    var t := w.tables;
    StoredInOrder(cfg, w);
    RawVisitsAre(sel, t.visits, t.pages);
    forall v ensures Member(sel, v, t.pages) <==> Chosen(sel, v, t.pages) { MemberIsChosen(sel, v, t.pages); }
    assert ChosenVisits(sel, t) == Members(sel, t.visits, t.pages);
  }

  /** A moment is in a part of the range exactly when its day is. */
  lemma MomentInDays(c: DayStarts, site: SiteId, r: Range, t: int)
    requires Advancing(c)
    ensures c(site, r.from) <= t < c(site, r.to + 1) <==> r.from <= DayOf(c, site, t) <= r.to
  {
    hide Advancing, DayOf;
    DayBefore(c, site, t, r.from);
    DayBefore(c, site, t, r.to + 1);
  }

  lemma WholeIsInRaw(cfg: Config, now: int, site: SiteId, r: Range, filters: seq<Filter>, v: Visit, pages: seq<PageRow>)
    requires Advancing(cfg.days)
    ensures var raw := Split(r, RawFrom(cfg, now, site)).1;
      Chosen(Over(cfg.days, site, Total, "", r, filters), v, pages)
        && Whole(cfg, now, site, DayOf(cfg.days, site, v.startedAt))
      <==> raw.Some? && Chosen(Over(cfg.days, site, Total, "", raw.value, filters), v, pages)
  {
    hide Advancing, DayOf, Split, RawFrom, Whole, VisitChosenBy;
    var raw := Split(r, RawFrom(cfg, now, site)).1;
    DaysAreReadFrom(cfg, now, site, r, DayOf(cfg.days, site, v.startedAt));
    MomentInDays(cfg.days, site, r, v.startedAt);
    if raw.Some? { MomentInDays(cfg.days, site, raw.value, v.startedAt); }
  }

  lemma RawVisitsCounted(cfg: Config, w: World, site: SiteId, r: Range, filters: seq<Filter>)
    requires Sane(cfg) && Inv(cfg, w)
    ensures var raw := Split(r, RawFrom(cfg, w.now, site)).1;
      |WholeDayVisits(cfg, w.now, site, r, filters, w.tables)|
      == if raw.None? then 0
         else |RawVisits(Over(cfg.days, site, Total, "", raw.value, filters), w.tables.visits, w.tables.pages)|
  {
    hide Inv, Advancing, DayOf, Split, RawFrom, Whole, Chosen, Member, RawVisits, Rising, RisingPages, Over;
    var raw, t := Split(r, RawFrom(cfg, w.now, site)).1, w.tables;
    var whole := WholeDayVisits(cfg, w.now, site, r, filters, t);
    forall v ensures v in whole <==>
      v in t.visits && raw.Some? && Chosen(Over(cfg.days, site, Total, "", raw.value, filters), v, t.pages)
    {
      WholeIsInRaw(cfg, w.now, site, r, filters, v, t.pages);
    }
    if raw.None? {
      assert whole == {};
    } else {
      var sel := Over(cfg.days, site, Total, "", raw.value, filters);
      RawVisitsChosen(cfg, w, sel);
      assert whole == ChosenVisits(sel, t);
    }
  }

  /** A part with its visitors counted. */
  function Closed(p: Part): Counts {
    p.sums.(visitors := |p.hashes|)
  }

  /** Adds one visit to its bucket, its visitor only when new there. */
  function AddVisit(c: Counts, seen: set<Hash>, v: Visit): Counts {
    Counts(
      c.visitors + (if v.hash in seen then 0 else 1), c.visits + 1, c.pageviews + v.pageviews,
      c.bounces + (if v.pageviews == 1 then 1 else 0), c.durationMs + v.lastAt - v.startedAt)
  }

  lemma ShareOne(sel: Selector, b: Bucket, v: Visit, pages: seq<PageRow>)
    requires sel.dim == Total && Member(sel, v, pages)
    ensures One(Share(sel, b), v, pages) ==
      if b.start <= v.startedAt < b.end
      then Part(Counts(0, 1, v.pageviews, if v.pageviews == 1 then 1 else 0, v.lastAt - v.startedAt), {v.hash})
      else NOTHING
  {
    hide VisitPasses;
  }

  lemma ClosedJoin(g: Part, v: Visit)
    ensures var bounces := if v.pageviews == 1 then 1 else 0;
      Closed(Join(g, Part(Counts(0, 1, v.pageviews, bounces, v.lastAt - v.startedAt), {v.hash})))
      == AddVisit(Closed(g), g.hashes, v)
  {
    if v.hash in g.hashes {
      assert g.hashes + {v.hash} == g.hashes;
    } else {
      assert |g.hashes + {v.hash}| == |g.hashes| + 1;
    }
  }

  lemma AddVisitGathers(sel: Selector, b: Bucket, vs: seq<Visit>, v: Visit, pages: seq<PageRow>)
    requires sel.dim == Total && Member(sel, v, pages)
    ensures var g, h := Gather(Share(sel, b), vs, pages), Gather(Share(sel, b), vs + [v], pages);
      if b.start <= v.startedAt < b.end
      then h.hashes == g.hashes + {v.hash} && Closed(h) == AddVisit(Closed(g), g.hashes, v)
      else h == g
  {
    hide One, Share, Member, Closed, AddVisit;
    assert (vs + [v])[..|vs|] == vs;
    ShareOne(sel, b, v, pages);
    var g := Gather(Share(sel, b), vs, pages);
    if b.start <= v.startedAt < b.end { ClosedJoin(g, v); } else { JoinNothing(g); }
  }

  method AddVisits(
      visits: seq<Visit>, bs: seq<Bucket>, counts: seq<Counts>, ghost sel: Selector,
      ghost pages: seq<PageRow>)
    returns (out: seq<Counts>)
    requires Chained(bs) && |counts| == |bs| && sel.dim == Total
    requires forall i :: 0 <= i < |visits| ==> Member(sel, visits[i], pages)
    ensures |out| == |bs|
    ensures forall i :: 0 <= i < |bs| ==> out[i] == Add(counts[i], Closed(Gather(Share(sel, bs[i]), visits, pages)))
  {
    hide Member, Gather, Share, Chained;
    out := counts;
    var seen: seq<set<Hash>> := seq(|bs|, _ => {});
    NothingGathered(bs, sel, pages);
    for k := 0 to |visits|
      invariant |out| == |seen| == |bs|
      invariant forall i :: 0 <= i < |bs| ==> seen[i] == Gather(Share(sel, bs[i]), visits[..k], pages).hashes
      invariant forall i :: 0 <= i < |bs| ==>
        out[i] == Add(counts[i], Closed(Gather(Share(sel, bs[i]), visits[..k], pages)))
    {
      var v := visits[k];
      assert visits[..k + 1] == visits[..k] + [v];
      var i := BucketAt(bs, v.startedAt);
      if i >= 0 {
        out := out[i := AddVisit(out[i], seen[i], v)];
        seen := seen[i := seen[i] + {v.hash}];
      }
      forall j | 0 <= j < |bs|
        ensures seen[j] == Gather(Share(sel, bs[j]), visits[..k + 1], pages).hashes
        ensures out[j] == Add(counts[j], Closed(Gather(Share(sel, bs[j]), visits[..k + 1], pages)))
      {
        AddVisitGathers(sel, bs[j], visits[..k], v, pages);
      }
    }
    assert visits[..|visits|] == visits;
  }

  lemma NothingGathered(bs: seq<Bucket>, sel: Selector, pages: seq<PageRow>)
    ensures forall i :: 0 <= i < |bs| ==> Gather(Share(sel, bs[i]), [], pages) == NOTHING
  {
  }

  // ----- the series -----

  datatype Series = TooMany | Series(counts: seq<Counts>)

  /** The aggregated days of a bucket are those its own split would read. */
  lemma SpanAggregates(daily: Daily, site: SiteId, r: Range, span: Range, boundary: Option<int>)
    requires r.from <= span.from <= span.to <= r.to
    ensures var agg, mine := Split(r, boundary).0, Split(span, boundary).0;
      (if agg.Some? then AggIn(daily, site, span, agg.value.to) else ZERO)
      == if mine.Some? then AggSum(daily, site, Total, "", mine.value.from, mine.value.to) else ZERO
  {
    hide AggSum;
    var agg := Split(r, boundary).0;
    if agg.Some? { AggSumLast(daily, site, span.from, Min(span.to, agg.value.to)); }
  }

  /** So is its raw share. */
  lemma SpanRaw(
      c: DayStarts, t: Tables, site: SiteId, r: Range, span: Range, boundary: Option<int>,
      filters: seq<Filter>)
    requires Advancing(c) && r.from <= span.from <= span.to <= r.to
    ensures var raw, mine, b := Split(r, boundary).1, Split(span, boundary).1, BucketOf(c, site, span);
      (if raw.Some? then Tally(Share(Over(c, site, Total, "", raw.value, filters), b), t) else ZERO)
      == if mine.Some? then Tally(Over(c, site, Total, "", mine.value, filters), t) else ZERO
  {
    hide Tally, Advancing;
    var raw, mine := Split(r, boundary).1, Split(span, boundary).1;
    if raw.Some? {
      Lines(c, site, raw.value, span);
      if mine.None? {
        EmptySelection(Share(Over(c, site, Total, "", raw.value, filters), BucketOf(c, site, span)), t);
      }
    }
  }

  /** A bucket's aggregate share and raw share are the two parts of its own report. */
  lemma SpanReported(cfg: Config, w: World, site: SiteId, r: Range, span: Range, filters: seq<Filter>)
    requires Advancing(cfg.days) && r.from <= span.from <= span.to <= r.to
    ensures var parts, b := Split(r, RawFrom(cfg, w.now, site)), BucketOf(cfg.days, site, span);
      Reported(cfg, w, site, Total, "", span, filters) == Add(
        if parts.0.Some? then AggIn(w.daily, site, span, parts.0.value.to) else ZERO,
        if parts.1.Some?
        then Tally(Share(Over(cfg.days, site, Total, "", parts.1.value, filters), b), w.tables)
        else ZERO)
  {
    hide Tally, AggSum, AggIn, RawFrom, Split, Advancing, Over, Share, Add;
    SpanAggregates(w.daily, site, r, span, RawFrom(cfg, w.now, site));
    SpanRaw(cfg.days, w.tables, site, r, span, RawFrom(cfg, w.now, site), filters);
  }

  lemma Lines(c: DayStarts, site: SiteId, a: Range, b: Range)
    requires Advancing(c)
    ensures Max(c(site, a.from), c(site, b.from)) == c(site, Max(a.from, b.from))
    ensures Min(c(site, a.to + 1), c(site, b.to + 1)) == c(site, Min(a.to, b.to) + 1)
    ensures b.to < a.from ==> c(site, b.to + 1) <= c(site, a.from)
  {
    assert a.from < b.from || a.from == b.from || b.from < a.from;
    assert a.to + 1 < b.to + 1 || a.to == b.to || b.to + 1 < a.to + 1;
    assert b.to + 1 < a.from || b.to + 1 == a.from || a.from < b.to + 1;
  }

  lemma EmptySelection(sel: Selector, t: Tables)
    requires sel.to <= sel.from
    ensures Tally(sel, t) == ZERO
  {
    EmptyGather(sel, t.visits, t.pages);
  }

  lemma ShareTally(sel: Selector, b: Bucket, t: Tables)
    requires sel.dim == Total
    ensures Closed(Gather(Share(sel, b), RawVisits(sel, t.visits, t.pages), t.pages)) == Tally(Share(sel, b), t)
  {
    hide Gather, Share, RawVisits;
    RawVisitsSuffice(sel, b, t.visits, t.pages);
  }

  /**
   The counts of every bucket: each is exactly what a report of the bucket's own days
   would say, across the raw boundary too.
   */
  method DaySeries(st: Store, rules: Rules, now: int, site: SiteId, r: Range, interval: Interval, filters: seq<Filter>)
    returns (s: Series)
    requires st.Valid() && st.w.now == now && Forward(rules) && r.from <= r.to
    ensures s.Series? ==> |s.counts| == |Spans(rules, interval, r.from, r.to)|
    ensures s.Series? ==> forall i :: 0 <= i < |s.counts| ==>
      s.counts[i] == Reported(st.cfg, st.w, site, Total, "", Spans(rules, interval, r.from, r.to)[i], filters)
    ensures s.TooMany? <==> |WholeDayVisits(st.cfg, now, site, r, filters, st.w.tables)| > MAX_TIMELINE_VISITS
  {
    hide WholeDayVisits;
    hide Inv, Advancing, Tally, AggSum, RawFrom, Member, Gather, Tiles;
    hide Chained, Share, Closed, Reported, AggIn, Over, Forward, RawVisits, Spans;
    var c := st.cfg.days;
    var bs := Buckets(rules, c, site, r, interval);
    ghost var spans := Spans(rules, interval, r.from, r.to);
    SpansTile(rules, interval, r.from, r.to);
    TilesChained(c, site, spans, r.from, r.to);
    SpansInside(spans, r.from, r.to);
    var parts := Split(r, RawFrom(st.cfg, now, site));
    RawVisitsCounted(st.cfg, st.w, site, r, filters);
    var counts := seq(|bs|, _ => ZERO);
    if parts.0.Some? { counts := AddDays(st, site, parts.0.value, bs, spans, r); }
    ghost var agg := counts;
    if parts.1.Some? {
      var sel := Over(c, site, Total, "", parts.1.value, filters);
      OverTotal(c, site, parts.1.value, filters);
      var visits := RawVisits(sel, st.visits, st.pages);
      if |visits| > MAX_TIMELINE_VISITS { return TooMany; }
      forall i | 0 <= i < |visits|
        ensures Member(sel, visits[i], st.pages)
      {
        RawVisitsMembers(sel, st.visits, st.pages, i);
      }
      counts := AddVisits(visits, bs, counts, sel, st.pages);
      forall i | 0 <= i < |bs| ensures counts[i] == Add(agg[i], Tally(Share(sel, bs[i]), st.w.tables)) {
        ShareTally(sel, bs[i], st.w.tables);
      }
    }
    forall i | 0 <= i < |counts| ensures counts[i] == Reported(st.cfg, st.w, site, Total, "", spans[i], filters) {
      SpanReported(st.cfg, st.w, site, r, spans[i], filters);
    }
    s := Series(counts);
  }

  lemma OverTotal(c: DayStarts, site: SiteId, r: Range, filters: seq<Filter>)
    ensures Over(c, site, Total, "", r, filters).dim == Total
  {
  }

  lemma SpansInside(spans: seq<Range>, from: int, to: int)
    requires Tiles(spans, from, to)
    ensures forall i :: 0 <= i < |spans| ==> from <= spans[i].from <= spans[i].to <= to
  {
  }

  // ----- buckets add up -----

  function Sum(cs: seq<Counts>): Counts {
    if cs == [] then ZERO else Add(Sum(cs[..|cs| - 1]), Last(cs))
  }

  function ReportedSpans(
      cfg: Config, w: World, site: SiteId, spans: seq<Range>, filters: seq<Filter>): (cs: seq<Counts>)
    requires Advancing(cfg.days)
    ensures |cs| == |spans| && forall i :: 0 <= i < |spans| ==>
      cs[i] == Reported(cfg, w, site, Total, "", spans[i], filters)
  {
    seq(|spans|, i requires 0 <= i < |spans| => Reported(cfg, w, site, Total, "", spans[i], filters))
  }

  lemma {:induction false} SpansAddUp(
      cfg: Config, w: World, site: SiteId, spans: seq<Range>, from: int, to: int,
      filters: seq<Filter>, n: nat)
    requires Sane(cfg) && Inv(cfg, w) && Tiles(spans, from, to) && 0 < n <= |spans|
    ensures Sum(ReportedSpans(cfg, w, site, spans[..n], filters))
          == Reported(cfg, w, site, Total, "", Range(from, spans[n - 1].to), filters)
  {
    hide Inv, Reported, Advancing;
    var cs := ReportedSpans(cfg, w, site, spans[..n], filters);
    assert cs[..n - 1] == ReportedSpans(cfg, w, site, spans[..n - 1], filters);
    assert Last(cs) == Reported(cfg, w, site, Total, "", spans[n - 1], filters);
    if n == 1 {
      assert cs[..0] == [];
    } else {
      SpansAddUp(cfg, w, site, spans, from, to, filters, n - 1);
      SpansInside(spans, from, to);
      ReportedSplits(cfg, w, site, Total, "", Range(from, spans[n - 1].to), spans[n - 1].from, filters);
    }
  }

  /**
   The buckets of a day, week or month series, distinct visitors included, sum to the
   reported total of the whole range, stale aggregates or not. With fresh aggregates
   every bucket and the sum are those of the full history.
   */
  lemma SeriesAddsUp(
      cfg: Config, w: World, site: SiteId, rules: Rules, interval: Interval, r: Range,
      filters: seq<Filter>, counts: seq<Counts>)
    requires Sane(cfg) && Inv(cfg, w) && Forward(rules) && r.from <= r.to
    requires |counts| == |Spans(rules, interval, r.from, r.to)|
    requires forall i :: 0 <= i < |counts| ==>
      counts[i] == Reported(cfg, w, site, Total, "", Spans(rules, interval, r.from, r.to)[i], filters)
    ensures Sum(counts) == Reported(cfg, w, site, Total, "", r, filters)
    ensures (forall d :: r.from <= d <= r.to ==> Whole(cfg, w.now, site, d) || (filters == [] && Fresh(w, site, d))) ==>
        && Sum(counts) == Scanned(cfg, w, site, Total, "", r, filters)
        && forall i :: 0 <= i < |counts| ==>
             counts[i] == Scanned(cfg, w, site, Total, "", Spans(rules, interval, r.from, r.to)[i], filters)
  {
    hide Inv, Advancing, Fresh, Reported, Scanned, Spans, Forward, Whole;
    var spans := Spans(rules, interval, r.from, r.to);
    SpansTile(rules, interval, r.from, r.to);
    assert counts == ReportedSpans(cfg, w, site, spans, filters);
    assert spans[..|spans|] == spans;
    SpansAddUp(cfg, w, site, spans, r.from, r.to, filters, |spans|);
    TotalIsADimension();
    if forall d :: r.from <= d <= r.to ==> Whole(cfg, w.now, site, d) || (filters == [] && Fresh(w, site, d)) {
      ReportExact(cfg, w, site, Total, "", r, filters);
      forall i | 0 <= i < |counts| ensures counts[i] == Scanned(cfg, w, site, Total, "", spans[i], filters) {
        ReportExact(cfg, w, site, Total, "", spans[i], filters);
      }
    }
  }

  lemma TotalIsADimension()
    ensures Total in Dimensions()
  {
    assert Dimensions()[0] == Total;
  }

  // ----- hours -----

  /** Hour buckets from `start` while one still begins before `end`. */
  ghost predicate Hours(bs: seq<Bucket>, start: int, end: int) {
    && (forall i :: 0 <= i < |bs| ==>
          bs[i] == Bucket(start + i * HOUR_MS, start + (i + 1) * HOUR_MS) && bs[i].start < end)
    && end <= start + |bs| * HOUR_MS
  }

  method HourBuckets(start: int, end: int) returns (bs: seq<Bucket>)
    requires start < end
    ensures Hours(bs, start, end)
  {
    bs := [];
    var t := start;
    while t < end
      invariant t == start + |bs| * HOUR_MS
      invariant forall i :: 0 <= i < |bs| ==>
        bs[i] == Bucket(start + i * HOUR_MS, start + (i + 1) * HOUR_MS) && bs[i].start < end
    {
      bs := bs + [Bucket(t, t + HOUR_MS)];
      t := t + HOUR_MS;
    }
  }

  lemma HoursChained(bs: seq<Bucket>, start: int, end: int)
    requires Hours(bs, start, end)
    ensures Chained(bs)
  {
  }

  /** One whole raw day by the hour; anything else, or a comparison that reaches aggregates, is refused. */
  method HourSeries(st: Store, now: int, site: SiteId, r: Range, cmp: Option<Range>, filters: seq<Filter>)
    returns (s: Series, refused: bool, ghost bs: seq<Bucket>)
    requires st.Valid() && st.w.now == now && r.from <= r.to && (cmp.Some? ==> cmp.value.from <= cmp.value.to)
    ensures refused <==>
      (r.from != r.to || !AllWhole(st.cfg, now, site, r) || (cmp.Some? && !AllWhole(st.cfg, now, site, cmp.value)))
    ensures !refused ==> (s.TooMany? <==>
      |ChosenVisits(Over(st.cfg.days, site, Total, "", r, filters), st.w.tables)| > MAX_TIMELINE_VISITS)
    ensures !refused && s.Series? ==>
      && Hours(bs, st.cfg.days(site, r.from), st.cfg.days(site, r.from + 1)) && |s.counts| == |bs|
      && forall i :: 0 <= i < |bs| ==>
        s.counts[i] == Tally(Share(Over(st.cfg.days, site, Total, "", r, filters), bs[i]), Replay(st.w.history))
  {
    hide Inv, Tally, RawFrom, Member, Gather, Chained, Share, Closed, Over, RawVisits, Hours, Replay, AllWhole;
    hide ChosenVisits;
    bs := [];
    ReadsAggregatesIff(st.cfg, now, site, r);
    if cmp.Some? { ReadsAggregatesIff(st.cfg, now, site, cmp.value); }
    var parts := Split(r, RawFrom(st.cfg, now, site));
    if r.from != r.to || parts.0.Some? || (cmp.Some? && Split(cmp.value, RawFrom(st.cfg, now, site)).0.Some?) {
      return TooMany, true, bs;
    }
    refused := false;
    var c := st.cfg.days;
    var buckets := HourBuckets(c(site, r.from), c(site, r.from + 1));
    bs := buckets;
    HoursChained(bs, c(site, r.from), c(site, r.from + 1));
    var sel := Over(c, site, Total, "", r, filters);
    OverTotal(c, site, r, filters);
    var visits := RawVisits(sel, st.visits, st.pages);
    RawVisitsChosen(st.cfg, st.w, sel);
    if |visits| > MAX_TIMELINE_VISITS { return TooMany, false, bs; }
    forall i | 0 <= i < |visits|
      ensures Member(sel, visits[i], st.pages)
    {
      RawVisitsMembers(sel, st.visits, st.pages, i);
    }
    var counts := AddVisits(visits, buckets, seq(|buckets|, _ => ZERO), sel, st.pages);
    forall i | 0 <= i < |bs| ensures counts[i] == Tally(Share(sel, bs[i]), Replay(st.w.history)) {
      ShareTally(sel, bs[i], st.w.tables);
      BoundaryIsWhole(st.cfg, now, site, r.from);
      HourIsWhole(st.cfg, st.w, site, r, filters, bs[i]);
    }
    s := Series(counts);
  }

  lemma HourIsWhole(cfg: Config, w: World, site: SiteId, r: Range, filters: seq<Filter>, b: Bucket)
    requires Sane(cfg) && Inv(cfg, w) && Whole(cfg, w.now, site, r.from)
    ensures var sel := Share(Over(cfg.days, site, Total, "", r, filters), b);
      Tally(sel, w.tables) == Tally(sel, Replay(w.history))
  {
    hide Tally, Replay, RowsOk, HistoryOk, DailyOk;
    WholeDayExact(cfg, w, Share(Over(cfg.days, site, Total, "", r, filters), b));
  }

  /** A visit total is cut anywhere without losing or repeating a visit; only visitors may be on both sides. */
  lemma {:induction false} GatherCut(sel: Selector, mid: int, vs: seq<Visit>, pages: seq<PageRow>)
    requires sel.dim == Total && sel.from <= mid <= sel.to
    ensures Gather(sel, vs, pages) == Join(Gather(sel.(to := mid), vs, pages), Gather(sel.(from := mid), vs, pages))
  {
    hide One, Join;
    var l, r := sel.(to := mid), sel.(from := mid);
    if vs == [] {
      JoinNothing(NOTHING);
    } else {
      var init, v := vs[..|vs| - 1], Last(vs);
      GatherCut(sel, mid, init, pages);
      OneCut(sel, mid, v, pages);
      JoinReorders(Gather(l, init, pages), Gather(r, init, pages), One(l, v, pages), One(r, v, pages));
    }
  }

  lemma OneCut(sel: Selector, mid: int, v: Visit, pages: seq<PageRow>)
    requires sel.dim == Total && sel.from <= mid <= sel.to
    ensures One(sel, v, pages) == Join(One(sel.(to := mid), v, pages), One(sel.(from := mid), v, pages))
  {
    hide VisitPasses, Join;
    JoinNothing(One(sel, v, pages));
  }

  /** Equal in every field but visitors, of which there may be more. */
  predicate Covers(sum: Counts, total: Counts) {
    sum.(visitors := total.visitors) == total && total.visitors <= sum.visitors
  }

  lemma TallyCut(sel: Selector, mid: int, t: Tables)
    requires sel.dim == Total && sel.from <= mid <= sel.to
    ensures Covers(Add(Tally(sel.(to := mid), t), Tally(sel.(from := mid), t)), Tally(sel, t))
  {
    hide Gather;
    GatherCut(sel, mid, t.visits, t.pages);
    var a, b := Gather(sel.(to := mid), t.visits, t.pages), Gather(sel.(from := mid), t.visits, t.pages);
    assert |a.hashes + b.hashes| <= |a.hashes| + |b.hashes|;
  }

  function HourTallies(sel: Selector, bs: seq<Bucket>, t: Tables): (cs: seq<Counts>)
    ensures |cs| == |bs| && forall i :: 0 <= i < |bs| ==> cs[i] == Tally(Share(sel, bs[i]), t)
  {
    seq(|bs|, i requires 0 <= i < |bs| => Tally(Share(sel, bs[i]), t))
  }

  lemma {:induction false} HoursCover(sel: Selector, bs: seq<Bucket>, t: Tables, n: nat)
    requires sel.dim == Total && Hours(bs, sel.from, sel.to) && 0 < n <= |bs|
    ensures Covers(Sum(HourTallies(sel, bs[..n], t)), Tally(sel.(to := Min(sel.to, bs[n - 1].end)), t))
  {
    hide Tally;
    var cs := HourTallies(sel, bs[..n], t);
    assert cs[..n - 1] == HourTallies(sel, bs[..n - 1], t);
    assert Last(cs) == Tally(Share(sel, bs[n - 1]), t);
    assert bs[n - 1] == Bucket(sel.from + (n - 1) * HOUR_MS, sel.from + n * HOUR_MS) && bs[n - 1].start < sel.to;
    if n == 1 {
      assert cs[..0] == [];
      assert Share(sel, bs[0]) == sel.(to := Min(sel.to, bs[0].end));
    } else {
      HoursCover(sel, bs, t, n - 1);
      assert bs[n - 2] == Bucket(sel.from + (n - 2) * HOUR_MS, sel.from + (n - 1) * HOUR_MS);
      var upto, mid := Min(sel.to, bs[n - 1].end), bs[n - 1].start;
      assert Min(sel.to, bs[n - 2].end) == mid;
      assert Share(sel, bs[n - 1]) == sel.(from := mid, to := upto);
      TallyCut(sel.(to := upto), mid, t);
    }
  }

  /** Hour buckets sum to the day's total in every field but visitors, and to no fewer visitors than it. */
  lemma HourSeriesCovers(sel: Selector, bs: seq<Bucket>, t: Tables)
    requires sel.dim == Total && Hours(bs, sel.from, sel.to) && sel.from < sel.to
    ensures Covers(Sum(HourTallies(sel, bs, t)), Tally(sel, t))
  {
    hide Tally;
    assert bs[..|bs|] == bs;
    HoursCover(sel, bs, t, |bs|);
    assert sel.(to := Min(sel.to, bs[|bs| - 1].end)) == sel;
  }
}
