/**
 Metrics, the order of report rows, and cutting to the first rows
 (internal/analytics/domain/query.go, application/query.go).
 */
module Ranking {
  import opened Order
  import opened Tallies

  datatype Metric = Visitors | Visits | Pageviews | ViewsPerVisit | BounceRate | VisitDuration

  datatype Row = Row(value: string, counts: Counts)

  /** Half-up rounding of p/q. */
  function Rounded(p: int, q: int): int
    requires q > 0
  {
    (2 * p + q) / (2 * q)
  }

  /** A metric as an integer: averages in hundredths, rates in tenths of a percent, durations in seconds. */
  function Score(c: Counts, m: Metric): int {
    match m
    case Visitors => c.visitors
    case Visits => c.visits
    case Pageviews => c.pageviews
    case ViewsPerVisit => if c.visits <= 0 then 0 else Rounded(100 * c.pageviews, c.visits)
    case BounceRate => if c.visits <= 0 then 0 else Rounded(1000 * c.bounces, c.visits)
    case VisitDuration => if c.visits <= 0 then 0 else c.durationMs / c.visits / 1000
  }

  /** What a metric is a count or a quotient of: what it adds up, in its unit, over the visits. */
  function Numerator(c: Counts, m: Metric): int {
    match m
    case Visitors => c.visitors
    case Visits => c.visits
    case Pageviews => c.pageviews
    case ViewsPerVisit => 100 * c.pageviews
    case BounceRate => 1000 * c.bounces
    case VisitDuration => c.durationMs
  }

  /**
   Counts are themselves; averages and rates are the nearest to their quotient, halves up;
   durations are whole seconds of it; and no visits make all of these zero.
   */
  lemma ScoreMeans(c: Counts, m: Metric)
    ensures var s, n, v := Score(c, m), Numerator(c, m), c.visits;
      match m
      case Visitors => s == c.visitors
      case Visits => s == c.visits
      case Pageviews => s == c.pageviews
      case VisitDuration => if v <= 0 then s == 0 else 1000 * v * s <= n < 1000 * v * (s + 1)
      case _ => if v <= 0 then s == 0 else -v <= 2 * (n - v * s) < v
  {
    if c.visits > 0 {
      RoundedMeans(Numerator(c, m), c.visits);
      SecondsMean(c.durationMs, c.visits);
    }
  }

  lemma RoundedMeans(p: int, q: int)
    requires q > 0
    ensures -q <= 2 * (p - q * Rounded(p, q)) < q
  {
    var r := Rounded(p, q);
    assert 2 * p + q == 2 * q * r + (2 * p + q) % (2 * q);
    assert 2 * q * r == 2 * (q * r);
  }

  lemma Multiply(a: int, b: int, c: int)
    requires a <= b && c >= 0
    ensures a * c <= b * c
  {
  }

  lemma SecondsMean(p: int, q: int)
    requires q > 0
    ensures var s := p / q / 1000; 1000 * q * s <= p < 1000 * q * (s + 1)
  {
    var a := p / q;
    var s := a / 1000;
    Multiply(1000 * s, a, q);
    Multiply(a + 1, 1000 * (s + 1), q);
    assert a * q <= p < (a + 1) * q;
    Regroup(s, q);
    Regroup(s + 1, q);
  }

  lemma Regroup(s: int, q: int)
    ensures (1000 * s) * q == 1000 * q * s
  {
  }

  /** Rows stand in the order of their quotients: the larger one never scores less. */
  lemma LargerQuotientScores(a: Counts, b: Counts, m: Metric)
    requires a.visits > 0 && b.visits > 0 && m in {ViewsPerVisit, BounceRate, VisitDuration}
    requires Numerator(a, m) * b.visits <= Numerator(b, m) * a.visits
    ensures Score(a, m) <= Score(b, m)
  {
    var x, y, v, u := Numerator(a, m), Numerator(b, m), a.visits, b.visits;
    var s, t := Score(a, m), Score(b, m);
    hide Score, Numerator;
    ScoreMeans(a, m);
    ScoreMeans(b, m);
    if m == VisitDuration {
      CrossBounds(x, v, s, y, u, t, 1000);
    } else {
      CrossBounds(2 * x + v, v, s, 2 * y + u, u, t, 2);
    }
  }

  /** Bounds on a quotient and on a larger one compare. */
  lemma CrossBounds(x: int, v: int, s: int, y: int, u: int, t: int, k: int)
    requires v > 0 && u > 0 && k > 0 && x * u <= y * v && k * v * s <= x && y < k * u * (t + 1)
    ensures s <= t
  {
    var unit := k * u * v;
    Multiply(k * v * s, x, u);
    Multiply(y + 1, k * u * (t + 1), v);
    assert k * v * s * u == unit * s && k * u * (t + 1) * v == unit * (t + 1) && (y + 1) * v == y * v + v;
    assert unit * s < unit * (t + 1);
    Below(s, t + 1, unit);
  }

  lemma Below(s: int, t: int, unit: int)
    requires unit * s < unit * t && unit >= 0
    ensures s < t
  {
    if t <= s { Multiply(t, s, unit); }
  }

  /** Larger metric first, ties by value. */
  predicate Before(m: Metric, a: Row, b: Row) {
    Score(a.counts, m) > Score(b.counts, m) || (Score(a.counts, m) == Score(b.counts, m) && Less(a.value, b.value))
  }

  lemma BeforeTransitive(m: Metric, a: Row, b: Row, c: Row)
    requires Before(m, a, b) && Before(m, b, c)
    ensures Before(m, a, c)
  {
    hide Score, Less;
    if Score(a.counts, m) == Score(b.counts, m) == Score(c.counts, m) { LessTransitive(a.value, b.value, c.value); }
  }

  lemma BeforeTotal(m: Metric, a: Row, b: Row)
    requires a.value != b.value
    ensures Before(m, a, b) || Before(m, b, a)
  {
    hide Score, Less;
    LessTotal(a.value, b.value);
  }

  ghost predicate Ordered(m: Metric, rows: seq<Row>) {
    forall i, j :: 0 <= i < j < |rows| ==> Before(m, rows[i], rows[j])
  }

  /** Rows in report order, by score: the larger first, equal ones by their values' bytes. */
  lemma LargestFirst(m: Metric, rows: seq<Row>)
    ensures Ordered(m, rows) <==> forall i, j :: 0 <= i < j < |rows| ==>
      var a, b := Score(rows[i].counts, m), Score(rows[j].counts, m);
      b < a || (a == b && Less(rows[i].value, rows[j].value))
  {
    hide Score, Less;
  }

  ghost predicate Distinct(rows: seq<Row>) {
    forall i, j :: 0 <= i < j < |rows| ==> rows[i].value != rows[j].value
  }

  function Insert(m: Metric, r: Row, rows: seq<Row>): seq<Row> {
    if rows == [] || Before(m, r, rows[0]) then [r] + rows else [rows[0]] + Insert(m, r, rows[1..])
  }

  /** The rows in report order. */
  function Sort(m: Metric, rows: seq<Row>): seq<Row> {
    if rows == [] then [] else Insert(m, rows[0], Sort(m, rows[1..]))
  }

  lemma {:induction false} InsertHolds(m: Metric, r: Row, rows: seq<Row>)
    ensures |Insert(m, r, rows)| == |rows| + 1
    ensures forall x :: x in Insert(m, r, rows) <==> x == r || x in rows
  {
    hide Before;
    if rows != [] && !Before(m, r, rows[0]) {
      InsertHolds(m, r, rows[1..]);
      assert rows == [rows[0]] + rows[1..];
    }
  }

  lemma {:induction false} InsertOrders(m: Metric, r: Row, rows: seq<Row>)
    requires Ordered(m, rows) && forall x :: x in rows ==> x.value != r.value
    ensures Ordered(m, Insert(m, r, rows))
  {
    hide Before;
    var out := Insert(m, r, rows);
    if rows == [] {
    } else if Before(m, r, rows[0]) {
      forall j | 0 < j < |rows| ensures Before(m, r, rows[j]) { BeforeTransitive(m, r, rows[0], rows[j]); }
    } else {
      assert forall x :: x in rows[1..] ==> x in rows;
      InsertOrders(m, r, rows[1..]);
      InsertHolds(m, r, rows[1..]);
      BeforeTotal(m, r, rows[0]);
      var rest := Insert(m, r, rows[1..]);
      forall j | 0 <= j < |rest| ensures Before(m, rows[0], rest[j]) {
        assert rest[j] in rest;
        if rest[j] != r {
          var k :| 0 <= k < |rows[1..]| && rows[1..][k] == rest[j];
          assert rows[k + 1] == rest[j];
        }
      }
      assert out == [rows[0]] + rest;
    }
  }

  /** Sorting keeps the rows and puts them strictly in order. */
  lemma {:induction false} SortSorts(m: Metric, rows: seq<Row>)
    requires Distinct(rows)
    ensures Ordered(m, Sort(m, rows)) && |Sort(m, rows)| == |rows|
    ensures forall x :: x in Sort(m, rows) <==> x in rows
  {
    if rows != [] {
      SortSorts(m, rows[1..]);
      InsertHolds(m, rows[0], Sort(m, rows[1..]));
      assert rows == [rows[0]] + rows[1..];
      forall x | x in Sort(m, rows[1..]) ensures x.value != rows[0].value {
        var k :| 0 <= k < |rows[1..]| && rows[1..][k] == x;
        assert rows[k + 1] == x;
      }
      InsertOrders(m, rows[0], Sort(m, rows[1..]));
    }
  }

  // ----- the first rows -----

  predicate Counted(c: Counts) {
    c.visits > 0 || c.pageviews > 0
  }

  /**
   `rows` are the first `limit` of all the counted values (in any order): each is
   exact, no value is repeated, and a value left out comes after all of them and
   only because the limit was reached.
   */
  ghost predicate Top(m: Metric, rows: seq<Row>, count: string -> Counts, limit: nat) {
    && Distinct(rows)
    && (forall r :: r in rows ==> r.counts == count(r.value) && Counted(r.counts))
    && |rows| <= limit
    && (forall x :: Counted(count(x)) && Row(x, count(x)) !in rows ==>
          |rows| == limit && forall r :: r in rows ==> Before(m, r, Row(x, count(x))))
  }

  lemma OrderedIsDistinct(m: Metric, rows: seq<Row>)
    requires Ordered(m, rows)
    ensures forall i, j :: 0 <= i < j < |rows| ==> rows[i] != rows[j]
  {
    hide Score;
    forall i, j | 0 <= i < j < |rows| ensures rows[i] != rows[j] {
      assert Before(m, rows[i], rows[j]);
      LessIrreflexive(rows[i].value);
    }
  }

  /** Sorting the first rows and cutting at the limit leaves the first rows, whether or not they were cut before. */
  lemma SortAndCut(m: Metric, rows: seq<Row>, count: string -> Counts, cut: nat, limit: nat)
    requires Top(m, rows, count, cut) && limit <= cut
    ensures var s := Sort(m, rows);
      var out := if |s| > limit then s[..limit] else s;
      Top(m, out, count, limit) && Ordered(m, out)
  {
    hide Before;
    SortSorts(m, rows);
    var s := Sort(m, rows);
    var out := if |s| > limit then s[..limit] else s;
    OrderedIsDistinct(m, s);
    forall i, j | 0 <= i < j < |out| ensures out[i].value != out[j].value {
      assert out[i] == s[i] && out[j] == s[j] && s[i] in rows && s[j] in rows;
      SameValueSameRow(rows, s[i], s[j]);
    }
    forall x | Counted(count(x)) && Row(x, count(x)) !in out
      ensures |out| == limit && forall r :: r in out ==> Before(m, r, Row(x, count(x)))
    {
      var y := Row(x, count(x));
      if y in rows {
        assert y in s;
        var k :| 0 <= k < |s| && s[k] == y;
        assert |out| <= k;
      }
    }
  }

  lemma SameValueSameRow(rows: seq<Row>, a: Row, b: Row)
    requires Distinct(rows) && a in rows && b in rows && a != b
    ensures a.value != b.value
  {
    var i :| 0 <= i < |rows| && rows[i] == a;
    var j :| 0 <= j < |rows| && rows[j] == b;
    assert i < j || j < i;
  }

  // ----- the first rows are determined -----

  lemma BeforeOneWay(m: Metric, a: Row, b: Row)
    ensures !(Before(m, a, b) && Before(m, b, a))
  {
    hide Score, Less;
    LessIrreflexive(a.value);
    if Less(a.value, b.value) && Less(b.value, a.value) { LessTransitive(a.value, b.value, a.value); }
  }

  /** A row of one answer that precedes the row the other has in its place would be missing from the other. */
  lemma NotEarlier(m: Metric, a: seq<Row>, b: seq<Row>, count: string -> Counts, limit: nat, n: nat)
    requires Top(m, a, count, limit) && Ordered(m, a) && Top(m, b, count, limit) && Ordered(m, b)
    requires n < |a| && n < |b| && a[..n] == b[..n]
    ensures !Before(m, a[n], b[n])
  {
    hide Before;
    assert a[n] in a && b[n] in b;
    BeforeOneWay(m, a[n], b[n]);
    NewHere(a, n);
    assert Row(a[n].value, count(a[n].value)) == a[n];
    if a[n] in b {
      var j :| 0 <= j < |b| && b[j] == a[n];
      assert forall i :: 0 <= i < n ==> b[..n][i] == b[i];
      assert n <= j;
    }
  }

  lemma NewHere(rows: seq<Row>, n: nat)
    requires Distinct(rows) && n < |rows|
    ensures rows[n] !in rows[..n]
  {
  }

  lemma NoLonger(m: Metric, a: seq<Row>, b: seq<Row>, count: string -> Counts, limit: nat)
    requires Top(m, a, count, limit) && Top(m, b, count, limit) && |a| <= |b| && b[..|a|] == a
    ensures |b| == |a|
  {
    hide Before;
    assert forall i :: 0 <= i < |b| ==> b[i] in b && Row(b[i].value, count(b[i].value)) == b[i];
    if |a| < |b| { NewHere(b, |a|); }
  }

  /** There is one sequence of first rows in order. */
  lemma {:induction false} TopUnique(m: Metric, a: seq<Row>, b: seq<Row>, count: string -> Counts, limit: nat, n: nat)
    requires Top(m, a, count, limit) && Ordered(m, a) && Top(m, b, count, limit) && Ordered(m, b)
    requires n <= |a| && n <= |b|
    ensures a[..n] == b[..n]
    ensures n == |a| ==> |b| == |a|
  {
    hide Before;
    if n > 0 {
      TopUnique(m, a, b, count, limit, n - 1);
      NotEarlier(m, a, b, count, limit, n - 1);
      NotEarlier(m, b, a, count, limit, n - 1);
      SameValue(m, a, b, count, limit, n - 1);
      assert a[..n] == a[..n - 1] + [a[n - 1]] && b[..n] == b[..n - 1] + [b[n - 1]];
    }
    if n == |a| {
      assert a[..n] == a;
      NoLonger(m, a, b, count, limit);
    }
  }

  lemma SameValue(m: Metric, a: seq<Row>, b: seq<Row>, count: string -> Counts, limit: nat, n: nat)
    requires Top(m, a, count, limit) && Top(m, b, count, limit) && n < |a| && n < |b|
    requires !Before(m, a[n], b[n]) && !Before(m, b[n], a[n])
    ensures a[n] == b[n]
  {
    hide Before;
    assert a[n] in a && b[n] in b;
    if a[n].value != b[n].value { BeforeTotal(m, a[n], b[n]); }
  }

  /** Rows in order are left alone by the sort. */
  lemma {:induction false} SortOrdered(m: Metric, rows: seq<Row>)
    requires Ordered(m, rows)
    ensures Sort(m, rows) == rows
  {
    hide Before;
    if rows != [] {
      SortOrdered(m, rows[1..]);
      assert rows == [rows[0]] + rows[1..];
    }
  }
}
