/**
 Pageviews and visits: what the collector stores, and the online rule that puts
 each pageview into a visit (internal/analytics/infrastructure/store.go).
 */
module Visits {
  import opened Calendar
  import opened Wrappers

  /** A visit ends after this idle time (30 minutes, in milliseconds). */
  const VISIT_IDLE: int := 1_800_000

  /** The daily visitor identity: the hash is taken to be injective in these parts. */
  datatype Hash = Hash(day: int, site: SiteId, ip: string, ua: string)

  /** One observation, with what it knows about a visit it may open. */
  datatype Pageview = Pageview(site: SiteId, ts: int, path: string, hash: Hash, attrs: map<string, string>)

  /** A row of `pageviews`. */
  datatype PageRow = PageRow(id: nat, site: SiteId, ts: int, path: string, hash: Hash, visitId: nat)

  /** A row of `visits`. */
  datatype Visit = Visit(
    id: nat, site: SiteId, hash: Hash, startedAt: int, lastAt: int,
    entryPath: string, exitPath: string, pageviews: nat, attrs: map<string, string>)

  datatype Tables = Tables(visits: seq<Visit>, pages: seq<PageRow>)

  const EMPTY := Tables([], [])

  function Last<T>(s: seq<T>): T
    requires s != []
  {
    s[|s| - 1]
  }

  // ----- the online rule -----

  predicate Matches(v: Visit, site: SiteId, hash: Hash, after: int) {
    v.site == site && v.hash == hash && v.lastAt > after
  }

  /** The visitor's most recent visit still open after `after` (ORDER BY last_at DESC LIMIT 1). */
  function Find(vs: seq<Visit>, site: SiteId, hash: Hash, after: int): Option<Visit> {
    if vs == [] then None
    else
      var v := Last(vs);
      var rest := Find(vs[..|vs| - 1], site, hash, after);
      if Matches(v, site, hash, after) && (rest.None? || rest.value.lastAt <= v.lastAt) then Some(v) else rest
  }

  /** The search finds a match when there is one, and the latest of them. */
  lemma {:induction false} FindLatest(vs: seq<Visit>, site: SiteId, hash: Hash, after: int)
    ensures var r := Find(vs, site, hash, after);
      if r.None? then forall i :: 0 <= i < |vs| ==> !Matches(vs[i], site, hash, after)
      else
        && r.value in vs && Matches(r.value, site, hash, after)
        && forall i :: 0 <= i < |vs| && Matches(vs[i], site, hash, after) ==> vs[i].lastAt <= r.value.lastAt
  {
    if vs != [] {
      FindLatest(vs[..|vs| - 1], site, hash, after);
      assert forall i :: 0 <= i < |vs| - 1 ==> vs[i] == vs[..|vs| - 1][i];
    }
  }

  function Open(id: nat, p: Pageview): Visit {
    Visit(id, p.site, p.hash, p.ts, p.ts, p.path, p.path, 1, p.attrs)
  }

  function Continue(v: Visit, p: Pageview): Visit {
    v.(lastAt := p.ts, exitPath := p.path, pageviews := v.pageviews + 1)
  }

  /** UPDATE visits ... WHERE id = ?. */
  function Touch(vs: seq<Visit>, id: nat, p: Pageview): (r: seq<Visit>)
    ensures |r| == |vs|
    ensures forall i :: 0 <= i < |vs| ==> r[i] == if vs[i].id == id then Continue(vs[i], p) else vs[i]
  {
    seq(|vs|, i requires 0 <= i < |vs| => if vs[i].id == id then Continue(vs[i], p) else vs[i])
  }

  /** Stores pageview number `id` inside its visit, opening one when none is still open. */
  function Record(t: Tables, id: nat, p: Pageview): Tables {
    var open := Find(t.visits, p.site, p.hash, p.ts - VISIT_IDLE);
    var visitId := if open.Some? then open.value.id else id;
    Tables(
      if open.Some? then Touch(t.visits, visitId, p) else t.visits + [Open(id, p)],
      t.pages + [PageRow(id, p.site, p.ts, p.path, p.hash, visitId)])
  }

  /** The tables after a whole history of pageviews, had nothing ever been purged. */
  function Replay(h: seq<Pageview>): Tables {
    if h == [] then EMPTY else Record(Replay(h[..|h| - 1]), |h| - 1, h[|h| - 1])
  }

  // ----- what every history keeps -----

  /** The hash of a pageview names its site and its site-local day. */
  ghost predicate Hashed(c: DayStarts, p: Pageview) {
    p.hash.site == p.site && Within(c, p.site, p.hash.day, p.ts)
  }

  /** Recorded in time order, each pageview hashed with its day. */
  ghost predicate Orderly(c: DayStarts, h: seq<Pageview>) {
    && (forall i, j :: 0 <= i < j < |h| ==> h[i].ts <= h[j].ts)
    && (forall i :: 0 <= i < |h| ==> Hashed(c, h[i]))
  }

  /** A visit lies inside one site day, the day of its hash. */
  ghost predicate InOneDay(c: DayStarts, v: Visit) {
    && v.hash.site == v.site
    && c(v.site, v.hash.day) <= v.startedAt <= v.lastAt < c(v.site, v.hash.day + 1)
  }

  ghost predicate RowOf(p: PageRow, v: Visit) {
    p.visitId == v.id && p.site == v.site && p.hash == v.hash && v.startedAt <= p.ts <= v.lastAt
  }

  /** Rows carry distinct, rising ids. */
  ghost predicate Rising(vs: seq<Visit>) {
    forall i, j :: 0 <= i < j < |vs| ==> vs[i].id < vs[j].id
  }

  /** Successive visits of a visitor are at least VISIT_IDLE apart. */
  ghost predicate Apart(vs: seq<Visit>) {
    forall i, j :: 0 <= i < j < |vs| && vs[i].hash == vs[j].hash ==> vs[i].lastAt + VISIT_IDLE <= vs[j].startedAt
  }

  ghost predicate Dated(c: DayStarts, vs: seq<Visit>, n: nat, now: int) {
    forall i :: 0 <= i < |vs| ==> vs[i].id < n && InOneDay(c, vs[i]) && vs[i].lastAt <= now
  }

  ghost predicate Owned(p: PageRow, vs: seq<Visit>) {
    exists i :: 0 <= i < |vs| && RowOf(p, vs[i])
  }

  ghost predicate AllOwned(t: Tables) {
    forall i :: 0 <= i < |t.pages| ==> t.pages[i].id == i && Owned(t.pages[i], t.visits)
  }

  ghost predicate Sound(c: DayStarts, t: Tables, n: nat, now: int) {
    && Rising(t.visits) && Apart(t.visits) && Dated(c, t.visits, n, now)
    && |t.pages| == n && AllOwned(t)
  }

  lemma TouchedAt(vs: seq<Visit>, p: Pageview, open: Visit) returns (k: nat)
    requires Rising(vs) && open in vs
    ensures k < |vs| && vs[k] == open
    ensures Touch(vs, open.id, p) == vs[k := Continue(vs[k], p)]
  {
    k :| 0 <= k < |vs| && vs[k] == open;
    assert forall i :: 0 <= i < |vs| && i != k ==> vs[i].id != open.id by {
      forall i | 0 <= i < |vs| && i != k ensures vs[i].id != open.id { assert i < k || k < i; }
    }
  }

  /** Recording either continues one open visit of the visitor (row `k`) or opens a new one (`k` < 0). */
  lemma RecordCases(t: Tables, n: nat, p: Pageview) returns (k: int, row: PageRow)
    requires Rising(t.visits)
    ensures row
          == PageRow(n, p.site, p.ts, p.path, p.hash, if k < 0 then n else if k < |t.visits| then t.visits[k].id else 0)
    ensures k < 0 ==> Record(t, n, p) == Tables(t.visits + [Open(n, p)], t.pages + [row])
    ensures k < 0 ==> forall i :: 0 <= i < |t.visits| ==> !Matches(t.visits[i], p.site, p.hash, p.ts - VISIT_IDLE)
    ensures 0 <= k ==> k < |t.visits| && Matches(t.visits[k], p.site, p.hash, p.ts - VISIT_IDLE)
    ensures 0 <= k ==> Record(t, n, p) == Tables(t.visits[k := Continue(t.visits[k], p)], t.pages + [row])
  {
    hide Rising;
    FindLatest(t.visits, p.site, p.hash, p.ts - VISIT_IDLE);
    var open := Find(t.visits, p.site, p.hash, p.ts - VISIT_IDLE);
    row := PageRow(n, p.site, p.ts, p.path, p.hash, if open.Some? then open.value.id else n);
    if open.Some? { k := TouchedAt(t.visits, p, open.value); } else { k := -1; }
  }

  lemma ContinueSound(c: DayStarts, vs: seq<Visit>, n: nat, now: int, p: Pageview, k: nat)
    requires Rising(vs) && Apart(vs) && Dated(c, vs, n, now) && now <= p.ts && Hashed(c, p)
    requires k < |vs| && Matches(vs[k], p.site, p.hash, p.ts - VISIT_IDLE)
    ensures var us := vs[k := Continue(vs[k], p)]; Rising(us) && Apart(us) && Dated(c, us, n + 1, p.ts)
  {
    var us := vs[k := Continue(vs[k], p)];
    forall j | k < j < |vs| ensures vs[j].hash != p.hash {
      assert InOneDay(c, vs[j]);
    }
    forall i, j | 0 <= i < j < |us| && us[i].hash == us[j].hash
      ensures us[i].lastAt + VISIT_IDLE <= us[j].startedAt
    {
      assert i != k;
      assert vs[i].lastAt + VISIT_IDLE <= vs[j].startedAt;
    }
  }

  lemma OpenSound(c: DayStarts, vs: seq<Visit>, n: nat, now: int, p: Pageview)
    requires Rising(vs) && Apart(vs) && Dated(c, vs, n, now) && now <= p.ts && Hashed(c, p)
    requires forall i :: 0 <= i < |vs| ==> !Matches(vs[i], p.site, p.hash, p.ts - VISIT_IDLE)
    ensures var us := vs + [Open(n, p)]; Rising(us) && Apart(us) && Dated(c, us, n + 1, p.ts)
  {
    var us := vs + [Open(n, p)];
    forall i | 0 <= i < |vs| && vs[i].hash == p.hash ensures vs[i].lastAt + VISIT_IDLE <= p.ts {
      assert InOneDay(c, vs[i]);
    }
  }

  lemma RowsSound(t: Tables, us: seq<Visit>, row: PageRow)
    requires AllOwned(t) && row.id == |t.pages| && Owned(row, us)
    requires |t.visits| <= |us|
    requires forall i :: 0 <= i < |t.visits| ==>
      var u := us[i];
      u == t.visits[i] || u == t.visits[i].(lastAt := u.lastAt, exitPath := u.exitPath, pageviews := u.pageviews)
    requires forall i :: 0 <= i < |t.visits| ==> t.visits[i].lastAt <= us[i].lastAt
    ensures AllOwned(Tables(us, t.pages + [row]))
  {
    forall i | 0 <= i < |t.pages| ensures Owned(t.pages[i], us) {
      assert t.pages[i].id == i;
      var m :| 0 <= m < |t.visits| && RowOf(t.pages[i], t.visits[m]);
      assert RowOf(t.pages[i], us[m]);
    }
  }

  lemma RecordSound(c: DayStarts, t: Tables, n: nat, now: int, p: Pageview)
    requires Sound(c, t, n, now) && now <= p.ts
    requires Hashed(c, p)
    ensures Sound(c, Record(t, n, p), n + 1, p.ts)
  {
    hide Rising, Apart, AllOwned, Hashed;
    var k, row := RecordCases(t, n, p);
    if k < 0 {
      OpenSound(c, t.visits, n, now, p);
      assert RowOf(row, (t.visits + [Open(n, p)])[|t.visits|]);
      RowsSound(t, t.visits + [Open(n, p)], row);
    } else {
      ContinueSound(c, t.visits, n, now, p, k);
      assert RowOf(row, t.visits[k := Continue(t.visits[k], p)][k]);
      RowsSound(t, t.visits[k := Continue(t.visits[k], p)], row);
    }
  }

  /** Every visit of every history lies in one site day; visits of one visitor are 30 minutes apart. */
  lemma {:induction false} ReplaySound(c: DayStarts, h: seq<Pageview>, now: int)
    requires Orderly(c, h)
    requires forall i :: 0 <= i < |h| ==> h[i].ts <= now
    ensures Sound(c, Replay(h), |h|, now)
  {
    if h != [] {
      var n := |h| - 1;
      ReplaySound(c, h[..n], h[n].ts);
      RecordSound(c, Replay(h[..n]), n, h[n].ts, h[n]);
    }
  }

  // ----- offline splitting -----

  /** The pageviews of one visitor, in order. */
  function Only(h: seq<Pageview>, hash: Hash): seq<Pageview> {
    if h == [] then []
    else if Last(h).hash == hash then Only(h[..|h| - 1], hash) + [Last(h)]
    else Only(h[..|h| - 1], hash)
  }

  function Select(vs: seq<Visit>, hash: Hash): seq<Visit> {
    if vs == [] then []
    else if Last(vs).hash == hash then Select(vs[..|vs| - 1], hash) + [Last(vs)]
    else Select(vs[..|vs| - 1], hash)
  }

  lemma {:induction false} SelectIn(vs: seq<Visit>, hash: Hash, k: nat)
    requires k < |Select(vs, hash)|
    ensures Select(vs, hash)[k].hash == hash && Select(vs, hash)[k] in vs
  {
    if k < |Select(vs[..|vs| - 1], hash)| { SelectIn(vs[..|vs| - 1], hash, k); }
  }

  type Run = ps: seq<Pageview> | ps != [] witness [Pageview("", 0, "", Hash(0, "", "", ""), map[])]

  /** Adds the next pageview: to the last run while the gap is short, else as a run of its own. */
  function Place(rs: seq<Run>, p: Pageview): seq<Run> {
    if rs != [] && p.ts - Last(Last(rs)).ts < VISIT_IDLE then rs[..|rs| - 1] + [Last(rs) + [p]]
    else rs + [[p]]
  }

  /** Cuts a visitor's pageviews wherever two neighbours are at least VISIT_IDLE apart. */
  function Runs(ps: seq<Pageview>): seq<Run> {
    if ps == [] then [] else Place(Runs(ps[..|ps| - 1]), Last(ps))
  }

  function Flatten(rs: seq<Run>): seq<Pageview> {
    if rs == [] then [] else Flatten(rs[..|rs| - 1]) + Last(rs)
  }

  /** No wide gap inside a run, and one between any two neighbouring runs. */
  ghost predicate WellCut(rs: seq<Run>) {
    && (forall k, i :: 0 <= k < |rs| && 0 < i < |rs[k]| ==> rs[k][i].ts - rs[k][i - 1].ts < VISIT_IDLE)
    && (forall k :: 0 < k < |rs| ==> rs[k][0].ts - Last(rs[k - 1]).ts >= VISIT_IDLE)
  }

  lemma PlaceFlattens(rs: seq<Run>, p: Pageview)
    ensures Flatten(Place(rs, p)) == Flatten(rs) + [p]
  {
    var n := |rs|;
    if n > 0 {
      var init, r := rs[..n - 1], Last(rs) + [p];
      assert (init + [r])[..n - 1] == init;
      assert Flatten(init + [r]) == Flatten(init) + (Last(rs) + [p]);
    }
    assert (rs + [[p]])[..n] == rs;
  }

  lemma PlaceCuts(rs: seq<Run>, p: Pageview)
    requires WellCut(rs)
    ensures WellCut(Place(rs, p))
  {
    var xs := Place(rs, p);
    forall k, i | 0 <= k < |xs| && 0 < i < |xs[k]| ensures xs[k][i].ts - xs[k][i - 1].ts < VISIT_IDLE {
      if k < |rs| && i < |rs[k]| { assert xs[k][i] == rs[k][i] && xs[k][i - 1] == rs[k][i - 1]; }
    }
    forall k | 0 < k < |xs| ensures xs[k][0].ts - Last(xs[k - 1]).ts >= VISIT_IDLE {
      if k < |rs| { assert xs[k][0] == rs[k][0] && xs[k - 1] == rs[k - 1]; }
    }
  }

  /** `Runs` is the splitting: nothing lost or reordered, no wide gap inside a run, one between neighbours. */
  lemma {:induction false} RunsAreCuts(ps: seq<Pageview>)
    ensures Flatten(Runs(ps)) == ps && WellCut(Runs(ps))
  {
    hide WellCut, Place;
    if ps == [] {
      EmptyCut();
    } else {
      var n := |ps| - 1;
      RunsAreCuts(ps[..n]);
      PlaceFlattens(Runs(ps[..n]), ps[n]);
      PlaceCuts(Runs(ps[..n]), ps[n]);
      assert ps == ps[..n] + [ps[n]];
    }
  }

  lemma EmptyCut()
    ensures WellCut([])
  {
  }

  /** A run as the visit row it should have produced (the row id set aside). */
  function Summary(r: Run): Visit {
    Visit(0, r[0].site, r[0].hash, r[0].ts, Last(r).ts, r[0].path, Last(r).path, |r|, r[0].attrs)
  }

  /** Visit rows and runs agree one by one. */
  ghost predicate Mirrors(vs: seq<Visit>, rs: seq<Run>) {
    |vs| == |rs| && forall i :: 0 <= i < |vs| ==> vs[i].(id := 0) == Summary(rs[i])
  }

  lemma {:induction false} FindInSelect(vs: seq<Visit>, site: SiteId, hash: Hash, after: int)
    ensures Find(vs, site, hash, after) == Find(Select(vs, hash), site, hash, after)
  {
    if vs != [] {
      var init := vs[..|vs| - 1];
      FindInSelect(init, site, hash, after);
      if Last(vs).hash == hash {
        var s := Select(vs, hash);
        assert s == Select(init, hash) + [Last(vs)];
        assert s[..|s| - 1] == Select(init, hash) && Last(s) == Last(vs);
      } else {
        assert !Matches(Last(vs), site, hash, after);
        assert Select(vs, hash) == Select(init, hash);
      }
    }
  }

  lemma {:induction false} TouchSelect(vs: seq<Visit>, id: nat, p: Pageview, hash: Hash)
    ensures Select(Touch(vs, id, p), hash) == Touch(Select(vs, hash), id, p)
  {
    if vs != [] {
      var init := vs[..|vs| - 1];
      TouchSelect(init, id, p, hash);
      assert Touch(vs, id, p)[..|vs| - 1] == Touch(init, id, p);
    }
  }

  lemma {:induction false} SelectOrdered(vs: seq<Visit>, hash: Hash)
    requires Rising(vs) && Apart(vs)
    ensures Rising(Select(vs, hash)) && Apart(Select(vs, hash))
  {
    if vs != [] {
      var init, v := vs[..|vs| - 1], Last(vs);
      SelectOrdered(init, hash);
      var s := Select(init, hash);
      forall i | 0 <= i < |s| && v.hash == hash
        ensures s[i].id < v.id && s[i].lastAt + VISIT_IDLE <= v.startedAt
      {
        SelectIn(init, hash, i);
        var k :| 0 <= k < |init| && init[k] == s[i];
        assert vs[k] == s[i];
      }
    }
  }

  /** Of one visitor's separated visits only the last can still be open. */
  lemma FindIsLast(s: seq<Visit>, site: SiteId, hash: Hash, now: int)
    requires forall i :: 0 <= i < |s| ==> s[i].site == site && s[i].hash == hash && s[i].startedAt <= s[i].lastAt <= now
    requires Apart(s)
    ensures Find(s, site, hash, now - VISIT_IDLE)
         == if s != [] && now - Last(s).lastAt < VISIT_IDLE then Some(Last(s)) else None
  {
    FindLatest(s, site, hash, now - VISIT_IDLE);
    forall i | 0 <= i < |s| - 1 ensures !Matches(s[i], site, hash, now - VISIT_IDLE) {
      assert s[i].lastAt + VISIT_IDLE <= s[|s| - 1].startedAt;
    }
  }

  /**
   The online rule refines offline splitting: after any history, the visits of a
   visitor are its pageviews cut at gaps of at least VISIT_IDLE, in order, each
   with the start, last, entry, exit, count and attributes of its run.
   */
  lemma {:induction false} OnlineIsOffline(c: DayStarts, h: seq<Pageview>, hash: Hash)
    requires Orderly(c, h)
    ensures Mirrors(Select(Replay(h).visits, hash), Runs(Only(h, hash)))
  {
    if h != [] {
      var n := |h| - 1;
      var g, p := h[..n], h[n];
      OnlineIsOffline(c, g, hash);
      ReplaySound(c, g, p.ts);
      if p.hash == hash {
        SameVisitor(c, Replay(g).visits, n, p, Only(g, hash));
      } else {
        OtherVisitor(Replay(g).visits, n, p, hash);
        assert Only(h, hash) == Only(g, hash);
      }
    }
  }

  lemma OpenHash(vs: seq<Visit>, p: Pageview)
    ensures var open := Find(vs, p.site, p.hash, p.ts - VISIT_IDLE);
      open.Some? ==> open.value in vs && open.value.hash == p.hash
  {
    FindLatest(vs, p.site, p.hash, p.ts - VISIT_IDLE);
  }

  lemma OtherVisitor(vs: seq<Visit>, n: nat, p: Pageview, hash: Hash)
    requires Rising(vs) && p.hash != hash
    ensures Select(Record(Tables(vs, []), n, p).visits, hash) == Select(vs, hash)
  {
    hide Rising, Matches;
    var open := Find(vs, p.site, p.hash, p.ts - VISIT_IDLE);
    OpenHash(vs, p);
    if open.Some? {
      TouchSelect(vs, open.value.id, p, hash);
      UntouchedElsewhere(vs, open.value, p, hash);
    } else {
      assert (vs + [Open(n, p)])[..|vs|] == vs;
    }
  }

  lemma SameVisitor(c: DayStarts, vs: seq<Visit>, n: nat, p: Pageview, ps: seq<Pageview>)
    requires Rising(vs) && Apart(vs) && Dated(c, vs, n, p.ts) && p.hash.site == p.site
    requires Mirrors(Select(vs, p.hash), Runs(ps))
    ensures Mirrors(Select(Record(Tables(vs, []), n, p).visits, p.hash), Runs(ps + [p]))
  {
    hide Rising, Apart, Dated, Matches, Mirrors;
    var s, rs := Select(vs, p.hash), Runs(ps);
    var open := Find(vs, p.site, p.hash, p.ts - VISIT_IDLE);
    FindSelected(c, vs, n, p);
    assert (ps + [p])[..|ps|] == ps;
    if open.Some? {
      TouchSelect(vs, open.value.id, p, p.hash);
      SelectOrdered(vs, p.hash);
      TouchLast(s, p);
      MirrorsContinue(s, rs, p);
    } else {
      assert (vs + [Open(n, p)])[..|vs|] == vs;
      MirrorsOpen(s, rs, n, p);
    }
  }

  lemma MirrorsContinue(s: seq<Visit>, rs: seq<Run>, p: Pageview)
    requires Mirrors(s, rs) && s != [] && p.ts - Last(s).lastAt < VISIT_IDLE
    ensures Mirrors(s[|s| - 1 := Continue(Last(s), p)], Place(rs, p))
  {
    assert Last(s).(id := 0) == Summary(Last(rs));
  }

  lemma MirrorsOpen(s: seq<Visit>, rs: seq<Run>, n: nat, p: Pageview)
    requires Mirrors(s, rs) && (s != [] ==> p.ts - Last(s).lastAt >= VISIT_IDLE)
    ensures Mirrors(s + [Open(n, p)], Place(rs, p))
  {
    if s != [] { assert Last(s).(id := 0) == Summary(Last(rs)); }
  }

  lemma TouchLast(s: seq<Visit>, p: Pageview)
    requires Rising(s) && s != []
    ensures Touch(s, Last(s).id, p) == s[|s| - 1 := Continue(Last(s), p)]
  {
    forall i | 0 <= i < |s| - 1 ensures s[i].id != Last(s).id {
      assert s[i].id < s[|s| - 1].id;
    }
  }

  lemma FindSelected(c: DayStarts, vs: seq<Visit>, n: nat, p: Pageview)
    requires Rising(vs) && Apart(vs) && Dated(c, vs, n, p.ts)
    requires p.hash.site == p.site
    ensures var s := Select(vs, p.hash);
      Find(vs, p.site, p.hash, p.ts - VISIT_IDLE)
      == if s != [] && p.ts - Last(s).lastAt < VISIT_IDLE then Some(Last(s)) else None
  {
    hide Rising, Apart;
    var s := Select(vs, p.hash);
    FindInSelect(vs, p.site, p.hash, p.ts - VISIT_IDLE);
    SelectOrdered(vs, p.hash);
    forall i | 0 <= i < |s|
      ensures s[i].site == p.site && s[i].hash == p.hash && s[i].startedAt <= s[i].lastAt <= p.ts
    {
      SelectIn(vs, p.hash, i);
      var k :| 0 <= k < |vs| && vs[k] == s[i];
      assert InOneDay(c, vs[k]);
    }
    FindIsLast(s, p.site, p.hash, p.ts);
  }

  lemma UntouchedElsewhere(vs: seq<Visit>, open: Visit, p: Pageview, hash: Hash)
    requires Rising(vs) && open in vs && open.hash != hash
    ensures Touch(Select(vs, hash), open.id, p) == Select(vs, hash)
  {
    var s := Select(vs, hash);
    var k :| 0 <= k < |vs| && vs[k] == open;
    forall i | 0 <= i < |s| ensures s[i].id != open.id {
      SelectIn(vs, hash, i);
      var m :| 0 <= m < |vs| && vs[m] == s[i];
      assert m < k || k < m;
    }
  }
}
