/**
 What the numbers of a breakdown mean, in terms of sets of stored visits and rows
 (internal/analytics/infrastructure/query.go): COUNT, COUNT(DISTINCT) and SUM over the
 visits and rows a query chooses, for every dimension and filter.
 */
module Counting {
  import opened Visits
  import opened Tallies
  import opened Losses

  // ----- filters -----

  /** A part occurs in a text at an offset, but for ASCII case. */
  predicate OccursAt(part: string, s: string, k: int) {
    0 <= k <= |s| - |part| && forall j :: 0 <= j < |part| ==> Lower(part[j]) == Lower(s[k + j])
  }

  /** One of the values, none of them, or a text that contains one of them. */
  ghost predicate Accepts(f: Filter, s: string) {
    match f.op
    case Is => exists i :: 0 <= i < |f.values| && f.values[i] == s
    case IsNot => forall i :: 0 <= i < |f.values| ==> f.values[i] != s
    case Contains => exists i, k :: 0 <= i < |f.values| && OccursAt(f.values[i], s, k)
  }

  lemma OccursIff(part: string, s: string)
    ensures Substring(Folded(part), Folded(s)) <==> exists k :: OccursAt(part, s, k)
  {
    var p, t := Folded(part), Folded(s);
    if Substring(p, t) {
      var k :| 0 <= k <= |t| && p <= t[k..];
      forall j | 0 <= j < |part| ensures Lower(part[j]) == Lower(s[k + j]) { assert p[j] == t[k..][j]; }
      assert OccursAt(part, s, k);
    }
    if k :| OccursAt(part, s, k) {
      forall j | 0 <= j < |p| ensures p[j] == t[k..][j] {}
      assert p <= t[k..];
    }
  }

  lemma MatchMeans(f: Filter, s: string)
    ensures Match(f, s) <==> Accepts(f, s)
  {
    if f.op.Contains? {
      forall v ensures Substring(Folded(v), Folded(s)) <==> exists k :: OccursAt(v, s, k) { OccursIff(v, s); }
      if Match(f, s) {
        var v :| v in f.values && Substring(Folded(v), Folded(s));
        var i :| 0 <= i < |f.values| && f.values[i] == v;
        var k :| OccursAt(f.values[i], s, k);
      }
      if Accepts(f, s) {
        var i, k :| 0 <= i < |f.values| && OccursAt(f.values[i], s, k);
        assert f.values[i] in f.values;
      }
    }
  }

  /** "is" and "is not" share the texts out between them. */
  lemma IsOrIsNot(f: Filter, s: string)
    ensures Match(f.(op := Is), s) <==> !Match(f.(op := IsNot), s)
  {
    MatchMeans(f.(op := Is), s);
    MatchMeans(f.(op := IsNot), s);
  }

  /** Letters are compared but for ASCII case, everything else as it is. */
  lemma LowerMeans(a: char, b: char)
    ensures Lower(a) == Lower(b) <==>
      a == b || ('A' <= a <= 'Z' && b as int == a as int + 32) || ('A' <= b <= 'Z' && a as int == b as int + 32)
  {
  }

  // ----- what a query chooses -----

  /** The row's path or the visit's column passes each filter. */
  ghost predicate RowPasses(fs: seq<Filter>, v: Visit, p: PageRow) {
    forall i :: 0 <= i < |fs| ==> Accepts(fs[i], if fs[i].dim.Page? then p.path else Column(v, fs[i].dim))
  }

  ghost predicate RowChosen(sel: Selector, v: Visit, p: PageRow) {
    && p.visitId == v.id && p.site == sel.site && sel.from <= p.ts < sel.to && p.path == sel.value
    && RowPasses(sel.filters, v, p)
  }

  /** A page filter asks for some row of the visit, any other for its column. */
  ghost predicate VisitChosenBy(f: Filter, v: Visit, pages: seq<PageRow>) {
    if f.dim.Page? then exists i :: 0 <= i < |pages| && pages[i].visitId == v.id && Accepts(f, pages[i].path)
    else Accepts(f, Column(v, f.dim))
  }

  /** In the page breakdown a visit with a chosen row; else one started in the range with the value in its column. */
  ghost predicate Chosen(sel: Selector, v: Visit, pages: seq<PageRow>) {
    if sel.dim.Page? then exists i :: 0 <= i < |pages| && RowChosen(sel, v, pages[i])
    else
      && v.site == sel.site && sel.from <= v.startedAt < sel.to && Column(v, sel.dim) == sel.value
      && forall i :: 0 <= i < |sel.filters| ==> VisitChosenBy(sel.filters[i], v, pages)
  }

  lemma {:induction false} ViewedMeans(f: Filter, id: nat, pages: seq<PageRow>)
    ensures Viewed(f, id, pages) <==>
      exists i :: 0 <= i < |pages| && pages[i].visitId == id && Accepts(f, pages[i].path)
  {
    hide Match, Accepts;
    if pages != [] {
      var n := |pages| - 1;
      ViewedMeans(f, id, pages[..n]);
      MatchMeans(f, pages[n].path);
      assert forall i :: 0 <= i < n ==> pages[..n][i] == pages[i];
    }
  }

  lemma HitIsChosen(sel: Selector, v: Visit, p: PageRow)
    ensures Hit(sel, v, p) <==> RowChosen(sel, v, p)
  {
    hide Match, Accepts;
    forall i | 0 <= i < |sel.filters|
      ensures Match(sel.filters[i], p.path) <==> Accepts(sel.filters[i], p.path)
      ensures var f := sel.filters[i]; Match(f, Column(v, f.dim)) <==> Accepts(f, Column(v, f.dim))
    {
      MatchMeans(sel.filters[i], p.path);
      MatchMeans(sel.filters[i], Column(v, sel.filters[i].dim));
    }
  }

  lemma {:induction false} SomeHits(sel: Selector, v: Visit, pages: seq<PageRow>)
    ensures Hits(sel, v, pages) > 0 <==> exists i :: 0 <= i < |pages| && RowChosen(sel, v, pages[i])
  {
    hide Hit, RowChosen;
    if pages != [] {
      var n := |pages| - 1;
      SomeHits(sel, v, pages[..n]);
      HitIsChosen(sel, v, pages[n]);
      assert forall i :: 0 <= i < n ==> pages[..n][i] == pages[i];
    }
  }

  lemma MemberIsChosen(sel: Selector, v: Visit, pages: seq<PageRow>)
    ensures Member(sel, v, pages) <==> Chosen(sel, v, pages)
  {
    hide Hits, RowChosen, Match, Accepts, Viewed;
    if sel.dim.Page? {
      SomeHits(sel, v, pages);
    } else {
      forall i | 0 <= i < |sel.filters|
        ensures VisitChosenBy(sel.filters[i], v, pages) <==>
          if sel.filters[i].dim.Page? then Viewed(sel.filters[i], v.id, pages)
          else Match(sel.filters[i], Column(v, sel.filters[i].dim))
      {
        ViewedMeans(sel.filters[i], v.id, pages);
        MatchMeans(sel.filters[i], Column(v, sel.filters[i].dim));
      }
    }
  }

  // ----- the numbers -----

  ghost function ChosenVisits(sel: Selector, t: Tables): set<Visit> {
    set v | v in t.visits && Chosen(sel, v, t.pages)
  }

  ghost predicate Belongs(sel: Selector, vs: seq<Visit>, p: PageRow) {
    exists v :: v in vs && RowChosen(sel, v, p)
  }

  ghost function ChosenRows(sel: Selector, t: Tables): set<PageRow> {
    set p | p in t.pages && Belongs(sel, t.visits, p)
  }

  /** The time from first to last pageview, summed over those of the visits that are in the set. */
  function Durations(vs: seq<Visit>, among: set<Visit>): int {
    if vs == [] then 0
    else Durations(vs[..|vs| - 1], among) + if Last(vs) in among then Last(vs).lastAt - Last(vs).startedAt else 0
  }

  /** The pageviews of those of the visits that are in the set. */
  function PageviewsOf(vs: seq<Visit>, among: set<Visit>): int {
    if vs == [] then 0
    else PageviewsOf(vs[..|vs| - 1], among) + if Last(vs) in among then Last(vs).pageviews else 0
  }

  ghost function Members(sel: Selector, vs: seq<Visit>, pages: seq<PageRow>): set<Visit> {
    set v | v in vs && Member(sel, v, pages)
  }

  lemma MembersGrow(sel: Selector, vs: seq<Visit>, pages: seq<PageRow>)
    requires Rising(vs) && vs != []
    ensures var init, v := vs[..|vs| - 1], Last(vs);
      && Rising(init) && v !in Members(sel, init, pages)
      && Members(sel, vs, pages) == Members(sel, init, pages) + if Member(sel, v, pages) then {v} else {}
  {
    hide Member;
    var init, v := vs[..|vs| - 1], Last(vs);
    assert vs == init + [v];
    forall u | u in init ensures u.id < v.id {
      var i :| 0 <= i < |init| && init[i] == u;
      assert vs[i] == u;
    }
  }

  /** Adding a visit to the set changes no sum over visits it is not among. */
  lemma {:induction false} SumsLocal(vs: seq<Visit>, a: set<Visit>, b: set<Visit>)
    requires forall v :: v in vs ==> (v in a <==> v in b)
    ensures Durations(vs, a) == Durations(vs, b) && PageviewsOf(vs, a) == PageviewsOf(vs, b)
  {
    if vs != [] {
      assert Last(vs) in vs;
      SumsLocal(vs[..|vs| - 1], a, b);
    }
  }

  ghost function Bounced(s: set<Visit>): set<Visit> {
    set v | v in s && v.pageviews == 1
  }

  ghost function HashesOf(s: set<Visit>): set<Hash> {
    set v | v in s :: v.hash
  }

  /** The sums and hashes say of the visits of the set what they are named for. */
  ghost predicate Tells(sel: Selector, g: Part, vs: seq<Visit>, m: set<Visit>) {
    && g.sums.visits == |m| && g.sums.bounces == |Bounced(m)| && g.hashes == HashesOf(m)
    && g.sums.durationMs == Durations(vs, m)
    && (!sel.dim.Page? ==> g.sums.pageviews == PageviewsOf(vs, m))
  }

  lemma OneMore(k: set<Visit>, v: Visit)
    requires v !in k
    ensures |k + {v}| == |k| + 1 && HashesOf(k + {v}) == HashesOf(k) + {v.hash}
    ensures |Bounced(k + {v})| == |Bounced(k)| + if v.pageviews == 1 then 1 else 0
  {
    assert Bounced(k + {v}) == Bounced(k) + if v.pageviews == 1 then {v} else {};
  }

  lemma TellsOneMore(sel: Selector, g: Part, vs: seq<Visit>, k: set<Visit>, v: Visit, pages: seq<PageRow>)
    requires Tells(sel, g, vs, k) && v !in k && Member(sel, v, pages) && v !in vs
    ensures Tells(sel, Join(g, One(sel, v, pages)), vs + [v], k + {v})
  {
    hide Member, Bounced, HashesOf;
    OneMore(k, v);
    assert (vs + [v])[..|vs|] == vs;
    SumsLocal(vs, k, k + {v});
  }

  lemma TellsNoMore(sel: Selector, g: Part, vs: seq<Visit>, k: set<Visit>, v: Visit, pages: seq<PageRow>)
    requires Tells(sel, g, vs, k) && v !in k && !Member(sel, v, pages)
    ensures Tells(sel, Join(g, One(sel, v, pages)), vs + [v], k)
  {
    hide Member, Bounced, HashesOf, Join;
    JoinNothing(g);
    assert (vs + [v])[..|vs|] == vs;
  }

  lemma {:induction false} GatherMeans(sel: Selector, vs: seq<Visit>, pages: seq<PageRow>)
    requires Rising(vs)
    ensures Tells(sel, Gather(sel, vs, pages), vs, Members(sel, vs, pages))
  {
    hide Member, Members, Rising, One, Join;
    if vs == [] {
      NoMembers(sel, pages);
    } else {
      hide Tells;
      var init, v := vs[..|vs| - 1], Last(vs);
      MembersGrow(sel, vs, pages);
      LastIsOther(vs);
      GatherMeans(sel, init, pages);
      assert vs == init + [v];
      if Member(sel, v, pages) {
        TellsOneMore(sel, Gather(sel, init, pages), init, Members(sel, init, pages), v, pages);
      } else {
        assert Members(sel, vs, pages) == Members(sel, init, pages);
        TellsNoMore(sel, Gather(sel, init, pages), init, Members(sel, init, pages), v, pages);
      }
    }
  }

  lemma LastIsOther(vs: seq<Visit>)
    requires Rising(vs) && vs != []
    ensures Last(vs) !in vs[..|vs| - 1]
  {
    forall i | 0 <= i < |vs| - 1 ensures vs[i].id < Last(vs).id {}
  }

  lemma NoMembers(sel: Selector, pages: seq<PageRow>)
    ensures Members(sel, [], pages) == {}
  {
  }

  /** A row counts once for each visit it belongs to, of which there is at most one. */
  lemma {:induction false} RowsCounted(sel: Selector, vs: seq<Visit>, ps: seq<PageRow>)
    requires Rising(vs) && RisingPages(ps)
    ensures SumHits(sel, vs, ps) == |ChosenRows(sel, Tables(vs, ps))|
  {
    hide Rising, Belongs, SumHits, Owners;
    if ps == [] {
      NoSumHits(sel, vs);
    } else {
      var init, p := ps[..|ps| - 1], Last(ps);
      assert ps == init + [p];
      PageIsOther(ps);
      RowsCounted(sel, vs, init);
      HitsByRow(sel, vs, init, p);
      OwnersMeans(sel, vs, p);
      var before, all := ChosenRows(sel, Tables(vs, init)), ChosenRows(sel, Tables(vs, ps));
      assert all == before + if Belongs(sel, vs, p) then {p} else {};
    }
  }

  lemma PageIsOther(ps: seq<PageRow>)
    requires RisingPages(ps) && ps != []
    ensures RisingPages(ps[..|ps| - 1]) && Last(ps) !in ps[..|ps| - 1]
  {
  }

  lemma OwnersMeans(sel: Selector, vs: seq<Visit>, p: PageRow)
    requires Rising(vs)
    ensures Owners(sel, vs, p) == if Belongs(sel, vs, p) then 1 else 0
  {
    hide Rising, RowChosen, Hit, Owners;
    forall v ensures Hit(sel, v, p) <==> RowChosen(sel, v, p) { HitIsChosen(sel, v, p); }
    if v :| v in vs && RowChosen(sel, v, p) {
      var k :| 0 <= k < |vs| && vs[k] == v;
      OneOwner(sel, vs, p, k);
    } else {
      forall i | 0 <= i < |vs| ensures !Hit(sel, vs[i], p) { assert vs[i] in vs; }
      NoOwners(sel, vs, p);
    }
  }

  /**
   The five numbers of a breakdown, for every dimension, value and filter: how many visits
   are chosen, how many distinct visitors they have, how many of them have one pageview,
   how long they lasted together, and how many rows are chosen or pageviews they have.
   */
  lemma TallyMeans(sel: Selector, t: Tables)
    requires Rising(t.visits) && RisingPages(t.pages)
    ensures var c, m := Tally(sel, t), ChosenVisits(sel, t);
      && c.visits == |m|
      && c.visitors == |set v | v in m :: v.hash|
      && c.bounces == |set v | v in m && v.pageviews == 1|
      && c.durationMs == Durations(t.visits, m)
      && c.pageviews == if sel.dim.Page? then |ChosenRows(sel, t)| else PageviewsOf(t.visits, m)
  {
    hide Member, Chosen, RowChosen, Rising, RisingPages, Gather, SumHits;
    forall v ensures Member(sel, v, t.pages) <==> Chosen(sel, v, t.pages) { MemberIsChosen(sel, v, t.pages); }
    assert Members(sel, t.visits, t.pages) == ChosenVisits(sel, t);
    GatherMeans(sel, t.visits, t.pages);
    RowsCounted(sel, t.visits, t.pages);
    if sel.dim.Page? { GatherCountsHits(sel, t.visits, t.pages); }
  }

  /** Stored rows are told apart by rising ids. */
  ghost predicate RisingPages(ps: seq<PageRow>) {
    forall i, j :: 0 <= i < j < |ps| ==> ps[i].id < ps[j].id
  }
}
