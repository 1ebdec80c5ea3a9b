/**
 Site-local days. `DayStarts` gives the instant (unix milliseconds) at which each
 calendar day of a site starts; days are consecutive integers. `DayOf` is its inverse.
 */
module Calendar {

  type SiteId = string

  type DayStarts = (SiteId, int) -> int

  /** Local midnight exists and days follow one another, whatever their length. */
  ghost predicate Advancing(c: DayStarts) {
    forall s, d, e {:trigger c(s, d), c(s, e)} :: d < e ==> c(s, d) < c(s, e)
  }

  ghost predicate Within(c: DayStarts, s: SiteId, d: int, t: int) {
    c(s, d) <= t < c(s, d + 1)
  }

  /** The day of a moment: the unique day whose [start, next start) holds it. */
  function DayOf(c: DayStarts, s: SiteId, t: int): (d: int)
    requires Advancing(c)
    ensures Within(c, s, d, t)
  {
    Seek(c, s, t, 0)
  }

  function Seek(c: DayStarts, s: SiteId, t: int, d: int): (r: int)
    requires Advancing(c)
    ensures Within(c, s, r, t)
    decreases if t < c(s, d) then c(s, d) - t else if c(s, d + 1) <= t then t - c(s, d) else 0
  {
    if t < c(s, d) then Seek(c, s, t, d - 1)
    else if c(s, d + 1) <= t then Seek(c, s, t, d + 1)
    else d
  }

  /** A moment is before a day's start exactly when its own day is earlier. */
  lemma DayBefore(c: DayStarts, s: SiteId, t: int, d: int)
    requires Advancing(c)
    ensures t < c(s, d) <==> DayOf(c, s, t) < d
  {
    var e := DayOf(c, s, t);
    if e < d && e + 1 != d { assert c(s, e + 1) < c(s, d); }
    if d < e { assert c(s, d) < c(s, e); }
  }

  lemma DayIs(c: DayStarts, s: SiteId, t: int, d: int)
    requires Advancing(c)
    ensures DayOf(c, s, t) == d <==> Within(c, s, d, t)
  {
    DayBefore(c, s, t, d);
    DayBefore(c, s, t, d + 1);
  }

  lemma DayMonotone(c: DayStarts, s: SiteId, t: int, u: int)
    requires Advancing(c) && t <= u
    ensures DayOf(c, s, t) <= DayOf(c, s, u)
  {
    DayBefore(c, s, t, DayOf(c, s, u) + 1);
  }
}
