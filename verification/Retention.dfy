/**
 Hourly rollup and retention of raw metrics (internal/telemetry/application/maintenance.go,
 internal/telemetry/infrastructure/maintenance.go) as a state machine: the maintenance
 goroutine rolls hours up and purges, ingest interleaves with every one of its steps, runs
 fail half way and the clock may step back.
 */
module Retention {
  import opened Arithmetic
  import opened Wrappers

  const HOUR := 3_600_000
  /** rerollWindow. */
  const WINDOW := 24 * HOUR

  datatype Series = Series(host: string, name: string, labels: string)

  datatype Sample = Sample(series: Series, ts: int, value: real)

  datatype Summary = Summary(count: nat, min: real, max: real, sum: real)

  /** A rollup run under way: its first hour, the next hour to roll, its end, and how much was stored when it began. */
  datatype Run = Run(from: int, cursor: int, target: int, began: nat)

  /**
   The tables `metrics` and `metric_rollups_hourly`, the marker and the run under way; and
   what only the proofs remember: every sample ever stored in order, how much of it each
   hour's last rollup saw, the samples stored too late, and the rollups purged.
   */
  datatype State = State(
    raw: seq<Sample>, rollups: map<(Series, int), Summary>, marker: Option<int>, run: Option<Run>,
    log: seq<Sample>, rolled: map<int, nat>, late: set<nat>, dropped: set<(Series, int)>)

  const FRESH := State([], map[], None, None, [], map[], {}, {})

  // ----- queries -----

  function HourOf(ts: int): int {
    ts - ts % HOUR
  }

  predicate Covers(h: int, ts: int) {
    h <= ts < h + HOUR
  }

  /** The values of one series in one hour. */
  function Selected(ss: seq<Sample>, g: Series, h: int): seq<real> {
    if ss == [] then []
    else
      var init, x := Selected(ss[..|ss| - 1], g, h), ss[|ss| - 1];
      if x.series == g && Covers(h, x.ts) then init + [x.value] else init
  }

  /** COUNT(*), MIN(value), MAX(value), SUM(value). */
  function Summarise(vs: seq<real>): Summary
    requires vs != []
  {
    var x := vs[|vs| - 1];
    if |vs| == 1 then Summary(1, x, x, x)
    else
      var a := Summarise(vs[..|vs| - 1]);
      Summary(a.count + 1, if x < a.min then x else a.min, if a.max < x then x else a.max, a.sum + x)
  }

  /** SELECT MIN(ts) FROM metrics. */
  function Earliest(ss: seq<Sample>): Option<int> {
    if ss == [] then None
    else
      var a, t := Earliest(ss[..|ss| - 1]), ss[|ss| - 1].ts;
      if a.None? || t < a.value then Some(t) else a
  }

  function KeysOf(raw: seq<Sample>): set<(Series, int)> {
    set x | x in raw :: (x.series, x.ts)
  }

  /** The groups of an hour. */
  function Groups(raw: seq<Sample>, h: int): set<(Series, int)> {
    set x | x in raw && Covers(h, x.ts) :: (x.series, h)
  }

  /** INSERT ... SELECT ... GROUP BY ... ON CONFLICT DO UPDATE for one hour. */
  function RollHour(rollups: map<(Series, int), Summary>, raw: seq<Sample>, h: int): map<(Series, int), Summary> {
    map k | k in rollups.Keys + Groups(raw, h) ::
      if k.1 == h && Selected(raw, k.0, h) != [] then Summarise(Selected(raw, k.0, h))
      else if k in rollups then rollups[k]
      else Summary(0, 0.0, 0.0, 0.0)
  }

  /** DELETE of the rows with a key in `gone` and older than `before`. */
  function Keep(raw: seq<Sample>, gone: set<(Series, int)>, before: int): seq<Sample> {
    if raw == [] then []
    else
      var init, x := Keep(raw[..|raw| - 1], gone, before), raw[|raw| - 1];
      if (x.series, x.ts) in gone && x.ts < before then init else init + [x]
  }

  // ----- steps -----

  datatype Step =
    | Insert(x: Sample)
    | Begin(now: int)
    | Roll
    | End
    | Abort
    | PurgeRaw(now: int, ttl: int, gone: set<(Series, int)>)
    | PurgeRollups(before: int, gone: set<(Series, int)>)

  /** Where a run starts, given some raw rows. */
  function FirstHour(earliest: int, marker: Option<int>): int {
    var e := HourOf(earliest);
    if marker.Some? && marker.value - WINDOW > e then marker.value - WINDOW else e
  }

  /** Hours before this will not be rolled again, if the run under way completes. */
  function Horizon(marker: Option<int>, run: Option<Run>): Option<int> {
    var passed := if run.Some? then Some(Min(run.value.cursor, run.value.target - WINDOW)) else None;
    if marker.None? then passed
    else if passed.None? then Some(marker.value - WINDOW)
    else Some(Max(marker.value - WINDOW, passed.value))
  }

  predicate Below(h: int, line: Option<int>) {
    line.Some? && h < line.value
  }

  predicate TooLate(s: State, x: Sample) {
    Below(HourOf(x.ts), Horizon(s.marker, s.run))
  }

  function InsertStep(s: State, x: Sample): State {
    if (x.series, x.ts) in KeysOf(s.raw) then s
    else s.(raw := s.raw + [x], log := s.log + [x], late := if TooLate(s, x) then s.late + {|s.log|} else s.late)
  }

  function BeginStep(s: State, now: int): State {
    var target, earliest := HourOf(now), Earliest(s.raw);
    var from := if earliest.Some? then FirstHour(earliest.value, s.marker) else target;
    s.(run := Some(Run(from, from, target, |s.log|)))
  }

  function RollStep(s: State): State
    requires s.run.Some?
  {
    var h := s.run.value.cursor;
    s.(rollups := RollHour(s.rollups, s.raw, h), rolled := s.rolled[h := |s.log|],
       run := Some(s.run.value.(cursor := h + HOUR)))
  }

  /** The marker never moves back. */
  function EndStep(s: State): State
    requires s.run.Some?
  {
    var t := s.run.value.target;
    s.(run := None, marker := if s.marker.Some? && t <= s.marker.value then s.marker else Some(t))
  }

  function Cutoff(now: int, ttl: int, marker: int): int {
    Min(now - ttl, marker - WINDOW)
  }

  function Surviving(
      rollups: map<(Series, int), Summary>, before: int, gone: set<(Series, int)>): map<(Series, int), Summary> {
    map k | k in rollups && !(k in gone && k.1 < before) :: rollups[k]
  }

  /** Deletes the expired rollups named. */
  function PurgeRollupsStep(s: State, before: int, gone: set<(Series, int)>): State {
    s.(rollups := Surviving(s.rollups, before, gone),
       dropped := s.dropped + set k | k in s.rollups && k in gone && k.1 < before)
  }

  predicate Enabled(s: State, e: Step) {
    match e
    case Insert(_) => true
    case Begin(_) => s.run.None?
    case Roll => s.run.Some? && s.run.value.cursor < s.run.value.target
    case End => s.run.Some? && s.run.value.target <= s.run.value.cursor
    case Abort => true
    case PurgeRaw(_, _, _) => s.run.None? && s.marker.Some?
    case PurgeRollups(_, _) => s.run.None?
  }

  /** A step that is not enabled does nothing. */
  function Next(s: State, e: Step): State {
    if !Enabled(s, e) then s
    else match e
      case Insert(x) => InsertStep(s, x)
      case Begin(now) => BeginStep(s, now)
      case Roll => RollStep(s)
      case End => EndStep(s)
      case Abort => s.(run := None)
      case PurgeRaw(now, ttl, gone) => s.(raw := Keep(s.raw, gone, Cutoff(now, ttl, s.marker.value)))
      case PurgeRollups(before, gone) => PurgeRollupsStep(s, before, gone)
  }

  /** The state after any sequence of steps. */
  function After(s: State, steps: seq<Step>): State {
    if steps == [] then s else Next(After(s, steps[..|steps| - 1]), steps[|steps| - 1])
  }

  // ----- the invariant -----

  predicate Aligned(h: int) {
    h % HOUR == 0
  }

  /** The rollup of its hour has seen the sample. */
  predicate Counted(s: State, i: nat)
    requires i < |s.log|
  {
    HourOf(s.log[i].ts) in s.rolled && i < s.rolled[HourOf(s.log[i].ts)]
  }

  ghost predicate MarksOk(s: State) {
    && (s.marker.Some? ==> Aligned(s.marker.value))
    && (s.run.Some? ==>
          var r := s.run.value;
          && Aligned(r.from) && Aligned(r.cursor) && Aligned(r.target) && r.from <= r.cursor && r.began <= |s.log|
          && (s.marker.Some? && r.cursor < r.target ==> s.marker.value - WINDOW <= r.from))
  }

  /** Hours that may still be rolled have lost nothing. */
  ghost predicate WindowWhole(s: State) {
    forall g, h :: Aligned(h) && !Below(h, Horizon(s.marker, None)) ==> Selected(s.raw, g, h) == Selected(s.log, g, h)
  }

  ghost predicate RolledOk(s: State) {
    (forall h :: h in s.rolled ==> Aligned(h) && s.rolled[h] <= |s.log|) && (forall i :: i in s.late ==> i < |s.log|)
  }

  /** Each rollup is the summary of what its hour's last rollup saw, and none is missing. */
  ghost predicate RollupsOk(s: State) {
    && (forall k :: k in s.rollups ==>
          && k.1 in s.rolled && s.rolled[k.1] <= |s.log|
          && Selected(s.log[..s.rolled[k.1]], k.0, k.1) != []
          && s.rollups[k] == Summarise(Selected(s.log[..s.rolled[k.1]], k.0, k.1)))
    && (forall g, h :: h in s.rolled && s.rolled[h] <= |s.log| && Selected(s.log[..s.rolled[h]], g, h) != [] ==>
          (g, h) in s.rollups || (g, h) in s.dropped)
  }

  /** What was stored in time is counted, or still there to be counted. */
  ghost predicate NoneMissed(s: State) {
    forall i :: 0 <= i < |s.log| && i !in s.late ==>
      Counted(s, i) || (s.log[i] in s.raw && !TooLate(s, s.log[i]))
  }

  /** What was stored in time before the run began is counted, or its hour is still ahead of the run. */
  ghost predicate RunCovers(s: State) {
    s.run.Some? ==>
      forall i :: 0 <= i < s.run.value.began <= |s.log| && i !in s.late ==>
        Counted(s, i) || s.run.value.cursor <= HourOf(s.log[i].ts)
  }

  /** The hour is in the re-aggregation window: the next run will roll it. */
  predicate InWindow(s: State, h: int) {
    !Below(h, Horizon(s.marker, None))
  }

  /**
   Hours the run has passed are rolled with all that was stored when it began; none with samples lies
   before its start.
   */
  ghost predicate RunRolls(s: State) {
    s.run.Some? ==>
      var r := s.run.value;
      && (forall h :: Aligned(h) && r.from <= h < r.cursor ==> h in s.rolled && r.began <= s.rolled[h])
      && (forall i :: 0 <= i < r.began <= |s.log| && InWindow(s, HourOf(s.log[i].ts)) ==> r.from <= HourOf(s.log[i].ts))
  }

  ghost predicate DistinctKeys(raw: seq<Sample>) {
    forall i, j :: 0 <= i < j < |raw| ==> (raw[i].series, raw[i].ts) != (raw[j].series, raw[j].ts)
  }

  ghost predicate Inv(s: State) {
    MarksOk(s) && WindowWhole(s) && RolledOk(s) && RollupsOk(s) && NoneMissed(s) && RunCovers(s) && RunRolls(s)
    && DistinctKeys(s.raw)
  }

  // ----- hours and selections -----

  lemma HourCovers(ts: int, h: int)
    requires Aligned(h)
    ensures Aligned(HourOf(ts)) && (Covers(h, ts) <==> HourOf(ts) == h)
  {
    assert Aligned(HourOf(ts)) by {
      assert ts == HOUR * (ts / HOUR) + ts % HOUR;
      assert HourOf(ts) == HOUR * (ts / HOUR);
    }
    if Covers(h, ts) {
      assert h == HOUR * (h / HOUR);
      assert 0 <= ts - HOUR * (h / HOUR) < HOUR;
    }
  }

  lemma HourAligned(ts: int)
    ensures Aligned(HourOf(ts))
  {
    HourCovers(ts, 0);
  }

  lemma SelectedGrows(ss: seq<Sample>, x: Sample, g: Series, h: int)
    ensures Selected(ss + [x], g, h)
         == if x.series == g && Covers(h, x.ts) then Selected(ss, g, h) + [x.value] else Selected(ss, g, h)
  {
    assert (ss + [x])[..|ss|] == ss;
  }

  lemma {:induction false} SelectedSome(ss: seq<Sample>, x: Sample, h: int)
    requires x in ss && Covers(h, x.ts)
    ensures Selected(ss, x.series, h) != []
  {
    if ss[|ss| - 1] != x { SelectedSome(ss[..|ss| - 1], x, h); }
  }

  lemma {:induction false} SelectedFrom(ss: seq<Sample>, g: Series, h: int)
    requires Selected(ss, g, h) != []
    ensures (g, h) in Groups(ss, h)
  {
    var n := |ss| - 1;
    if ss[n].series == g && Covers(h, ss[n].ts) {
      assert ss[n] in ss;
    } else {
      SelectedFrom(ss[..n], g, h);
    }
  }

  lemma {:induction false} KeepSpares(raw: seq<Sample>, gone: set<(Series, int)>, before: int, g: Series, h: int)
    requires before <= h
    ensures Selected(Keep(raw, gone, before), g, h) == Selected(raw, g, h)
  {
    if raw != [] {
      var x, init := raw[|raw| - 1], Keep(raw[..|raw| - 1], gone, before);
      KeepSpares(raw[..|raw| - 1], gone, before, g, h);
      SelectedGrows(init, x, g, h);
    }
  }

  lemma {:induction false} KeepMembers(raw: seq<Sample>, gone: set<(Series, int)>, before: int, x: Sample)
    ensures x in Keep(raw, gone, before) <==> x in raw && !((x.series, x.ts) in gone && x.ts < before)
  {
    if raw != [] { KeepMembers(raw[..|raw| - 1], gone, before, x); }
  }

  lemma {:induction false} KeepDistinct(raw: seq<Sample>, gone: set<(Series, int)>, before: int)
    requires DistinctKeys(raw)
    ensures DistinctKeys(Keep(raw, gone, before))
  {
    if raw != [] {
      var init, x := raw[..|raw| - 1], raw[|raw| - 1];
      KeepDistinct(init, gone, before);
      var kept := Keep(init, gone, before);
      forall i | 0 <= i < |kept| ensures (kept[i].series, kept[i].ts) != (x.series, x.ts) {
        KeepMembers(init, gone, before, kept[i]);
        assert kept[i] in init;
      }
    }
  }

  lemma {:induction false} EarliestIsLeast(ss: seq<Sample>, x: Sample)
    requires x in ss
    ensures Earliest(ss).Some? && Earliest(ss).value <= x.ts
  {
    if ss[|ss| - 1] != x {
      EarliestIsLeast(ss[..|ss| - 1], x);
    }
  }

  lemma HoursFollow(a: int, b: int)
    requires a <= b
    ensures HourOf(a) <= HourOf(b)
  {
    HourCovers(a, HourOf(a));
    HourCovers(b, HourOf(b));
    if HourOf(b) < HourOf(a) {
      HoursApart(HourOf(b), HourOf(a));
      assert false;
    }
  }

  lemma HoursApart(a: int, b: int)
    requires a % HOUR == 0 && b % HOUR == 0 && a < b
    ensures a + HOUR <= b
  {
    assert a == HOUR * (a / HOUR) && b == HOUR * (b / HOUR);
    assert a / HOUR < b / HOUR;
  }

  // ----- each step keeps the invariant -----

  lemma InsertRollups(s: State, x: Sample)
    requires RolledOk(s) && RollupsOk(s)
    ensures var t := InsertStep(s, x); RolledOk(t) && RollupsOk(t)
  {
    hide Selected, Summarise, Aligned, HourOf;
    forall n | 0 <= n <= |s.log| ensures (s.log + [x])[..n] == s.log[..n] {}
  }

  lemma InsertKeeps(s: State, x: Sample)
    requires Inv(s)
    ensures Inv(InsertStep(s, x))
  {
    hide Selected, Summarise, Aligned, HourOf, Covers, Horizon;
    var t := InsertStep(s, x);
    if t != s {
      forall g, h | Aligned(h) && !Below(h, Horizon(s.marker, None))
        ensures Selected(t.raw, g, h) == Selected(t.log, g, h)
      {
        SelectedGrows(s.raw, x, g, h);
        SelectedGrows(s.log, x, g, h);
      }
      assert RolledOk(t) && RollupsOk(t) by { InsertRollups(s, x); }
      assert NoneMissed(t) by {
        forall i | 0 <= i < |t.log| && i !in t.late
          ensures Counted(t, i) || (t.log[i] in t.raw && !TooLate(t, t.log[i]))
        {
          if i < |s.log| { assert t.log[i] == s.log[i] && i !in s.late; }
        }
      }
      assert DistinctKeys(t.raw) by {
        forall i | 0 <= i < |s.raw| ensures (s.raw[i].series, s.raw[i].ts) != (x.series, x.ts) {
          assert s.raw[i] in s.raw;
        }
      }
    }
  }

  lemma FirstHourOk(earliest: int, marker: Option<int>)
    requires marker.Some? ==> Aligned(marker.value)
    ensures var f := FirstHour(earliest, marker);
      Aligned(f) && HourOf(earliest) <= f && (marker.Some? ==> marker.value - WINDOW <= f)
      && (f == HourOf(earliest) || (marker.Some? && f == marker.value - WINDOW))
  {
    HourCovers(earliest, HourOf(earliest));
  }

  /** A sample of an hour in the window, stored or not, tells that the hour still has a row: the run starts no later. */
  lemma BeginsInTime(s: State, i: nat)
    requires MarksOk(s) && WindowWhole(s) && i < |s.log| && InWindow(s, HourOf(s.log[i].ts))
    ensures Earliest(s.raw).Some? && FirstHour(Earliest(s.raw).value, s.marker) <= HourOf(s.log[i].ts)
  {
    hide Selected;
    var x := s.log[i];
    var h := HourOf(x.ts);
    HourAligned(x.ts);
    HourCovers(x.ts, h);
    SelectedSome(s.log, x, h);
    SelectedFrom(s.raw, x.series, h);
    var y :| y in s.raw && Covers(h, y.ts) && (y.series, h) == (x.series, h);
    EarliestIsLeast(s.raw, y);
    HourCovers(y.ts, h);
    HoursFollow(Earliest(s.raw).value, y.ts);
  }

  lemma BeginKeeps(s: State, now: int)
    requires Inv(s) && s.run.None?
    ensures Inv(BeginStep(s, now))
  {
    hide Selected, Summarise, Aligned, HourOf, Covers, WindowWhole;
    hide RolledOk, RollupsOk, DistinctKeys, FirstHour, Earliest, Counted;
    var t := BeginStep(s, now);
    var r := t.run.value;
    HourAligned(now);
    if Earliest(s.raw).Some? { FirstHourOk(Earliest(s.raw).value, s.marker); }
    forall i | 0 <= i < |s.log| && i !in s.late && !Counted(s, i)
      ensures s.log[i] in s.raw && r.from <= HourOf(s.log[i].ts)
    {
      EarliestIsLeast(s.raw, s.log[i]);
      HoursFollow(Earliest(s.raw).value, s.log[i].ts);
    }
    forall i | 0 <= i < |s.log| ensures Counted(t, i) == Counted(s, i) { SameCounted(s, t, i); }
    assert RunRolls(t) by {
      forall i | 0 <= i < |s.log| && InWindow(t, HourOf(s.log[i].ts)) ensures r.from <= HourOf(s.log[i].ts) {
        BeginsInTime(s, i);
      }
    }
    assert WindowWhole(t) && RolledOk(t) && RollupsOk(t) by { SameTables(s, t); }
  }

  lemma SameCounted(s: State, t: State, i: nat)
    requires i < |s.log| && t.log == s.log && t.rolled == s.rolled
    ensures Counted(t, i) == Counted(s, i)
  {
  }

  lemma SameTables(s: State, t: State)
    requires WindowWhole(s) && RolledOk(s) && RollupsOk(s)
    requires t == s.(run := t.run)
    ensures WindowWhole(t) && RolledOk(t) && RollupsOk(t)
  {
    hide Selected, Summarise, Horizon;
  }

  lemma RollRollups(s: State, h: int)
    requires RolledOk(s) && RollupsOk(s) && Aligned(h)
    requires forall g :: Selected(s.raw, g, h) == Selected(s.log, g, h)
    ensures var t := s.(rollups := RollHour(s.rollups, s.raw, h), rolled := s.rolled[h := |s.log|]); RollupsOk(t)
  {
    hide Selected, Summarise, Aligned, Covers;
    var t := s.(rollups := RollHour(s.rollups, s.raw, h), rolled := s.rolled[h := |s.log|]);
    assert s.log[..|s.log|] == s.log;
    forall k | k in t.rollups ensures
      && k.1 in t.rolled && t.rolled[k.1] <= |t.log|
      && Selected(t.log[..t.rolled[k.1]], k.0, k.1) != []
      && t.rollups[k] == Summarise(Selected(t.log[..t.rolled[k.1]], k.0, k.1))
    {
      if k.1 == h { RolledGroup(s, k.0, h); }
    }
    forall g, k | k in t.rolled && t.rolled[k] <= |t.log| && Selected(t.log[..t.rolled[k]], g, k) != []
      ensures (g, k) in t.rollups || (g, k) in t.dropped
    {
      if k == h { SelectedFrom(s.raw, g, h); }
    }
  }

  /** A group of the hour that was ever rolled up, or has a row, has rows. */
  lemma RolledGroup(s: State, g: Series, h: int)
    requires RollupsOk(s) && Selected(s.raw, g, h) == Selected(s.log, g, h)
    requires (g, h) in s.rollups.Keys + Groups(s.raw, h)
    ensures Selected(s.raw, g, h) != []
  {
    if (g, h) in s.rollups {
      PrefixSelects(s.log, s.rolled[h], g, h);
    } else {
      var x :| x in s.raw && Covers(h, x.ts) && (x.series, h) == (g, h);
      SelectedSome(s.raw, x, h);
    }
  }

  lemma {:induction false} PrefixSelects(ss: seq<Sample>, n: nat, g: Series, h: int)
    requires n <= |ss| && Selected(ss[..n], g, h) != []
    ensures Selected(ss, g, h) != []
  {
    if n < |ss| {
      assert ss[..|ss| - 1][..n] == ss[..n];
      PrefixSelects(ss[..|ss| - 1], n, g, h);
    } else {
      assert ss[..n] == ss;
    }
  }

  lemma RollKeeps(s: State)
    requires Inv(s) && Enabled(s, Roll)
    ensures Inv(RollStep(s))
  {
    hide Selected, Summarise, HourOf, Covers, RollHour, DistinctKeys;
    var h, t := s.run.value.cursor, RollStep(s);
    assert RolledOk(t) && RollupsOk(t) by { hide RollHour; RollRollups(s, h); SameTables'(s, t); }
    NextHourAligned(h);
    forall i | 0 <= i < |s.log| && i !in s.late ensures Counted(s, i) ==> Counted(t, i) {}
    forall i | 0 <= i < |s.log| && HourOf(s.log[i].ts) == h ensures Counted(t, i) {}
    forall i | 0 <= i < |s.log| && h <= HourOf(s.log[i].ts) && HourOf(s.log[i].ts) != h
      ensures h + HOUR <= HourOf(s.log[i].ts)
    {
      HourCovers(s.log[i].ts, h);
      HoursApart(h, HourOf(s.log[i].ts));
    }
  }

  lemma SameTables'(s: State, t: State)
    requires RolledOk(s) && s.run.Some? && Aligned(s.run.value.cursor) && t == RollStep(s)
    requires RollupsOk(s.(rollups := t.rollups, rolled := t.rolled))
    ensures RolledOk(t) && RollupsOk(t)
  {
    hide Selected, Summarise, RollHour;
  }

  lemma NextHourAligned(h: int)
    requires Aligned(h)
    ensures Aligned(h + HOUR)
  {
  }

  lemma EndKeeps(s: State)
    requires Inv(s) && Enabled(s, End)
    ensures Inv(EndStep(s))
  {
    hide Selected, Summarise, HourOf, Covers, RolledOk, RollupsOk, Aligned, DistinctKeys;
    var t := EndStep(s);
    assert RolledOk(t) && RollupsOk(t) by { SameRollups(s, t); }
  }

  lemma SameRollups(s: State, t: State)
    requires RolledOk(s) && RollupsOk(s) && t.log == s.log && t.late == s.late && t.rolled == s.rolled
    requires t.rollups == s.rollups && t.dropped == s.dropped
    ensures RolledOk(t) && RollupsOk(t)
  {
    hide Selected, Summarise;
  }

  lemma AbortKeeps(s: State)
    requires Inv(s)
    ensures Inv(s.(run := None))
  {
    hide Selected, Summarise, HourOf, Covers, RolledOk, RollupsOk, Aligned, DistinctKeys;
    SameRollups(s, s.(run := None));
  }

  lemma PurgeRawKeeps(s: State, before: int, gone: set<(Series, int)>)
    requires Inv(s) && s.run.None? && s.marker.Some? && before <= s.marker.value - WINDOW
    ensures Inv(s.(raw := Keep(s.raw, gone, before)))
  {
    hide Selected, Summarise, Covers, RolledOk, RollupsOk, Aligned, DistinctKeys, Keep;
    var t := s.(raw := Keep(s.raw, gone, before));
    SameRollups(s, t);
    KeepDistinct(s.raw, gone, before);
    forall g, h | Aligned(h) && !Below(h, Horizon(s.marker, None))
      ensures Selected(t.raw, g, h) == Selected(t.log, g, h)
    {
      KeepSpares(s.raw, gone, before, g, h);
    }
    forall i | 0 <= i < |s.log| && s.log[i] in s.raw && !TooLate(s, s.log[i]) ensures s.log[i] in t.raw {
      KeepMembers(s.raw, gone, before, s.log[i]);
    }
  }

  lemma PurgeRollupsKeeps(s: State, before: int, gone: set<(Series, int)>)
    requires Inv(s) && s.run.None?
    ensures Inv(PurgeRollupsStep(s, before, gone))
  {
    hide Selected, Summarise, Covers, HourOf, Aligned, DistinctKeys;
  }

  lemma StepKeeps(s: State, e: Step)
    requires Inv(s)
    ensures Inv(Next(s, e))
  {
    hide Inv, InsertStep, BeginStep, RollStep, EndStep, PurgeRollupsStep, Keep;
    if Enabled(s, e) {
      match e
      case Insert(x) => InsertKeeps(s, x);
      case Begin(now) => BeginKeeps(s, now);
      case Roll => RollKeeps(s);
      case End => EndKeeps(s);
      case Abort => AbortKeeps(s);
      case PurgeRaw(now, ttl, gone) => PurgeRawKeeps(s, Cutoff(now, ttl, s.marker.value), gone);
      case PurgeRollups(before, gone) => PurgeRollupsKeeps(s, before, gone);
    }
  }

  lemma {:induction false} RunKeeps(s: State, steps: seq<Step>)
    requires Inv(s)
    ensures Inv(After(s, steps))
  {
    hide Inv, Next;
    if steps != [] {
      RunKeeps(s, steps[..|steps| - 1]);
      StepKeeps(After(s, steps[..|steps| - 1]), steps[|steps| - 1]);
    }
  }

  lemma FreshOk()
    ensures Inv(FRESH)
  {
  }

  // ----- what holds of every run -----

  /** Every hour that is rolled up, at any point of any run, still has every sample ever stored for it. */
  lemma RollSeesEverything(steps: seq<Step>, g: Series)
    requires Enabled(After(FRESH, steps), Roll)
    ensures var s := After(FRESH, steps);
      Selected(s.raw, g, s.run.value.cursor) == Selected(s.log, g, s.run.value.cursor)
  {
    hide After, Selected, RollupsOk, NoneMissed, RunCovers;
    FreshOk();
    RunKeeps(FRESH, steps);
  }

  /**
   A surviving rollup summarises every sample of its hour stored before that hour was last rolled;
   none is missing.
   */
  lemma RollupsExact(steps: seq<Step>, g: Series, h: int)
    ensures var s := After(FRESH, steps);
      && ((g, h) in s.rollups ==>
            && h in s.rolled && s.rolled[h] <= |s.log| && Selected(s.log[..s.rolled[h]], g, h) != []
            && s.rollups[(g, h)] == Summarise(Selected(s.log[..s.rolled[h]], g, h)))
      && (h in s.rolled && s.rolled[h] <= |s.log| && Selected(s.log[..s.rolled[h]], g, h) != [] ==>
            (g, h) in s.rollups || (g, h) in s.dropped)
  {
    hide After, Selected, Summarise, WindowWhole, NoneMissed, RunCovers;
    FreshOk();
    RunKeeps(FRESH, steps);
  }

  /**
   When a run completes it has counted every sample stored before it began, of every hour
   it closes that was in its window or for which the sample was in time; and the rollup of
   an hour in the window covers all that was stored before the run began. Samples stored
   behind a run that failed are among them.
   */
  lemma CompleteRunCounts(steps: seq<Step>, i: nat)
    requires var s := After(FRESH, steps);
      Enabled(s, End) && i < s.run.value.began <= |s.log| && HourOf(s.log[i].ts) < s.run.value.target
    ensures var s := After(FRESH, steps);
      var h := HourOf(s.log[i].ts);
      && (i !in s.late || InWindow(s, h) ==> Counted(s, i))
      && (InWindow(s, h) ==> h in s.rolled && s.run.value.began <= s.rolled[h])
  {
    hide After, Selected, WindowWhole, RollupsOk, NoneMissed, HourOf;
    FreshOk();
    RunKeeps(FRESH, steps);
    HourAligned(After(FRESH, steps).log[i].ts);
  }

  /** A sample stored in time is never deleted before it is counted. */
  lemma NeverLost(steps: seq<Step>, i: nat)
    requires var s := After(FRESH, steps); i < |s.log| && i !in s.late
    ensures var s := After(FRESH, steps); Counted(s, i) || s.log[i] in s.raw
  {
    hide After, Inv;
    FreshOk();
    RunKeeps(FRESH, steps);
    StillThere(After(FRESH, steps), i);
  }

  // ----- exactly which samples are safe -----

  lemma {:induction false} AfterFirst(s: State, e: Step, rest: seq<Step>)
    ensures After(s, [e] + rest) == After(Next(s, e), rest)
  {
    hide Next;
    var all := [e] + rest;
    if rest == [] {
      assert all == [e] && After(s, all[..0]) == s;
    } else {
      assert all[..|all| - 1] == [e] + rest[..|rest| - 1];
      AfterFirst(s, e, rest[..|rest| - 1]);
    }
  }

  lemma StepRemembers(s: State, e: Step, i: nat)
    requires i < |s.log|
    ensures var t := Next(s, e); i < |t.log| && t.log[i] == s.log[i] && (i in t.late <==> i in s.late)
  {
    hide RollHour, Keep, Horizon, HourOf, FirstHour, Earliest;
  }

  lemma {:induction false} RunRemembers(s: State, steps: seq<Step>, i: nat)
    requires i < |s.log|
    ensures var t := After(s, steps); i < |t.log| && t.log[i] == s.log[i] && (i in t.late <==> i in s.late)
  {
    hide Next;
    if steps != [] {
      RunRemembers(s, steps[..|steps| - 1], i);
      StepRemembers(After(s, steps[..|steps| - 1]), steps[|steps| - 1], i);
    }
  }

  /** The sample missed its hour's last rollup and its hour will not be rolled again. */
  ghost predicate Missed(s: State, i: nat) {
    i < |s.log| && TooLate(s, s.log[i]) && !Counted(s, i)
  }

  lemma RollMisses(s: State, i: nat)
    requires Inv(s) && Missed(s, i) && Enabled(s, Roll)
    ensures Missed(RollStep(s), i)
  {
    hide RollHour, HourOf, WindowWhole, RollupsOk, NoneMissed, RunCovers, DistinctKeys, RolledOk, Aligned;
  }

  lemma EndMisses(s: State, i: nat)
    requires Inv(s) && Missed(s, i) && Enabled(s, End)
    ensures Missed(EndStep(s), i) && EndStep(s).marker.Some?
  {
    hide HourOf, WindowWhole, RollupsOk, NoneMissed, RunCovers, DistinctKeys, RolledOk, Aligned;
  }

  /** Purging up to the re-aggregation window deletes a missed sample. */
  lemma PurgeLoses(s: State, i: nat) returns (e: Step)
    requires Inv(s) && Missed(s, i) && s.run.None? && s.marker.Some?
    ensures var t := Next(s, e); |t.log| == |s.log| && s.log[i] !in t.raw && !Counted(t, i)
  {
    hide WindowWhole, RollupsOk, NoneMissed, RunCovers, DistinctKeys, RolledOk, Keep;
    var x, line := s.log[i], s.marker.value - WINDOW;
    e := PurgeRaw(line, 0, {(x.series, x.ts)});
    assert x.ts < line by {
      HourAligned(x.ts);
      HoursApart(HourOf(x.ts), line);
    }
    KeepMembers(s.raw, {(x.series, x.ts)}, line, x);
  }

  /** Let the run under way complete, then purge. */
  lemma {:induction false} MissedIsLost(s: State, i: nat) returns (steps: seq<Step>)
    requires Inv(s) && Missed(s, i)
    ensures var t := After(s, steps); i < |t.log| && s.log[i] !in t.raw && !Counted(t, i)
    decreases if s.run.Some? then 1 + Max(0, s.run.value.target - s.run.value.cursor) else 0
  {
    hide Inv, HourOf, RollHour, Counted;
    if s.run.None? {
      var e := PurgeLoses(s, i);
      steps := [e];
      AfterFirst(s, e, []);
      assert [e] + [] == [e];
    } else {
      var e := if Enabled(s, Roll) then Roll else End;
      if e == Roll { RollMisses(s, i); } else { EndMisses(s, i); }
      StepKeeps(s, e);
      var rest := MissedIsLost(Next(s, e), i);
      AfterFirst(s, e, rest);
      steps := [e] + rest;
    }
  }

  /** Whatever follows, the sample at `i` is there until it is counted. */
  ghost predicate SafeForever(s: State, i: nat) {
    forall steps :: var t := After(s, steps); i < |t.log| ==> Counted(t, i) || t.log[i] in t.raw
  }

  lemma StillThere(s: State, i: nat)
    requires Inv(s) && i < |s.log| && i !in s.late
    ensures Counted(s, i) || s.log[i] in s.raw
  {
    hide Selected, WindowWhole, RollupsOk, RunCovers, Counted, HourOf;
  }

  lemma JustStored(s: State, x: Sample)
    requires Inv(s) && (x.series, x.ts) !in KeysOf(s.raw)
    ensures var t := InsertStep(s, x); |s.log| < |t.log| && !Counted(t, |s.log|) && (|s.log| in t.late <==>
      TooLate(s, x))
  {
    hide Selected, WindowWhole, RollupsOk, RunCovers, HourOf, Horizon;
  }

  /**
   A new sample is deleted only after its hour's rollup counted it, whatever follows,
   exactly when it is stored in time: before its hour left the re-aggregation window, and
   before a catch-up run passed it for good.
   */
  lemma DeletedOnlyWhenCounted(s: State, x: Sample)
    requires Inv(s) && (x.series, x.ts) !in KeysOf(s.raw)
    ensures SafeForever(InsertStep(s, x), |s.log|) <==> !TooLate(s, x)
  {
    hide Inv, HourOf, Horizon, After;
    var t, i := InsertStep(s, x), |s.log|;
    StepKeeps(s, Insert(x));
    JustStored(s, x);
    if TooLate(s, x) {
      var steps := MissedIsLost(t, i);
      RunRemembers(t, steps, i);
    } else {
      forall steps ensures var u := After(t, steps); i < |u.log| ==> Counted(u, i) || u.log[i] in u.raw {
        RunKeeps(t, steps);
        RunRemembers(t, steps, i);
        StillThere(After(t, steps), i);
      }
    }
  }

  lemma FourSteps(s: State, a: Step, b: Step, c: Step, d: Step)
    ensures After(s, [a, b, c, d]) == Next(Next(Next(Next(s, a), b), c), d)
  {
    hide Next;
    assert [a][..0] == [] && After(s, [a]) == Next(s, a);
    assert [a, b][..1] == [a] && After(s, [a, b]) == Next(After(s, [a]), b);
    assert [a, b, c][..2] == [a, b] && After(s, [a, b, c]) == Next(After(s, [a, b]), c);
    assert [a, b, c, d][..3] == [a, b, c];
  }

  /** With the TTL of 30 days: a sample stored 790 hours late is deleted and its hour was never rolled up. */
  lemma LateSampleIsDeletedUnrolled(x: Sample)
    requires x.ts == 10 * HOUR
    ensures var purge := PurgeRaw(800 * HOUR, 720 * HOUR, {(x.series, x.ts)});
      var s := After(FRESH, [Begin(800 * HOUR), End, Insert(x), purge]);
      s.log == [x] && s.raw == [] && HourOf(x.ts) !in s.rolled
  {
    hide After, Keep;
    FourSteps(FRESH, Begin(800 * HOUR), End, Insert(x), PurgeRaw(800 * HOUR, 720 * HOUR, {(x.series, x.ts)}));
    var s := State([], map[], Some(800 * HOUR), None, [], map[], {}, {});
    assert Next(Next(FRESH, Begin(800 * HOUR)), End) == s;
    assert InsertStep(s, x).raw == [x] && InsertStep(s, x).log == [x];
    KeptNone(x, 80 * HOUR);
  }

  lemma KeptNone(x: Sample, before: int)
    requires x.ts < before
    ensures Keep([x], {(x.series, x.ts)}, before) == []
  {
    assert [x][..0] == [];
  }

  // ----- what a rollup says -----

  function Total(vs: seq<real>): real {
    if vs == [] then 0.0 else vs[0] + Total(vs[1..])
  }

  lemma {:induction false} TotalGrows(vs: seq<real>, x: real)
    ensures Total(vs + [x]) == Total(vs) + x
  {
    if vs == [] {
      assert vs + [x] == [x] && [x][1..] == [];
    } else {
      assert (vs + [x])[1..] == vs[1..] + [x];
      TotalGrows(vs[1..], x);
    }
  }

  /** Count, extremes and sum. */
  lemma {:induction false} SummaryMeans(vs: seq<real>)
    requires vs != []
    ensures var a := Summarise(vs);
      a.count == |vs| && a.sum == Total(vs) && a.min in vs && a.max in vs && forall v :: v in vs ==> a.min <= v <= a.max
  {
    var init, x := vs[..|vs| - 1], vs[|vs| - 1];
    assert vs == init + [x];
    TotalGrows(init, x);
    if init != [] { SummaryMeans(init); }
  }

  lemma {:induction false} SelectedSplits(ss: seq<Sample>, n: nat, g: Series, h: int)
    requires n <= |ss|
    ensures Selected(ss, g, h) == Selected(ss[..n], g, h) + Selected(ss[n..], g, h)
  {
    hide Covers;
    if n == |ss| {
      assert ss[..n] == ss && ss[n..] == [];
    } else {
      var m := |ss| - 1;
      SelectedSplits(ss[..m], n, g, h);
      SplitAt(ss, n);
      SelectedGrows(ss[..m][n..], ss[m], g, h);
    }
  }

  lemma SplitAt(ss: seq<Sample>, n: nat)
    requires n < |ss|
    ensures ss[..|ss| - 1][..n] == ss[..n] && ss[n..] == ss[..|ss| - 1][n..] + [ss[|ss| - 1]]
  {
  }

  /**
   A rollup describes everything ever stored for its hour exactly when nothing came after that hour
   was last rolled.
   */
  lemma RollupCurrentIff(steps: seq<Step>, g: Series, h: int)
    requires (g, h) in After(FRESH, steps).rollups
    ensures var s := After(FRESH, steps);
      && h in s.rolled && s.rolled[h] <= |s.log| && Selected(s.log, g, h) != []
      && (s.rollups[(g, h)] == Summarise(Selected(s.log, g, h)) <==> Selected(s.log[s.rolled[h]..], g, h) == [])
  {
    hide After, Selected, Summarise;
    RollupsExact(steps, g, h);
    var s := After(FRESH, steps);
    SelectedSplits(s.log, s.rolled[h], g, h);
    var seen := Selected(s.log[..s.rolled[h]], g, h);
    assert seen + [] == seen;
    SummaryMeans(Selected(s.log, g, h));
    SummaryMeans(Selected(s.log[..s.rolled[h]], g, h));
  }

  /** Rolling an hour again changes nothing when nothing came since. */
  lemma RerunChangesNothing(s: State, h: int)
    requires Inv(s) && h in s.rolled && !Below(h, Horizon(s.marker, None))
    requires forall g :: (g, h) !in s.dropped
    requires forall g :: Selected(s.log[s.rolled[h]..], g, h) == []
    ensures RollHour(s.rollups, s.raw, h) == s.rollups
  {
    hide Selected, Summarise, NoneMissed, RunCovers, DistinctKeys, Horizon;
    var r := RollHour(s.rollups, s.raw, h);
    forall g ensures Selected(s.raw, g, h) == Selected(s.log[..s.rolled[h]], g, h) {
      SelectedSplits(s.log, s.rolled[h], g, h);
    }
    forall k | k in Groups(s.raw, h) ensures k in s.rollups {
      RolledGroup(s, k.0, h);
    }
    assert r.Keys == s.rollups.Keys;
  }
}
