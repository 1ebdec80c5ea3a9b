/**
 The maintenance jobs over the tables they change in place
 (internal/telemetry/application/maintenance.go). Samples arrive between any two steps of a
 job, and a job may be cut short: by an error or a cancelled context after `patience` steps.
 */
module Maintenance {
  import opened Wrappers
  import opened Retention

  lemma AfterOne(s: State, steps: seq<Step>, e: Step)
    ensures After(s, steps + [e]) == Next(After(s, steps), e)
  {
    hide Next;
    assert (steps + [e])[..|steps|] == steps;
  }

  /** What every reachable state has. */
  lemma Reachable(past: seq<Step>)
    ensures Inv(After(FRESH, past))
  {
    hide Inv, After;
    FreshOk();
    RunKeeps(FRESH, past);
  }

  /** Later in the same history: what was stored, and whether in time, is remembered. */
  ghost predicate Extends(a: State, b: State) {
    a.log <= b.log && forall i :: 0 <= i < |a.log| ==> (i in b.late <==> i in a.late)
  }

  /**
   Of what was stored before, a run up to `current` has counted every sample of a closed
   hour that was in the window or in time; each such hour of the window is rolled up with
   all that was stored before.
   */
  ghost predicate Caught(before: State, current: int, after: State) {
    before.log <= after.log && forall i :: 0 <= i < |before.log| && HourOf(before.log[i].ts) < current ==>
      var h := HourOf(before.log[i].ts);
      && (i !in before.late || InWindow(before, h) ==> Counted(after, i))
      && (InWindow(before, h) ==> h in after.rolled && |before.log| <= after.rolled[h])
  }

  lemma RunCaught(before: State, past: seq<Step>)
    requires var s := After(FRESH, past);
      Enabled(s, End) && Extends(before, s) && s.run.value.began == |before.log| && s.marker == before.marker
    ensures var s := After(FRESH, past); Caught(before, s.run.value.target, s)
  {
    hide After, HourOf, Counted, Horizon;
    var s := After(FRESH, past);
    forall i | 0 <= i < |before.log| && HourOf(before.log[i].ts) < s.run.value.target
      ensures var h := HourOf(before.log[i].ts);
        && (i !in before.late || InWindow(before, h) ==> Counted(s, i))
        && (InWindow(before, h) ==> h in s.rolled && |before.log| <= s.rolled[h])
    {
      assert s.log[i] == before.log[i];
      CompleteRunCounts(past, i);
    }
  }

  lemma SameCaught(before: State, current: int, s: State, t: State)
    requires Caught(before, current, s) && t.log == s.log && t.rolled == s.rolled
    ensures Caught(before, current, t)
  {
    hide HourOf, InWindow;
  }

  /** The sample came in one of the pauses of a job. */
  ghost predicate Arrived(arrivals: nat -> seq<Sample>, pauses: nat, x: Sample) {
    exists k: nat :: k < pauses && x in arrivals(k)
  }

  class Store {
    var raw: seq<Sample>
    var rollups: map<(Series, int), Summary>
    var marker: Option<int>
    /** The steps taken so far, and the state they lead to. */
    ghost var past: seq<Step>
    ghost var s: State

    ghost predicate Valid()
      reads this
    {
      raw == s.raw && rollups == s.rollups && marker == s.marker && s == After(FRESH, past)
    }

    constructor ()
      ensures Valid() && past == [] && s == FRESH
    {
      raw, rollups, marker, past, s := [], map[], None, [], FRESH;
    }

    ghost method Remember(e: Step)
      requires s == After(FRESH, past)
      modifies this`past, this`s
      ensures past == old(past) + [e] && s == Next(old(s), e) && s == After(FRESH, past)
    {
      hide Next, After;
      AfterOne(FRESH, past, e);
      past, s := past + [e], Next(s, e);
    }

    /** INSERT ... ON CONFLICT DO NOTHING, by the ingest side. */
    method Insert(x: Sample)
      requires Valid()
      modifies this
      ensures Valid() && past == old(past) + [Step.Insert(x)] && s == InsertStep(old(s), x)
      ensures raw
            == if exists y :: y in old(raw) && y.series == x.series && y.ts == x.ts then old(raw) else old(raw) + [x]
    {
      hide After, Horizon, HourOf;
      var taken := exists i :: 0 <= i < |raw| && raw[i].series == x.series && raw[i].ts == x.ts;
      assert taken <==> (x.series, x.ts) in KeysOf(raw);
      if !taken { raw := raw + [x]; }
      Remember(Step.Insert(x));
    }

    method InsertAll(xs: seq<Sample>)
      requires Valid()
      modifies this
      ensures Valid() && old(past) <= past && rollups == old(rollups) && marker == old(marker)
      ensures s.run == old(s.run) && s.rolled == old(s.rolled) && Extends(old(s), s)
      ensures forall x :: x in old(raw) ==> x in raw
      ensures forall x :: x in raw ==> x in old(raw) || x in xs
    {
      hide After, Horizon, HourOf, KeysOf;
      for k := 0 to |xs|
        invariant Valid() && old(past) <= past && rollups == old(rollups) && marker == old(marker)
        invariant s.run == old(s.run) && s.rolled == old(s.rolled) && Extends(old(s), s)
        invariant forall x :: x in old(raw) ==> x in raw
        invariant forall x :: x in raw ==> x in old(raw) || x in xs
      {
        Insert(xs[k]);
      }
    }

    /** SELECT MIN(ts) FROM metrics. */
    method EarliestMetric() returns (e: Option<int>)
      ensures e == Earliest(raw)
      ensures e.None? ==> raw == []
      ensures e.Some? ==> (forall x :: x in raw ==> e.value <= x.ts) && exists x :: x in raw && x.ts == e.value
    {
      e := None;
      for k := 0 to |raw|
        invariant e == Earliest(raw[..k]) && (e.None? <==> k == 0)
        invariant e.Some? ==> (forall j :: 0 <= j < k ==>
          e.value <= raw[j].ts) && exists j :: 0 <= j < k && raw[j].ts == e.value
      {
        assert raw[..k + 1][..k] == raw[..k];
        if e.None? || raw[k].ts < e.value { e := Some(raw[k].ts); }
      }
      assert raw[..|raw|] == raw;
    }

    method RollupHour(hour: int)
      requires Valid() && Enabled(s, Roll) && hour == s.run.value.cursor
      modifies this
      ensures Valid() && past == old(past) + [Roll] && s == RollStep(old(s))
    {
      hide After, RollHour;
      rollups := RollHour(rollups, raw, hour);
      Remember(Roll);
    }

    /**
     Rolls up every closed hour not yet rolled and the last 24 again. When it completes, all
     that was stored in time before it began is counted, up to the current hour; when it is
     cut short the marker stays. Samples keep arriving meanwhile.
     */
    method Rollup(now: int, arrivals: nat -> seq<Sample>, patience: nat) returns (ok: bool)
      requires Valid() && s.run.None?
      modifies this
      ensures Valid() && s.run.None? && old(past) <= past && Extends(old(s), s)
      ensures marker
            == if !ok || (old(marker).Some? && HourOf(now) <= old(marker).value) then old(marker) else Some(HourOf(now))
      ensures ok ==> Caught(old(s), HourOf(now), s)
    {
      hide After, HourOf, RollHour, Inv, Earliest, FirstHour, Horizon, KeysOf, Counted;
      var current := HourOf(now);
      var earliest := EarliestMetric();
      Remember(Begin(now));
      var k := 0;
      if earliest.Some? {
        var hour := FirstHour(earliest.value, marker);
        while hour < current
          invariant Valid() && old(past) <= past && Extends(old(s), s) && marker == old(marker)
          invariant s.run.Some? && s.run.value.cursor == hour && s.run.value.target == current
          invariant s.run.value.began == |old(s.log)|
        {
          InsertAll(arrivals(k));
          if k == patience {
            Remember(Abort);
            return false;
          }
          RollupHour(hour);
          hour, k := hour + HOUR, k + 1;
        }
      }
      RunCaught(old(s), past);
      if marker.None? || marker.value < current { marker := Some(current); }
      ghost var before := s;
      Remember(End);
      SameCaught(old(s), current, before, s);
      ok := true;
    }

    /** Deletes up to `limit` raw rows older than `before`; returns how many. */
    method PurgeRaw(now: int, ttl: int, limit: nat) returns (n: nat)
      requires Valid() && s.run.None? && marker.Some?
      modifies this
      ensures Valid() && old(past) <= past && s == old(s).(raw := raw)
      ensures n == |old(raw)| - |raw| && n <= limit
      ensures forall x :: x in raw ==> x in old(raw)
      ensures forall x :: x in old(raw) && now - ttl <= x.ts ==> x in raw
      ensures forall x :: x in old(raw) && marker.value - 24 * HOUR <= x.ts ==> x in raw
      ensures n == 0 < limit ==> forall x :: x in raw ==> now - ttl <= x.ts || marker.value - 24 * HOUR <= x.ts
    {
      hide After, Inv, Keep;
      Reachable(past);
      RowsDistinct(s);
      var before := Cutoff(now, ttl, marker.value);
      ghost var gone;
      raw, n, gone := WithoutOldest(raw, before, limit);
      Remember(Step.PurgeRaw(now, ttl, gone));
    }

    /** Deletes up to `limit` rollups of hours before `before`; returns how many. */
    method PurgeRollups(before: int, limit: nat) returns (n: nat)
      requires Valid() && s.run.None?
      modifies this
      ensures Valid() && old(past) <= past && s == old(s).(rollups := rollups, dropped := s.dropped)
      ensures n <= limit && rollups.Keys <= old(rollups).Keys
      ensures forall k :: k in rollups ==> rollups[k] == old(rollups)[k]
      ensures forall k :: k in old(rollups) && k !in rollups ==> k.1 < before
      ensures n == 0 < limit ==> forall k :: k in rollups ==> before <= k.1
      ensures n == |old(rollups)| - |rollups|
    {
      hide After, Surviving;
      var expired := set k | k in rollups && k.1 < before;
      var gone := SomeOf(expired, limit);
      n := |gone|;
      SurvivorsAre(rollups, before, gone);
      rollups := Surviving(rollups, before, gone);
      Remember(Step.PurgeRollups(before, gone));
    }

    /** drain over the raw rows: until a batch deletes nothing, or the context ends. */
    method DrainRaw(now: int, ttl: int, batch: nat, arrivals: nat -> seq<Sample>, patience: nat) returns (ok: bool)
      requires Valid() && s.run.None? && marker.Some?
      modifies this
      ensures Valid() && s.run.None? && old(past) <= past && Extends(old(s), s) && marker == old(marker)
      ensures rollups == old(rollups)
      ensures forall x :: x in old(raw) && now - ttl <= x.ts ==> x in raw
      ensures forall x :: x in old(raw) && marker.value - 24 * HOUR <= x.ts ==> x in raw
      ensures forall x :: x in raw ==> x in old(raw) || Arrived(arrivals, patience, x)
      ensures ok && 0 < batch ==> forall x :: x in raw ==> now - ttl <= x.ts || marker.value - 24 * HOUR <= x.ts
    {
      hide After, Inv, Horizon, HourOf;
      for k := 0 to patience
        invariant Valid() && s.run.None? && old(past) <= past && Extends(old(s), s)
        invariant marker == old(marker) && rollups == old(rollups)
        invariant forall x :: x in old(raw) && now - ttl <= x.ts ==> x in raw
        invariant forall x :: x in old(raw) && marker.value - 24 * HOUR <= x.ts ==> x in raw
        invariant forall x :: x in raw ==> x in old(raw) || Arrived(arrivals, patience, x)
      {
        var n := PurgeRaw(now, ttl, batch);
        if n == 0 { return true; }
        InsertAll(arrivals(k));
      }
      ok := false;
    }

    method DrainRollups(before: int, batch: nat, arrivals: nat -> seq<Sample>, patience: nat) returns (ok: bool)
      requires Valid() && s.run.None?
      modifies this
      ensures Valid() && s.run.None? && old(past) <= past && Extends(old(s), s) && marker == old(marker)
      ensures forall k :: k in rollups ==> k in old(rollups) && rollups[k] == old(rollups)[k]
      ensures forall k :: k in old(rollups) && k !in rollups ==> k.1 < before
      ensures ok && 0 < batch ==> forall k :: k in rollups ==> before <= k.1
      ensures forall x :: x in old(raw) ==> x in raw
      ensures forall x :: x in raw ==> x in old(raw) || Arrived(arrivals, patience, x)
    {
      hide After, Inv, Horizon, HourOf;
      for i := 0 to patience
        invariant forall x :: x in old(raw) ==> x in raw
        invariant forall x :: x in raw ==> x in old(raw) || Arrived(arrivals, patience, x)
        invariant Valid() && s.run.None? && old(past) <= past && Extends(old(s), s) && marker == old(marker)
        invariant forall k :: k in rollups ==> k in old(rollups) && rollups[k] == old(rollups)[k]
        invariant forall k :: k in old(rollups) && k !in rollups ==> k.1 < before
      {
        var n := PurgeRollups(before, batch);
        if n == 0 { return true; }
        InsertAll(arrivals(i));
      }
      ok := false;
    }

    /**
     Raw rows only after the first completed rollup, then rollups. A raw row stays while its TTL
     has not run out and while the next rollup can still read it; when the purge completes, every
     other row that was there is gone, and so is exactly every expired rollup.
     */
    method Purge(now: int, rawTTL: int, rollupTTL: int, arrivals: nat -> seq<Sample>, patience: nat) returns (ok: bool)
      requires Valid() && s.run.None?
      modifies this
      ensures Valid() && s.run.None? && old(past) <= past && Extends(old(s), s) && marker == old(marker)
      ensures ok ==> rollups.Keys == (set k | k in old(rollups) && HourOf(now - rollupTTL) <= k.1)
      ensures forall k :: k in rollups ==> k in old(rollups) && rollups[k] == old(rollups)[k]
      ensures forall x :: x in old(raw) && now - rawTTL <= x.ts ==> x in raw
      ensures forall x :: x in old(raw) && (marker.None? || marker.value - 24 * HOUR <= x.ts) ==> x in raw
      ensures forall x :: x in raw ==> x in old(raw) || Arrived(arrivals, patience, x)
      ensures ok && marker.Some? ==>
        forall x :: x in raw && x.ts < now - rawTTL && x.ts < marker.value - 24 * HOUR ==>
          Arrived(arrivals, patience, x)
    {
      hide After, Inv, Horizon, HourOf;
      if marker.Some? {
        ok := DrainRaw(now, rawTTL, PURGE_BATCH, arrivals, patience);
        if !ok { return; }
      }
      ok := DrainRollups(HourOf(now - rollupTTL), PURGE_BATCH, arrivals, patience);
    }
  }

  const PURGE_BATCH := 5000

  lemma RowsDistinct(s: State)
    requires Inv(s)
    ensures DistinctKeys(s.raw)
  {
  }

  /** The table less up to `limit` of its rows older than `before`. */
  method WithoutOldest(
      raw: seq<Sample>, before: int, limit: nat) returns (kept: seq<Sample>, n: nat, ghost gone: set<(Series, int)>)
    requires DistinctKeys(raw)
    ensures kept == Keep(raw, gone, before) && n == |raw| - |kept| && n <= limit
    ensures forall x :: x in kept ==> x in raw
    ensures forall x :: x in raw && x !in kept ==> x.ts < before
    ensures n == 0 < limit ==> kept == raw && forall x :: x in raw ==> before <= x.ts
  {
    hide DistinctKeys, Keep, KeysOf;
    kept, n, gone := [], 0, {};
    KeepNothing(before);
    for k := 0 to |raw|
      invariant n == k - |kept| && n <= limit && gone <= KeysOf(raw[..k])
      invariant kept == Keep(raw[..k], gone, before)
      invariant n == 0 < limit ==> forall j :: 0 <= j < k ==> before <= raw[j].ts
    {
      var x := raw[k];
      assert raw[..k + 1] == raw[..k] + [x];
      NewKey(raw, k);
      KeysGrow(raw[..k], x);
      if x.ts < before && n < limit {
        KeepIgnores(raw[..k], gone, (x.series, x.ts), before);
        KeepGrows(raw[..k], gone + {(x.series, x.ts)}, before, x);
        gone, n := gone + {(x.series, x.ts)}, n + 1;
      } else {
        KeepGrows(raw[..k], gone, before, x);
        kept := kept + [x];
      }
    }
    assert raw[..|raw|] == raw;
    forall x
      ensures x in kept <==> x in raw && !((x.series, x.ts) in gone && x.ts < before)
    {
      KeepMembers(raw, gone, before, x);
    }
    KeptAll(raw, gone, before);
  }

  lemma KeepNothing(before: int)
    ensures Keep([], {}, before) == []
  {
  }

  lemma KeysGrow(raw: seq<Sample>, x: Sample)
    ensures KeysOf(raw + [x]) == KeysOf(raw) + {(x.series, x.ts)}
  {
  }

  /** Up to `limit` members of a set. */
  method SomeOf<T(==)>(from: set<T>, limit: nat) returns (some: set<T>)
    ensures some <= from && |some| == if |from| < limit then |from| else limit
  {
    var todo := from;
    some := {};
    while todo != {} && |some| < limit
      invariant todo !! some && todo + some == from && |some| <= limit && |todo| + |some| == |from|
      decreases |todo|
    {
      var k :| k in todo;
      todo, some := todo - {k}, some + {k};
    }
  }

  lemma SurvivorsAre(rollups: map<(Series, int), Summary>, before: int, gone: set<(Series, int)>)
    requires gone <= set k | k in rollups && k.1 < before
    ensures var kept := Surviving(rollups, before, gone);
      kept.Keys == rollups.Keys - gone && |kept| == |rollups| - |gone| && forall k :: k in kept ==>
        kept[k] == rollups[k]
  {
    var kept := Surviving(rollups, before, gone);
    assert kept.Keys == rollups.Keys - gone && gone <= rollups.Keys;
    assert |kept| == |kept.Keys| && |rollups| == |rollups.Keys|;
  }

  lemma NewKey(raw: seq<Sample>, k: nat)
    requires DistinctKeys(raw) && k < |raw|
    ensures (raw[k].series, raw[k].ts) !in KeysOf(raw[..k])
  {
  }

  lemma {:induction false} KeepIgnores(raw: seq<Sample>, gone: set<(Series, int)>, key: (Series, int), before: int)
    requires key !in KeysOf(raw)
    ensures Keep(raw, gone + {key}, before) == Keep(raw, gone, before)
  {
    if raw != [] {
      assert raw[|raw| - 1] in raw;
      KeepIgnores(raw[..|raw| - 1], gone, key, before);
    }
  }

  lemma KeepGrows(raw: seq<Sample>, gone: set<(Series, int)>, before: int, x: Sample)
    ensures Keep(raw + [x], gone, before)
         == if (x.series, x.ts) in gone && x.ts < before then Keep(raw, gone, before) else Keep(raw, gone, before) + [x]
  {
    assert (raw + [x])[..|raw|] == raw;
  }

  lemma {:induction false} KeptAll(raw: seq<Sample>, gone: set<(Series, int)>, before: int)
    ensures |Keep(raw, gone, before)| <= |raw|
    ensures (|Keep(raw, gone, before)| == |raw| ==> Keep(raw, gone, before) == raw)
  {
    if raw != [] {
      KeptAll(raw[..|raw| - 1], gone, before);
      assert raw == raw[..|raw| - 1] + [raw[|raw| - 1]];
    }
  }
}
