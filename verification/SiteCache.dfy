/**
 The cached list of tracked sites (internal/analytics/application/service.go): readers fill
 it under a mutex while reading the repository, writers commit without the mutex and then
 take it to reset the cache. Every interleaving of any number of calls.
 */
module SiteCache {
  import opened Wrappers

  type Site = string

  /** A list of sites and which committed version of the repository it is. */
  datatype Listing = Listing(sites: seq<Site>, version: nat)

  /**
   CreateSite or DeleteSite: before the repository call, after it (with the version it committed, if
   it did), and returned.
   */
  datatype Writer = Writing | Owes(version: Option<nat>) | Over(version: Option<nat>)

  /** Sites: waiting for the mutex, holding it, with a list read from the repository, answered, or failed. */
  datatype Phase = Waiting | Holding | Fetched(read: Listing) | Answered(answer: Listing) | Broken

  /** A call to Sites, and the versions whose writers had returned when it started. */
  datatype Reader = Reader(phase: Phase, seen: set<nat>)

  /** Every committed version of the repository, the cache, the mutex and the calls. */
  datatype State = State(
    history: seq<seq<Site>>, cache: Option<Listing>, lock: Option<nat>,
    writers: map<nat, Writer>, readers: map<nat, Reader>)

  datatype Step =
    | StartWrite(w: nat)
    | Commit(w: nat, sites: seq<Site>)
    | FailWrite(w: nat)
    | Reset(w: nat)
    | StartRead(r: nat)
    | Lock(r: nat)
    | Hit(r: nat)
    | Fetch(r: nat)
    | FetchFails(r: nat)
    | Fill(r: nat)

  function Phased(s: State, r: nat, p: Phase): map<nat, Reader>
    requires r in s.readers
  {
    s.readers[r := s.readers[r].(phase := p)]
  }

  function OverVersions(s: State): set<nat> {
    set w | w in s.writers && s.writers[w].Over? && s.writers[w].version.Some? :: s.writers[w].version.value
  }

  predicate Enabled(s: State, e: Step) {
    match e
    case StartWrite(w) => w !in s.writers
    case Commit(w, _) => w in s.writers && s.writers[w].Writing?
    case FailWrite(w) => w in s.writers && s.writers[w].Writing?
    case Reset(w) => w in s.writers && s.writers[w].Owes? && s.lock.None?
    case StartRead(r) => r !in s.readers
    case Lock(r) => r in s.readers && s.readers[r].phase.Waiting? && s.lock.None?
    case Hit(r) => r in s.readers && s.readers[r].phase.Holding? && s.cache.Some?
    case Fetch(r) => r in s.readers && s.readers[r].phase.Holding? && s.history != []
    case FetchFails(r) => r in s.readers && s.readers[r].phase.Holding?
    case Fill(r) => r in s.readers && s.readers[r].phase.Fetched?
  }

  /**
   A step that is not enabled does nothing. A holder that finds the cache empty or expired fetches;
   the clock decides.
   */
  function Next(s: State, e: Step): State {
    if !Enabled(s, e) then s
    else match e
      case StartWrite(w) => s.(writers := s.writers[w := Writing])
      case Commit(w, sites) => s.(history := s.history + [sites], writers := s.writers[w := Owes(Some(|s.history|))])
      case FailWrite(w) => s.(writers := s.writers[w := Owes(None)])
      case Reset(w) => s.(cache := None, writers := s.writers[w := Over(s.writers[w].version)])
      case StartRead(r) => s.(readers := s.readers[r := Reader(Waiting, OverVersions(s))])
      case Lock(r) => s.(lock := Some(r), readers := Phased(s, r, Holding))
      case Hit(r) => s.(lock := None, readers := Phased(s, r, Answered(s.cache.value)))
      case Fetch(r) => s.(readers := Phased(s, r, Fetched(Listing(s.history[|s.history| - 1], |s.history| - 1))))
      case FetchFails(r) => s.(lock := None, readers := Phased(s, r, Broken))
      case Fill(r) =>
        var l := s.readers[r].phase.read;
        s.(lock := None, cache := Some(l), readers := Phased(s, r, Answered(l)))
  }

  function After(s: State, steps: seq<Step>): State {
    if steps == [] then s else Next(After(s, steps[..|steps| - 1]), steps[|steps| - 1])
  }

  function Boot(sites: seq<Site>): State {
    State([sites], None, None, map[], map[])
  }

  // ----- the invariant -----

  /** Some writer has committed this version and still owes its reset. */
  ghost predicate Owed(s: State, u: nat) {
    exists w :: w in s.writers && s.writers[w] == Owes(Some(u))
  }

  /** The list is the version it claims to be, and every later version is still owed a reset. */
  ghost predicate Current(s: State, l: Listing) {
    && l.version < |s.history| && l.sites == s.history[l.version]
    && forall u :: l.version < u < |s.history| ==> Owed(s, u)
  }

  predicate Committed(w: Writer) {
    !w.Writing? && w.version.Some?
  }

  /** Each version has one writer. */
  ghost predicate WritersOk(s: State) {
    && (forall w :: w in s.writers && Committed(s.writers[w]) ==>
          0 < s.writers[w].version.value < |s.history|)
    && (forall w, x | w in s.writers && x in s.writers && w != x ::
          Committed(s.writers[w]) && Committed(s.writers[x]) ==>
          s.writers[w].version != s.writers[x].version)
  }

  ghost predicate LockOk(s: State) {
    forall r :: r in s.readers && (s.readers[r].phase.Holding? || s.readers[r].phase.Fetched?) ==> s.lock == Some(r)
  }

  ghost predicate ListsOk(s: State) {
    && (s.cache.Some? ==> Current(s, s.cache.value))
    && (forall r :: r in s.readers && s.readers[r].phase.Fetched? ==> Current(s, s.readers[r].phase.read))
  }

  ghost predicate SeenOk(s: State) {
    forall r, u :: r in s.readers && u in s.readers[r].seen ==> u in OverVersions(s)
  }

  /** An answer is a committed version, and no older than any writer that had returned when the call started. */
  ghost predicate AnswersOk(s: State) {
    forall r :: r in s.readers && s.readers[r].phase.Answered? ==>
      var l := s.readers[r].phase.answer;
      l.version < |s.history| && l.sites == s.history[l.version] && forall u :: u in s.readers[r].seen ==>
        u <= l.version
  }

  ghost predicate Inv(s: State) {
    s.history != [] && WritersOk(s) && LockOk(s) && ListsOk(s) && SeenOk(s) && AnswersOk(s)
  }

  // ----- steps -----

  lemma CurrentStays(s: State, t: State, l: Listing)
    requires Current(s, l) && s.history <= t.history
    requires forall u: nat :: Owed(s, u) ==> Owed(t, u)
    requires forall u :: |s.history| <= u < |t.history| ==> Owed(t, u)
    ensures Current(t, l)
  {
  }

  /** A version whose writer has returned is owed nothing, so a current list includes it. */
  lemma CurrentIncludes(s: State, l: Listing, u: nat)
    requires WritersOk(s) && Current(s, l) && u in OverVersions(s)
    ensures u <= l.version
  {
    OverIsNotOwed(s, u);
  }

  lemma OverIsNotOwed(s: State, u: nat)
    requires WritersOk(s) && u in OverVersions(s)
    ensures u < |s.history| && !Owed(s, u)
  {
    var w :| w in s.writers && s.writers[w].Over? && s.writers[w].version == Some(u);
    assert Committed(s.writers[w]);
    forall x | x in s.writers ensures s.writers[x] != Owes(Some(u)) {}
  }

  /** A writer moving on before it owes anything changes nothing that is owed or over. */
  lemma WriterMoves(s: State, t: State, w: nat, to: Writer)
    requires t.writers == s.writers[w := to] && (w in s.writers ==> s.writers[w].Writing?)
    ensures forall u: nat :: Owed(s, u) ==> Owed(t, u)
    ensures OverVersions(s) <= OverVersions(t)
  {
    forall u: nat | Owed(s, u) ensures Owed(t, u) {
      var x :| x in s.writers && s.writers[x] == Owes(Some(u));
      assert t.writers[x] == Owes(Some(u));
    }
    forall u | u in OverVersions(s) ensures u in OverVersions(t) {
      var x :| x in s.writers && s.writers[x].Over? && s.writers[x].version == Some(u);
      assert t.writers[x] == s.writers[x];
    }
  }

  lemma ListsStay(s: State, t: State)
    requires ListsOk(s) && t.cache == s.cache && t.readers == s.readers && s.history <= t.history
    requires forall u: nat :: Owed(s, u) ==> Owed(t, u)
    requires forall u :: |s.history| <= u < |t.history| ==> Owed(t, u)
    ensures ListsOk(t)
  {
    hide Current, Owed;
    if s.cache.Some? { CurrentStays(s, t, s.cache.value); }
    forall r | r in t.readers && t.readers[r].phase.Fetched? ensures Current(t, t.readers[r].phase.read) {
      CurrentStays(s, t, s.readers[r].phase.read);
    }
  }

  lemma WriteKeeps(s: State, e: Step)
    requires Inv(s) && Enabled(s, e) && (e.StartWrite? || e.Commit? || e.FailWrite?)
    ensures Inv(Next(s, e))
  {
    hide ListsOk, OverVersions, Owed;
    var t := Next(s, e);
    WriterMoves(s, t, e.w, t.writers[e.w]);
    assert e.Commit? ==> Owed(t, |s.history|) by { if e.Commit? { IsOwed(t, e.w, |s.history|); } }
    ListsStay(s, t);
  }

  lemma IsOwed(s: State, w: nat, u: nat)
    requires w in s.writers && s.writers[w] == Owes(Some(u))
    ensures Owed(s, u)
  {
  }

  lemma ResetKeeps(s: State, w: nat)
    requires Inv(s) && Enabled(s, Reset(w))
    ensures Inv(Next(s, Reset(w)))
  {
    var t := Next(s, Reset(w));
    forall u | u in OverVersions(s) ensures u in OverVersions(t) {
      var x :| x in s.writers && s.writers[x].Over? && s.writers[x].version == Some(u);
      assert t.writers[x] == s.writers[x];
    }
  }

  lemma SameWriters(s: State, t: State)
    requires t.history == s.history && t.writers == s.writers
    ensures forall l :: Current(s, l) <==> Current(t, l)
    ensures OverVersions(t) == OverVersions(s)
  {
    forall u ensures Owed(s, u) <==> Owed(t, u) {}
  }

  lemma ReadKeeps(s: State, e: Step)
    requires Inv(s) && Enabled(s, e) && (e.StartRead? || e.Lock? || e.Fetch? || e.FetchFails?)
    ensures Inv(Next(s, e))
  {
    hide OverVersions, Current, WritersOk;
    var t := Next(s, e);
    SameWriters(s, t);
    assert WritersOk(t) by { WritersSame(s, t); }
    if e.Fetch? { FetchedIsCurrent(s); }
  }

  lemma WritersSame(s: State, t: State)
    requires WritersOk(s) && t.writers == s.writers && t.history == s.history
    ensures WritersOk(t)
  {
  }

  lemma FetchedIsCurrent(s: State)
    requires s.history != []
    ensures Current(s, Listing(s.history[|s.history| - 1], |s.history| - 1))
  {
  }

  lemma AnswerKeeps(s: State, e: Step)
    requires Inv(s) && Enabled(s, e) && (e.Hit? || e.Fill?)
    ensures Inv(Next(s, e))
  {
    hide OverVersions, Current, WritersOk;
    var t := Next(s, e);
    SameWriters(s, t);
    assert WritersOk(t) by { WritersSame(s, t); }
    var l := t.readers[e.r].phase.answer;
    assert Current(s, l);
    CurrentIs(s, l);
    forall u | u in s.readers[e.r].seen ensures u <= l.version { CurrentIncludes(s, l, u); }
  }

  lemma CurrentIs(s: State, l: Listing)
    requires Current(s, l)
    ensures l.version < |s.history| && l.sites == s.history[l.version]
  {
  }

  lemma StepKeeps(s: State, e: Step)
    requires Inv(s)
    ensures Inv(Next(s, e))
  {
    if Enabled(s, e) {
      hide Inv, Next;
      match e
      case Reset(w) => ResetKeeps(s, w);
      case StartWrite(_) => WriteKeeps(s, e);
      case Commit(_, _) => WriteKeeps(s, e);
      case FailWrite(_) => WriteKeeps(s, e);
      case Hit(_) => AnswerKeeps(s, e);
      case Fill(_) => AnswerKeeps(s, e);
      case _ => ReadKeeps(s, e);
    }
  }

  lemma {:induction false} RunKeeps(s: State, steps: seq<Step>)
    requires Inv(s)
    ensures Inv(After(s, steps))
  {
    hide Inv, Next;
    if steps != [] {
      RunKeeps(s, steps[..|steps| - 1]);
      StepKeeps(After(s, steps[..|steps| - 1]), steps[|steps| - 1]);
    }
  }

  // ----- what holds of every run -----

  /** At any point a cached list is the repository's, or some writer has committed and still owes its reset. */
  lemma CacheAgrees(sites: seq<Site>, steps: seq<Step>)
    ensures var s := After(Boot(sites), steps);
      s.history != [] && (s.cache.Some? ==>
        s.cache.value == Listing(s.history[|s.history| - 1], |s.history| - 1) || exists u :: Owed(s, u))
  {
    hide After;
    assert Inv(Boot(sites));
    RunKeeps(Boot(sites), steps);
    var s := After(Boot(sites), steps);
    if s.cache.Some? && s.cache.value.version != |s.history| - 1 { assert Owed(s, |s.history| - 1); }
  }

  /**
   A call to Sites that starts after CreateSite or DeleteSite returned reflects it: split any
   run where the call starts; its answer is a committed list at least as new as every version
   whose writer had returned by then.
   */
  lemma SitesReflectsWrites(sites: seq<Site>, before: seq<Step>, r: nat, rest: seq<Step>)
    requires r !in After(Boot(sites), before).readers
    requires var t := After(Next(After(Boot(sites), before), StartRead(r)), rest);
      r in t.readers && t.readers[r].phase.Answered?
    ensures var s := After(Boot(sites), before);
      var t := After(Next(s, StartRead(r)), rest);
      var l := t.readers[r].phase.answer;
      && l.version < |t.history| && l.sites == t.history[l.version]
      && forall w :: w in s.writers && s.writers[w].Over? && s.writers[w].version.Some? ==>
        s.writers[w].version.value <= l.version
  {
    hide After, WritersOk, LockOk, ListsOk, SeenOk, Next;
    var s := After(Boot(sites), before);
    var u := Next(s, StartRead(r));
    var t := After(u, rest);
    assert Inv(Boot(sites)) by { BootOk(sites); }
    RunKeeps(Boot(sites), before);
    StepKeeps(s, StartRead(r));
    RunKeeps(u, rest);
    assert u.readers == s.readers[r := Reader(Waiting, OverVersions(s))] by { Started(s, r); }
    SeenStays(u, rest, r);
    forall w | w in s.writers && s.writers[w].Over? && s.writers[w].version.Some?
      ensures s.writers[w].version.value <= t.readers[r].phase.answer.version
    {
      assert s.writers[w].version.value in OverVersions(s);
    }
  }

  /**
   A waiting call that gets the mutex answers: from the cache if there is one, else with the
   repository's newest list, which the cache then holds; and the mutex is free again.
   */
  lemma SitesAnswers(s: State, r: nat)
    requires r in s.readers && s.readers[r].phase.Waiting? && s.lock.None? && s.history != []
    ensures s.cache.Some? ==>
      var t := After(s, [Lock(r), Hit(r)]);
      && r in t.readers && t.readers[r].phase == Answered(s.cache.value) && t.cache == s.cache && t.lock.None?
    ensures
      var t, newest := After(s, [Lock(r), Fetch(r), Fill(r)]), Listing(s.history[|s.history| - 1], |s.history| - 1);
      r in t.readers && t.readers[r].phase == Answered(newest) && t.cache == Some(newest) && t.lock.None?
  {
    hide After;
    AfterNone(s);
    AfterOne(s, [], Lock(r));
    AfterOne(s, [Lock(r)], Hit(r));
    AfterOne(s, [Lock(r)], Fetch(r));
    AfterOne(s, [Lock(r), Fetch(r)], Fill(r));
    assert [] + [Lock(r)] == [Lock(r)] && [Lock(r)] + [Hit(r)] == [Lock(r), Hit(r)];
    assert [Lock(r)] + [Fetch(r)] == [Lock(r), Fetch(r)];
    assert [Lock(r), Fetch(r)] + [Fill(r)] == [Lock(r), Fetch(r), Fill(r)];
  }

  lemma AfterNone(s: State)
    ensures After(s, []) == s
  {
  }

  lemma AfterOne(s: State, steps: seq<Step>, e: Step)
    ensures After(s, steps + [e]) == Next(After(s, steps), e)
  {
    hide Next;
    assert (steps + [e])[..|steps|] == steps;
  }

  lemma BootOk(sites: seq<Site>)
    ensures Inv(Boot(sites))
  {
  }

  lemma Started(s: State, r: nat)
    requires r !in s.readers
    ensures Next(s, StartRead(r)).readers == s.readers[r := Reader(Waiting, OverVersions(s))]
  {
  }

  lemma {:induction false} SeenStays(s: State, steps: seq<Step>, r: nat)
    requires r in s.readers
    ensures r in After(s, steps).readers && After(s, steps).readers[r].seen == s.readers[r].seen
  {
    if steps != [] {
      SeenStays(s, steps[..|steps| - 1], r);
    }
  }
}
