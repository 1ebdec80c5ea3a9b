/**
 Operator commands end to end: the server's table and its callers
 (internal/operator/application/service.go) composed with the agents' poll, execute and
 report loop (internal/agent/operator.go). Calls interleave statement by statement, answers
 are lost, reports arrive late, twice or never, and agents crash.
 */
module Operator {
  import opened Wrappers
  import opened Commands

  // ----- the agent's side -----

  /**
   How running a command may end; `printed` is a JSON object of at most 64 KiB on stdout, `refusal`
   its error field.
   */
  datatype Outcome =
    | NotAllowed
    | BadArgs
    | TimedOut
    | Exited(error: Option<string>, printed: Option<string>, refusal: string, stderr: string)

  /** The report an outcome becomes. */
  function Answer(o: Outcome): Report {
    match o
    case NotAllowed => Report(false, None, Some("kind not allowed on this host"))
    case BadArgs => Report(false, None, Some("args must be a JSON object"))
    case TimedOut => Report(false, None, Some("timed out"))
    case Exited(error, printed, refusal, stderr) =>
      if error.Some? then
        Report(false, None, Some(
          if printed.Some? && refusal != "" then refusal else if stderr != "" then stderr else error.value))
      else if printed.None? then
        Report(false, None, Some("the executable did not print one JSON object of at most 64 KiB"))
      else Report(true, printed, None)
  }

  /** The executable was started, ended without error and printed an object. */
  predicate Succeeded(o: Outcome) {
    o.Exited? && o.error.None? && o.printed.Some?
  }

  lemma AnswerIsDone(o: Outcome)
    ensures Answer(o).ok <==> Succeeded(o)
    ensures Answer(o).ok ==> Answer(o).result == o.printed && Answer(o).error.None?
    ensures !Answer(o).ok ==> Answer(o).result.None? && Answer(o).error.Some?
    ensures o.Exited? && o.error.Some? ==> Answer(o).error.value in {o.refusal, o.stderr, o.error.value}
    ensures o.Exited? && o.error.Some? && o.printed.Some? && o.refusal != "" ==> Answer(o).error.value == o.refusal
    ensures o.Exited? && o.error.Some? && (o.printed.None? || o.refusal == "") ==>
      Answer(o).error.value == if o.stderr == "" then o.error.value else o.stderr
  {
  }

  // ----- the system -----

  datatype Message = Message(host: HostId, id: Id, report: Report)

  /**
   A call at work on the server: the clock it read, the claiming host if any, and how many statements
   of Expire it has done.
   */
  datatype Call = Call(now: int, host: Option<HostId>, phase: nat)

  /** A command handed out: to which host, the start recorded, and the clock at that moment. */
  datatype Handing = Handing(id: Id, host: HostId, at: int, clock: int)

  datatype Execution = Execution(id: Id, host: HostId, outcome: Outcome)

  /**
   The table, the clock, the calls at work, the agents' worklists and the reports sent; then every
   hand-out and execution, and the commands whose answers aged out.
   */
  datatype System = System(
    cmds: Table, clock: int, calls: map<nat, Call>, work: map<HostId, seq<Id>>, sent: set<Message>,
    handed: seq<Handing>, done: seq<Execution>, wiped: set<Id>)

  datatype Step =
    | Tick(to: int)
    | Queue(id: Id, host: HostId, created: int)
    | Open(k: nat, caller: Option<HostId>)
    | FirstUpdate(k: nat)
    | SecondUpdate(k: nat)
    | Take(k: nat, picks: seq<Id>, delivered: bool)
    | Close(k: nat)
    | Execute(host: HostId, outcome: Outcome, reported: bool)
    | GiveUp(host: HostId)
    | Arrive(m: Message, at: int)
    | Clear(before: int)

  function WorkOf(s: System, host: HostId): seq<Id> {
    if host in s.work then s.work[host] else []
  }

  /** How long after reading the clock a command is stored, and a claim made, at most. */
  datatype Pace = Pace(lag: nat, stall: nat)

  ghost predicate Enabled(pace: Pace, s: System, e: Step) {
    match e
    case Tick(to) => s.clock <= to
    case Queue(id, _, created) => id !in s.cmds && s.clock - pace.lag <= created <= s.clock
    case Open(k, _) => k !in s.calls
    case FirstUpdate(k) => k in s.calls && s.calls[k].phase == 0
    case SecondUpdate(k) => k in s.calls && s.calls[k].phase == 1
    case Take(k, picks, delivered) =>
      && k in s.calls && s.calls[k].phase == 2 && s.calls[k].host.Some? && s.clock - s.calls[k].now <= pace.stall
      && IsClaim(s.cmds, s.calls[k].host.value, CLAIM_BATCH, picks)
      && (delivered ==> WorkOf(s, s.calls[k].host.value) == [])
    case Close(k) => k in s.calls
    case Execute(host, _, _) => WorkOf(s, host) != []
    case GiveUp(_) => true
    case Arrive(m, at) => at <= s.clock && (m in s.sent || (m.id in s.cmds && s.cmds[m.id].host != m.host))
    case Clear(_) => true
  }

  function TakeStep(s: System, k: nat, picks: seq<Id>, delivered: bool): System
    requires k in s.calls && s.calls[k].host.Some?
  {
    var host, now := s.calls[k].host.value, s.calls[k].now;
    s.(cmds := Start(s.cmds, picks, now), calls := s.calls - {k},
       work := if delivered then s.work[host := picks] else s.work,
       handed := s.handed + seq(|picks|, i requires 0 <= i < |picks| => Handing(picks[i], host, now, s.clock)))
  }

  /** The next command of the worklist is run, and its report sent unless the agent dies first. */
  function ExecuteStep(s: System, host: HostId, outcome: Outcome, reported: bool): System
    requires WorkOf(s, host) != []
  {
    var id := WorkOf(s, host)[0];
    s.(work := s.work[host := WorkOf(s, host)[1..]], done := s.done + [Execution(id, host, outcome)],
       sent := if reported then s.sent + {Message(host, id, Answer(outcome))} else s.sent)
  }

  /** Finished before the cutoff. */
  function Aged(t: Table, before: int): set<Id> {
    set id | id in t && t[id].finished.Some? && t[id].finished.value < before
  }

  /** A step that is not enabled does nothing. */
  ghost function Next(pace: Pace, s: System, e: Step): System {
    if !Enabled(pace, s, e) then s
    else match e
      case Tick(to) => s.(clock := to)
      case Queue(id, host, created) => s.(cmds := s.cmds[id := Command(host, created, Queued, None, None, None, None)])
      case Open(k, host) => s.(calls := s.calls[k := Call(s.clock, host, 0)])
      case FirstUpdate(k) =>
        s.(cmds := ExpireQueued(s.cmds, s.calls[k].now), calls := s.calls[k := s.calls[k].(phase := 1)])
      case SecondUpdate(k) =>
        s.(cmds := FailStale(s.cmds, s.calls[k].now), calls := s.calls[k := s.calls[k].(phase := 2)])
      case Take(k, picks, delivered) => TakeStep(s, k, picks, delivered)
      case Close(k) => s.(calls := s.calls - {k})
      case Execute(host, outcome, reported) => ExecuteStep(s, host, outcome, reported)
      case GiveUp(host) => s.(work := s.work[host := []])
      case Arrive(m, at) => s.(cmds := Completed(s.cmds, m.host, m.id, m.report, at))
      case Clear(before) => s.(cmds := Cleared(s.cmds, before), wiped := s.wiped + Aged(s.cmds, before))
  }

  ghost function After(pace: Pace, s: System, steps: seq<Step>): System {
    if steps == [] then s else Next(pace, After(pace, s, steps[..|steps| - 1]), steps[|steps| - 1])
  }

  /** Ten minutes, or as long as storing a command takes. */
  function Bound(pace: Pace): int {
    if pace.lag <= QUEUED_EXPIRY then QUEUED_EXPIRY else pace.lag
  }

  const FRESH := System(map[], 0, map[], map[], {}, [], [], {})

  // ----- the invariant -----

  /** The status says which columns are set. */
  predicate Stamped(c: Command) {
    && (c.status.Queued? ==> c.started.None? && c.finished.None?)
    && (c.status.Running? ==> c.started.Some? && c.finished.None?)
    && (c.status.Done? || c.status.Failed? ==> c.started.Some? && c.finished.Some?)
    && (c.status.Expired? ==> c.started.None? && c.finished.Some?)
    && (c.result.Some? ==> c.status.Done?) && (c.error.Some? ==> c.status.Failed?)
  }

  /** And no command is claimed more than `p` after its creation. */
  predicate RowOk(p: int, c: Command) {
    Stamped(c) && (c.started.Some? ==> c.started.value <= c.created + p)
  }

  ghost predicate RowsOk(p: int, t: Table) {
    forall id :: id in t ==> RowOk(p, t[id])
  }

  ghost predicate WasHanded(s: System, id: Id) {
    exists i :: 0 <= i < |s.handed| && s.handed[i].id == id
  }

  /** Each hand-out is the command's only one, to its own host, at its start. */
  ghost predicate HandedOk(s: System) {
    && (forall i :: 0 <= i < |s.handed| ==>
          var g := s.handed[i]; g.id in s.cmds && s.cmds[g.id].host == g.host && s.cmds[g.id].started == Some(g.at))
    && (forall i, j :: 0 <= i < j < |s.handed| ==> s.handed[i].id != s.handed[j].id)
    && (forall id :: id in s.cmds && s.cmds[id].started.Some? ==> WasHanded(s, id))
  }

  /** The command was handed to the host. */
  predicate Given(t: Table, id: Id, host: HostId) {
    id in t && t[id].host == host && t[id].started.Some?
  }

  ghost predicate DoneOk(s: System) {
    && (forall i :: 0 <= i < |s.done| ==> Given(s.cmds, s.done[i].id, s.done[i].host))
    && (forall i, j :: 0 <= i < j < |s.done| ==> s.done[i].id != s.done[j].id)
  }

  /** What is on a worklist was handed to that host and has not been run. */
  ghost predicate WorkOk(s: System) {
    forall h :: h in s.work ==>
      && (forall i :: 0 <= i < |s.work[h]| ==> Given(s.cmds, s.work[h][i], h))
      && (forall i, k :: 0 <= i < |s.work[h]| && 0 <= k < |s.done| ==> s.done[k].id != s.work[h][i])
      && (forall i, j :: 0 <= i < j < |s.work[h]| ==> s.work[h][i] != s.work[h][j])
  }

  ghost predicate Backed(done: seq<Execution>, host: HostId, id: Id, r: Report) {
    exists i :: 0 <= i < |done| && done[i].id == id && done[i].host == host && Answer(done[i].outcome) == r
  }

  ghost predicate SentOk(s: System) {
    forall m :: m in s.sent ==> Backed(s.done, m.host, m.id, m.report)
  }

  /** The command ran on its host, succeeded, and its result is what it printed unless cleared since. */
  ghost predicate Proven(done: seq<Execution>, gone: bool, id: Id, c: Command) {
    exists i :: 0 <= i < |done| && done[i].id == id && done[i].host == c.host && Succeeded(done[i].outcome)
      && (gone || c.result == done[i].outcome.printed)
  }

  /** The command ran on its host, did not succeed, and the error is the one its execution reports. */
  ghost predicate Excused(done: seq<Execution>, id: Id, c: Command) {
    exists i :: 0 <= i < |done| && done[i].id == id && done[i].host == c.host && !Succeeded(done[i].outcome)
      && c.error == Answer(done[i].outcome).error
  }

  /** What the row says of the answer, given whether it aged out. */
  ghost predicate Told(done: seq<Execution>, gone: bool, id: Id, c: Command) {
    && (gone ==> c.finished.Some? && c.result.None? && c.error.None?)
    && (c.status.Done? ==> Proven(done, gone, id, c))
    && (c.status.Failed? && !gone ==> c.error == Some("no result") || Excused(done, id, c))
  }

  ghost predicate ResultsOk(s: System) {
    s.wiped <= s.cmds.Keys && forall id :: id in s.cmds ==> Told(s.done, id in s.wiped, id, s.cmds[id])
  }

  /**
   After its first statement a call leaves no queued command older than `p`; after its second, none
   open older than that and five minutes.
   */
  ghost predicate CallOk(p: int, t: Table, clock: int, c: Call) {
    && c.now <= clock
    && (c.phase >= 1 ==> forall id :: id in t && t[id].status.Queued? ==> c.now - p <= t[id].created)
    && (c.phase >= 2 ==> forall id :: id in t && !Terminal(t[id]) ==> c.now - p - RUNNING_EXPIRY <= t[id].created)
  }

  ghost predicate CallsOk(p: int, s: System) {
    forall k :: k in s.calls ==> CallOk(p, s.cmds, s.clock, s.calls[k])
  }

  ghost predicate Inv(p: int, s: System) {
    RowsOk(p, s.cmds) && HandedOk(s) && DoneOk(s) && WorkOk(s) && SentOk(s) && ResultsOk(s) && CallsOk(p, s)
  }

  // ----- how rows may change -----

  /** Terminal commands stay as they are, except that their answers may be cleared; a start is never rewritten. */
  predicate Evolves(c: Command, d: Command) {
    && d.host == c.host && d.created == c.created
    && (c.started.Some? ==> d.started == c.started)
    && (d.status.Queued? ==> c.status.Queued?)
    && (d.status.Expired? ==> c.status.Queued? || c.status.Expired?)
    && (Terminal(c) ==>
          && d.status == c.status && d.started == c.started && d.finished == c.finished
          && (d.result == c.result || d.result.None?) && (d.error == c.error || d.error.None?))
  }

  ghost predicate Moves(t: Table, u: Table) {
    forall id :: id in t ==> id in u && Evolves(t[id], u[id])
  }

  lemma UpdatedRow(p: int, c: Command, now: int)
    requires RowOk(p, c)
    ensures Calm(p, c, ExpiredOne(c, now)) && Calm(p, c, StaleOne(c, now)) && Calm(p, c, ClearedOne(c, now))
  {
  }

  /** Nothing starts and nothing is completed. */
  predicate Calm(p: int, c: Command, d: Command) {
    RowOk(p, d) && Evolves(c, d) && d.started == c.started && (d.status.Done? ==> c.status.Done?)
  }

  lemma MovesKeepsWork(s: System, u: System)
    requires DoneOk(s) && WorkOk(s) && Moves(s.cmds, u.cmds) && u.done == s.done && u.work == s.work
    ensures DoneOk(u) && WorkOk(u)
  {
    forall id, h | Given(s.cmds, id, h) ensures Given(u.cmds, id, h) {}
  }

  /** A statement that starts nothing and completes nothing leaves hand-outs, work and results as they were. */
  ghost predicate Quiet(p: int, t: Table, u: Table) {
    u.Keys == t.Keys && forall id :: id in t ==> Calm(p, t[id], u[id])
  }

  lemma SameHanded(s: System, u: System)
    requires HandedOk(s) && u.handed == s.handed && u.cmds.Keys == s.cmds.Keys
    requires forall id :: id in s.cmds ==>
      u.cmds[id].host == s.cmds[id].host && u.cmds[id].started == s.cmds[id].started
    ensures HandedOk(u)
  {
    forall id | id in u.cmds && u.cmds[id].started.Some? ensures WasHanded(u, id) { assert WasHanded(s, id); }
  }

  lemma QuietKeeps(p: int, s: System, u: System)
    requires Inv(p, s) && Quiet(p, s.cmds, u.cmds) && CallsOk(p, u) && ResultsOk(u)
    requires u == s.(cmds := u.cmds, calls := u.calls, wiped := u.wiped)
    ensures Inv(p, u)
  {
    hide CallsOk, RowsOk, SentOk, Backed, Calm, ResultsOk;
    QuietMoves(p, s.cmds, u.cmds);
    assert HandedOk(u) by { SameHanded(s, u); }
    assert DoneOk(u) && WorkOk(u) by { hide *; MovesKeepsWork(s, u); }
    assert SentOk(u) by { SameSent(s, u); }
  }

  lemma UpdatedTold(p: int, done: seq<Execution>, gone: bool, id: Id, c: Command, now: int)
    requires RowOk(p, c) && Told(done, gone, id, c)
    ensures Told(done, gone, id, ExpiredOne(c, now)) && Told(done, gone, id, StaleOne(c, now))
    ensures Told(done, gone || (c.finished.Some? && c.finished.value < now), id, ClearedOne(c, now))
  {
    hide Answer, Succeeded;
  }

  lemma UpdatesTold(p: int, s: System, now: int)
    requires RowsOk(p, s.cmds) && ResultsOk(s)
    ensures ResultsOk(s.(cmds := ExpireQueued(s.cmds, now))) && ResultsOk(s.(cmds := FailStale(s.cmds, now)))
    ensures ResultsOk(s.(cmds := Cleared(s.cmds, now), wiped := s.wiped + Aged(s.cmds, now)))
  {
    hide RowOk, Told, ExpiredOne, StaleOne, ClearedOne;
    forall id | id in s.cmds ensures
      var c, gone := s.cmds[id], id in s.wiped;
      && Told(s.done, gone, id, ExpiredOne(c, now)) && Told(s.done, gone, id, StaleOne(c, now))
      && Told(s.done, gone || (c.finished.Some? && c.finished.value < now), id, ClearedOne(c, now))
    {
      UpdatedTold(p, s.done, id in s.wiped, id, s.cmds[id], now);
    }
  }

  lemma SameResults(s: System, u: System)
    requires ResultsOk(s) && u.cmds == s.cmds && u.done == s.done && u.wiped == s.wiped
    ensures ResultsOk(u)
  {
    hide Told;
  }

  lemma SameSent(s: System, u: System)
    requires SentOk(s) && u.sent == s.sent && s.done <= u.done
    ensures SentOk(u)
  {
    forall m | m in u.sent ensures Backed(u.done, m.host, m.id, m.report) {
      var i :| 0 <= i < |s.done| && s.done[i].id == m.id && s.done[i].host == m.host
        && Answer(s.done[i].outcome) == m.report;
      assert u.done[i] == s.done[i];
    }
  }

  lemma UpdatesQuiet(p: int, t: Table, now: int)
    requires RowsOk(p, t)
    ensures Quiet(p, t, ExpireQueued(t, now)) && Quiet(p, t, FailStale(t, now)) && Quiet(p, t, Cleared(t, now))
  {
    hide Calm, RowOk, ExpiredOne, StaleOne, ClearedOne;
    forall id | id in t
      ensures Calm(p, t[id], ExpiredOne(t[id], now)) && Calm(p, t[id], StaleOne(t[id], now))
      ensures Calm(p, t[id], ClearedOne(t[id], now))
    {
      UpdatedRow(p, t[id], now);
    }
  }

  lemma QuietMoves(p: int, t: Table, u: Table)
    requires Quiet(p, t, u)
    ensures RowsOk(p, u) && Moves(t, u)
    ensures forall id :: id in t ==>
      u[id].host == t[id].host && u[id].started == t[id].started && (u[id].status.Done? ==> t[id].status.Done?)
  {
    hide RowOk;
  }

  lemma QuietCalls(p: int, t: Table, u: Table, clock: int, c: Call)
    requires CallOk(p, t, clock, c) && u.Keys == t.Keys && Moves(t, u)
    ensures CallOk(p, u, clock, c)
  {
  }

  lemma FirstUpdateKeeps(p: int, s: System, k: nat)
    requires QUEUED_EXPIRY <= p && Inv(p, s) && k in s.calls && s.calls[k].phase == 0
    ensures Inv(p, s.(cmds := ExpireQueued(s.cmds, s.calls[k].now), calls := s.calls[k := s.calls[k].(phase := 1)]))
  {
    hide HandedOk, DoneOk, WorkOk, SentOk, ResultsOk, RowsOk;
    var u := s.(cmds := ExpireQueued(s.cmds, s.calls[k].now), calls := s.calls[k := s.calls[k].(phase := 1)]);
    UpdatesQuiet(p, s.cmds, s.calls[k].now);
    UpdatesTold(p, s, s.calls[k].now);
    SameResults(u.(calls := s.calls), u);
    QuietMoves(p, s.cmds, u.cmds);
    forall j | j in u.calls ensures CallOk(p, u.cmds, u.clock, u.calls[j]) {
      if j != k { QuietCalls(p, s.cmds, u.cmds, s.clock, s.calls[j]); }
    }
    QuietKeeps(p, s, u);
  }

  lemma SecondUpdateKeeps(p: int, s: System, k: nat)
    requires Inv(p, s) && k in s.calls && s.calls[k].phase == 1
    ensures Inv(p, s.(cmds := FailStale(s.cmds, s.calls[k].now), calls := s.calls[k := s.calls[k].(phase := 2)]))
  {
    hide HandedOk, DoneOk, WorkOk, SentOk, ResultsOk;
    var c := s.calls[k];
    var u := s.(cmds := FailStale(s.cmds, c.now), calls := s.calls[k := c.(phase := 2)]);
    UpdatesQuiet(p, s.cmds, c.now);
    UpdatesTold(p, s, c.now);
    SameResults(u.(calls := s.calls), u);
    QuietMoves(p, s.cmds, u.cmds);
    forall j | j in u.calls ensures CallOk(p, u.cmds, u.clock, u.calls[j]) {
      QuietCalls(p, s.cmds, u.cmds, s.clock, s.calls[j]);
      if j == k { NoneStale(p, s.cmds, c.now); }
    }
    QuietKeeps(p, s, u);
  }

  /** With every command claimed in time, nothing open is older than that and five minutes. */
  lemma NoneStale(p: int, t: Table, now: int)
    requires RowsOk(p, t)
    requires forall id :: id in t && t[id].status.Queued? ==> now - p <= t[id].created
    ensures forall id :: id in FailStale(t, now) && !Terminal(FailStale(t, now)[id]) ==>
      now - p - RUNNING_EXPIRY <= FailStale(t, now)[id].created
  {
    forall id | id in t && !Terminal(FailStale(t, now)[id])
      ensures now - p - RUNNING_EXPIRY <= FailStale(t, now)[id].created
    {
      assert RowOk(p, t[id]);
    }
  }

  lemma ClearKeeps(p: int, s: System, before: int)
    requires Inv(p, s)
    ensures Inv(p, s.(cmds := Cleared(s.cmds, before), wiped := s.wiped + Aged(s.cmds, before)))
  {
    hide HandedOk, DoneOk, WorkOk, SentOk, ResultsOk, RowsOk, CallOk;
    var u := s.(cmds := Cleared(s.cmds, before), wiped := s.wiped + Aged(s.cmds, before));
    UpdatesQuiet(p, s.cmds, before);
    UpdatesTold(p, s, before);
    QuietMoves(p, s.cmds, u.cmds);
    forall j | j in u.calls
      ensures CallOk(p, u.cmds, u.clock, u.calls[j])
    {
      QuietCalls(p, s.cmds, u.cmds, s.clock, s.calls[j]);
    }
    QuietKeeps(p, s, u);
  }

  lemma CallsKeeps(p: int, s: System, u: System)
    requires Inv(p, s) && CallsOk(p, u) && u == s.(calls := u.calls, clock := u.clock)
    ensures Inv(p, u)
  {
    hide CallsOk, RowsOk, Backed, Told, Given;
    SameHanded(s, u);
  }

  lemma QueueKeeps(p: int, s: System, id: Id, host: HostId, created: int)
    requires Inv(p, s) && id !in s.cmds && s.clock - p <= created
    ensures Inv(p, s.(cmds := s.cmds[id := Command(host, created, Queued, None, None, None, None)]))
  {
    hide SentOk, Backed, Proven, Excused;
    var u := s.(cmds := s.cmds[id := Command(host, created, Queued, None, None, None, None)]);
    assert Moves(s.cmds, u.cmds);
    assert DoneOk(u) && WorkOk(u) by { hide *; MovesKeepsWork(s, u); }
    assert SentOk(u) by { SameSent(s, u); }
    assert HandedOk(u) by {
      forall x | x in u.cmds && u.cmds[x].started.Some? ensures WasHanded(u, x) { assert WasHanded(s, x); }
    }
    assert ResultsOk(u);
    assert CallsOk(p, u);
  }

  // ----- completing -----

  lemma ArriveKeeps(p: int, s: System, m: Message, at: int)
    requires Inv(p, s) && m in s.sent
    ensures Inv(p, s.(cmds := Completed(s.cmds, m.host, m.id, m.report, at)))
  {
    hide SentOk, Answer, Given, WasHanded;
    var u := s.(cmds := Completed(s.cmds, m.host, m.id, m.report, at));
    if CanComplete(s.cmds, m.host, m.id) {
      assert Backed(s.done, m.host, m.id, m.report) by { SentBacked(s, m); }
      var i :| 0 <= i < |s.done| && s.done[i].id == m.id && s.done[i].host == m.host
        && Answer(s.done[i].outcome) == m.report;
      AnswerIsDone(s.done[i].outcome);
      CompletedRow(p, s.cmds[m.id], m.report, at);
      assert Moves(s.cmds, u.cmds) by { hide Succeeded, RowOk, Told; EvolvesSelf(s.cmds); }
      assert RowsOk(p, u.cmds) by { hide Evolves, RowOk, Told; }
      assert DoneOk(u) && WorkOk(u) by { hide *; MovesKeepsWork(s, u); }
      assert SentOk(u) by { SameSent(s, u); }
      assert HandedOk(u) by { SameHanded(s, u); }
      assert ResultsOk(u) by {
        CompletedTold(p, s.done, m.id in s.wiped, m.id, s.cmds[m.id], i, at);
        hide Told, RowOk;
      }
      forall j | j in u.calls
        ensures CallOk(p, u.cmds, u.clock, u.calls[j])
      {
        QuietCalls(p, s.cmds, u.cmds, s.clock, s.calls[j]);
      }
    } else {
      assert u == s;
    }
  }

  lemma CompletedTold(p: int, done: seq<Execution>, gone: bool, id: Id, c: Command, i: nat, at: int)
    requires RowOk(p, c) && c.status.Running? && Told(done, gone, id, c)
    requires i < |done| && done[i].id == id && done[i].host == c.host
    ensures Told(done, gone, id, CompletedOne(c, Answer(done[i].outcome), at))
  {
    hide Answer;
    AnswerIsDone(done[i].outcome);
  }

  lemma SentBacked(s: System, m: Message)
    requires SentOk(s) && m in s.sent
    ensures Backed(s.done, m.host, m.id, m.report)
  {
  }

  lemma EvolvesSelf(t: Table)
    ensures forall id :: id in t ==> Evolves(t[id], t[id])
  {
  }

  lemma CompletedRow(p: int, c: Command, r: Report, at: int)
    requires RowOk(p, c) && c.status.Running?
    requires r.ok ==> r.error.None?
    requires !r.ok ==> r.result.None?
    ensures var d := CompletedOne(c, r, at); RowOk(p, d) && Evolves(c, d) && d.started == c.started
  {
  }

  // ----- claiming -----

  lemma StartedRow(p: int, c: Command, now: int)
    requires RowOk(p, c) && c.status.Queued? && now - p <= c.created
    ensures var d := StartedOne(c, now); RowOk(p, d) && Evolves(c, d) && d.started == Some(now) && d.status.Running?
  {
  }

  lemma StartRows(p: int, t: Table, picks: seq<Id>, now: int)
    requires RowsOk(p, t)
    requires forall i :: 0 <= i < |picks| ==>
      picks[i] in t && t[picks[i]].status.Queued? && now - p <= t[picks[i]].created
    ensures var u := Start(t, picks, now);
      && RowsOk(p, u) && Moves(t, u) && u.Keys == t.Keys
      && (forall id :: id in t && id !in picks ==> u[id] == t[id])
      && (forall id :: id in picks ==>
            id in t && u[id].host == t[id].host && u[id].started == Some(now) && u[id].status.Running?)
  {
    hide RowOk, Evolves, StartedOne;
    EvolvesSelf(t);
    forall i | 0 <= i < |picks| ensures
      var c := t[picks[i]];
      var d := StartedOne(c, now);
      RowOk(p, d) && Evolves(c, d) && d.host == c.host && d.started == Some(now) && d.status.Running?
    {
      StartedRow(p, t[picks[i]], now);
      EvolvesHost(t[picks[i]], StartedOne(t[picks[i]], now));
    }
  }

  lemma EvolvesHost(c: Command, d: Command)
    requires Evolves(c, d)
    ensures d.host == c.host && d.created == c.created
  {
  }

  /** What a claim picks is queued, young enough and not yet handed out. */
  lemma PicksAreNew(p: int, s: System, k: nat, picks: seq<Id>)
    requires Inv(p, s) && k in s.calls && s.calls[k].phase == 2 && s.calls[k].host.Some?
    requires IsClaim(s.cmds, s.calls[k].host.value, CLAIM_BATCH, picks)
    ensures forall i :: 0 <= i < |picks| ==>
      && picks[i] in s.cmds && s.cmds[picks[i]].host == s.calls[k].host.value && s.cmds[picks[i]].status.Queued?
      && s.calls[k].now - p <= s.cmds[picks[i]].created && s.cmds[picks[i]].started.None?
    ensures forall i, j :: 0 <= i < j < |picks| ==> picks[i] != picks[j]
  {
    hide HandedOk, DoneOk, WorkOk, SentOk, ResultsOk, Before;
    forall i | 0 <= i < |picks| ensures
      && picks[i] in s.cmds && s.cmds[picks[i]].host == s.calls[k].host.value && s.cmds[picks[i]].status.Queued?
      && s.calls[k].now - p <= s.cmds[picks[i]].created && s.cmds[picks[i]].started.None?
    {
      assert Waiting(s.cmds, s.calls[k].host.value, picks[i]);
      assert RowOk(p, s.cmds[picks[i]]);
    }
    forall i, j | 0 <= i < j < |picks| ensures picks[i] != picks[j] {
      BeforeTotal(s.cmds, picks[i], picks[j]);
    }
  }

  lemma TakeHanded(s: System, u: System, host: HostId, now: int, picks: seq<Id>)
    requires HandedOk(s) && Moves(s.cmds, u.cmds) && u.cmds.Keys == s.cmds.Keys
    requires u.handed == s.handed + seq(|picks|, i requires 0 <= i < |picks| => Handing(picks[i], host, now, s.clock))
    requires forall id :: id in s.cmds && id !in picks ==> u.cmds[id] == s.cmds[id]
    requires forall id :: id in picks ==>
      id in s.cmds && s.cmds[id].started.None? && u.cmds[id].host == host && u.cmds[id].started == Some(now)
    requires forall i, j :: 0 <= i < j < |picks| ==> picks[i] != picks[j]
    ensures HandedOk(u)
  {
    hide Moves;
    var n := |s.handed|;
    forall i | n <= i < |u.handed|
      ensures u.handed[i] == Handing(picks[i - n], host, now, s.clock) && picks[i - n] in picks
    {
    }
    forall i | 0 <= i < n ensures u.handed[i] == s.handed[i] && s.handed[i].id !in picks {}
    forall id | id in u.cmds && u.cmds[id].started.Some? ensures WasHanded(u, id) {
      if id in picks {
        var i :| 0 <= i < |picks| && picks[i] == id;
        assert u.handed[n + i].id == id;
      } else {
        assert WasHanded(s, id);
        var i :| 0 <= i < n && s.handed[i].id == id;
        assert u.handed[i].id == id;
      }
    }
  }

  lemma TakeWork(s: System, u: System, host: HostId, picks: seq<Id>, delivered: bool)
    requires DoneOk(s) && WorkOk(s) && Moves(s.cmds, u.cmds) && u.done == s.done
    requires u.work == if delivered then s.work[host := picks] else s.work
    requires forall i :: 0 <= i < |picks| ==>
      picks[i] in s.cmds && s.cmds[picks[i]].started.None? && Given(u.cmds, picks[i], host)
    requires forall i, j :: 0 <= i < j < |picks| ==> picks[i] != picks[j]
    ensures DoneOk(u) && WorkOk(u)
  {
    MovesKeepsWork(s, u.(work := s.work));
  }

  lemma TakeTold(p: int, s: System, u: System, picks: seq<Id>, now: int)
    requires RowsOk(p, s.cmds) && ResultsOk(s) && u.done == s.done && u.wiped == s.wiped
    requires u.cmds == Start(s.cmds, picks, now)
    ensures ResultsOk(u)
  {
    hide Proven, Excused;
    forall id | id in u.cmds ensures Told(u.done, id in u.wiped, id, u.cmds[id]) {
      assert RowOk(p, s.cmds[id]) && Told(s.done, id in s.wiped, id, s.cmds[id]);
    }
  }

  lemma TakeKeeps(p: int, s: System, k: nat, picks: seq<Id>, delivered: bool)
    requires Inv(p, s) && k in s.calls && s.calls[k].phase == 2 && s.calls[k].host.Some?
    requires IsClaim(s.cmds, s.calls[k].host.value, CLAIM_BATCH, picks)
    ensures Inv(p, TakeStep(s, k, picks, delivered))
  {
    hide IsClaim, SentOk, Start, HandedOk, WorkOk, DoneOk, RowsOk, Told, Moves, CallOk;
    var u, host, now := TakeStep(s, k, picks, delivered), s.calls[k].host.value, s.calls[k].now;
    PicksAreNew(p, s, k, picks);
    StartRows(p, s.cmds, picks, now);
    TakeHanded(s, u, host, now, picks);
    TakeWork(s, u, host, picks, delivered);
    SameSent(s, u);
    TakeTold(p, s, u, picks, now);
    forall j | j in u.calls
      ensures CallOk(p, u.cmds, u.clock, u.calls[j])
    {
      QuietCalls(p, s.cmds, u.cmds, s.clock, s.calls[j]);
    }
  }

  // ----- the agents -----

  lemma ExecuteKeeps(p: int, s: System, host: HostId, outcome: Outcome, reported: bool)
    requires Inv(p, s) && WorkOf(s, host) != []
    ensures Inv(p, ExecuteStep(s, host, outcome, reported))
  {
    hide RowsOk, CallOk, Answer, Given, Told;
    var u, id := ExecuteStep(s, host, outcome, reported), WorkOf(s, host)[0];
    var n := |s.done|;
    assert u.done[n] == Execution(id, host, outcome) && u.done[..n] == s.done;
    assert DoneOk(u);
    assert WorkOk(u) by { ExecuteWork(s, u, host, outcome); }
    assert HandedOk(u) by { SameHanded(s, u); }
    assert SentOk(u.(sent := s.sent)) by { SameSent(s, u.(sent := s.sent)); }
    assert Backed(u.done, host, id, Answer(outcome));
    forall x | x in u.cmds ensures Told(u.done, x in u.wiped, x, u.cmds[x]) {
      ToldStays(s.done, Execution(id, host, outcome), x in s.wiped, x, s.cmds[x]);
    }
  }

  lemma ToldStays(done: seq<Execution>, e: Execution, gone: bool, id: Id, c: Command)
    requires Told(done, gone, id, c)
    ensures Told(done + [e], gone, id, c)
  {
    hide Answer, Succeeded;
    assert forall i :: 0 <= i < |done| ==> (done + [e])[i] == done[i];
  }

  lemma ExecuteWork(s: System, u: System, host: HostId, outcome: Outcome)
    requires WorkOk(s) && WorkOf(s, host) != [] && u.cmds == s.cmds
    requires u.work == s.work[host := WorkOf(s, host)[1..]]
    requires u.done == s.done + [Execution(WorkOf(s, host)[0], host, outcome)]
    ensures WorkOk(u)
  {
    hide Given;
    forall h | h in u.work ensures
      && (forall i :: 0 <= i < |u.work[h]| ==> Given(u.cmds, u.work[h][i], h))
      && (forall i, k :: 0 <= i < |u.work[h]| && 0 <= k < |u.done| ==> u.done[k].id != u.work[h][i])
      && (forall i, j :: 0 <= i < j < |u.work[h]| ==> u.work[h][i] != u.work[h][j])
    {
      assert h in s.work;
      if h == host {
        forall i | 0 <= i < |u.work[h]| ensures u.work[h][i] == s.work[h][i + 1] {}
      } else {
        forall i | 0 <= i < |u.work[h]| ensures u.work[h][i] != s.work[host][0] {
          OwnHost(s.cmds, u.work[h][i], h, s.work[host][0], host);
        }
      }
    }
  }

  lemma OwnHost(t: Table, a: Id, h: HostId, b: Id, g: HostId)
    requires Given(t, a, h) && Given(t, b, g) && h != g
    ensures a != b
  {
  }

  lemma GiveUpKeeps(p: int, s: System, host: HostId)
    requires Inv(p, s)
    ensures Inv(p, s.(work := s.work[host := []]))
  {
    hide RowsOk, CallOk, Backed, Given, Told;
    SameHanded(s, s.(work := s.work[host := []]));
  }

  // ----- whole runs -----

  lemma StepKeeps(p: int, pace: Pace, s: System, e: Step)
    requires Inv(p, s) && pace.lag <= p && QUEUED_EXPIRY <= p
    ensures Inv(p, Next(pace, s, e))
  {
    if Enabled(pace, s, e) {
      match e
      case Tick(to) => TickKeeps(p, s, to);
      case Queue(id, host, created) => hide Inv; QueueKeeps(p, s, id, host, created);
      case Open(k, host) => OpenKeeps(p, s, k, host);
      case FirstUpdate(k) => hide Inv; FirstUpdateKeeps(p, s, k);
      case SecondUpdate(k) => hide Inv; SecondUpdateKeeps(p, s, k);
      case Take(k, picks, delivered) => hide Inv, TakeStep; TakeKeeps(p, s, k, picks, delivered);
      case Close(k) => CloseKeeps(p, s, k);
      case Execute(host, outcome, reported) => hide Inv, ExecuteStep; ExecuteKeeps(p, s, host, outcome, reported);
      case GiveUp(host) => hide Inv; GiveUpKeeps(p, s, host);
      case Arrive(m, at) =>
        hide Inv;
        if m in s.sent { ArriveKeeps(p, s, m, at); } else { assert Next(pace, s, e) == s; }
      case Clear(before) => hide Inv; ClearKeeps(p, s, before);
    }
  }

  lemma TickKeeps(p: int, s: System, to: int)
    requires Inv(p, s) && s.clock <= to
    ensures Inv(p, s.(clock := to))
  {
    hide RowsOk, HandedOk, DoneOk, WorkOk, SentOk, ResultsOk;
    CallsKeeps(p, s, s.(clock := to));
  }

  lemma OpenKeeps(p: int, s: System, k: nat, host: Option<HostId>)
    requires Inv(p, s)
    ensures Inv(p, s.(calls := s.calls[k := Call(s.clock, host, 0)]))
  {
    hide RowsOk, HandedOk, DoneOk, WorkOk, SentOk, ResultsOk;
    CallsKeeps(p, s, s.(calls := s.calls[k := Call(s.clock, host, 0)]));
  }

  lemma CloseKeeps(p: int, s: System, k: nat)
    requires Inv(p, s)
    ensures Inv(p, s.(calls := s.calls - {k}))
  {
    hide RowsOk, HandedOk, DoneOk, WorkOk, SentOk, ResultsOk, CallOk;
    CallsKeeps(p, s, s.(calls := s.calls - {k}));
  }

  lemma {:induction false} RunKeeps(p: int, pace: Pace, s: System, steps: seq<Step>)
    requires Inv(p, s) && pace.lag <= p && QUEUED_EXPIRY <= p
    ensures Inv(p, After(pace, s, steps))
  {
    hide Inv, Next;
    if steps != [] {
      RunKeeps(p, pace, s, steps[..|steps| - 1]);
      StepKeeps(p, pace, After(pace, s, steps[..|steps| - 1]), steps[|steps| - 1]);
    }
  }

  lemma Reachable(pace: Pace, steps: seq<Step>)
    ensures Inv(Bound(pace), After(pace, FRESH, steps))
  {
    assert Inv(Bound(pace), FRESH);
    hide Inv;
    RunKeeps(Bound(pace), pace, FRESH, steps);
  }

  /**
   At any point of any run: each command was handed out at most once and run at most once, only on
   its own host, and run only if handed out.
   */
  lemma AtMostOnce(pace: Pace, steps: seq<Step>)
    ensures var s := After(pace, FRESH, steps);
      && (forall i, j :: 0 <= i < j < |s.handed| ==> s.handed[i].id != s.handed[j].id)
      && (forall i, j :: 0 <= i < j < |s.done| ==> s.done[i].id != s.done[j].id)
      && (forall i :: 0 <= i < |s.handed| ==>
            s.handed[i].id in s.cmds && s.cmds[s.handed[i].id].host == s.handed[i].host)
      && (forall i :: 0 <= i < |s.done| ==>
            s.done[i].id in s.cmds && s.cmds[s.done[i].id].host == s.done[i].host && WasHanded(s, s.done[i].id))
  {
    hide After, RowsOk, WorkOk, SentOk, ResultsOk, CallsOk;
    Reachable(pace, steps);
  }

  /**
   What a status says: done means it ran on its host and succeeded, and the result is what it
   printed; failed, that nobody answered or that the error is what its execution reports; unless
   the answer has aged out. Expired means it was never handed out. And which times are set.
   */
  lemma StatusTells(pace: Pace, steps: seq<Step>, id: Id)
    requires id in After(pace, FRESH, steps).cmds
    ensures var s := After(pace, FRESH, steps);
      var c := s.cmds[id];
      && Told(s.done, WipedIn(pace, steps, id), id, c)
      && (c.status.Expired? || c.status.Queued? ==> !WasHanded(s, id))
      && (c.status.Running? || c.status.Done? || c.status.Failed? ==> WasHanded(s, id))
      && Stamped(c)
  {
    hide After, WorkOk, SentOk, CallsOk, DoneOk, Told;
    Reachable(pace, steps);
    WipedIs(pace, steps, id);
    var s := After(pace, FRESH, steps);
    assert RowOk(Bound(pace), s.cmds[id]);
  }

  /** Some ClearResults of the run came when the command had finished, before its cutoff. */
  ghost predicate WipedIn(pace: Pace, steps: seq<Step>, id: Id) {
    exists k :: 0 <= k < |steps| && steps[k].Clear? && FinishedBefore(pace, steps[..k], id, steps[k].before)
  }

  ghost predicate FinishedBefore(pace: Pace, steps: seq<Step>, id: Id, cutoff: int) {
    var t := After(pace, FRESH, steps).cmds;
    id in t && t[id].finished.Some? && t[id].finished.value < cutoff
  }

  lemma {:induction false} WipedIs(pace: Pace, steps: seq<Step>, id: Id)
    ensures id in After(pace, FRESH, steps).wiped <==> WipedIn(pace, steps, id)
  {
    if steps != [] {
      var init, e := steps[..|steps| - 1], steps[|steps| - 1];
      WipedIs(pace, init, id);
      WipedMore(pace, init, e, id);
      assert init + [e] == steps;
      WipedStep(pace, After(pace, FRESH, init), e);
    }
  }

  lemma WipedStep(pace: Pace, s: System, e: Step)
    ensures Next(pace, s, e).wiped == if e.Clear? then s.wiped + Aged(s.cmds, e.before) else s.wiped
  {
    hide IsClaim, Start, Answer, Aged, Completed, ExpireQueued, FailStale, Cleared;
  }

  lemma WipedMore(pace: Pace, init: seq<Step>, e: Step, id: Id)
    ensures WipedIn(pace, init + [e], id) <==>
      WipedIn(pace, init, id) || (e.Clear? && FinishedBefore(pace, init, id, e.before))
  {
    hide FinishedBefore;
    var steps := init + [e];
    assert forall k :: 0 <= k < |init| ==> steps[..k] == init[..k] && steps[k] == init[k];
    assert steps[..|init|] == init && steps[|init|] == e;
  }

  /** No command is claimed more than `limit` after its creation. */
  predicate InTime(limit: int, t: Table) {
    forall id :: id in t && t[id].started.Some? ==> t[id].started.value <= t[id].created + limit
  }

  lemma ClaimedInTime(pace: Pace, steps: seq<Step>)
    ensures InTime(Bound(pace), After(pace, FRESH, steps).cmds)
  {
    hide After, WorkOk, SentOk, CallsOk, DoneOk, ResultsOk, HandedOk;
    Reachable(pace, steps);
  }

  /**
   A completed Expire, whatever ran meanwhile, leaves every older command terminal: older than
   fifteen minutes when storing a command takes at most ten.
   */
  lemma ExpireSettles(pace: Pace, steps: seq<Step>, k: nat, id: Id)
    requires var s := After(pace, FRESH, steps);
      && k in s.calls && s.calls[k].phase >= 2 && id in s.cmds
      && s.cmds[id].created < s.calls[k].now - Bound(pace) - RUNNING_EXPIRY
    ensures Terminal(After(pace, FRESH, steps).cmds[id])
  {
    hide After, WorkOk, SentOk, DoneOk, ResultsOk, HandedOk, RowsOk, Terminal;
    Reachable(pace, steps);
  }

  // ----- terminal states absorb -----

  lemma StepMoves(p: int, pace: Pace, s: System, e: Step)
    requires Inv(p, s)
    ensures Moves(s.cmds, Next(pace, s, e).cmds)
  {
    hide HandedOk, DoneOk, WorkOk, SentOk, ResultsOk, CallsOk, IsClaim, Answer, RowOk;
    EvolvesSelf(s.cmds);
    match e
    case FirstUpdate(k) =>
      hide Evolves, ExpiredOne;
      if Enabled(pace, s, e) {
        UpdatesQuiet(p, s.cmds, s.calls[k].now);
        QuietMoves(p, s.cmds, ExpireQueued(s.cmds, s.calls[k].now));
      }
    case SecondUpdate(k) =>
      hide Evolves, StaleOne;
      if Enabled(pace, s, e) {
        UpdatesQuiet(p, s.cmds, s.calls[k].now);
        QuietMoves(p, s.cmds, FailStale(s.cmds, s.calls[k].now));
      }
    case Clear(before) =>
      hide Evolves, ClearedOne;
      UpdatesQuiet(p, s.cmds, before);
      QuietMoves(p, s.cmds, Cleared(s.cmds, before));
    case Take(k, picks, delivered) =>
      hide Evolves;
      if Enabled(pace, s, e) { StartMoves(p, s.cmds, picks, s.calls[k].now); }
    case Arrive(m, at) =>
    case _ => hide Evolves;
  }

  lemma StartMoves(p: int, t: Table, picks: seq<Id>, now: int)
    requires RowsOk(p, t)
    ensures Moves(t, Start(t, picks, now))
  {
    forall id | id in t ensures Evolves(t[id], Start(t, picks, now)[id]) { assert RowOk(p, t[id]); }
  }

  lemma MovesTransitive(t: Table, u: Table, v: Table)
    requires Moves(t, u) && Moves(u, v)
    ensures Moves(t, v)
  {
    hide Evolves;
    forall id | id in t ensures id in v && Evolves(t[id], v[id]) { EvolvesTransitive(t[id], u[id], v[id]); }
  }

  lemma EvolvesTransitive(c: Command, d: Command, e: Command)
    requires Evolves(c, d) && Evolves(d, e)
    ensures Evolves(c, e)
  {
  }

  lemma {:induction false} RunMoves(p: int, pace: Pace, s: System, steps: seq<Step>)
    requires Inv(p, s) && pace.lag <= p && QUEUED_EXPIRY <= p
    ensures Moves(s.cmds, After(pace, s, steps).cmds)
  {
    hide Inv, Next, Moves;
    if steps == [] {
      assert Moves(s.cmds, s.cmds) by { SelfMoves(s.cmds); }
    } else {
      var t := After(pace, s, steps[..|steps| - 1]);
      RunMoves(p, pace, s, steps[..|steps| - 1]);
      RunKeeps(p, pace, s, steps[..|steps| - 1]);
      StepMoves(p, pace, t, steps[|steps| - 1]);
      MovesTransitive(s.cmds, t.cmds, Next(pace, t, steps[|steps| - 1]).cmds);
    }
  }

  lemma SelfMoves(t: Table)
    ensures Moves(t, t)
  {
    EvolvesSelf(t);
  }

  /** Once terminal, a command keeps its status and times for good; its answer can only be cleared. */
  lemma {:induction false} TerminalAbsorbs(pace: Pace, steps: seq<Step>, more: seq<Step>, id: Id)
    requires var s := After(pace, FRESH, steps); id in s.cmds && Terminal(s.cmds[id])
    ensures var s := After(pace, FRESH, steps);
      var u := After(pace, s, more);
      && id in u.cmds && u.cmds[id].status == s.cmds[id].status
      && u.cmds[id].started == s.cmds[id].started && u.cmds[id].finished == s.cmds[id].finished
      && (u.cmds[id].result == s.cmds[id].result || u.cmds[id].result.None?)
      && (u.cmds[id].error == s.cmds[id].error || u.cmds[id].error.None?)
  {
    hide After, Inv;
    Reachable(pace, steps);
    RunMoves(Bound(pace), pace, After(pace, FRESH, steps), more);
  }

  /** Only ClearResults touches a terminal command. */
  lemma TerminalStep(pace: Pace, s: System, e: Step, id: Id)
    requires id in s.cmds && Terminal(s.cmds[id])
    ensures var t := Next(pace, s, e).cmds;
      id in t && t[id] == if e.Clear? then ClearedOne(s.cmds[id], e.before) else s.cmds[id]
  {
    hide IsClaim, Answer;
  }

  /** A cutoff above `at` came after step `n`. */
  ghost predicate ClearedAfter(steps: seq<Step>, n: nat, at: int) {
    exists k :: n < k < |steps| && steps[k].Clear? && at < steps[k].before
  }

  /** Step `n` is an answer the server takes. */
  ghost predicate TakenAt(pace: Pace, steps: seq<Step>, n: nat) {
    && n < |steps| && steps[n].Arrive? && Enabled(pace, After(pace, FRESH, steps[..n]), steps[n])
    && CanComplete(After(pace, FRESH, steps[..n]).cmds, steps[n].m.host, steps[n].m.id)
  }

  /**
   An answer the server takes is stored as it came, with the time it came, for good: the row says
   so at every later point, until a ClearResults with a later cutoff empties the two answer columns.
   */
  lemma {:induction false} AnswerKept(pace: Pace, steps: seq<Step>, n: nat)
    requires TakenAt(pace, steps, n)
    ensures var m, at, t := steps[n].m, steps[n].at, After(pace, FRESH, steps).cmds;
      && m.id in t && t[m.id].host == m.host && t[m.id].finished == Some(at)
      && t[m.id].status == (if m.report.ok then Done else Failed)
      && t[m.id].result == (if ClearedAfter(steps, n, at) then None else m.report.result)
      && t[m.id].error == (if ClearedAfter(steps, n, at) then None else m.report.error)
  {
    hide Enabled;
    var init, e := steps[..|steps| - 1], steps[|steps| - 1];
    var s := After(pace, FRESH, init);
    if n == |init| {
      hide After;
      assert steps[..n] == init;
    } else {
      assert init[..n] == steps[..n] && init[n] == steps[n];
      AnswerKept(pace, init, n);
      TerminalStep(pace, s, e, steps[n].m.id);
      hide Next, After;
      ClearedMore(init, e, n, steps[n].at);
      assert init + [e] == steps;
    }
  }

  lemma ClearedMore(init: seq<Step>, e: Step, n: nat, at: int)
    requires n < |init|
    ensures ClearedAfter(init + [e], n, at) <==> ClearedAfter(init, n, at) || (e.Clear? && at < e.before)
  {
    var steps := init + [e];
    assert steps[|init|] == e && forall k :: 0 <= k < |init| ==> steps[k] == init[k];
  }

  // ----- how late a command may be handed out -----

  /** No command is handed out more than `limit` after its creation. */
  ghost predicate HandedWithin(limit: int, s: System) {
    forall i :: 0 <= i < |s.handed| ==>
      s.handed[i].id in s.cmds && s.handed[i].clock <= s.cmds[s.handed[i].id].created + limit
  }

  ghost predicate StallsOk(pace: Pace, s: System) {
    forall i :: 0 <= i < |s.handed| ==> s.handed[i].clock - s.handed[i].at <= pace.stall
  }

  lemma {:induction false} RunStalls(pace: Pace, steps: seq<Step>)
    ensures StallsOk(pace, After(pace, FRESH, steps))
  {
    hide IsClaim, Answer, Start;
    if steps != [] { RunStalls(pace, steps[..|steps| - 1]); }
  }

  /** Every hand-out comes within the longest wait to be stored and claimed, plus the longest stall of a claim. */
  lemma HandedInTime(pace: Pace, steps: seq<Step>)
    ensures HandedWithin(Bound(pace) + pace.stall, After(pace, FRESH, steps))
  {
    hide After, WorkOk, SentOk, CallsOk, DoneOk, ResultsOk;
    Reachable(pace, steps);
    RunStalls(pace, steps);
    var s := After(pace, FRESH, steps);
    forall i | 0 <= i < |s.handed|
      ensures s.handed[i].id in s.cmds && s.handed[i].clock <= s.cmds[s.handed[i].id].created + Bound(pace) + pace.stall
    {
      assert RowOk(Bound(pace), s.cmds[s.handed[i].id]);
    }
  }

  lemma AfterGrows(pace: Pace, s: System, steps: seq<Step>, k: nat)
    requires k < |steps|
    ensures After(pace, s, steps[..k + 1]) == Next(pace, After(pace, s, steps[..k]), steps[k])
  {
    hide Next;
    assert steps[..k + 1][..k] == steps[..k];
  }

  const WAITING := Command("h", 0, Queued, None, None, None, None)

  /**
   A command created at 0 that waits as long as can be: it is claimed on the last instant
   before it would expire, or stored as late as can be, after the claim has expired the old
   ones; and then the claim stalls.
   */
  function Slowest(pace: Pace): seq<Step> {
    var queue, tick := Queue("x", "h", 0), Tick(Bound(pace));
    var open, first, second := Open(0, Some("h")), FirstUpdate(0), SecondUpdate(0);
    (if pace.lag <= QUEUED_EXPIRY then [queue, tick, open, first, second] else [tick, open, first, second, queue])
    + [Tick(Bound(pace) + pace.stall), Take(0, ["x"], false)]
  }

  /** Its claim, just before the stall. */
  function Poised(pace: Pace): System {
    FRESH.(cmds := map["x" := WAITING], clock := Bound(pace), calls := map[0 := Call(Bound(pace), Some("h"), 2)])
  }

  lemma PoisedIs(pace: Pace)
    ensures After(pace, FRESH, Slowest(pace)[..5]) == Poised(pace)
  {
    hide After;
    var steps := Slowest(pace);
    assert After(pace, FRESH, steps[..0]) == FRESH by { NoSteps(pace, steps); }
    AfterGrows(pace, FRESH, steps, 0);
    AfterGrows(pace, FRESH, steps, 1);
    AfterGrows(pace, FRESH, steps, 2);
    AfterGrows(pace, FRESH, steps, 3);
    AfterGrows(pace, FRESH, steps, 4);
  }

  lemma NoSteps(pace: Pace, steps: seq<Step>)
    ensures After(pace, FRESH, steps[..0]) == FRESH
  {
    assert steps[..0] == [];
  }

  /** The bounds are reached: by the recorded start, and by the hand-out. */
  lemma SlowestClaim(pace: Pace)
    ensures var s := After(pace, FRESH, Slowest(pace));
      && "x" in s.cmds && s.cmds["x"].created == 0 && s.cmds["x"].started == Some(Bound(pace))
      && s.handed == [Handing("x", "h", Bound(pace), Bound(pace) + pace.stall)]
  {
    hide After;
    var steps := Slowest(pace);
    PoisedIs(pace);
    AfterGrows(pace, FRESH, steps, 5);
    AfterGrows(pace, FRESH, steps, 6);
    assert steps[..7] == steps;
    assert IsClaim(Poised(pace).cmds, "h", CLAIM_BATCH, ["x"]);
  }

  /**
   The recorded start is within a limit of the creation, in every run, exactly when ten minutes and
   the storing are.
   */
  lemma InTimeIff(pace: Pace, limit: int)
    ensures (forall steps :: InTime(limit, After(pace, FRESH, steps).cmds)) <==> Bound(pace) <= limit
  {
    hide After, Slowest;
    if Bound(pace) <= limit {
      forall steps ensures InTime(limit, After(pace, FRESH, steps).cmds) { ClaimedInTime(pace, steps); }
    } else {
      SlowestClaim(pace);
      assert !InTime(limit, After(pace, FRESH, Slowest(pace)).cmds);
    }
  }

  /**
   Every hand-out is within a limit of the creation, in every run, exactly when that wait and a
   claim's stall together are.
   */
  lemma HandedWithinIff(pace: Pace, limit: int)
    ensures (forall steps :: HandedWithin(limit, After(pace, FRESH, steps))) <==> Bound(pace) + pace.stall <= limit
  {
    hide After, Slowest;
    if Bound(pace) + pace.stall <= limit {
      forall steps ensures HandedWithin(limit, After(pace, FRESH, steps)) { HandedInTime(pace, steps); }
    } else {
      SlowestClaim(pace);
      var s := After(pace, FRESH, Slowest(pace));
      assert s.handed[0].id == "x" && s.handed[0].clock == Bound(pace) + pace.stall;
      assert !HandedWithin(limit, s);
    }
  }

  /**
   No command is handed out more than ten minutes after its creation exactly when storing takes no
   longer and claims do not stall.
   */
  lemma TenMinutesIff(pace: Pace)
    ensures (forall steps :: HandedWithin(QUEUED_EXPIRY, After(pace, FRESH, steps))) <==>
      pace.lag <= QUEUED_EXPIRY && pace.stall == 0
  {
    hide After, HandedWithin;
    HandedWithinIff(pace, QUEUED_EXPIRY);
  }
}
