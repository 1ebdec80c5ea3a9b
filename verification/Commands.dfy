/**
 The table of operator commands and the statements on it
 (internal/operator/infrastructure/store.go, internal/operator/domain/domain.go).
 */
module Commands {
  import opened Wrappers
  import opened Order

  type HostId = string
  type Id = string

  const MINUTE := 60_000
  const QUEUED_EXPIRY := 10 * MINUTE
  const RUNNING_EXPIRY := 5 * MINUTE
  const CLAIM_BATCH := 5

  datatype Status = Queued | Running | Done | Failed | Expired

  datatype Command = Command(
    host: HostId, created: int, status: Status, started: Option<int>, finished: Option<int>,
    result: Option<string>, error: Option<string>)

  /** A validated answer: done or failed. */
  datatype Report = Report(ok: bool, result: Option<string>, error: Option<string>)

  type Table = map<Id, Command>

  predicate Terminal(c: Command) {
    c.status.Done? || c.status.Failed? || c.status.Expired?
  }

  // ----- statements -----

  /** UPDATE ... SET status = 'expired' WHERE status = 'queued' AND created_at < now - 10 min. */
  function ExpiredOne(c: Command, now: int): Command {
    if c.status.Queued? && c.created < now - QUEUED_EXPIRY then c.(status := Expired, finished := Some(now)) else c
  }

  /** UPDATE ... SET status = 'failed' WHERE status = 'running' AND started_at < now - 5 min. */
  function StaleOne(c: Command, now: int): Command {
    if c.status.Running? && c.started.Some? && c.started.value < now - RUNNING_EXPIRY
    then c.(status := Failed, finished := Some(now), error := Some("no result"))
    else c
  }

  function ClearedOne(c: Command, before: int): Command {
    if c.finished.Some? && c.finished.value < before then c.(result := None, error := None) else c
  }

  function CompletedOne(c: Command, r: Report, now: int): Command {
    c.(status := if r.ok then Done else Failed, finished := Some(now), result := r.result, error := r.error)
  }

  function ExpireQueued(t: Table, now: int): Table {
    map id | id in t :: ExpiredOne(t[id], now)
  }

  function FailStale(t: Table, now: int): Table {
    map id | id in t :: StaleOne(t[id], now)
  }

  function Cleared(t: Table, before: int): Table {
    map id | id in t :: ClearedOne(t[id], before)
  }

  predicate CanComplete(t: Table, host: HostId, id: Id) {
    id in t && t[id].host == host && t[id].status.Running?
  }

  function Completed(t: Table, host: HostId, id: Id, r: Report, now: int): Table {
    if CanComplete(t, host, id) then t[id := CompletedOne(t[id], r, now)] else t
  }

  function StartedOne(c: Command, now: int): Command {
    if c.status.Queued? then c.(status := Running, started := Some(now)) else c
  }

  /** The picked commands are marked running. */
  function Start(t: Table, picks: seq<Id>, now: int): Table {
    map id | id in t :: if id in picks then StartedOne(t[id], now) else t[id]
  }

  // ----- which commands a claim takes -----

  predicate Waiting(t: Table, host: HostId, id: Id) {
    id in t && t[id].host == host && t[id].status.Queued?
  }

  /** ORDER BY created_at, id. */
  predicate Before(t: Table, a: Id, b: Id)
    requires a in t && b in t
  {
    t[a].created < t[b].created || (t[a].created == t[b].created && Less(a, b))
  }

  /** `picks` are the host's oldest queued commands in order, up to `limit` of them. */
  ghost predicate IsClaim(t: Table, host: HostId, limit: nat, picks: seq<Id>) {
    && |picks| <= limit
    && (forall i :: 0 <= i < |picks| ==> Waiting(t, host, picks[i]))
    && (forall i, j :: 0 <= i < j < |picks| ==>
          Waiting(t, host, picks[i]) && Waiting(t, host, picks[j]) && Before(t, picks[i], picks[j]))
    && (forall id :: Waiting(t, host, id) && id !in picks ==>
          |picks| == limit && forall i :: 0 <= i < |picks| ==> Waiting(t, host, picks[i]) && Before(t, picks[i], id))
  }

  /** A claim, by columns: queued commands of the host, by creation and then id, and none created earlier left. */
  lemma ClaimIsOldest(t: Table, host: HostId, limit: nat, picks: seq<Id>)
    requires IsClaim(t, host, limit, picks)
    ensures forall i :: 0 <= i < |picks| ==> picks[i] in t && t[picks[i]].host == host && t[picks[i]].status.Queued?
    ensures forall i, j :: 0 <= i < j < |picks| ==>
      var a, b := t[picks[i]].created, t[picks[j]].created; a < b || (a == b && Less(picks[i], picks[j]))
    ensures forall id :: id in t && t[id].host == host && t[id].status.Queued? && id !in picks ==>
      |picks| == limit && forall i :: 0 <= i < |picks| ==>
        var a, b := t[picks[i]].created, t[id].created; a < b || (a == b && Less(picks[i], id))
  {
    hide Less;
    assert forall i :: 0 <= i < |picks| ==> Waiting(t, host, picks[i]);
    forall id | id in t && t[id].host == host && t[id].status.Queued? && id !in picks
      ensures |picks| == limit && forall i :: 0 <= i < |picks| ==> Before(t, picks[i], id)
    {
      assert Waiting(t, host, id);
    }
  }

  lemma BeforeTotal(t: Table, a: Id, b: Id)
    requires a in t && b in t
    ensures a == b || Before(t, a, b) || Before(t, b, a)
    ensures !Before(t, a, a) && !(Before(t, a, b) && Before(t, b, a))
  {
    LessTotal(a, b);
    LessIrreflexive(a);
    if Less(a, b) && Less(b, a) { LessTransitive(a, b, a); }
  }

  lemma BeforeTransitive(t: Table, a: Id, b: Id, c: Id)
    requires a in t && b in t && c in t && Before(t, a, b) && Before(t, b, c)
    ensures Before(t, a, c)
  {
    if Less(a, b) && Less(b, c) { LessTransitive(a, b, c); }
  }

  /** The claim is determined: there is one sequence of oldest queued commands. */
  lemma {:induction false} ClaimUnique(t: Table, host: HostId, limit: nat, a: seq<Id>, b: seq<Id>, n: nat)
    requires IsClaim(t, host, limit, a) && IsClaim(t, host, limit, b) && n <= |a| && n <= |b|
    ensures a[..n] == b[..n]
    ensures n == |a| ==> |b| == |a|
  {
    if n > 0 {
      ClaimUnique(t, host, limit, a, b, n - 1);
      SameNext(t, host, limit, a, b, n - 1);
      assert a[..n] == a[..n - 1] + [a[n - 1]] && b[..n] == b[..n - 1] + [b[n - 1]];
    }
    if n == |a| && n < |b| {
      assert a[..n] == a;
      assert Waiting(t, host, b[n]);
      if b[n] in a {
        var i :| 0 <= i < n && a[i] == b[n];
        assert b[i] == b[..n][i] == a[..n][i];
        BeforeTotal(t, b[i], b[n]);
        assert false;
      }
      assert false;
    }
  }

  lemma SameNext(t: Table, host: HostId, limit: nat, a: seq<Id>, b: seq<Id>, n: nat)
    requires IsClaim(t, host, limit, a) && IsClaim(t, host, limit, b) && n < |a| && n < |b| && a[..n] == b[..n]
    ensures a[n] == b[n]
  {
    if a[n] != b[n] {
      NotEarlier(t, host, limit, a, b, n);
      NotEarlier(t, host, limit, b, a, n);
      BeforeTotal(t, a[n], b[n]);
    }
  }

  lemma NotEarlier(t: Table, host: HostId, limit: nat, a: seq<Id>, b: seq<Id>, n: nat)
    requires IsClaim(t, host, limit, a) && IsClaim(t, host, limit, b) && n < |a| && n < |b| && a[..n] == b[..n]
    ensures a[n] in t && b[n] in t && !Before(t, b[n], a[n])
  {
    assert Waiting(t, host, a[n]) && Waiting(t, host, b[n]);
    BeforeTotal(t, a[n], b[n]);
    if b[n] in a {
      var i :| 0 <= i < |a| && a[i] == b[n];
      if i < n {
        assert b[i] == b[..n][i] == a[..n][i];
        BeforeTotal(t, b[i], b[n]);
        assert false;
      }
      if n < i { BeforeTotal(t, a[n], a[i]); }
    }
  }

  // ----- the table, changed in place -----

  class Store {
    var commands: Table
    const hosts: set<HostId>

    constructor (hosts: set<HostId>)
      ensures this.hosts == hosts && commands == map[]
    {
      this.hosts := hosts;
      commands := map[];
    }

    /** Refuses an unknown host and an id already taken. */
    method InsertCommand(id: Id, host: HostId, created: int) returns (ok: bool)
      modifies this
      ensures ok <==> host in hosts && id !in old(commands)
      ensures commands
            == if ok then old(commands)[id := Command(host, created, Queued, None, None, None, None)] else old(commands)
      ensures forall x :: x in old(commands) ==> x in commands && commands[x] == old(commands)[x]
    {
      ok := host in hosts && id !in commands;
      if ok { commands := commands[id := Command(host, created, Queued, None, None, None, None)]; }
    }

    /** The earliest of some commands in claim order. */
    method Earliest(ids: set<Id>) returns (first: Id)
      requires ids != {} && forall id :: id in ids ==> id in commands
      ensures first in ids && forall id :: id in ids && id != first ==> Before(commands, first, id)
    {
      first :| first in ids;
      var todo := ids - {first};
      while todo != {}
        invariant todo <= ids && first in ids && first !in todo
        invariant forall id :: id in ids - todo && id != first ==> Before(commands, first, id)
        decreases |todo|
      {
        var id :| id in todo;
        BeforeTotal(commands, id, first);
        if Before(commands, id, first) {
          forall x | x in ids - todo && x != first
            ensures Before(commands, id, x)
          {
            BeforeTransitive(commands, id, first, x);
          }
          first := id;
        }
        todo := todo - {id};
      }
    }

    /** SELECT ... WHERE status = 'queued' ORDER BY created_at, id LIMIT ?. */
    method SelectQueued(host: HostId, limit: nat) returns (picks: seq<Id>)
      ensures IsClaim(commands, host, limit, picks)
    {
      hide Before;
      picks := [];
      var left := set id | id in commands && Waiting(commands, host, id);
      while left != {} && |picks| < limit
        invariant |picks| <= limit
        invariant forall i :: 0 <= i < |picks| ==> Waiting(commands, host, picks[i])
        invariant forall i, j :: 0 <= i < j < |picks| ==> Before(commands, picks[i], picks[j])
        invariant forall id :: Waiting(commands, host, id) ==> id in left || id in picks
        invariant forall id :: id in left ==> Waiting(commands, host, id) && forall i :: 0 <= i < |picks| ==>
          Before(commands, picks[i], id)
        decreases |left|
      {
        var id := Earliest(left);
        picks, left := picks + [id], left - {id};
      }
    }

    /** The commands IsClaim determines start now; all others keep their rows. */
    method Claim(host: HostId, now: int, limit: nat) returns (claimed: seq<Id>)
      modifies this
      ensures IsClaim(old(commands), host, limit, claimed)
      ensures commands == Start(old(commands), claimed, now) && commands.Keys == old(commands).Keys
      ensures forall id :: id in commands ==>
        commands[id] == if id in claimed then old(commands)[id].(status := Running, started := Some(now))
                        else old(commands)[id]
    {
      claimed := SelectQueued(host, limit);
      assert forall i :: 0 <= i < |claimed| ==> claimed[i] in commands;
      hide IsClaim;
      for k := 0 to |claimed|
        invariant commands == Start(old(commands), claimed[..k], now)
      {
        var id := claimed[k];
        assert claimed[..k + 1] == claimed[..k] + [id];
        commands := commands[id := StartedOne(commands[id], now)];
      }
      assert claimed[..|claimed|] == claimed;
    }

    /** Takes an answer only from the command's own host and only while it runs; the table is unchanged otherwise. */
    method Complete(host: HostId, id: Id, r: Report, now: int) returns (found: Option<Command>)
      modifies this
      ensures commands == Completed(old(commands), host, id, r, now)
      ensures found == if CanComplete(old(commands), host, id) then Some(commands[id]) else None
      ensures found.Some? <==>
        id in old(commands) && old(commands)[id].host == host && old(commands)[id].status.Running?
      ensures found.Some? ==>
        var was, c := old(commands)[id], found.value;
        && c.result == r.result && c.error == r.error && c.finished == Some(now)
        && c.status == (if r.ok then Done else Failed)
        && c.host == was.host && c.created == was.created && c.started == was.started
      ensures commands.Keys == old(commands).Keys
      ensures forall x :: x in commands && (x != id || found.None?) ==> commands[x] == old(commands)[x]
    {
      if id in commands && commands[id].host == host && commands[id].status.Running? {
        commands := commands[id := CompletedOne(commands[id], r, now)];
        found := Some(commands[id]);
      } else {
        found := None;
      }
    }

    /** Queued commands nobody claimed in time expire, then silent running ones fail; counts both. */
    method Expire(now: int) returns (n: nat)
      modifies this
      ensures commands == FailStale(ExpireQueued(old(commands), now), now) && commands.Keys == old(commands).Keys
      ensures forall id :: id in commands ==>
        var was, c := old(commands)[id], commands[id];
        if was.status.Queued? && was.created < now - 10 * MINUTE then
          c == was.(status := Expired, finished := Some(now))
        else if was.status.Running? && was.started.Some? && was.started.value < now - 5 * MINUTE then
          c == was.(status := Failed, finished := Some(now), error := Some("no result"))
        else c == was
      ensures n == |set id | id in commands && commands[id] != old(commands)[id]|
    {
      var was := commands;
      commands := ExpireQueued(commands, now);
      var queued := set id | id in was && commands[id] != was[id];
      var mid := commands;
      commands := FailStale(commands, now);
      var running := set id | id in mid && commands[id] != mid[id];
      n := |queued| + |running|;
      assert queued !! running;
      assert queued + running == set id | id in commands && commands[id] != was[id];
    }

    method ClearResults(before: int) returns (n: nat)
      modifies this
      ensures commands == Cleared(old(commands), before) && commands.Keys == old(commands).Keys
      ensures forall id :: id in commands ==>
        var was, c := old(commands)[id], commands[id];
        if was.finished.Some? && was.finished.value < before then c == was.(result := None, error := None) else c == was
      ensures n == |set id | id in commands && commands[id] != old(commands)[id]|
    {
      var was := commands;
      commands := Cleared(commands, before);
      var aged := set id | id in was && was[id].finished.Some? && was[id].finished.value < before;
      var cleared := set id | id in aged && (was[id].result.Some? || was[id].error.Some?);
      n := |cleared|;
      assert cleared == set id | id in commands && commands[id] != was[id];
    }
  }
}
