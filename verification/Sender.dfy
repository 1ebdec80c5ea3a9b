/**
 The retrying sender (internal/agent/sender.go) on the spool: every step it takes is a step
 of the delivery protocol, so what holds of every run of the protocol holds of it.
 */
module Sender {
  import opened Arithmetic
  import opened Wrappers
  import opened SpoolNames
  import opened SpoolQueue
  import opened Spool
  import opened Ingest
  import opened Delivery

  /** What the network does with one attempt: whether a link can be made, and how the send goes. */
  datatype Attempt = Attempt(dials: bool, fate: Fate)

  /**
   Lost on the way; answered 400 or 413; or received at a time, perhaps failing at a statement, and
   the answer heard or not.
   */
  datatype Fate = Lost | Rejected | Received(at: int, failAt: int, heard: bool)

  const REBUILD_AFTER := 3

  /** The link can be made, and the send is refused, or stored with the answer heard. */
  predicate Works(a: Attempt) {
    a.dials && (a.fate.Rejected? || (a.fate.Received? && a.fate.failAt < 0 && a.fate.heard))
  }

  /** Every attempt works, files can be removed, and so can `many` unreadable ones. */
  ghost predicate AllWork(attempts: nat -> Attempt, discards: nat -> nat, removes: nat -> bool, many: nat) {
    forall k: nat :: Works(attempts(k)) && removes(k) && many <= discards(k)
  }

  lemma RunExtends(b: Bounds, me: HostId, trace: seq<System>, steps: seq<Step>, e: Step)
    requires IsRun(b, me, trace, steps) && Enabled(me, trace[|steps|], e)
    ensures IsRun(b, me, trace + [Next(b, me, trace[|steps|], e)], steps + [e])
  {
    hide Enabled, Next, Start;
    var s, t := trace + [Next(b, me, trace[|steps|], e)], steps + [e];
    forall i | 0 <= i < |t| ensures Enabled(me, s[i], t[i]) && s[i + 1] == Next(b, me, s[i], t[i]) {
      if i < |steps| {
        assert s[i] == trace[i] && s[i + 1] == trace[i + 1] && t[i] == steps[i];
      }
    }
  }

  /** After a peek that found a batch, the hand holds it: its file, its ordinal, and what was added under that. */
  lemma PeekedHand(me: HostId, s: System, removes: nat)
    requires Inv(me, PeekStep(s, removes)) && s.hand.None?
    ensures var t := PeekStep(s, removes);
      && t.q == Peeked(s.q, removes) && t.db == s.db && t.added == s.added
      && (t.q.items == [] ==> t.hand.None?)
      && (t.q.items != [] && t.q.items[0] in t.q.files ==>
            if t.q.files[t.q.items[0]].body.None? then t.hand.None?
            else
              && t.hand.Some? && t.hand.value.verdict.Waiting? && t.hand.value.seqno == t.q.items[0]
              && t.hand.value.ord < |t.added| && t.added[t.hand.value.ord] == t.q.files[t.q.items[0]].body.value)
  {
    hide Peeked, LogOk, DocsOk, ClaimsOk, Accounted, Ahead, DistinctKeys;
  }

  datatype Progress = Empty | Failing | Moved

  /** A batch the collector queues while the sender is at work. */
  datatype Arrival = Arrival(clock: nat, key: string, batch: Batch, size: nat, written: bool, removes: nat)

  predicate NewKey(added: seq<Entry<Batch>>, key: string) {
    forall i :: 0 <= i < |added| ==> added[i].key != key
  }

  /** Idempotency keys are random: none is used twice. */
  predicate NewKeys(added: seq<Entry<Batch>>, arrivals: seq<Arrival>) {
    && (forall i :: 0 <= i < |arrivals| ==> NewKey(added, arrivals[i].key))
    && (forall i, j :: 0 <= i < j < |arrivals| ==> arrivals[i].key != arrivals[j].key)
  }

  /** What was added is among these. */
  ghost predicate Grown(before: seq<Entry<Batch>>, xs: seq<Arrival>, after: seq<Entry<Batch>>) {
    before <= after && forall i :: |before| <= i < |after| ==> exists k :: 0 <= k < |xs| && xs[k].key == after[i].key
  }

  lemma FirstIsNew(added: seq<Entry<Batch>>, arrivals: seq<Arrival>)
    requires arrivals != [] && NewKeys(added, arrivals)
    ensures NewKey(added, arrivals[0].key)
  {
  }

  /** Keys that come later stay new. */
  lemma StillNew(before: seq<Entry<Batch>>, xs: seq<Arrival>, n: nat, after: seq<Entry<Batch>>)
    requires n <= |xs| && NewKeys(before, xs) && Grown(before, xs[..n], after)
    ensures NewKeys(after, xs[n..])
  {
    forall i | 0 <= i < |xs[n..]| ensures NewKey(after, xs[n..][i].key) {
      assert xs[n..][i] == xs[n + i] && NewKey(before, xs[n + i].key);
      forall j | |before| <= j < |after| ensures after[j].key != xs[n + i].key {
        var k :| 0 <= k < n && xs[..n][k].key == after[j].key;
        assert xs[k].key != xs[n + i].key;
      }
    }
    assert forall i, j :: 0 <= i < j < |xs[n..]| ==> xs[n..][i] == xs[n + i] && xs[n..][j] == xs[n + j];
  }

  lemma GrownTwice(
      a: seq<Entry<Batch>>, x: Arrival, b: seq<Entry<Batch>>, xs: seq<Arrival>, c: seq<Entry<Batch>>)
    requires xs != [] && x == xs[0] && Grown(a, [x], b) && Grown(b, xs[1..], c)
    ensures Grown(a, xs, c)
  {
    forall i | |a| <= i < |c| ensures exists k :: 0 <= k < |xs| && xs[k].key == c[i].key {
      if i < |b| {
        var k :| 0 <= k < 1 && [x][k].key == b[i].key;
        assert xs[0].key == c[i].key;
      } else {
        var k :| 0 <= k < |xs[1..]| && xs[1..][k].key == c[i].key;
        assert xs[k + 1].key == c[i].key;
      }
    }
  }

  lemma NewKeysPrefix(added: seq<Entry<Batch>>, xs: seq<Arrival>, n: nat)
    requires n <= |xs| && NewKeys(added, xs)
    ensures NewKeys(added, xs[..n])
  {
    hide NewKey;
  }

  /** The hand holds this batch, not yet sent. */
  predicate Holding(s: System, e: Entry<Batch>) {
    s.hand.Some? && s.hand.value.verdict.Waiting? && s.hand.value.ord < |s.added| && s.added[s.hand.value.ord] == e
  }

  lemma HandLogged(me: HostId, s: System)
    requires Inv(me, s) && s.hand.Some? && s.hand.value.verdict.Acknowledged?
    ensures s.hand.value.ord in s.log
  {
  }

  lemma {:induction false} PeekedShorter(q: Queue<Batch>, removes: nat)
    ensures |Peeked(q, removes).items| <= |q.items|
    decreases removes
  {
    if q.items != [] && q.items[0] in q.files && q.files[q.items[0]].body.None? && removes > 0 {
      PeekedShorter(DropFront(q), removes - 1);
    }
  }

  lemma {:induction false} WithoutShorter(items: seq<nat>, k: nat)
    ensures |Without(items, k)| <= |items| && (k in items ==> |Without(items, k)| < |items|)
  {
    if items != [] { WithoutShorter(items[1..], k); }
  }

  lemma RemovedShorter(q: Queue<Batch>, k: nat)
    ensures |Remove(q, k).items| <= |q.items| && (k in q.items ==> |Remove(q, k).items| < |q.items|)
  {
    WithoutShorter(q.items, k);
  }

  /** Every batch ever added was stored, refused, or dropped by the bounds or as unreadable. */
  ghost predicate Settled(s: System) {
    forall o :: 0 <= o < |s.added| ==> o in s.log || o in s.refused || o in s.dropped
  }

  lemma EmptyIsSettled(me: HostId, s: System)
    requires Inv(me, s) && s.q.items == []
    ensures Settled(s)
  {
    hide LogOk, DocsOk, ClaimsOk, Ahead, DistinctKeys, HandOk;
    forall o | 0 <= o < |s.added| ensures o in s.log || o in s.refused || o in s.dropped {
      assert Queued(s, o) || o in s.log || o in s.refused || o in s.dropped;
      assert forall k :: k !in s.q.files;
    }
  }

  lemma LastIsLast(sp: Spool<Batch>)
    requires sp.Valid()
    ensures sp.lastSeq == sp.q.last
  {
    hide SpoolQueue.Valid, Bytes, Name, Holds, Lists;
  }

  lemma FrontStands(sp: Spool<Batch>)
    requires sp.Valid() && sp.q.items != []
    ensures sp.q.items[0] in sp.q.files && sp.q.items[0] <= MAX_SEQ
  {
    hide SpoolQueue.Valid, Bytes, Name;
    FrontIsListed(sp.dir, sp.items, sp.q);
  }

  class Sender {
    const me: HostId
    const spool: Spool<Batch>
    const server: Server
    var linked: bool
    var fails: nat
    /** The run of the protocol so far. */
    ghost var trace: seq<System>
    ghost var steps: seq<Step>

    ghost predicate Valid()
      reads this, spool, server
    {
      spool.Valid() && Tracked(spool.bounds) && Now().q == spool.q && Now().db == server.State()
    }

    /** The trace is a run of the protocol. */
    ghost predicate Tracked(b: Bounds)
      reads this
    {
      |trace| == |steps| + 1 && IsRun(b, me, trace, steps)
    }

    ghost function Now(): System
      reads this
      requires |trace| == |steps| + 1
    {
      trace[|steps|]
    }

    /** On an empty spool, facing a server that does not know the agent. */
    constructor (me: HostId, spool: Spool<Batch>, server: Server, ghost start: System)
      requires spool.Valid() && Start(me, start) && start.q == spool.q && start.db == server.State()
      ensures Valid() && this.me == me && this.spool == spool && this.server == server
      ensures trace == [start] && steps == [] && fails == 0
    {
      this.me, this.spool, this.server, linked, fails := me, spool, server, false, 0;
      trace, steps := [start], [];
    }

    ghost method Take(b: Bounds, e: Step)
      requires Tracked(b) && Enabled(me, Now(), e)
      modifies this`trace, this`steps
      ensures Tracked(b) && old(trace) <= trace && Now() == Next(b, me, old(Now()), e) && Inv(me, Now())
    {
      hide IsRun, Enabled, Next, Inv;
      RunExtends(b, me, trace, steps, e);
      trace, steps := trace + [Next(b, me, Now(), e)], steps + [e];
      RunKeeps(b, me, trace, steps, |steps|);
    }

    /** Queues a batch under a new key, dropping the oldest over the bounds. */
    method Collect(clock: nat, key: string, batch: Batch, size: nat, written: bool, removes: nat) returns (ok: bool)
      requires Valid() && NextSeq(spool.lastSeq, clock) <= MAX_SEQ
      requires NewKey(Now().added, key)
      modifies this`trace, this`steps, spool
      ensures Valid() && old(trace) <= trace && Now().hand == old(Now()).hand
      ensures Now().added == if key != "" && written then old(Now()).added + [Entry(key, batch)] else old(Now()).added
      ensures key == "" || !written ==> !ok && Now() == old(Now())
      ensures |spool.q.items| <= |old(spool.q.items)| + 1
    {
      hide IsRun, Inv, Spool.Valid, Trim, Append, NextSeq;
      LastIsLast(spool);
      var dropped;
      ok, dropped := spool.Add(clock, key, batch, size, written, removes);
      if key != "" && written { Take(spool.bounds, AddBatch(clock, Entry(key, batch), size, removes)); }
    }

    /** The collector's turn, if the spool can still number files. */
    method Interleave(a: Arrival)
      requires Valid() && NewKey(Now().added, a.key)
      modifies this`trace, this`steps, spool
      ensures Valid() && old(trace) <= trace && Now().hand == old(Now()).hand
      ensures Grown(old(Now()).added, [a], Now().added) && |spool.q.items| <= |old(spool.q.items)| + 1
    {
      hide IsRun, Spool.Valid, NewKey;
      if NextSeq(spool.lastSeq, a.clock) <= MAX_SEQ {
        var ok := Collect(a.clock, a.key, a.batch, a.size, a.written, a.removes);
        assert [a][0].key == a.key;
      }
    }

    method InterleaveAll(xs: seq<Arrival>)
      requires Valid() && NewKeys(Now().added, xs)
      modifies this`trace, this`steps, spool
      ensures Valid() && old(trace) <= trace && Now().hand == old(Now()).hand
      ensures Grown(old(Now()).added, xs, Now().added)
      ensures xs == [] ==> spool.q == old(spool.q)
      ensures |spool.q.items| <= |old(spool.q.items)| + |xs|
      decreases |xs|
    {
      hide IsRun, Spool.Valid, NewKey, NewKeys;
      if xs != [] {
        FirstIsNew(Now().added, xs);
        Interleave(xs[0]);
        ghost var mid := Now().added;
        assert xs[..1] == [xs[0]];
        StillNew(old(Now()).added, xs, 1, mid);
        InterleaveAll(xs[1..]);
        GrownTwice(old(Now()).added, xs[0], mid, xs, Now().added);
      }
    }

    method Link(dials: bool) returns (ok: bool)
      modifies this`linked
      ensures ok <==> old(linked) || dials
      ensures linked == ok
    {
      if !linked { linked := dials; }
      ok := linked;
    }

    /** Counts a failure, and gives the link up after three in a row. */
    method Fail()
      modifies this`fails, this`linked
      ensures fails == old(fails) + 1 && linked == (old(linked) && fails < REBUILD_AFTER)
    {
      fails := fails + 1;
      if fails >= REBUILD_AFTER { linked := false; }
    }

    /** Sends the batch in hand; settled when the server answered that it is stored, or can never be. */
    method Send(e: Entry<Batch>, fate: Fate) returns (settled: bool)
      requires Tracked(spool.bounds) && Now().db == server.State() && Holding(Now(), e)
      modifies this`trace, this`steps, server
      ensures Tracked(spool.bounds) && old(trace) <= trace && Now().db == server.State() && Now().q == old(Now()).q
      ensures Now().added == old(Now()).added
      ensures settled <==> Now().hand.Some?
      ensures settled ==> Now().hand.value.seqno == old(Now()).hand.value.seqno && !Now().hand.value.verdict.Waiting?
      ensures settled ==> fate.Rejected? || Now().hand.value.ord in Now().log
      ensures server.hosts.Keys == old(server.hosts.Keys)
      ensures fate.Lost? ==> !settled && server.State() == old(server.State())
      ensures fate.Rejected? ==> settled && server.State() == old(server.State())
      ensures fate.Received? ==>
        var db := Store(old(server.State()), me, e.key, fate.at, e.batch, true).0;
        && (server.State() == db || (0 <= fate.failAt && server.State() == old(server.State())))
        && (settled ==> fate.heard && server.State() == db)
        && (fate.failAt < 0 && fate.heard && me in old(server.hosts) ==> settled)
    {
      hide IsRun, HandOk, FilesOk, LogOk, DocsOk, ClaimsOk, Accounted, Ahead, DistinctKeys;
      match fate
      case Lost =>
        Take(spool.bounds, FailSend);
        settled := false;
      case Rejected =>
        Take(spool.bounds, RefuseSend);
        settled := true;
      case Received(at, failAt, heard) =>
        var o := server.StoreBatch(me, e.key, at, e.batch, failAt);
        settled := heard && (o.Applied? || o.Replayed?);
        StoreAnswers(old(server.State()), me, e.key, at, e.batch, o != Failed);
        hide Store;
        Take(spool.bounds, Deliver(at, o != Failed, heard));
        if settled { HandLogged(me, Now()); }
    }

    /** Takes the oldest readable batch in hand. */
    method Pick(discards: nat) returns (found: Option<(nat, Entry<Batch>)>, read: bool)
      requires Valid() && Now().hand.None?
      modifies this`trace, this`steps, spool
      ensures Valid() && old(trace) <= trace && |spool.q.items| <= |old(spool.q.items)|
      ensures Now().added == old(Now()).added
      ensures found.None? ==> Now().hand.None? && (read ==> spool.q.items == [])
      ensures |old(spool.q.items)| <= discards ==> read
      ensures found.Some? ==>
        && read && Holding(Now(), found.value.1) && Now().hand.value.seqno == found.value.0
        && found.value.0 in spool.q.items && found.value.0 <= MAX_SEQ
    {
      hide IsRun, Inv, Peeked, PeekStep, Spool.Valid;
      found, read := spool.Peek(discards);
      Take(spool.bounds, PeekFront(discards));
      PeekedHand(me, old(Now()), discards);
      PeekedShorter(old(spool.q), discards);
      if spool.q.items != [] { FrontStands(spool); }
    }

    /** Removes the settled batch in hand from the spool, unless it was evicted meanwhile. */
    method Discard(seqno: nat, removes: bool) returns (gone: bool)
      requires Valid() && seqno <= MAX_SEQ
      requires Now().hand.Some? && Now().hand.value.seqno == seqno && !Now().hand.value.verdict.Waiting?
      modifies this`trace, this`steps, spool
      ensures Valid() && old(trace) <= trace && Now().hand.None? && Now().added == old(Now()).added
      ensures gone && seqno in old(spool.q.items) ==> |spool.q.items| < |old(spool.q.items)|
      ensures |spool.q.items| <= |old(spool.q.items)| && (removes ==> gone)
    {
      hide IsRun, Inv, Spool.Valid, Remove;
      gone := spool.RemoveEntry(seqno, removes);
      Take(spool.bounds, Finish(gone));
      RemovedShorter(old(spool.q), seqno);
    }

    /** Links, sends the batch in hand and removes it. */
    method Ship(a: Attempt, seqno: nat, e: Entry<Batch>, removes: bool) returns (gone: bool)
      requires Valid() && Holding(Now(), e) && Now().hand.value.seqno == seqno && seqno <= MAX_SEQ
      modifies this`trace, this`steps, this`linked, spool, server
      ensures Valid() && old(trace) <= trace && Now().hand.None? && Now().added == old(Now()).added
      ensures gone && seqno in old(spool.q.items) ==> |spool.q.items| < |old(spool.q.items)|
      ensures |spool.q.items| <= |old(spool.q.items)| && server.hosts.Keys == old(server.hosts.Keys)
      ensures Works(a) && removes && me in old(server.hosts) ==> gone
    {
      hide IsRun, Inv, Spool.Valid, Store;
      var up := Link(a.dials);
      if !up {
        Take(spool.bounds, FailSend);
        return false;
      }
      var settled := Send(e, a.fate);
      if !settled { return false; }
      gone := Discard(seqno, removes);
    }

    /** One round of the loop: peek, link, send, remove. Batches may be queued during the send. */
    method Round(a: Attempt, discards: nat, removes: bool, during: seq<Arrival>) returns (r: Progress)
      requires Valid() && Now().hand.None? && NewKeys(Now().added, during)
      modifies this, spool, server
      ensures Valid() && old(trace) <= trace && Now().hand.None? && Grown(old(Now()).added, during, Now().added)
      ensures r.Empty? ==> spool.q.items == [] && fails == 0
      ensures r.Failing? ==> fails == old(fails) + 1
      ensures r.Moved? ==> fails == if a.fate.Rejected? then old(fails) else 0
      ensures r.Moved? && during == [] ==> |spool.q.items| < |old(spool.q.items)|
      ensures |spool.q.items| <= |old(spool.q.items)| + |during| && server.hosts.Keys == old(server.hosts.Keys)
      ensures Works(a) && removes && me in old(server.hosts) && |old(spool.q.items)| <= discards ==> !r.Failing?
    {
      hide IsRun, Inv, Spool.Valid, NewKeys, Works;
      var found, read := Pick(discards);
      if found.None? {
        if read {
          fails := 0;
          return Empty;
        }
        Fail();
        return Failing;
      }
      var (seqno, e) := found.value;
      InterleaveAll(during);
      var gone := Ship(a, seqno, e, removes);
      if !gone {
        Fail();
        return Failing;
      }
      if !a.fate.Rejected? { fails := 0; }
      r := Moved;
    }

    /**
     Sends queued batches, oldest first, until the spool is empty or something fails.
     Meanwhile batches are queued: in the k-th round `some(k).0` of them before it and
     `some(k).1` during its send, as long as there are any. When every attempt works, the spool
     ends up empty.
     */
    method Drain(
        attempts: nat -> Attempt, discards: nat -> nat, removes: nat -> bool, arrivals: seq<Arrival>,
        some: nat -> (nat, nat)) returns (ok: bool)
      requires Valid() && Now().hand.None? && NewKeys(Now().added, arrivals)
      modifies this, spool, server
      ensures Valid() && old(trace) <= trace && Now().hand.None?
      ensures ok ==> spool.q.items == [] && fails == 0 && Settled(Now())
      ensures !ok ==> 0 < fails <= old(fails) + 1
      ensures me in old(server.hosts) && AllWork(attempts, discards, removes, |old(spool.q.items)| + |arrivals|) ==> ok
    {
      hide IsRun, Inv, Spool.Valid, NewKeys, NewKey, Grown, Works;
      var k, left := 0, arrivals;
      while true
        invariant Valid() && old(trace) <= trace && Now().hand.None?
        invariant fails <= old(fails) && NewKeys(Now().added, left)
        invariant |spool.q.items| + |left| <= |old(spool.q.items)| + |arrivals|
        invariant server.hosts.Keys == old(server.hosts.Keys)
        decreases |left|, |spool.q.items|
      {
        var m := Min(some(k).0, |left|);
        NewKeysPrefix(Now().added, left, m);
        ghost var before := Now().added;
        InterleaveAll(left[..m]);
        StillNew(before, left, m, Now().added);
        var rest := left[m..];
        var n := Min(some(k).1, |rest|);
        NewKeysPrefix(Now().added, rest, n);
        ghost var mid := Now().added;
        var r := Round(attempts(k), discards(k), removes(k), rest[..n]);
        if r.Empty? {
          RunKeeps(spool.bounds, me, trace, steps, |steps|);
          EmptyIsSettled(me, Now());
          return true;
        }
        if r.Failing? { return false; }
        StillNew(mid, rest, n, Now().added);
        left := rest[n..];
        k := k + 1;
      }
    }
  }

  // ----- backing off -----

  const BACKOFF_MIN := 1000
  const BACKOFF_MAX := 60_000

  lemma {:induction false} Pow2Grows(n: nat, m: nat)
    requires n <= m
    ensures Pow2(n) <= Pow2(m)
  {
    if n < m { Pow2Grows(n, m - 1); }
  }

  /** The wait before the n-th retry: one second doubling up to a minute, spread by a fifth either way. */
  method Backoff(n: int, jitter: real) returns (wait: real)
    requires 0.0 <= jitter < 1.0
    ensures var d := 1000 * Pow2(if n < 1 then 0 else n - 1);
      wait == (if d < BACKOFF_MAX then d else BACKOFF_MAX) as real * (0.8 + 0.4 * jitter)
    ensures 800.0 <= wait < 72000.0
  {
    var m := if n < 1 then 1 else n;
    var d, i := BACKOFF_MIN, 1;
    while i < m && d < BACKOFF_MAX
      invariant 1 <= i <= m && d == 1000 * Pow2(i - 1)
    {
      d, i := d * 2, i + 1;
    }
    Pow2Grows(i - 1, m - 1);
    Pow2Grows(0, m - 1);
    if d > BACKOFF_MAX { d := BACKOFF_MAX; }
    wait := d as real * (0.8 + 0.4 * jitter);
    Spread(d as real, jitter);
  }

  lemma Spread(d: real, jitter: real)
    requires 1000.0 <= d <= 60000.0 && 0.0 <= jitter < 1.0
    ensures 800.0 <= d * (0.8 + 0.4 * jitter) < 72000.0
  {
    var f := 0.8 + 0.4 * jitter;
    assert 1000.0 * f <= d * f <= 60000.0 * f;
  }
}
