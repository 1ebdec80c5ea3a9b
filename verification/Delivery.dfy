/**
 End-to-end delivery: the agent's spool and its retrying sender
 (internal/agent/spool/spool.go, internal/agent/sender.go) against the server's store. One
 agent, interleaved with crashes, lost answers, failed removals, evictions, damaged files,
 other hosts and the purge of idempotency rows. A send takes effect at most once, before
 it returns.
 */
module Delivery {
  import opened Wrappers
  import opened SpoolNames
  import opened SpoolQueue
  import opened Ingest

  /** What the sender knows of the batch in hand: no answer yet, stored (200), or never acceptable (400/413). */
  datatype Verdict = Waiting | Acknowledged | Refused

  /** The batch being sent: its file and the ordinal under which it was added. */
  datatype Hand = Hand(seqno: nat, ord: nat, verdict: Verdict)

  /**
   The spool, the batch in hand and the server's database; and what only the proofs
   remember: every batch ever added in order, the ordinal of each file, the ordinals the
   server applied, each deletion of a claim (its key, and how many applications preceded it),
   and the ordinals refused or dropped.
   */
  datatype System = System(
    q: Queue<Batch>, hand: Option<Hand>, db: Db,
    added: seq<Entry<Batch>>, ords: map<nat, nat>, log: seq<nat>,
    cuts: set<(nat, string)>, refused: set<nat>, dropped: set<nat>)

  datatype Step =
    | AddBatch(clock: nat, entry: Entry<Batch>, size: nat, removes: nat)
    | Damage(seqno: nat)
    | PeekFront(removes: nat)
    | Deliver(at: int, works: bool, answered: bool)
    | FailSend
    | RefuseSend
    | Finish(works: bool)
    | Crash(found: Queue<Batch>)
    | OtherHost(host: HostId, key: string, at: int, batch: Batch, works: bool)
    | PurgeClaims(keys: set<string>)

  // ----- steps -----

  /** The spool becomes `q'`, whose files are some of those `ords` names; the others are dropped. */
  function Settle(s: System, q': Queue<Batch>, ords: map<nat, nat>): System {
    s.(q := q', ords := map k | k in ords && k in q'.files :: ords[k],
       dropped := s.dropped + set k | k in ords && k !in q'.files :: ords[k])
  }

  function AddStep(b: Bounds, s: System, clock: nat, e: Entry<Batch>, size: nat, removes: nat): System {
    var full := Append(s.q, clock, File(size, Some(e)));
    Settle(s, Trim(b, full, removes), s.ords[full.last := |s.added|]).(added := s.added + [e])
  }

  function DamageStep(s: System, k: nat): System
    requires k in s.q.files
  {
    s.(q := s.q.(files := s.q.files[k := s.q.files[k].(body := None)]))
  }

  function PeekStep(s: System, removes: nat): System {
    var t := Settle(s, Peeked(s.q, removes), s.ords);
    if t.q.items != [] && t.q.items[0] in t.q.files && t.q.files[t.q.items[0]].body.Some? && t.q.items[0] in t.ords
    then t.(hand := Some(Hand(t.q.items[0], t.ords[t.q.items[0]], Waiting)))
    else t
  }

  function DeliverStep(me: HostId, s: System, at: int, works: bool, answered: bool): System
    requires s.hand.Some?
  {
    var h := s.hand.value;
    if h.ord >= |s.added| then s else
    var e := s.added[h.ord];
    var (db, o) := Store(s.db, me, e.key, at, e.batch, works);
    s.(db := db, log := if o.Applied? then s.log + [h.ord] else s.log,
       hand := if answered && (o.Applied? || o.Replayed?) then Some(h.(verdict := Acknowledged)) else None)
  }

  function FinishStep(s: System, works: bool): System
    requires s.hand.Some?
  {
    var h := s.hand.value;
    if !works then s.(hand := None)
    else
      var q' := Remove(s.q, h.seqno);
      s.(q := q', ords := map k | k in s.ords && k in q'.files :: s.ords[k], hand := None,
         refused := if h.verdict.Refused? then s.refused + {h.ord} else s.refused)
  }

  function PurgeStep(me: HostId, s: System, keys: set<string>): System {
    s.(db := s.db.(claims := map c | c in s.db.claims && !(c.0 == me && c.1 in keys) :: s.db.claims[c]),
       cuts := s.cuts + set k | k in keys && (me, k) in s.db.claims :: (|s.log|, k))
  }

  ghost predicate Enabled(me: HostId, s: System, e: Step) {
    match e
    case AddBatch(clock, entry, _, _) =>
      NextSeq(s.q.last, clock) <= MAX_SEQ && forall i :: 0 <= i < |s.added| ==> s.added[i].key != entry.key
    case Damage(k) => k in s.q.files
    case PeekFront(_) => s.hand.None?
    case Deliver(_, _, _) => s.hand.Some? && s.hand.value.verdict.Waiting?
    case FailSend => s.hand.Some? && s.hand.value.verdict.Waiting?
    case RefuseSend => s.hand.Some? && s.hand.value.verdict.Waiting?
    case Finish(_) => s.hand.Some? && !s.hand.value.verdict.Waiting?
    case Crash(found) => Reopened(s.q.files, found)
    case OtherHost(host, _, _, _, _) => host != me
    case PurgeClaims(_) => true
  }

  ghost function Next(b: Bounds, me: HostId, s: System, e: Step): System
    requires Enabled(me, s, e)
  {
    match e
    case AddBatch(clock, entry, size, removes) => AddStep(b, s, clock, entry, size, removes)
    case Damage(k) => DamageStep(s, k)
    case PeekFront(removes) => PeekStep(s, removes)
    case Deliver(at, works, answered) => DeliverStep(me, s, at, works, answered)
    case FailSend => s.(hand := None)
    case RefuseSend => s.(hand := Some(s.hand.value.(verdict := Refused)))
    case Finish(works) => FinishStep(s, works)
    case Crash(found) => s.(q := found, hand := None)
    case OtherHost(host, key, at, batch, works) => s.(db := Store(s.db, host, key, at, batch, works).0)
    case PurgeClaims(keys) => PurgeStep(me, s, keys)
  }

  // ----- the invariant -----

  /** Files stand in the order their batches were added, and hold them unless damaged. */
  ghost predicate FilesOk(q: Queue<Batch>, ords: map<nat, nat>, added: seq<Entry<Batch>>) {
    && Valid(q)
    && (forall k :: k in ords <==> k in q.files)
    && (forall k :: k in ords ==> ords[k] < |added|)
    && (forall a, b :: a in ords && b in ords && a < b ==> ords[a] < ords[b])
    && (forall k :: k in q.files && k in ords && q.files[k].body.Some? ==> q.files[k].body.value == added[ords[k]])
  }

  ghost predicate DistinctKeys(added: seq<Entry<Batch>>) {
    forall i, j :: 0 <= i < j < |added| ==> added[i].key != added[j].key
  }

  /** The claim of a key was deleted after the i-th application and before the j-th. */
  ghost predicate CutBetween(cuts: set<(nat, string)>, i: int, j: int, key: string) {
    exists p :: i < p <= j && (p, key) in cuts
  }

  /** Applications follow the order of adding; a repeat needs a deletion in between. */
  ghost predicate LogOk(log: seq<nat>, added: seq<Entry<Batch>>, cuts: set<(nat, string)>) {
    && (forall i :: 0 <= i < |log| ==> log[i] < |added|)
    && (forall i, j :: 0 <= i < j < |log| ==>
          log[i] < log[j] || (log[i] == log[j] && CutBetween(cuts, i, j, added[log[i]].key)))
  }

  /** Everything still to be sent comes after, or is, what was last applied. */
  ghost predicate Ahead(s: System) {
    && (forall i, k :: 0 <= i < |s.log| && k in s.ords ==> s.log[i] <= s.ords[k])
    && (s.hand.Some? ==> forall i :: 0 <= i < |s.log| ==> s.log[i] <= s.hand.value.ord)
  }

  ghost predicate HandOk(s: System) {
    s.hand.Some? ==>
      var h := s.hand.value;
      && h.ord < |s.added| && h.seqno <= s.q.last
      && (forall k :: k in s.ords ==> h.ord <= s.ords[k])
      && (h.seqno in s.ords ==> s.ords[h.seqno] == h.ord)
      && (h.verdict.Acknowledged? ==> h.ord in s.log)
  }

  /** The agent's claims are those of applied batches, less the deleted ones. */
  ghost predicate ClaimsOk(me: HostId, s: System) {
    && (forall i :: 0 <= i < |s.log| && s.log[i] < |s.added| ==>
          (me, s.added[s.log[i]].key) in s.db.claims || CutBetween(s.cuts, i, |s.log|, s.added[s.log[i]].key))
    && (forall key :: (me, key) in s.db.claims ==> WasApplied(s, key))
  }

  ghost predicate WasApplied(s: System, key: string) {
    exists i :: 0 <= i < |s.log| && s.log[i] < |s.added| && s.added[s.log[i]].key == key
  }

  /** No batch is lost: it is queued, applied, refused by the server, or dropped by the bounds or as unreadable. */
  ghost predicate Accounted(s: System) {
    forall o :: 0 <= o < |s.added| ==> Queued(s, o) || o in s.log || o in s.refused || o in s.dropped
  }

  ghost predicate Queued(s: System, o: nat) {
    exists k :: k in s.ords && s.ords[k] == o
  }

  /** The body of the last document of a kind in a batch. */
  function BodyOf(ds: seq<Document>, kind: string): Option<string> {
    if ds == [] then None
    else if ds[|ds| - 1].kind == kind then Some(ds[|ds| - 1].body)
    else BodyOf(ds[..|ds| - 1], kind)
  }

  /** The document of a kind in the last applied batch that carries one. */
  function Latest(log: seq<nat>, added: seq<Entry<Batch>>, kind: string): Option<string> {
    if log == [] then None
    else
      var o := log[|log| - 1];
      var body := if o < |added| then BodyOf(added[o].batch.documents, kind) else None;
      if body.Some? then body else Latest(log[..|log| - 1], added, kind)
  }

  function BodyIn(docs: map<(HostId, string), Stored>, host: HostId, kind: string): Option<string> {
    if (host, kind) in docs then Some(docs[(host, kind)].body) else None
  }

  ghost predicate DocsOk(me: HostId, s: System) {
    forall kind :: BodyIn(s.db.documents, me, kind) == Latest(s.log, s.added, kind)
  }

  ghost predicate Inv(me: HostId, s: System) {
    && FilesOk(s.q, s.ords, s.added) && DistinctKeys(s.added) && LogOk(s.log, s.added, s.cuts)
    && Ahead(s) && HandOk(s) && ClaimsOk(me, s) && Accounted(s) && DocsOk(me, s)
  }

  // ----- shrinking the spool -----

  ghost predicate Shrunk(a: Queue<Batch>, b: Queue<Batch>) {
    Valid(a) && a.last == b.last && forall k :: k in a.files ==> k in b.files && a.files[k] == b.files[k]
  }

  lemma {:induction false} TrimShrinks(b: Bounds, q: Queue<Batch>, removes: nat)
    requires Valid(q)
    ensures Shrunk(Trim(b, q, removes), q)
    decreases |q.items|
  {
    hide Valid, Over;
    if Over(b, q) && removes > 0 && q.items != [] {
      DropFrontKeeps(q);
      TrimShrinks(b, DropFront(q), removes - 1);
    } else {
      OverHasItems(b, q);
    }
  }

  lemma OverHasItems(b: Bounds, q: Queue<Batch>)
    ensures Over(b, q) ==> q.items != []
  {
  }

  lemma {:induction false} PeekedShrinks(q: Queue<Batch>, removes: nat)
    requires Valid(q)
    ensures Shrunk(Peeked(q, removes), q)
    decreases |q.items|
  {
    hide Valid;
    if q.items != [] && q.items[0] in q.files && q.files[q.items[0]].body.None? && removes > 0 {
      DropFrontKeeps(q);
      PeekedShrinks(DropFront(q), removes - 1);
    }
  }

  lemma ShrinkKeeps(me: HostId, s: System, q': Queue<Batch>)
    requires Inv(me, s) && Shrunk(q', s.q)
    ensures Inv(me, Settle(s, q', s.ords))
  {
    hide Valid, DistinctKeys, LogOk, DocsOk, Latest;
    var t := Settle(s, q', s.ords);
    forall o | 0 <= o < |t.added| ensures Queued(t, o) || o in t.log || o in t.refused || o in t.dropped {
      if Queued(s, o) {
        var k :| k in s.ords && s.ords[k] == o;
        if k in q'.files { assert k in t.ords && t.ords[k] == o; }
      }
    }
    assert DocsOk(me, t) by { SameDocs(me, s, t); }
    assert ClaimsOk(me, t) by { SameClaims(me, s, t); }
  }

  lemma SameDocs(me: HostId, s: System, t: System)
    requires DocsOk(me, s) && t.db.documents == s.db.documents && t.log == s.log && t.added == s.added
    ensures DocsOk(me, t)
  {
    hide Latest;
  }

  lemma SameClaims(me: HostId, s: System, t: System)
    requires ClaimsOk(me, s) && t.db.claims == s.db.claims && t.log == s.log && t.added == s.added && t.cuts == s.cuts
    ensures ClaimsOk(me, t)
  {
    forall key | (me, key) in t.db.claims ensures WasApplied(t, key) { assert WasApplied(s, key); }
  }

  // ----- adding -----

  lemma {:induction false} LatestLocal(log: seq<nat>, added: seq<Entry<Batch>>, e: Entry<Batch>, kind: string)
    requires forall i :: 0 <= i < |log| ==> log[i] < |added|
    ensures Latest(log, added + [e], kind) == Latest(log, added, kind)
  {
    hide BodyOf;
    if log != [] { LatestLocal(log[..|log| - 1], added, e, kind); }
  }

  /** The spool with the new batch appended, before anything is evicted. */
  function Extended(s: System, clock: nat, e: Entry<Batch>, size: nat): System {
    var full := Append(s.q, clock, File(size, Some(e)));
    s.(q := full, ords := s.ords[full.last := |s.added|], added := s.added + [e])
  }

  lemma ExtendedFiles(s: System, clock: nat, e: Entry<Batch>, size: nat)
    requires FilesOk(s.q, s.ords, s.added) && NextSeq(s.q.last, clock) <= MAX_SEQ
    ensures var t := Extended(s, clock, e, size); FilesOk(t.q, t.ords, t.added)
  {
    hide NextSeq;
    AppendKeeps(s.q, clock, File(size, Some(e)));
    NextIsNew(s.q, clock);
  }

  lemma NextIsNew(q: Queue<Batch>, clock: nat)
    ensures q.last < NextSeq(q.last, clock)
  {
  }

  lemma ExtendedAccount(s: System, t: System, n: nat, e: Entry<Batch>)
    requires Accounted(s) && n !in s.ords
    requires t == s.(q := t.q, ords := s.ords[n := |s.added|], added := s.added + [e])
    ensures Accounted(t)
  {
    forall o | 0 <= o < |t.added| ensures Queued(t, o) || o in t.log || o in t.refused || o in t.dropped {
      if o == |s.added| {
        assert n in t.ords && t.ords[n] == o;
      } else if Queued(s, o) {
        var k :| k in s.ords && s.ords[k] == o;
        assert k in t.ords && t.ords[k] == o;
      }
    }
  }

  lemma ExtendedRecords(me: HostId, s: System, t: System, e: Entry<Batch>)
    requires DistinctKeys(s.added) && LogOk(s.log, s.added, s.cuts) && ClaimsOk(me, s) && DocsOk(me, s)
    requires forall i :: 0 <= i < |s.added| ==> s.added[i].key != e.key
    requires t == s.(q := t.q, ords := t.ords, added := s.added + [e])
    ensures DistinctKeys(t.added) && LogOk(t.log, t.added, t.cuts) && ClaimsOk(me, t) && DocsOk(me, t)
  {
    hide Latest, CutBetween;
    forall kind ensures BodyIn(t.db.documents, me, kind) == Latest(t.log, t.added, kind) {
      LatestLocal(s.log, s.added, e, kind);
    }
    forall key | (me, key) in t.db.claims ensures WasApplied(t, key) {
      assert WasApplied(s, key);
      var i :| 0 <= i < |s.log| && s.log[i] < |s.added| && s.added[s.log[i]].key == key;
      assert t.added[t.log[i]].key == key;
    }
  }

  lemma ExtendedKeeps(me: HostId, s: System, clock: nat, e: Entry<Batch>, size: nat)
    requires Inv(me, s) && NextSeq(s.q.last, clock) <= MAX_SEQ
    requires forall i :: 0 <= i < |s.added| ==> s.added[i].key != e.key
    ensures Inv(me, Extended(s, clock, e, size))
  {
    hide Valid, DistinctKeys, DocsOk, NextSeq, Accounted, ClaimsOk;
    var t := Extended(s, clock, e, size);
    ExtendedFiles(s, clock, e, size);
    NextIsNew(s.q, clock);
    AppendKeeps(s.q, clock, File(size, Some(e)));
    ExtendedAccount(s, t, t.q.last, e);
    ExtendedRecords(me, s, t, e);
  }

  lemma AddKeeps(b: Bounds, me: HostId, s: System, clock: nat, e: Entry<Batch>, size: nat, removes: nat)
    requires Inv(me, s) && NextSeq(s.q.last, clock) <= MAX_SEQ
    requires forall i :: 0 <= i < |s.added| ==> s.added[i].key != e.key
    ensures Inv(me, AddStep(b, s, clock, e, size, removes))
  {
    hide Inv, Trim, Append, Shrunk;
    var t := Extended(s, clock, e, size);
    ExtendedKeeps(me, s, clock, e, size);
    InvQueue(me, t);
    TrimShrinks(b, t.q, removes);
    ShrinkKeeps(me, t, Trim(b, t.q, removes));
    assert AddStep(b, s, clock, e, size, removes) == Settle(t, Trim(b, t.q, removes), t.ords);
  }

  lemma InvQueue(me: HostId, s: System)
    requires Inv(me, s)
    ensures Valid(s.q)
  {
  }

  // ----- sending -----

  lemma PeekKeeps(me: HostId, s: System, removes: nat)
    requires Inv(me, s) && s.hand.None?
    ensures Inv(me, PeekStep(s, removes))
  {
    hide Peeked, Settle, Shrunk, Latest, DistinctKeys;
    InvQueue(me, s);
    PeekedShrinks(s.q, removes);
    ShrinkKeeps(me, s, Peeked(s.q, removes));
    var t := Settle(s, Peeked(s.q, removes), s.ords);
    var u := PeekStep(s, removes);
    if u != t {
      FrontIsFirst(t);
      SameDocs(me, t, u);
      SameClaims(me, t, u);
      SameAccount(t, u);
    }
  }

  lemma FrontIsFirst(s: System)
    requires FilesOk(s.q, s.ords, s.added) && s.q.items != []
    ensures s.q.items[0] in s.ords && s.q.items[0] <= s.q.last
    ensures forall k :: k in s.ords ==> s.ords[s.q.items[0]] <= s.ords[k]
  {
    var front := s.q.items[0];
    assert front in s.q.items;
    forall k | k in s.ords ensures s.ords[front] <= s.ords[k] {
      assert k in s.q.items;
      FirstAtMost(s.q.items, k);
    }
  }

  lemma SameAccount(s: System, t: System)
    requires Accounted(s) && t.added == s.added && t.ords == s.ords && t.log == s.log
    requires t.refused == s.refused && t.dropped == s.dropped
    ensures Accounted(t)
  {
    forall o | 0 <= o < |t.added| ensures Queued(t, o) || o in t.log || o in t.refused || o in t.dropped {
      if Queued(s, o) {
        var k :| k in s.ords && s.ords[k] == o;
        assert k in t.ords && t.ords[k] == o;
      }
    }
  }

  lemma {:induction false} PutBodies(
      docs: map<(HostId, string), Stored>, host: HostId, at: int, ds: seq<Document>, h: HostId,
      kind: string)
    ensures BodyIn(PutAll(docs, host, at, ds), h, kind)
         == if h == host && BodyOf(ds, kind).Some? then BodyOf(ds, kind) else BodyIn(docs, h, kind)
  {
    if ds != [] { PutBodies(docs, host, at, ds[..|ds| - 1], h, kind); }
  }

  lemma AppliedRecords(me: HostId, s: System, t: System, at: int, o: nat)
    requires ClaimsOk(me, s) && DocsOk(me, s) && o < |s.added|
    requires t.log == s.log + [o] && t.added == s.added && t.cuts == s.cuts
    requires t.db.claims == s.db.claims[(me, s.added[o].key) := at]
    requires t.db.documents == PutAll(s.db.documents, me, at, s.added[o].batch.documents)
    ensures ClaimsOk(me, t) && DocsOk(me, t)
  {
    hide Latest, PutAll, BodyOf;
    forall kind ensures BodyIn(t.db.documents, me, kind) == Latest(t.log, t.added, kind) {
      PutBodies(s.db.documents, me, at, s.added[o].batch.documents, me, kind);
      LatestGrows(s.log, s.added, o, kind);
    }
    forall key | (me, key) in t.db.claims ensures WasApplied(t, key) {
      if key == s.added[o].key {
        assert t.log[|s.log|] == o;
      } else {
        assert WasApplied(s, key);
        var i :| 0 <= i < |s.log| && s.log[i] < |s.added| && s.added[s.log[i]].key == key;
        assert t.log[i] == s.log[i];
      }
    }
  }

  lemma AppliedAccount(s: System, t: System, o: nat)
    requires Accounted(s) && t.log == s.log + [o] && t.added == s.added && t.ords == s.ords
    requires t.refused == s.refused && t.dropped == s.dropped
    ensures Accounted(t)
  {
    forall p | 0 <= p < |t.added| ensures Queued(t, p) || p in t.log || p in t.refused || p in t.dropped {
      if Queued(s, p) {
        var k :| k in s.ords && s.ords[k] == p;
        assert k in t.ords && t.ords[k] == p;
      }
    }
  }

  /** The agent's own batch is applied: the log grows in order and the documents follow. */
  lemma ApplyKeeps(me: HostId, s: System, at: int, t: System)
    requires Inv(me, s) && s.hand.Some? && (me, s.added[s.hand.value.ord].key) !in s.db.claims && me in s.db.hosts
    requires var e := s.added[s.hand.value.ord];
      t == s.(db := Store(s.db, me, e.key, at, e.batch, true).0, log := s.log + [s.hand.value.ord], hand := t.hand)
    requires t.hand == None || t.hand == Some(s.hand.value.(verdict := Acknowledged))
    ensures Inv(me, t)
  {
    hide Valid, DistinctKeys, DocsOk, Accounted, Records, PutAll, Ingest.Accepted;
    var o := s.hand.value.ord;
    forall i | 0 <= i < |s.log|
      ensures s.log[i] < o || (s.log[i] == o && CutBetween(s.cuts, i, |s.log|, s.added[o].key))
    {
      assert s.log[i] <= o;
    }
    AppliedRecords(me, s, t, at, o);
    AppliedAccount(s, t, o);
  }

  lemma LatestGrows(log: seq<nat>, added: seq<Entry<Batch>>, o: nat, kind: string)
    requires o < |added|
    ensures Latest(log + [o], added, kind)
         == var body := BodyOf(added[o].batch.documents, kind); if body.Some? then body else Latest(log, added, kind)
  {
    hide BodyOf;
    assert (log + [o])[..|log|] == log;
  }

  lemma HandChanges(me: HostId, s: System, t: System)
    requires Inv(me, s) && t == s.(hand := t.hand) && HandOk(t)
    requires t.hand.Some? ==> s.hand.Some? && t.hand.value.ord == s.hand.value.ord
    ensures Inv(me, t)
  {
    hide Valid, DistinctKeys, LogOk, Latest;
    SameDocs(me, s, t);
    SameClaims(me, s, t);
    SameAccount(s, t);
  }

  lemma DeliverKeeps(me: HostId, s: System, at: int, works: bool, answered: bool)
    requires Inv(me, s) && s.hand.Some?
    ensures s.hand.value.ord < |s.added| && Inv(me, DeliverStep(me, s, at, works, answered))
  {
    hide Valid, DistinctKeys, LogOk, DocsOk, Records, PutAll, Ingest.Accepted, Ahead, Accounted;
    var h := s.hand.value;
    var e := s.added[h.ord];
    var t := DeliverStep(me, s, at, works, answered);
    var o := Store(s.db, me, e.key, at, e.batch, works).1;
    if o.Applied? {
      ApplyKeeps(me, s, at, t);
    } else {
      assert t == s.(hand := t.hand);
      if o.Replayed? {
        assert WasApplied(s, e.key);
        var i :| 0 <= i < |s.log| && s.log[i] < |s.added| && s.added[s.log[i]].key == e.key;
        SameKey(s.added, s.log[i], h.ord);
        assert h.ord in s.log;
      }
      HandChanges(me, s, t);
    }
  }

  lemma SameKey(added: seq<Entry<Batch>>, i: nat, j: nat)
    requires DistinctKeys(added) && i < |added| && j < |added| && added[i].key == added[j].key
    ensures i == j
  {
    assert i < j || j < i || i == j;
  }

  // ----- removing, crashing and the rest -----

  lemma RemovedFiles(q: Queue<Batch>, k: nat, x: nat)
    requires Valid(q)
    ensures x in Remove(q, k).files <==> x in q.files && x != k
    ensures x in Remove(q, k).files ==> Remove(q, k).files[x] == q.files[x]
  {
    assert k in q.items <==> k in q.files;
  }

  lemma FinishKeeps(me: HostId, s: System, works: bool)
    requires Inv(me, s) && s.hand.Some? && !s.hand.value.verdict.Waiting?
    ensures Inv(me, FinishStep(s, works))
  {
    hide Valid, DistinctKeys, LogOk, Latest, Remove;
    var h, t := s.hand.value, FinishStep(s, works);
    SameDocs(me, s, t);
    SameClaims(me, s, t);
    if works {
      RemoveKeeps(s.q, h.seqno);
      forall x ensures x in t.q.files <==> x in s.q.files && x != h.seqno { RemovedFiles(s.q, h.seqno, x); }
      forall x | x in t.q.files ensures t.q.files[x] == s.q.files[x] { RemovedFiles(s.q, h.seqno, x); }
      forall o | 0 <= o < |t.added| ensures Queued(t, o) || o in t.log || o in t.refused || o in t.dropped {
        if Queued(s, o) {
          var k :| k in s.ords && s.ords[k] == o;
          if k != h.seqno { assert k in t.ords && t.ords[k] == o; }
        }
      }
    } else {
      SameAccount(s, t);
    }
  }

  lemma CrashKeeps(me: HostId, s: System, found: Queue<Batch>)
    requires Inv(me, s) && Reopened(s.q.files, found)
    ensures Inv(me, s.(q := found, hand := None)) && found.items == s.q.items
  {
    hide Valid, DistinctKeys, LogOk, Latest;
    var t := s.(q := found, hand := None);
    ReopenRestores(s.q, found);
    SameDocs(me, s, t);
    SameClaims(me, s, t);
    SameAccount(s, t);
    ReopenedValid(s.q.files, found);
  }

  lemma ReopenedValid(files: map<nat, File<Batch>>, q: Queue<Batch>)
    requires Reopened(files, q)
    ensures Valid(q)
  {
  }

  lemma DamageKeeps(me: HostId, s: System, k: nat)
    requires Inv(me, s) && k in s.q.files
    ensures Inv(me, DamageStep(s, k))
  {
    hide DistinctKeys, LogOk, Latest;
    var t := DamageStep(s, k);
    SameDocs(me, s, t);
    SameClaims(me, s, t);
    SameAccount(s, t);
  }

  lemma OtherHostKeeps(me: HostId, s: System, host: HostId, key: string, at: int, batch: Batch, works: bool)
    requires Inv(me, s) && host != me
    ensures Inv(me, s.(db := Store(s.db, host, key, at, batch, works).0))
  {
    hide Valid, DistinctKeys, LogOk, Latest, Records, PutAll, Ingest.Accepted;
    var t := s.(db := Store(s.db, host, key, at, batch, works).0);
    SameAccount(s, t);
    forall kind ensures BodyIn(t.db.documents, me, kind) == Latest(t.log, t.added, kind) {
      PutBodies(s.db.documents, host, at, batch.documents, me, kind);
    }
    forall key' | (me, key') in t.db.claims ensures WasApplied(t, key') {
      assert (me, key') in s.db.claims;
      assert WasApplied(s, key');
    }
  }

  lemma CutsGrow(log: seq<nat>, added: seq<Entry<Batch>>, cuts: set<(nat, string)>, more: set<(nat, string)>)
    requires LogOk(log, added, cuts) && cuts <= more
    ensures LogOk(log, added, more)
  {
    hide CutBetween;
    forall i, j, key | CutBetween(cuts, i, j, key)
      ensures CutBetween(more, i, j, key)
    {
      CutStays(cuts, more, i, j, key);
    }
  }

  lemma CutStays(cuts: set<(nat, string)>, more: set<(nat, string)>, i: int, j: int, key: string)
    requires CutBetween(cuts, i, j, key) && cuts <= more
    ensures CutBetween(more, i, j, key)
  {
  }

  lemma PurgeKeeps(me: HostId, s: System, keys: set<string>)
    requires Inv(me, s)
    ensures Inv(me, PurgeStep(me, s, keys))
  {
    hide Valid, DistinctKeys, Latest, LogOk, CutBetween;
    var t := PurgeStep(me, s, keys);
    SameDocs(me, s, t);
    SameAccount(s, t);
    CutsGrow(s.log, s.added, s.cuts, t.cuts);
    forall key | (me, key) in t.db.claims ensures WasApplied(t, key) { assert WasApplied(s, key); }
    forall i | 0 <= i < |t.log| && t.log[i] < |t.added|
      ensures (me, t.added[t.log[i]].key) in t.db.claims || CutBetween(t.cuts, i, |t.log|, t.added[t.log[i]].key)
    {
      var key := s.added[s.log[i]].key;
      if (me, key) in s.db.claims {
        if key in keys { NewCut(t.cuts, i, |s.log|, key); }
      } else {
        CutStays(s.cuts, t.cuts, i, |s.log|, key);
      }
    }
  }

  lemma NewCut(cuts: set<(nat, string)>, i: nat, j: nat, key: string)
    requires i < j && (j, key) in cuts
    ensures CutBetween(cuts, i, j, key)
  {
  }

  /** Every step keeps the invariant. */
  lemma StepKeeps(b: Bounds, me: HostId, s: System, e: Step)
    requires Inv(me, s) && Enabled(me, s, e)
    ensures Inv(me, Next(b, me, s, e))
  {
    hide Inv, AddStep, DamageStep, PeekStep, DeliverStep, FinishStep, PurgeStep, Store, Reopened, NextSeq;
    match e
    case AddBatch(clock, entry, size, removes) => AddKeeps(b, me, s, clock, entry, size, removes);
    case Damage(k) => DamageKeeps(me, s, k);
    case PeekFront(removes) => PeekKeeps(me, s, removes);
    case Deliver(at, works, answered) => DeliverKeeps(me, s, at, works, answered);
    case FailSend => NoHand(me, s);
    case RefuseSend => RefusedHand(me, s);
    case Finish(works) => FinishKeeps(me, s, works);
    case Crash(found) => CrashKeeps(me, s, found);
    case OtherHost(host, key, at, batch, works) => OtherHostKeeps(me, s, host, key, at, batch, works);
    case PurgeClaims(keys) => PurgeKeeps(me, s, keys);
  }

  lemma NoHand(me: HostId, s: System)
    requires Inv(me, s)
    ensures Inv(me, s.(hand := None))
  {
    hide Inv;
    HandChanges(me, s, s.(hand := None));
  }

  lemma RefusedHand(me: HostId, s: System)
    requires Inv(me, s) && s.hand.Some?
    ensures Inv(me, s.(hand := Some(s.hand.value.(verdict := Refused))))
  {
    hide FilesOk, DistinctKeys, LogOk, DocsOk, ClaimsOk, Accounted, Ahead;
    HandChanges(me, s, s.(hand := Some(s.hand.value.(verdict := Refused))));
  }

  // ----- whole runs -----

  /** The server knows nothing of the agent yet, and the agent has queued nothing. */
  ghost predicate Start(me: HostId, s: System) {
    && s.q == Queue(map[], [], 0) && s.hand.None? && s.added == [] && s.ords == map[] && s.log == []
    && s.cuts == {} && s.refused == {} && s.dropped == {}
    && (forall key :: (me, key) !in s.db.claims) && (forall kind :: (me, kind) !in s.db.documents)
  }

  /** `trace` is a run: it starts fresh and each state follows from the one before by an enabled step. */
  ghost predicate IsRun(b: Bounds, me: HostId, trace: seq<System>, steps: seq<Step>) {
    && |trace| == |steps| + 1 && Start(me, trace[0])
    && forall i :: 0 <= i < |steps| ==>
         Enabled(me, trace[i], steps[i]) && trace[i + 1] == Next(b, me, trace[i], steps[i])
  }

  lemma {:induction false} RunKeeps(b: Bounds, me: HostId, trace: seq<System>, steps: seq<Step>, n: nat)
    requires IsRun(b, me, trace, steps) && n < |trace|
    ensures Inv(me, trace[n])
  {
    if n == 0 {
      assert trace[0].q.items == [];
    } else {
      RunKeeps(b, me, trace, steps, n - 1);
      hide Inv, Enabled, Next;
      StepKeeps(b, me, trace[n - 1], steps[n - 1]);
    }
  }

  /**
   At every point of every run the server has applied the agent's batches in the order
   they were added; a batch is applied again only after its claim was deleted in between.
   */
  lemma AppliedInOrder(b: Bounds, me: HostId, trace: seq<System>, steps: seq<Step>, n: nat)
    requires IsRun(b, me, trace, steps) && n < |trace|
    ensures var s := trace[n];
      forall i, j :: 0 <= i < j < |s.log| ==>
        && s.log[i] < |s.added|
        && (s.log[i] < s.log[j] || (s.log[i] == s.log[j] && CutBetween(s.cuts, i, j, s.added[s.log[i]].key)))
  {
    hide IsRun;
    RunKeeps(b, me, trace, steps, n);
  }

  lemma {:induction false} NothingCut(b: Bounds, me: HostId, trace: seq<System>, steps: seq<Step>, n: nat)
    requires IsRun(b, me, trace, steps) && n < |trace| && forall i :: 0 <= i < n ==> !steps[i].PurgeClaims?
    ensures trace[n].cuts == {}
  {
    hide Enabled, Peeked, Trim, Append, Remove, Store;
    if n > 0 { NothingCut(b, me, trace, steps, n - 1); }
  }

  /** Until idempotency rows are purged, every batch is applied at most once, in the order of adding. */
  lemma AppliedOnce(b: Bounds, me: HostId, trace: seq<System>, steps: seq<Step>, n: nat)
    requires IsRun(b, me, trace, steps) && n < |trace| && forall i :: 0 <= i < n ==> !steps[i].PurgeClaims?
    ensures forall i, j :: 0 <= i < j < |trace[n].log| ==> trace[n].log[i] < trace[n].log[j]
  {
    hide IsRun;
    NothingCut(b, me, trace, steps, n);
    AppliedInOrder(b, me, trace, steps, n);
  }

  // ----- why a batch was refused or dropped -----

  /** A file of the queue that another queue lacks stands before all of that queue's. */
  lemma DroppedAt(q: Queue<Batch>, k: nat, r: Queue<Batch>, x: nat) returns (j: nat)
    requires Valid(q) && Shorter(q, k, r) && x in q.files && x !in r.files
    ensures j < k && q.items[j] == x
  {
    hide Rising;
    forall i | k <= i < |q.items| ensures q.items[i] in r.items { assert r.items[i - k] == q.items[i]; }
    assert x in q.items;
    j :| 0 <= j < |q.items| && q.items[j] == x;
  }

  /** The file of the batch cannot be read. */
  ghost predicate Unreadable(s: System, o: nat) {
    exists k :: k in s.ords && s.ords[k] == o && k in s.q.files && s.q.files[k].body.None?
  }

  /** With a file of this size added, the batch and those after it are too many, or too large together. */
  ghost predicate Crowded(b: Bounds, s: System, size: nat, o: nat) {
    exists j :: 0 <= j < |s.q.items| && s.q.items[j] in s.ords && s.ords[s.q.items[j]] == o
      && (|s.q.items| + 1 - j > b.maxBatches || Bytes(s.q.files, s.q.items[j..]) + size > b.maxBytes)
  }

  ghost predicate DropCause(b: Bounds, s: System, e: Step, o: nat) {
    (e.PeekFront? && Unreadable(s, o)) || (e.AddBatch? && Crowded(b, s, e.size, o))
  }

  lemma PeekCause(s: System, removes: nat, o: nat)
    requires FilesOk(s.q, s.ords, s.added) && o in PeekStep(s, removes).dropped && o !in s.dropped
    ensures Unreadable(s, o)
  {
    hide Valid, Peeked, Shorter;
    var k :| k in s.ords && k !in Peeked(s.q, removes).files && s.ords[k] == o;
    var n := PeekDropsUnreadable(s.q, removes);
    var j := DroppedAt(s.q, n, Peeked(s.q, removes), k);
  }

  lemma AddCause(b: Bounds, s: System, clock: nat, e: Entry<Batch>, size: nat, removes: nat, o: nat)
    requires FilesOk(s.q, s.ords, s.added) && NextSeq(s.q.last, clock) <= MAX_SEQ
    requires o in AddStep(b, s, clock, e, size, removes).dropped && o !in s.dropped
    ensures Crowded(b, s, size, o)
  {
    hide Valid, Trim, Bytes, Shorter, NextSeq;
    var full := Append(s.q, clock, File(size, Some(e)));
    var ords := s.ords[full.last := |s.added|];
    var r := Trim(b, full, removes);
    AppendKeeps(s.q, clock, File(size, Some(e)));
    var k :| k in ords && k !in r.files && ords[k] == o;
    var n := TrimDropsShortestPrefix(b, full, removes);
    var j := DroppedAt(full, n, r, k);
    assert |full.items| - j > 1 && (|full.items| - j > b.maxBatches || Bytes(full.files, full.items[j..]) > b.maxBytes);
    AppendedBytes(s.q, full, size, j);
    assert full.items[j] == s.q.items[j] && k != full.last;
  }

  lemma AppendedBytes(q: Queue<Batch>, full: Queue<Batch>, size: nat, j: nat)
    requires Valid(q) && j <= |q.items| && full.last !in q.files && full.items == q.items + [full.last]
    requires full.last in full.files && full.files == q.files[full.last := full.files[full.last]]
    requires full.files[full.last].size == size
    ensures Bytes(full.files, full.items[j..]) == Bytes(q.files, q.items[j..]) + size
    ensures j < |q.items| ==> q.items[j] != full.last
  {
    hide Bytes, Rising;
    assert full.items[j..] == q.items[j..] + [full.last];
    BytesAppend(full.files, q.items[j..], full.last);
    BytesLocal(full.files, q.files, q.items[j..]);
  }

  lemma StepCause(b: Bounds, me: HostId, s: System, e: Step, o: nat)
    requires Inv(me, s) && Enabled(me, s, e) && o in Next(b, me, s, e).dropped && o !in s.dropped
    ensures DropCause(b, s, e, o)
  {
    hide Valid, Peeked, Trim, Store, Crowded, Unreadable, FilesOk, LogOk, Ahead, ClaimsOk, Accounted, DocsOk, HandOk;
    match e
    case AddBatch(clock, entry, size, removes) => hide AddStep; AddCause(b, s, clock, entry, size, removes, o);
    case PeekFront(removes) => hide PeekStep; PeekCause(s, removes, o);
    case _ =>
  }

  /** A batch is dropped only when its file cannot be read, or when a new one makes it one too many or too large. */
  lemma {:induction false} DroppedForCause(
      b: Bounds, me: HostId, trace: seq<System>, steps: seq<Step>, n: nat, o: nat) returns (i: nat)
    requires IsRun(b, me, trace, steps) && n < |trace| && o in trace[n].dropped
    ensures i < n && DropCause(b, trace[i], steps[i], o)
  {
    hide Enabled, Next, DropCause;
    assert 0 < n;
    if o in trace[n - 1].dropped {
      i := DroppedForCause(b, me, trace, steps, n - 1, o);
    } else {
      i := n - 1;
      RunKeeps(b, me, trace, steps, n - 1);
      hide Inv;
      StepCause(b, me, trace[i], steps[i], o);
    }
  }

  /** The server refused the batch in one of these steps. */
  ghost predicate RefusedIn(trace: seq<System>, steps: seq<Step>, n: nat, o: nat) {
    exists i :: 0 <= i < n && i < |steps| && i < |trace|
      && steps[i].RefuseSend? && trace[i].hand.Some? && trace[i].hand.value.ord == o
  }

  lemma StepRefuses(b: Bounds, me: HostId, s: System, e: Step, o: nat)
    requires Enabled(me, s, e)
    requires var t := Next(b, me, s, e);
      o in t.refused || (t.hand.Some? && t.hand.value.verdict.Refused? && t.hand.value.ord == o)
    ensures || o in s.refused
      || (s.hand.Some? && s.hand.value.ord == o && (s.hand.value.verdict.Refused? || e.RefuseSend?))
  {
    hide Peeked, Trim, Store, Append, NextSeq, Reopened, Remove;
  }

  /** A batch counts as refused only after the server refused it. */
  lemma {:induction false} RefusedByServer(
      b: Bounds, me: HostId, trace: seq<System>, steps: seq<Step>, n: nat, o: nat)
    requires IsRun(b, me, trace, steps) && n < |trace|
    requires var s := trace[n];
      o in s.refused || (s.hand.Some? && s.hand.value.verdict.Refused? && s.hand.value.ord == o)
    ensures RefusedIn(trace, steps, n, o)
  {
    hide Enabled, Next;
    if n > 0 {
      var s := trace[n - 1];
      StepRefuses(b, me, s, steps[n - 1], o);
      if o in s.refused || (s.hand.Some? && s.hand.value.verdict.Refused? && s.hand.value.ord == o) {
        RefusedByServer(b, me, trace, steps, n - 1, o);
      }
    }
  }

  /**
   No batch is lost: what is neither queued nor applied was refused by the server, could not be
   read, or was one too many or too large when another was added.
   */
  lemma NothingLost(b: Bounds, me: HostId, trace: seq<System>, steps: seq<Step>, n: nat, o: nat)
    requires IsRun(b, me, trace, steps) && n < |trace| && o < |trace[n].added|
    ensures var s := trace[n];
      || (exists k :: k in s.ords && k in s.q.files && s.ords[k] == o)
      || o in s.log
      || RefusedIn(trace, steps, n, o)
      || exists i :: 0 <= i < n && DropCause(b, trace[i], steps[i], o)
  {
    hide IsRun, DropCause, RefusedIn;
    RunKeeps(b, me, trace, steps, n);
    var s := trace[n];
    assert Queued(s, o) || o in s.log || o in s.refused || o in s.dropped;
    if Queued(s, o) {
      var k :| k in s.ords && s.ords[k] == o;
      assert k in s.q.files;
    }
    if o in s.refused { RefusedByServer(b, me, trace, steps, n, o); }
    if o in s.dropped { var i := DroppedForCause(b, me, trace, steps, n, o); }
  }

  // ----- what applied batches leave behind -----

  /** The server has a record of the agent for each key of each applied batch. */
  ghost predicate RecordsOk(me: HostId, s: System) {
    && WellKeyed(s.db.records)
    && forall o, r :: o in s.log && o < |s.added| && r in All(s.added[o].batch) ==> HasKey(s.db.records, me, r)
  }

  lemma DeliverRecords(me: HostId, s: System, at: int, works: bool, answered: bool)
    requires s.hand.Some? && RecordsOk(me, s) && forall i :: 0 <= i < |s.log| ==> s.log[i] < |s.added|
    ensures RecordsOk(me, DeliverStep(me, s, at, works, answered))
  {
    hide WellKeyed, HasKey, All, Store;
    var h := s.hand.value;
    if h.ord < |s.added| { StoreHasKeys(s.db, me, s.added[h.ord].key, at, s.added[h.ord].batch, works); }
  }

  lemma StepRecords(b: Bounds, me: HostId, s: System, e: Step)
    requires Inv(me, s) && Enabled(me, s, e) && RecordsOk(me, s)
    ensures RecordsOk(me, Next(b, me, s, e))
  {
    hide WellKeyed, HasKey, All, Store, Peeked, Trim, Append, Remove, NextSeq, Reopened;
    hide FilesOk, Ahead, HandOk, ClaimsOk, Accounted, DocsOk, DistinctKeys;
    match e
    case Deliver(at, works, answered) => hide DeliverStep; DeliverRecords(me, s, at, works, answered);
    case OtherHost(host, key, at, batch, works) => StoreHasKeys(s.db, host, key, at, batch, works);
    case _ =>
  }

  /**
   End to end: at every point of every run, each record of an applied batch is on the server,
   itself or an earlier one of the agent with the same key.
   */
  lemma {:induction false} AppliedIsStored(b: Bounds, me: HostId, trace: seq<System>, steps: seq<Step>, n: nat)
    requires IsRun(b, me, trace, steps) && n < |trace| && WellKeyed(trace[0].db.records)
    ensures WellKeyed(trace[n].db.records)
    ensures forall o, r :: o in trace[n].log && o < |trace[n].added| && r in All(trace[n].added[o].batch) ==>
      HasKey(trace[n].db.records, me, r)
  {
    hide Enabled, Next, WellKeyed, All, HasKey;
    if n > 0 {
      AppliedIsStored(b, me, trace, steps, n - 1);
      RunKeeps(b, me, trace, steps, n - 1);
      hide Inv;
      StepRecords(b, me, trace[n - 1], steps[n - 1]);
    }
  }

  lemma {:induction false} LatestIsNewest(
      log: seq<nat>, added: seq<Entry<Batch>>, cuts: set<(nat, string)>, kind: string) returns (o: nat)
    requires LogOk(log, added, cuts) && Latest(log, added, kind).Some?
    ensures o in log && o < |added| && BodyOf(added[o].batch.documents, kind) == Latest(log, added, kind)
    ensures forall p :: p in log && p < |added| && BodyOf(added[p].batch.documents, kind).Some? ==> p <= o
  {
    hide BodyOf;
    var n := |log| - 1;
    o := log[n];
    if BodyOf(added[o].batch.documents, kind).None? {
      o := LatestIsNewest(log[..n], added, cuts, kind);
      assert log == log[..n] + [log[n]];
    }
  }

  /** A stored document is the one of the newest applied batch that carries its kind, whatever claims were deleted. */
  lemma DocumentIsNewest(
      b: Bounds, me: HostId, trace: seq<System>, steps: seq<Step>, n: nat, kind: string) returns (o: nat)
    requires IsRun(b, me, trace, steps) && n < |trace| && (me, kind) in trace[n].db.documents
    ensures var s := trace[n];
      && o in s.log && o < |s.added|
      && BodyOf(s.added[o].batch.documents, kind) == Some(s.db.documents[(me, kind)].body)
      && forall p :: p in s.log && p < |s.added| && BodyOf(s.added[p].batch.documents, kind).Some? ==> p <= o
  {
    hide IsRun, BodyOf, Latest;
    RunKeeps(b, me, trace, steps, n);
    var s := trace[n];
    assert BodyIn(s.db.documents, me, kind) == Latest(s.log, s.added, kind);
    o := LatestIsNewest(s.log, s.added, s.cuts, kind);
  }
}
