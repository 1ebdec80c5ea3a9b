/**
 The server's side of delivery (internal/telemetry/infrastructure/store.go and
 application/ingest.go): a batch is stored atomically and once per idempotency key, and
 exactly its new records are published.
 */
module Ingest {
  import opened Wrappers

  type HostId = string

  datatype Record =
    | Metric(name: string, labels: string, ts: int, value: real)
    | Check(name: string, ts: int, status: string, meta: string)
    | Event(ts: int, level: string, message: string, labels: string)

  /** The primary keys of `metrics`, `checks` and `events`. */
  datatype Identity =
    | MetricId(host: HostId, name: string, labels: string, ts: int)
    | CheckId(host: HostId, name: string, ts: int)
    | EventId(host: HostId, ts: int, level: string, message: string, labels: string)

  function IdOf(host: HostId, r: Record): Identity {
    match r
    case Metric(name, labels, ts, _) => MetricId(host, name, labels, ts)
    case Check(name, ts, _, _) => CheckId(host, name, ts)
    case Event(ts, level, message, labels) => EventId(host, ts, level, message, labels)
  }

  datatype Document = Document(kind: string, body: string)

  datatype Batch = Batch(metrics: seq<Record>, checks: seq<Record>, events: seq<Record>, documents: seq<Document>)

  datatype Stored = Stored(receivedAt: int, body: string)

  /** Hosts with their last_seen_at, claimed idempotency keys, records by identity and documents by kind. */
  datatype Db = Db(
    hosts: map<HostId, Option<int>>, claims: map<(HostId, string), int>,
    records: map<Identity, Record>, documents: map<(HostId, string), Stored>)

  datatype Outcome =
    | NoHost
    | Failed
    | Replayed
    | Applied(accepted: Batch, duplicates: nat)

  // ----- inserting records -----

  /** INSERT ... ON CONFLICT DO NOTHING for each record. */
  function InsertAll(t: map<Identity, Record>, host: HostId, rs: seq<Record>): map<Identity, Record> {
    if rs == [] then t
    else
      var u, r := InsertAll(t, host, rs[..|rs| - 1]), rs[|rs| - 1];
      if IdOf(host, r) in u then u else u[IdOf(host, r) := r]
  }

  /** The records that were new, in batch order. */
  function New(t: map<Identity, Record>, host: HostId, rs: seq<Record>): seq<Record> {
    if rs == [] then []
    else
      var init, r := rs[..|rs| - 1], rs[|rs| - 1];
      if IdOf(host, r) in InsertAll(t, host, init) then New(t, host, init) else New(t, host, init) + [r]
  }

  lemma {:induction false} InsertAddsNew(t: map<Identity, Record>, host: HostId, rs: seq<Record>)
    ensures var u, new' := InsertAll(t, host, rs), New(t, host, rs);
      && |u| == |t| + |new'| && |new'| <= |rs|
      && (forall id :: id in t ==> id in u && u[id] == t[id])
      && (forall r :: r in new' ==> r in rs && IdOf(host, r) !in t && IdOf(host, r) in u && u[IdOf(host, r)] == r)
      && (forall id :: id in u && id !in t ==> u[id] in new' && IdOf(host, u[id]) == id)
  {
    if rs != [] {
      var init, r := rs[..|rs| - 1], rs[|rs| - 1];
      InsertAddsNew(t, host, init);
      assert rs == init + [r];
      var u := InsertAll(t, host, init);
      if IdOf(host, r) !in u { assert u[IdOf(host, r) := r].Keys == u.Keys + {IdOf(host, r)}; }
    }
  }

  /** ON CONFLICT (host_id, kind) DO UPDATE for each document, in order. */
  function PutAll(
      docs: map<(HostId, string), Stored>, host: HostId, at: int, ds: seq<Document>): map<(HostId, string), Stored> {
    if ds == [] then docs
    else
      var d := ds[|ds| - 1];
      PutAll(docs, host, at, ds[..|ds| - 1])[(host, d.kind) := Stored(at, d.body)]
  }

  // ----- identity, by columns -----

  /** Two records of one host that a table cannot both hold: they agree on every column of its key. */
  predicate SameKey(a: Record, b: Record) {
    || (a.Metric? && b.Metric? && a.name == b.name && a.labels == b.labels && a.ts == b.ts)
    || (a.Check? && b.Check? && a.name == b.name && a.ts == b.ts)
    || (a.Event? && b.Event? && a.ts == b.ts && a.level == b.level && a.message == b.message && a.labels == b.labels)
  }

  lemma IdentityIsKey(h: HostId, a: Record, g: HostId, b: Record)
    ensures IdOf(h, a) == IdOf(g, b) <==> h == g && SameKey(a, b)
  {
  }

  /** Each row is stored under its own key. */
  ghost predicate WellKeyed(t: map<Identity, Record>) {
    forall id :: id in t ==> id == IdOf(id.host, t[id])
  }

  /** The table has this record of the host. */
  ghost predicate HasRecord(t: map<Identity, Record>, host: HostId, x: Record) {
    exists id :: id in t && id.host == host && t[id] == x
  }

  /** Neither the table nor the batch before it has a record with the key of record `k`. */
  ghost predicate FirstOfKey(t: map<Identity, Record>, host: HostId, rs: seq<Record>, k: nat)
    requires k < |rs|
  {
    && (forall x :: HasRecord(t, host, x) ==> !SameKey(x, rs[k]))
    && (forall j :: 0 <= j < k ==> !SameKey(rs[j], rs[k]))
  }

  ghost predicate Ascending(at: seq<nat>) {
    forall i, j :: 0 <= i < j < |at| ==> at[i] < at[j]
  }

  /** `acc` is, in order, the first record of each key the table does not have yet; `at` says where they stood. */
  ghost predicate PickedAt(t: map<Identity, Record>, host: HostId, rs: seq<Record>, acc: seq<Record>, at: seq<nat>) {
    && |at| == |acc| && Ascending(at)
    && (forall i :: 0 <= i < |at| ==> at[i] < |rs| && acc[i] == rs[at[i]])
    && (forall k :: 0 <= k < |rs| ==> (k in at <==> FirstOfKey(t, host, rs, k)))
  }

  ghost predicate PicksFirst(t: map<Identity, Record>, host: HostId, rs: seq<Record>, acc: seq<Record>) {
    exists at :: PickedAt(t, host, rs, acc, at)
  }

  lemma HeldUnderKey(t: map<Identity, Record>, host: HostId, x: Record)
    requires WellKeyed(t)
    ensures HasRecord(t, host, x) <==> IdOf(host, x) in t && t[IdOf(host, x)] == x
  {
    if IdOf(host, x) in t { IdentityIsKey(host, x, IdOf(host, x).host, x); }
  }

  /** One record of a host for each key. */
  lemma OnePerKey(t: map<Identity, Record>, host: HostId, x: Record, y: Record)
    requires WellKeyed(t) && HasRecord(t, host, x) && HasRecord(t, host, y) && SameKey(x, y)
    ensures x == y
  {
    hide IdOf;
    HeldUnderKey(t, host, x);
    HeldUnderKey(t, host, y);
    IdentityIsKey(host, x, host, y);
  }

  lemma {:induction false} InsertKeyed(t: map<Identity, Record>, host: HostId, rs: seq<Record>)
    requires WellKeyed(t)
    ensures WellKeyed(InsertAll(t, host, rs))
    ensures forall id :: id in t ==> id in InsertAll(t, host, rs) && InsertAll(t, host, rs)[id] == t[id]
    ensures forall id :: id in InsertAll(t, host, rs) <==>
      id in t || exists j :: 0 <= j < |rs| && IdOf(host, rs[j]) == id
  {
    if rs != [] { InsertKeyed(t, host, rs[..|rs| - 1]); }
  }

  lemma TakenIff(t: map<Identity, Record>, host: HostId, rs: seq<Record>, r: Record)
    requires WellKeyed(t)
    ensures IdOf(host, r) in InsertAll(t, host, rs) <==> !FirstOfKey(t, host, rs + [r], |rs|)
  {
    hide IdOf, InsertAll, SameKey;
    InsertKeyed(t, host, rs);
    var id, all := IdOf(host, r), rs + [r];
    forall j | 0 <= j < |rs| ensures SameKey(all[j], r) <==> IdOf(host, rs[j]) == id {
      IdentityIsKey(host, rs[j], host, r);
    }
    forall x | HasRecord(t, host, x) ensures IdOf(host, x) in t && (SameKey(x, r) <==> IdOf(host, x) == id) {
      HeldUnderKey(t, host, x);
      IdentityIsKey(host, x, host, r);
    }
    if id in t {
      HostOfId(host, r);
      assert id.host == host && HasRecord(t, host, t[id]) && IdOf(host, t[id]) == id;
    }
  }

  lemma HostOfId(host: HostId, r: Record)
    ensures IdOf(host, r).host == host
  {
  }

  lemma PrefixFirst(t: map<Identity, Record>, host: HostId, rs: seq<Record>, r: Record, k: nat)
    requires k < |rs|
    ensures FirstOfKey(t, host, rs + [r], k) <==> FirstOfKey(t, host, rs, k)
  {
    hide HasRecord, SameKey;
    var all := rs + [r];
    assert forall j :: 0 <= j <= k ==> all[j] == rs[j];
  }

  lemma {:induction false} NewPicked(t: map<Identity, Record>, host: HostId, rs: seq<Record>) returns (at: seq<nat>)
    requires WellKeyed(t)
    ensures PickedAt(t, host, rs, New(t, host, rs), at)
  {
    hide IdOf, InsertAll, FirstOfKey;
    at := [];
    if rs != [] {
      var init, r := rs[..|rs| - 1], rs[|rs| - 1];
      assert rs == init + [r];
      at := NewPicked(t, host, init);
      TakenIff(t, host, init, r);
      forall k | 0 <= k < |init| ensures FirstOfKey(t, host, rs, k) <==> FirstOfKey(t, host, init, k) {
        PrefixFirst(t, host, init, r, k);
      }
      if FirstOfKey(t, host, rs, |init|) { at := at + [|init|]; }
    }
  }

  lemma {:induction false} InsertJoins(t: map<Identity, Record>, host: HostId, a: seq<Record>, b: seq<Record>)
    ensures InsertAll(t, host, a + b) == InsertAll(InsertAll(t, host, a), host, b)
    ensures New(t, host, a + b) == New(t, host, a) + New(InsertAll(t, host, a), host, b)
  {
    hide IdOf;
    if b == [] {
      assert a + b == a;
    } else {
      InsertJoins(t, host, a, b[..|b| - 1]);
      assert (a + b)[..|a + b| - 1] == a + b[..|b| - 1];
    }
  }

  /** Document `i` is the last of its kind in the batch. */
  ghost predicate LastOfKind(ds: seq<Document>, i: nat)
    requires i < |ds|
  {
    forall j :: i < j < |ds| ==> ds[j].kind != ds[i].kind
  }

  /** The last document of each kind the batch has replaces the host's; nothing else changes. */
  ghost predicate Documented(
      docs: map<(HostId, string), Stored>, host: HostId, at: int, ds: seq<Document>, g: HostId, kind: string,
      after: map<(HostId, string), Stored>) {
    if g == host && exists i :: 0 <= i < |ds| && ds[i].kind == kind then
      && (g, kind) in after && after[(g, kind)].receivedAt == at
      && exists i :: 0 <= i < |ds| && ds[i].kind == kind && LastOfKind(ds, i) && after[(g, kind)].body == ds[i].body
    else
      ((g, kind) in after <==> (g, kind) in docs) && ((g, kind) in docs ==> after[(g, kind)] == docs[(g, kind)])
  }

  lemma {:induction false} LastDocumentStays(
      docs: map<(HostId, string), Stored>, host: HostId, at: int, ds: seq<Document>, g: HostId, kind: string)
    ensures Documented(docs, host, at, ds, g, kind, PutAll(docs, host, at, ds))
  {
    if ds != [] {
      var init, d := ds[..|ds| - 1], ds[|ds| - 1];
      LastDocumentStays(docs, host, at, init, g, kind);
      assert ds == init + [d];
      if d.kind == kind { assert ds[|init|].kind == kind; }
    }
  }

  // ----- one batch -----

  /** The table after the metrics, the checks and the events, and what was accepted of each. */
  function Records(db: Db, host: HostId, b: Batch): map<Identity, Record> {
    InsertAll(InsertAll(InsertAll(db.records, host, b.metrics), host, b.checks), host, b.events)
  }

  function Accepted(db: Db, host: HostId, b: Batch): Batch {
    var t1 := InsertAll(db.records, host, b.metrics);
    var t2 := InsertAll(t1, host, b.checks);
    Batch(New(db.records, host, b.metrics), New(t1, host, b.checks), New(t2, host, b.events), b.documents)
  }

  function Len(b: Batch): nat {
    |b.metrics| + |b.checks| + |b.events|
  }

  function All(b: Batch): seq<Record> {
    b.metrics + b.checks + b.events
  }

  /** The transaction: nothing changes unless the batch is applied. */
  function Store(db: Db, host: HostId, key: string, at: int, b: Batch, works: bool): (Db, Outcome) {
    if host !in db.hosts then (db, NoHost)
    else if (host, key) in db.claims then (db, Replayed)
    else if !works then (db, Failed)
    else
      var accepted := Accepted(db, host, b);
      (Db(db.hosts[host := Some(at)], db.claims[(host, key) := at],
          Records(db, host, b), PutAll(db.documents, host, at, b.documents)),
       Applied(accepted, if Len(accepted) <= Len(b) then Len(b) - Len(accepted) else 0))
  }

  /** Accepted plus duplicates is the batch; the table grows by exactly the accepted records. */
  lemma StoreAccounts(db: Db, host: HostId, key: string, at: int, b: Batch, works: bool)
    ensures var (after, o) := Store(db, host, key, at, b, works);
      if o.Applied? then
        && Len(o.accepted) + o.duplicates == Len(b)
        && |after.records| == |db.records| + Len(o.accepted)
        && (forall id :: id in db.records ==> id in after.records && after.records[id] == db.records[id])
        && (forall r :: r in All(o.accepted) ==> r in All(b) && IdOf(host, r) !in db.records)
        && (forall r :: r in All(o.accepted) ==>
              IdOf(host, r) in after.records && after.records[IdOf(host, r)] == r)
        && (forall id :: id in after.records && id !in db.records ==>
              after.records[id] in All(o.accepted) && IdOf(host, after.records[id]) == id)
      else after == db
  {
    hide InsertAll, New, IdOf;
    var t1 := InsertAll(db.records, host, b.metrics);
    var t2 := InsertAll(t1, host, b.checks);
    InsertAddsNew(db.records, host, b.metrics);
    InsertAddsNew(t1, host, b.checks);
    InsertAddsNew(t2, host, b.events);
  }

  /**
   An applied batch, by columns: it accepts, in order, the first record of each key the host
   has no record of, and holds them beside all that it held. So every record of the batch is
   stored unless another with the same key was there first.
   */
  lemma AppliedByKey(db: Db, host: HostId, key: string, at: int, b: Batch)
    requires WellKeyed(db.records) && host in db.hosts && (host, key) !in db.claims
    ensures var (after, o) := Store(db, host, key, at, b, true);
      && o.Applied? && WellKeyed(after.records)
      && PicksFirst(db.records, host, All(b), All(o.accepted))
      && (forall g, x :: HasRecord(after.records, g, x) <==>
            HasRecord(db.records, g, x) || (g == host && x in All(o.accepted)))
      && (forall k :: 0 <= k < |All(b)| ==>
            || HasRecord(after.records, host, All(b)[k])
            || (exists x :: HasRecord(db.records, host, x) && SameKey(x, All(b)[k]))
            || (exists j :: 0 <= j < k && SameKey(All(b)[j], All(b)[k])))
  {
    hide IdOf, InsertAll, New, SameKey, PutAll, PickedAt, All, Accepted, Records;
    AcceptedJoins(db, host, b);
    var rs, acc := All(b), All(Accepted(db, host, b));
    var at := NewPicked(db.records, host, rs);
    InsertKeyed(db.records, host, rs);
    HeldAfter(db.records, host, rs);
    PickedOrTaken(db.records, host, rs, acc, at);
  }

  /** What else a batch changes: the host was seen, the key is claimed, the newest document of each kind stays. */
  lemma AppliedTouches(db: Db, host: HostId, key: string, at: int, b: Batch, g: HostId, kind: string)
    requires host in db.hosts && (host, key) !in db.claims
    ensures var after := Store(db, host, key, at, b, true).0;
      && after.hosts.Keys == db.hosts.Keys && after.hosts[host] == Some(at)
      && (forall h :: h in db.hosts && h != host ==> after.hosts[h] == db.hosts[h])
      && after.claims.Keys == db.claims.Keys + {(host, key)} && after.claims[(host, key)] == at
      && (forall k :: k in db.claims ==> after.claims[k] == db.claims[k])
      && Documented(db.documents, host, at, b.documents, g, kind, after.documents)
  {
    hide InsertAll, New, PutAll;
    LastDocumentStays(db.documents, host, at, b.documents, g, kind);
  }

  /** The table holds a record of the host with the key of this one. */
  ghost predicate HasKey(t: map<Identity, Record>, host: HostId, r: Record) {
    exists x :: HasRecord(t, host, x) && SameKey(x, r)
  }

  /** No call loses a record, and afterwards the host has one for each key of an applied batch. */
  lemma StoreHasKeys(db: Db, host: HostId, key: string, at: int, b: Batch, works: bool)
    requires WellKeyed(db.records)
    ensures var (after, o) := Store(db, host, key, at, b, works);
      && WellKeyed(after.records)
      && (forall g, r :: HasKey(db.records, g, r) ==> HasKey(after.records, g, r))
      && (o.Applied? ==> forall r :: r in All(b) ==> HasKey(after.records, host, r))
  {
    hide IdOf, InsertAll, New, SameKey, PutAll, All, Accepted, Records, HasRecord;
    var (after, o) := Store(db, host, key, at, b, works);
    if o.Applied? {
      AcceptedJoins(db, host, b);
      InsertKeyed(db.records, host, All(b));
      HeldAfter(db.records, host, All(b));
      forall g, r | HasKey(db.records, g, r) ensures HasKey(after.records, g, r) {
        var x :| HasRecord(db.records, g, x) && SameKey(x, r);
        assert HasRecord(after.records, g, x);
      }
      forall r | r in All(b) ensures HasKey(after.records, host, r) {
        var k :| 0 <= k < |All(b)| && All(b)[k] == r;
        var x := after.records[IdOf(host, r)];
        HostOfId(host, r);
        HeldUnderKey(after.records, host, x);
        IdentityIsKey(host, x, host, r);
      }
    }
  }

  /** A transaction that does not fail answers that the batch is stored exactly when the host is known. */
  lemma StoreAnswers(db: Db, host: HostId, key: string, at: int, b: Batch, works: bool)
    ensures var (after, o) := Store(db, host, key, at, b, works);
      && after.hosts.Keys == db.hosts.Keys && (o.NoHost? <==> host !in db.hosts)
      && (o.Replayed? <==> host in db.hosts && (host, key) in db.claims) && (works ==> !o.Failed?)
  {
    hide Records, Accepted, PutAll;
  }

  lemma AcceptedJoins(db: Db, host: HostId, b: Batch)
    ensures Records(db, host, b) == InsertAll(db.records, host, All(b))
    ensures All(Accepted(db, host, b)) == New(db.records, host, All(b))
  {
    hide IdOf, InsertAll, New;
    InsertJoins(db.records, host, b.metrics, b.checks);
    InsertJoins(db.records, host, b.metrics + b.checks, b.events);
  }

  lemma HeldAfter(t: map<Identity, Record>, host: HostId, rs: seq<Record>)
    requires WellKeyed(t)
    ensures forall g, x :: HasRecord(InsertAll(t, host, rs), g, x) <==>
      HasRecord(t, g, x) || (g == host && x in New(t, host, rs))
  {
    hide IdOf, InsertAll, New;
    InsertKeyed(t, host, rs);
    InsertAddsNew(t, host, rs);
    forall g, x
      ensures HasRecord(InsertAll(t, host, rs), g, x) <==> HasRecord(t, g, x) || (g == host && x in New(t, host, rs))
    {
      HeldUnderKey(InsertAll(t, host, rs), g, x);
      HeldUnderKey(t, g, x);
      HostOfId(host, x);
      HostOfId(g, x);
    }
  }

  lemma PickedOrTaken(t: map<Identity, Record>, host: HostId, rs: seq<Record>, acc: seq<Record>, at: seq<nat>)
    requires PickedAt(t, host, rs, acc, at)
    ensures forall k :: 0 <= k < |rs| ==>
      || rs[k] in acc
      || (exists x :: HasRecord(t, host, x) && SameKey(x, rs[k]))
      || (exists j :: 0 <= j < k && SameKey(rs[j], rs[k]))
  {
    hide HasRecord, SameKey;
    forall k | 0 <= k < |rs| && FirstOfKey(t, host, rs, k) ensures rs[k] in acc {
      var i :| 0 <= i < |at| && at[i] == k;
      assert acc[i] == rs[k];
    }
  }

  // ----- whole runs -----

  datatype Call = Call(host: HostId, key: string, at: int, batch: Batch, works: bool)

  function After(db: Db, c: Call): Db {
    Store(db, c.host, c.key, c.at, c.batch, c.works).0
  }

  function Result(db: Db, c: Call): Outcome {
    Store(db, c.host, c.key, c.at, c.batch, c.works).1
  }

  function RunCalls(db: Db, calls: seq<Call>): Db {
    if calls == [] then db else After(RunCalls(db, calls[..|calls| - 1]), calls[|calls| - 1])
  }

  datatype Message = Message(host: HostId, record: Record)

  function Messages(host: HostId, rs: seq<Record>): (ms: seq<Message>)
    ensures |ms| == |rs| && forall i :: 0 <= i < |rs| ==> ms[i] == Message(host, rs[i])
  {
    seq(|rs|, i requires 0 <= i < |rs| => Message(host, rs[i]))
  }

  /** What one call publishes: its accepted records, metrics then checks then events. */
  function Published(db: Db, c: Call): seq<Message> {
    var o := Result(db, c);
    if o.Applied? then Messages(c.host, All(o.accepted)) else []
  }

  /** Everything published over a run. */
  function Stream(db: Db, calls: seq<Call>): seq<Message> {
    if calls == [] then []
    else var init := calls[..|calls| - 1]; Stream(db, init) + Published(RunCalls(db, init), calls[|calls| - 1])
  }

  ghost predicate InTable(t: map<Identity, Record>, m: Message) {
    IdOf(m.host, m.record) in t && t[IdOf(m.host, m.record)] == m.record
  }

  lemma PublishedIsNew(db: Db, c: Call)
    ensures var after, ms := After(db, c), Published(db, c);
      && |after.records| == |db.records| + |ms|
      && (forall id :: id in db.records ==> id in after.records && after.records[id] == db.records[id])
      && (forall m :: m in ms ==> InTable(after.records, m) && IdOf(m.host, m.record) !in db.records)
      && (forall id :: id in after.records && id !in db.records ==> exists m :: m in ms && IdOf(m.host, m.record) == id)
  {
    hide IdOf, Records, Accepted, PutAll;
    StoreAccounts(db, c.host, c.key, c.at, c.batch, c.works);
    var after, ms, o := After(db, c), Published(db, c), Result(db, c);
    if o.Applied? {
      forall id | id in after.records && id !in db.records ensures exists m :: m in ms && IdOf(m.host, m.record) == id {
        var k :| 0 <= k < |All(o.accepted)| && All(o.accepted)[k] == after.records[id];
        assert ms[k] == Message(c.host, after.records[id]);
      }
    }
  }

  /**
   Accounting of a whole run: the final table is the initial one plus the published
   records, each of them stored once and none of them there before.
   */
  lemma {:induction false} RunAccounts(db: Db, calls: seq<Call>)
    ensures var t, ms := RunCalls(db, calls).records, Stream(db, calls);
      && |t| == |db.records| + |ms|
      && (forall id :: id in db.records ==> id in t && t[id] == db.records[id])
      && (forall m :: m in ms ==> InTable(t, m) && IdOf(m.host, m.record) !in db.records)
      && (forall id :: id in t && id !in db.records ==> exists m :: m in ms && IdOf(m.host, m.record) == id)
  {
    hide After, Published, IdOf;
    if calls != [] {
      var init, c := calls[..|calls| - 1], calls[|calls| - 1];
      RunAccounts(db, init);
      PublishedIsNew(RunCalls(db, init), c);
    }
  }

  /** The key of no message is that of an earlier one of the same host. */
  ghost predicate OncePublished(ms: seq<Message>) {
    forall i, j :: 0 <= i < j < |ms| && ms[i].host == ms[j].host ==> !SameKey(ms[i].record, ms[j].record)
  }

  lemma PublishedByKey(db: Db, c: Call)
    requires WellKeyed(db.records)
    ensures var after, ms := After(db, c).records, Published(db, c);
      && WellKeyed(after) && OncePublished(ms)
      && (forall h, x :: HasRecord(after, h, x) <==> HasRecord(db.records, h, x) || Message(h, x) in ms)
      && (forall m, x :: m in ms && HasRecord(db.records, m.host, x) ==> !SameKey(x, m.record))
  {
    hide IdOf, SameKey, Records, Accepted, PutAll, All, WellKeyed, HasRecord, PickedAt;
    var ms, o := Published(db, c), Result(db, c);
    if o.Applied? {
      AppliedByKey(db, c.host, c.key, c.at, c.batch);
      var rs, acc := All(c.batch), All(o.accepted);
      var at :| PickedAt(db.records, c.host, rs, acc, at);
      PickedAreNew(db.records, c.host, rs, acc, at);
      forall h, x ensures Message(h, x) in ms <==> h == c.host && x in acc {
        if h == c.host && x in acc {
          var k :| 0 <= k < |acc| && acc[k] == x;
          assert ms[k] == Message(h, x);
        }
      }
    }
  }

  lemma PickedAreNew(t: map<Identity, Record>, host: HostId, rs: seq<Record>, acc: seq<Record>, at: seq<nat>)
    requires PickedAt(t, host, rs, acc, at)
    ensures forall i, j :: 0 <= i < j < |acc| ==> !SameKey(acc[i], acc[j])
    ensures forall r, x :: r in acc && HasRecord(t, host, x) ==> !SameKey(x, r)
  {
    hide HasRecord, SameKey;
    forall i | 0 <= i < |acc| ensures FirstOfKey(t, host, rs, at[i]) {
      assert at[i] in at;
    }
  }

  /**
   A whole run, by columns: a host's records are those it had and those published for it, and
   no two of them have one key.
   */
  lemma {:induction false} RunByKey(db: Db, calls: seq<Call>)
    requires WellKeyed(db.records)
    ensures var t, ms := RunCalls(db, calls).records, Stream(db, calls);
      && WellKeyed(t) && OncePublished(ms)
      && (forall h, x :: HasRecord(t, h, x) <==> HasRecord(db.records, h, x) || Message(h, x) in ms)
      && (forall m, x :: m in ms && HasRecord(db.records, m.host, x) ==> !SameKey(x, m.record))
  {
    hide After, Published, WellKeyed, HasRecord, SameKey;
    if calls != [] {
      var init, c := calls[..|calls| - 1], calls[|calls| - 1];
      RunByKey(db, init);
      var mid := RunCalls(db, init);
      PublishedByKey(mid, c);
      var s, p := Stream(db, init), Published(mid, c);
      var ms: seq<Message> := s + p;
      forall i, j | 0 <= i < j < |ms| && ms[i].host == ms[j].host
        ensures !SameKey(ms[i].record, ms[j].record)
      {
        if i < |s| && |s| <= j { assert s[i] in s && HasRecord(mid.records, s[i].host, s[i].record); }
      }
    }
  }

  lemma ClaimsGrow(db: Db, c: Call)
    ensures forall k :: k in db.claims ==> k in After(db, c).claims
    ensures Result(db, c).Applied? <==> c.host in db.hosts && c.works && (c.host, c.key) !in db.claims
    ensures Result(db, c).Applied? ==> (c.host, c.key) in After(db, c).claims
  {
    hide Records, Accepted, PutAll;
  }

  lemma {:induction false} ClaimsStay(db: Db, calls: seq<Call>, n: nat, k: (HostId, string))
    requires n <= |calls| && k in RunCalls(db, calls[..n]).claims
    ensures k in RunCalls(db, calls).claims
  {
    hide After;
    if n == |calls| {
      assert calls[..n] == calls;
    } else {
      var init := calls[..|calls| - 1];
      assert init[..n] == calls[..n];
      ClaimsStay(db, init, n, k);
      ClaimsGrow(RunCalls(db, init), calls[|calls| - 1]);
    }
  }

  /** No key of a host is applied twice while its claim is kept. */
  lemma OncePerKey(db: Db, calls: seq<Call>, i: nat, j: nat)
    requires i < j < |calls| && calls[i].host == calls[j].host && calls[i].key == calls[j].key
    ensures !(Result(RunCalls(db, calls[..i]), calls[i]).Applied?
              && Result(RunCalls(db, calls[..j]), calls[j]).Applied?)
  {
    hide After, Result;
    var c := calls[i];
    ClaimsGrow(RunCalls(db, calls[..i]), c);
    ClaimsGrow(RunCalls(db, calls[..j]), calls[j]);
    if Result(RunCalls(db, calls[..i]), c).Applied? {
      assert calls[..i + 1][..i] == calls[..i];
      assert calls[..j][..i + 1] == calls[..i + 1];
      ClaimsStay(db, calls[..j], i + 1, (c.host, c.key));
    }
  }

  // ----- the service -----

  /** Inserts one kind of records; `ok` is false when statement `failAt` fails. */
  method InsertKind(t: map<Identity, Record>, host: HostId, rs: seq<Record>, failAt: int)
    returns (t': map<Identity, Record>, accepted: seq<Record>, duplicates: nat, ok: bool)
    ensures ok ==> t' == InsertAll(t, host, rs) && accepted == New(t, host, rs) && duplicates + |accepted| == |rs|
    ensures ok <==> !(0 <= failAt < |rs|)
  {
    hide IdOf;
    t', accepted, duplicates, ok := t, [], 0, true;
    for i := 0 to |rs|
      invariant t' == InsertAll(t, host, rs[..i]) && accepted == New(t, host, rs[..i]) && duplicates + |accepted| == i
      invariant !(0 <= failAt < i)
    {
      if failAt == i { ok := false; return; }
      assert rs[..i + 1][..i] == rs[..i];
      if IdOf(host, rs[i]) in t' {
        duplicates := duplicates + 1;
      } else {
        t' := t'[IdOf(host, rs[i]) := rs[i]];
        accepted := accepted + [rs[i]];
      }
    }
    assert rs[..|rs|] == rs;
  }

  class Server {
    var hosts: map<HostId, Option<int>>
    var claims: map<(HostId, string), int>
    var records: map<Identity, Record>
    var documents: map<(HostId, string), Stored>
    var published: seq<Message>

    function State(): Db
      reads this
    {
      Db(hosts, claims, records, documents)
    }

    /**
     Applies a batch in one transaction. Statement number `failAt`, if there is one,
     fails; then everything is as before.
     */
    method StoreBatch(host: HostId, key: string, at: int, b: Batch, failAt: int) returns (o: Outcome)
      modifies this
      ensures o == Failed ==> State() == old(State())
      ensures (State(), o) == Store(old(State()), host, key, at, b, o != Failed)
      ensures !(0 <= failAt <= Len(b) + |b.documents| + 1) ==> o != Failed
      ensures published == old(published)
    {
      hide InsertAll, New;
      if host !in hosts { return NoHost; }
      if (host, key) in claims { return Replayed; }
      if failAt == 0 { return Failed; }
      var t1, ms, dm, ok1 := InsertKind(records, host, b.metrics, failAt - 1);
      if !ok1 { return Failed; }
      var t2, cs, dc, ok2 := InsertKind(t1, host, b.checks, failAt - 1 - |b.metrics|);
      if !ok2 { return Failed; }
      var t3, es, de, ok3 := InsertKind(t2, host, b.events, failAt - 1 - |b.metrics| - |b.checks|);
      if !ok3 { return Failed; }
      var docs := documents;
      for i := 0 to |b.documents|
        invariant docs == PutAll(documents, host, at, b.documents[..i])
        invariant documents == old(documents) && State() == old(State()) && published == old(published)
      {
        if failAt == 1 + Len(b) + i { return Failed; }
        assert b.documents[..i + 1][..i] == b.documents[..i];
        docs := docs[(host, b.documents[i].kind) := Stored(at, b.documents[i].body)];
      }
      assert b.documents[..|b.documents|] == b.documents;
      if failAt == 1 + Len(b) + |b.documents| { return Failed; }
      hosts, claims, records, documents := hosts[host := Some(at)], claims[(host, key) := at], t3, docs;
      o := Applied(Batch(ms, cs, es, b.documents), dm + dc + de);
    }

    /** Validates, stores, and publishes exactly the newly accepted records once they are committed. */
    method IngestBatch(
        host: HostId, key: string, at: int, normalized: Option<Batch>, failAt: int) returns (o: Option<Outcome>)
      modifies this
      ensures o.None? <==> host == "" || key == "" || |key| > 128 || normalized.None?
      ensures o.None? || o.value == Failed ==> State() == old(State()) && published == old(published)
      ensures o.Some? && o.value != Failed ==>
        var c := Call(host, key, at, normalized.value, true);
        && State() == After(old(State()), c) && o.value == Result(old(State()), c)
        && published == old(published) + Published(old(State()), c)
    {
      hide Store, Messages;
      if host == "" || key == "" || |key| > 128 || normalized.None? { return None; }
      var r := StoreBatch(host, key, at, normalized.value, failAt);
      if r.Applied? { published := published + Messages(host, All(r.accepted)); }
      o := Some(r);
    }
  }
}
