/**
 Enrollment of hosts and the allocation of tunnel addresses
 (internal/telemetry/infrastructure/enrollment.go, application/enrollment.go). Addresses are
 IPv4, as the configuration demands: integers below 2^32.
 */
module Enrollment {
  import opened Arithmetic
  import opened Wrappers

  type HostId = string

  // ----- addresses -----

  const SPACE := 0x1_0000_0000

  datatype Prefix = Prefix(addr: nat, bits: nat)

  predicate IsPrefix(p: Prefix) {
    p.addr < SPACE && p.bits <= 32
  }

  function Size(p: Prefix): (r: nat)
    requires IsPrefix(p)
    ensures r > 0
  {
    Pow2(32 - p.bits)
  }

  /** The multiple of `size` at or below an address. */
  function Floor(addr: nat, size: nat): (r: nat)
    requires size > 0
    ensures r <= addr < r + size
  {
    addr / size * size
  }

  /** Masked().Addr(). */
  function Network(p: Prefix): nat
    requires IsPrefix(p)
  {
    Floor(p.addr, Size(p))
  }

  /** The last address of the subnet. */
  function Broadcast(p: Prefix): nat
    requires IsPrefix(p)
  {
    Network(p) + Size(p) - 1
  }

  /** The zero Addr stands for no address. */
  predicate Contains(p: Prefix, ip: Option<nat>)
    requires IsPrefix(p)
  {
    ip.Some? && Network(p) <= ip.value <= Broadcast(p)
  }

  /** Addr.Next: no address follows the last one. */
  function Next(ip: Option<nat>): Option<nat> {
    if ip.Some? && ip.value + 1 < SPACE then Some(ip.value + 1) else None
  }

  lemma {:induction false} Pow2Splits(n: nat, m: nat)
    requires n <= m
    ensures Pow2(m) == Pow2(m - n) * Pow2(n)
  {
    if n > 0 {
      Pow2Splits(n - 1, m - 1);
      Regroup(Pow2(m - n), Pow2(n - 1));
    }
  }

  lemma Regroup(a: nat, b: nat)
    ensures 2 * (a * b) == a * (2 * b)
  {
  }

  /** The subnet lies in the address space: its broadcast address is an address. */
  lemma BroadcastFits(p: Prefix)
    requires IsPrefix(p)
    ensures Broadcast(p) < SPACE
  {
    hide Pow2;
    Pow2Splits(32 - p.bits, 32);
    Pow2Is32();
    FloorFits(p.addr, Size(p), Pow2(p.bits));
  }

  lemma FloorFits(addr: nat, size: nat, blocks: nat)
    requires size > 0 && addr < blocks * size
    ensures Floor(addr, size) + size <= blocks * size
  {
    var q := addr / size;
    if blocks <= q { Scale(blocks, q, size); }
    Scale(q + 1, blocks, size);
  }

  lemma Scale(a: nat, b: nat, size: nat)
    requires a <= b
    ensures a * size <= b * size
  {
  }

  lemma Pow2Is32()
    ensures Pow2(32) == SPACE
  {
    assert Pow2(8) == 256;
    Pow2Splits(8, 16);
    Pow2Splits(16, 32);
    assert Pow2(16) == 0x1_0000;
  }

  predicate FreeHost(p: Prefix, used: set<nat>, ip: nat)
    requires IsPrefix(p)
  {
    Network(p) + 2 <= ip < Broadcast(p) && ip !in used
  }

  /** The least address of [network + 2, broadcast - 1] that is not used, if there is one. */
  ghost predicate IsLowestFree(p: Prefix, used: set<nat>, r: Option<nat>)
    requires IsPrefix(p)
  {
    if r.Some? then FreeHost(p, used, r.value) && forall ip: nat :: ip < r.value ==> !FreeHost(p, used, ip)
    else forall ip :: !FreeHost(p, used, ip)
  }

  /** nextFreeAddr. */
  method NextFreeAddr(p: Prefix, used: set<nat>) returns (r: Option<nat>)
    requires IsPrefix(p)
    ensures IsLowestFree(p, used, r)
  {
    hide Size, Network;
    BroadcastFits(p);
    var ip := Next(Next(Some(Network(p))));
    while Contains(p, ip)
      invariant ip.Some? ==> Network(p) + 2 <= ip.value < SPACE && forall x: nat :: x < ip.value ==>
        !FreeHost(p, used, x)
      invariant ip.None? ==> forall x :: !FreeHost(p, used, x)
      decreases if ip.Some? then SPACE - ip.value else 0
    {
      var next := Next(ip);
      if !Contains(p, next) { break; }
      if ip.value !in used { return ip; }
      ip := next;
    }
    r := None;
  }

  lemma LowestFreeUnique(p: Prefix, used: set<nat>, a: Option<nat>, b: Option<nat>)
    requires IsPrefix(p) && IsLowestFree(p, used, a) && IsLowestFree(p, used, b)
    ensures a == b
  {
    if a.Some? && b.Some? { assert !(a.value < b.value) && !(b.value < a.value); }
  }

  function Span(from: nat, end: nat): (s: set<nat>)
    ensures forall x :: x in s <==> from <= x < end
    ensures |s| == (if from <= end then end - from else 0)
    decreases end
  {
    if end <= from then {} else Span(from, end - 1) + {end - 1}
  }

  /** Allocation fails exactly when all 2^(32-bits) - 3 host addresses are taken. */
  lemma ExhaustedIff(p: Prefix, used: set<nat>, r: Option<nat>)
    requires IsPrefix(p) && IsLowestFree(p, used, r)
    ensures var hosts := Span(Network(p) + 2, Broadcast(p));
      && |hosts| == (if 3 <= Size(p) then Size(p) - 3 else 0)
      && (r.None? <==> hosts <= used) && (|used| < |hosts| ==> r.Some?)
  {
    hide Network, Size;
    var hosts := Span(Network(p) + 2, Broadcast(p));
    forall ip: nat ensures FreeHost(p, used, ip) <==> ip in hosts && ip !in used {}
    if hosts <= used { Subset(hosts, used); }
  }

  lemma {:induction false} Subset<T>(a: set<T>, b: set<T>)
    requires a <= b
    ensures |a| <= |b|
    decreases a
  {
    if a != {} {
      var x :| x in a;
      Subset(a - {x}, b - {x});
    }
  }

  // ----- tables -----

  datatype Invite = Invite(host: HostId, expires: int, used: Option<int>)

  datatype Peer = Peer(host: HostId, key: string, ip: nat, at: int)

  /** Host names, invitations by secret hash, and the rows of `host_peers`. */
  datatype Db = Db(hosts: map<HostId, string>, invites: map<string, Invite>, peers: seq<Peer>)

  datatype Outcome =
    | Unauthorized
    | Exhausted
    | Conflict
    | Enrolled(peer: Peer)

  function UsedIPs(peers: seq<Peer>): set<nat> {
    set i | 0 <= i < |peers| :: peers[i].ip
  }

  /** A UNIQUE column of `host_peers` already has one of the values. */
  predicate Taken(peers: seq<Peer>, p: Peer) {
    exists i :: 0 <= i < |peers| && (peers[i].host == p.host || peers[i].key == p.key || peers[i].ip == p.ip)
  }

  /** UPDATE ... WHERE secret_hash = ? AND used_at IS NULL AND expires_at > now. */
  predicate Live(db: Db, secret: string, now: int) {
    secret in db.invites && db.invites[secret].used.None? && db.invites[secret].expires > now
  }

  /** The transaction, with the address the allocator gives; anything but success rolls back. */
  function EnrollWith(db: Db, secret: string, key: string, now: int, ip: Option<nat>): (Db, Outcome) {
    if !Live(db, secret, now) then (db, Unauthorized)
    else if ip.None? then (db, Exhausted)
    else
      var inv := db.invites[secret];
      var peer := Peer(inv.host, key, ip.value, now);
      if Taken(db.peers, peer) then (db, Conflict)
      else (db.(invites := db.invites[secret := inv.(used := Some(now))], peers := db.peers + [peer]), Enrolled(peer))
  }

  /** A host and its invitation are stored together: the name, the id and the secret must be new. */
  predicate CanCreate(db: Db, id: HostId, name: string, secret: string) {
    id !in db.hosts && name !in db.hosts.Values && secret !in db.invites
  }

  function CreateWith(db: Db, id: HostId, name: string, secret: string, expires: int): Db {
    if CanCreate(db, id, name, secret)
    then db.(hosts := db.hosts[id := name], invites := db.invites[secret := Invite(id, expires, None)])
    else db
  }

  /** SELECT host_id FROM host_peers WHERE tunnel_ip = ?. */
  function Lookup(peers: seq<Peer>, ip: nat): Option<HostId> {
    if peers == [] then None
    else if peers[|peers| - 1].ip == ip then Some(peers[|peers| - 1].host)
    else Lookup(peers[..|peers| - 1], ip)
  }

  class Store {
    var db: Db

    constructor ()
      ensures db == Db(map[], map[], [])
    {
      db := Db(map[], map[], []);
    }

    method CreateEnrollableHost(id: HostId, name: string, secret: string, expires: int) returns (ok: bool)
      modifies this
      ensures ok == CanCreate(old(db), id, name, secret) && db == CreateWith(old(db), id, name, secret, expires)
      ensures ok <==> id !in old(db).hosts && name !in old(db).hosts.Values && secret !in old(db).invites
      ensures ok ==>
        && db.hosts == old(db).hosts[id := name] && db.peers == old(db).peers
        && db.invites == old(db).invites[secret := Invite(id, expires, None)]
      ensures !ok ==> db == old(db)
    {
      ok := id !in db.hosts && name !in db.hosts.Values && secret !in db.invites;
      if ok {
        db := db.(hosts := db.hosts[id := name], invites := db.invites[secret := Invite(id, expires, None)]);
      }
    }

    /** Consumes the secret, takes the lowest free address and stores the peer, or changes nothing. */
    method Enroll(secret: string, key: string, now: int, subnet: Prefix) returns (o: Outcome, ghost ip: Option<nat>)
      requires IsPrefix(subnet)
      modifies this
      ensures IsLowestFree(subnet, UsedIPs(old(db.peers)), ip)
      ensures (db, o) == EnrollWith(old(db), secret, key, now, ip)
      ensures o.Unauthorized? <==>
        !(secret in old(db).invites && old(db).invites[secret].used.None? && now < old(db).invites[secret].expires)
      ensures o.Exhausted? <==> !o.Unauthorized? && ip.None?
      ensures o.Enrolled? ==>
        var invite := old(db).invites[secret];
        && ip.Some? && o.peer == Peer(invite.host, key, ip.value, now)
        && db.hosts == old(db).hosts && db.peers == old(db).peers + [o.peer]
        && db.invites == old(db).invites[secret := invite.(used := Some(now))]
      ensures !o.Enrolled? ==> db == old(db)
    {
      hide IsLowestFree;
      var free := NextFreeAddr(subnet, UsedIPs(db.peers));
      ip := free;
      if !(secret in db.invites && db.invites[secret].used.None? && db.invites[secret].expires > now) {
        return Unauthorized, free;
      }
      var invite := db.invites[secret];
      var tx := db.(invites := db.invites[secret := invite.(used := Some(now))]);
      if free.None? { return Exhausted, free; }
      var peer := Peer(invite.host, key, free.value, now);
      if Taken(tx.peers, peer) { return Conflict, free; }
      db := tx.(peers := tx.peers + [peer]);
      o := Enrolled(peer);
    }

    method HostByTunnelIP(ip: nat) returns (host: Option<HostId>)
      ensures host == Lookup(db.peers, ip)
    {
      host := None;
      for k := 0 to |db.peers|
        invariant host == Lookup(db.peers[..k], ip)
      {
        assert db.peers[..k + 1][..k] == db.peers[..k];
        if db.peers[k].ip == ip { host := Some(db.peers[k].host); }
      }
      assert db.peers[..|db.peers|] == db.peers;
    }
  }

  // ----- whole runs -----

  datatype Step =
    | Create(id: HostId, name: string, secret: string, expires: int)
    | Enroll(secret: string, key: string, now: int, ip: Option<nat>)

  function Apply(db: Db, e: Step): Db {
    match e
    case Create(id, name, secret, expires) => CreateWith(db, id, name, secret, expires)
    case Enroll(secret, key, now, ip) => EnrollWith(db, secret, key, now, ip).0
  }

  function After(db: Db, steps: seq<Step>): Db {
    if steps == [] then db else Apply(After(db, steps[..|steps| - 1]), steps[|steps| - 1])
  }

  const EMPTY := Db(map[], map[], [])

  /** Hosts, keys and addresses are one to one. */
  ghost predicate OneToOne(peers: seq<Peer>) {
    forall i, j :: 0 <= i < j < |peers| ==>
      peers[i].host != peers[j].host && peers[i].key != peers[j].key && peers[i].ip != peers[j].ip
  }

  ghost predicate HasPeer(peers: seq<Peer>, host: HostId) {
    exists i :: 0 <= i < |peers| && peers[i].host == host
  }

  /** Each host has one invitation, and is a peer exactly when that was used. */
  ghost predicate Inv(db: Db) {
    && OneToOne(db.peers)
    && (forall s, t :: s in db.invites && t in db.invites && s != t ==> db.invites[s].host != db.invites[t].host)
    && (forall s :: s in db.invites ==>
          db.invites[s].host in db.hosts && (db.invites[s].used.Some? <==> HasPeer(db.peers, db.invites[s].host)))
    && (forall i :: 0 <= i < |db.peers| ==> db.peers[i].host in db.hosts)
  }

  lemma CreateKeeps(db: Db, id: HostId, name: string, secret: string, expires: int)
    requires Inv(db)
    ensures Inv(CreateWith(db, id, name, secret, expires))
  {
  }

  /** A live invitation's host and the lowest free address are new, so only the key can be taken. */
  lemma OnlyKeyConflicts(db: Db, secret: string, key: string, now: int, subnet: Prefix, ip: Option<nat>)
    requires Inv(db) && IsPrefix(subnet) && IsLowestFree(subnet, UsedIPs(db.peers), ip)
    requires Live(db, secret, now) && ip.Some?
    ensures Taken(db.peers, Peer(db.invites[secret].host, key, ip.value, now))
      <==> exists i :: 0 <= i < |db.peers| && db.peers[i].key == key
  {
    hide OneToOne, Network, Size;
    forall i | 0 <= i < |db.peers| ensures db.peers[i].ip != ip.value && db.peers[i].host != db.invites[secret].host {
      assert db.peers[i].ip in UsedIPs(db.peers);
    }
  }

  lemma EnrollKeeps(db: Db, secret: string, key: string, now: int, ip: Option<nat>)
    requires Inv(db)
    ensures Inv(EnrollWith(db, secret, key, now, ip).0)
  {
    var (after, o) := EnrollWith(db, secret, key, now, ip);
    if o.Enrolled? {
      var host := db.invites[secret].host;
      assert after.peers[|db.peers|].host == host;
      forall s | s in after.invites
        ensures after.invites[s].used.Some? <==> HasPeer(after.peers, after.invites[s].host)
      {
        if s != secret { HasPeerGrows(db.peers, o.peer, db.invites[s].host); }
      }
    }
  }

  lemma HasPeerGrows(peers: seq<Peer>, p: Peer, host: HostId)
    requires p.host != host
    ensures HasPeer(peers + [p], host) <==> HasPeer(peers, host)
  {
    if HasPeer(peers, host) {
      var i :| 0 <= i < |peers| && peers[i].host == host;
      assert (peers + [p])[i].host == host;
    }
  }

  lemma {:induction false} RunKeeps(db: Db, steps: seq<Step>)
    requires Inv(db)
    ensures Inv(After(db, steps))
  {
    hide Inv, EnrollWith, CreateWith;
    if steps != [] {
      var last, e := After(db, steps[..|steps| - 1]), steps[|steps| - 1];
      RunKeeps(db, steps[..|steps| - 1]);
      match e
      case Create(id, name, secret, expires) => CreateKeeps(last, id, name, secret, expires);
      case Enroll(secret, key, now, ip) => EnrollKeeps(last, secret, key, now, ip);
    }
  }

  lemma Reachable(steps: seq<Step>)
    ensures Inv(After(EMPTY, steps))
  {
    hide After;
    RunKeeps(EMPTY, steps);
  }

  /** In every run addresses, hosts and keys stay one to one. */
  lemma {:induction false} PeersOneToOne(steps: seq<Step>)
    ensures OneToOne(After(EMPTY, steps).peers)
  {
    hide After, OneToOne;
    Reachable(steps);
  }

  /**
   Enrollment succeeds exactly when the secret is unused and unexpired, an address is free
   and the key is new; otherwise it changes nothing, so the secret stays usable.
   */
  lemma EnrollsExactlyWhen(steps: seq<Step>, secret: string, key: string, now: int, subnet: Prefix, ip: Option<nat>)
    requires IsPrefix(subnet) && IsLowestFree(subnet, UsedIPs(After(EMPTY, steps).peers), ip)
    ensures var db := After(EMPTY, steps);
      var (after, o) := EnrollWith(db, secret, key, now, ip);
      && (o.Enrolled? <==>
            && secret in db.invites && db.invites[secret].used.None? && now < db.invites[secret].expires && ip.Some?
            && forall i :: 0 <= i < |db.peers| ==> db.peers[i].key != key)
      && (o.Enrolled? ==> o.peer == Peer(db.invites[secret].host, key, ip.value, now))
      && (o.Enrolled? ==> after.peers == db.peers + [o.peer] && !Live(after, secret, now))
      && (!o.Enrolled? ==> after == db)
  {
    hide After, Inv, IsLowestFree, Taken;
    var db := After(EMPTY, steps);
    Reachable(steps);
    if Live(db, secret, now) && ip.Some? { OnlyKeyConflicts(db, secret, key, now, subnet, ip); }
  }

  ghost predicate Succeeds(steps: seq<Step>, n: nat)
    requires n < |steps|
  {
    var e := steps[n];
    e.Enroll? && EnrollWith(After(EMPTY, steps[..n]), e.secret, e.key, e.now, e.ip).1.Enrolled?
  }

  predicate Spent(db: Db, secret: string) {
    secret in db.invites && db.invites[secret].used.Some?
  }

  lemma {:induction false} SpentStays(steps: seq<Step>, m: nat, n: nat, secret: string)
    requires m <= n <= |steps| && Spent(After(EMPTY, steps[..m]), secret)
    ensures Spent(After(EMPTY, steps[..n]), secret)
  {
    if m < n {
      SpentStays(steps, m, n - 1, secret);
      assert steps[..n][..n - 1] == steps[..n - 1];
    }
  }

  /** No secret enrolls twice, whatever happens in between. */
  lemma SecretWorksOnce(steps: seq<Step>, m: nat, n: nat)
    requires m < n < |steps| && Succeeds(steps, m) && steps[n].Enroll? && steps[n].secret == steps[m].secret
    ensures !Succeeds(steps, n)
  {
    assert steps[..m + 1][..m] == steps[..m];
    assert Spent(After(EMPTY, steps[..m + 1]), steps[m].secret);
    SpentStays(steps, m + 1, n, steps[m].secret);
  }

  lemma {:induction false} LookupFinds(peers: seq<Peer>, i: nat)
    requires OneToOne(peers) && i < |peers|
    ensures Lookup(peers, peers[i].ip) == Some(peers[i].host)
  {
    if i < |peers| - 1 { LookupFinds(peers[..|peers| - 1], i); }
  }

  lemma {:induction false} LookupOnly(peers: seq<Peer>, ip: nat)
    requires Lookup(peers, ip).Some?
    ensures exists i :: 0 <= i < |peers| && peers[i] == Peer(Lookup(peers, ip).value, peers[i].key, ip, peers[i].at)
  {
    var n := |peers| - 1;
    if peers[n].ip == ip {
      assert peers[n] == Peer(Lookup(peers, ip).value, peers[n].key, ip, peers[n].at);
    } else {
      LookupOnly(peers[..n], ip);
      var i :| 0 <= i < n && peers[..n][i] == Peer(Lookup(peers, ip).value, peers[..n][i].key, ip, peers[..n][i].at);
      assert peers[i] == peers[..n][i];
    }
  }

  lemma {:induction false} PeersStay(db: Db, steps: seq<Step>)
    ensures db.peers <= After(db, steps).peers
  {
    if steps != [] { PeersStay(db, steps[..|steps| - 1]); }
  }

  /**
   A host is found under its tunnel address from its enrollment on, through anything that follows,
   and under no other.
   */
  lemma LookupInverts(steps: seq<Step>, more: seq<Step>, i: nat, ip: nat)
    requires i < |After(EMPTY, steps).peers|
    ensures var peer := After(EMPTY, steps).peers[i];
      Lookup(After(After(EMPTY, steps), more).peers, ip) == Some(peer.host) <==> ip == peer.ip
  {
    hide After, OneToOne, Lookup;
    var db := After(EMPTY, steps);
    var peers := After(db, more).peers;
    Reachable(steps);
    RunKeeps(db, more);
    PeersStay(db, more);
    assert OneToOne(peers) && peers[i] == db.peers[i];
    LookupFinds(peers, i);
    if Lookup(peers, ip) == Some(peers[i].host) {
      LookupOnly(peers, ip);
      var j :| 0 <= j < |peers| && peers[j] == Peer(Lookup(peers, ip).value, peers[j].key, ip, peers[j].at);
      SameRow(peers, i, j);
    }
  }

  lemma SameRow(peers: seq<Peer>, i: nat, j: nat)
    requires OneToOne(peers) && i < |peers| && j < |peers| && peers[i].host == peers[j].host
    ensures i == j
  {
    assert i < j || j < i || i == j;
  }
}
