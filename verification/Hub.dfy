/**
 Fan-out of accepted records to live clients (internal/telemetry/application/hub.go).
 Publishing never blocks; a client whose buffer is full is dropped. Sending on a closed
 channel, or closing one twice, would panic: here each is a precondition.
 */
module Hub {
  import opened Wrappers

  datatype Message = Message(typ: string, host: string, body: string)

  /** SubscriberBuffer. */
  const BUFFER := 64

  predicate Wants(host: string, typ: string, m: Message) {
    !((host != "" && host != m.host) || (typ != "" && typ != m.typ))
  }

  /** The messages a subscription asked for. */
  function Filtered(host: string, typ: string, ms: seq<Message>): seq<Message> {
    if ms == [] then []
    else
      var init, m := Filtered(host, typ, ms[..|ms| - 1]), ms[|ms| - 1];
      if Wants(host, typ, m) then init + [m] else init
  }

  /**
   What a subscription asked for, by fields: in order, each message whose host and type are the
   ones asked for, where empty means any. `at` is where they stood.
   */
  ghost predicate AskedAt(host: string, typ: string, ms: seq<Message>, got: seq<Message>, at: seq<nat>) {
    && |at| == |got| && (forall i, j :: 0 <= i < j < |at| ==> at[i] < at[j])
    && (forall i :: 0 <= i < |at| ==> at[i] < |ms| && got[i] == ms[at[i]])
    && (forall k :: 0 <= k < |ms| ==>
          (k in at <==> (host == "" || ms[k].host == host) && (typ == "" || ms[k].typ == typ)))
  }

  lemma {:induction false} FilteredMeans(host: string, typ: string, ms: seq<Message>) returns (at: seq<nat>)
    ensures AskedAt(host, typ, ms, Filtered(host, typ, ms), at)
  {
    at := [];
    if ms != [] {
      var n := |ms| - 1;
      at := FilteredMeans(host, typ, ms[..n]);
      hide Filtered;
      FilteredGrows(host, typ, ms, 0, n);
      assert ms[0..n + 1] == ms && ms[0..n] == ms[..n];
      if Wants(host, typ, ms[n]) { at := at + [n]; }
      assert forall k :: 0 <= k < n ==> ms[..n][k] == ms[k];
    }
  }

  lemma FilteredGrows(host: string, typ: string, log: seq<Message>, a: nat, b: nat)
    requires a <= b < |log|
    ensures Filtered(host, typ, log[a..b + 1])
         == Filtered(host, typ, log[a..b]) + if Wants(host, typ, log[b]) then [log[b]] else []
  {
    assert log[a..b + 1] == log[a..b] + [log[b]];
    assert log[a..b + 1][..b - a] == log[a..b];
  }

  lemma {:induction false} FilteredSplits(host: string, typ: string, x: seq<Message>, y: seq<Message>)
    ensures Filtered(host, typ, x + y) == Filtered(host, typ, x) + Filtered(host, typ, y)
  {
    if y == [] {
      assert x + y == x;
    } else {
      var n := |y| - 1;
      assert (x + y)[..|x + y| - 1] == x + y[..n];
      FilteredSplits(host, typ, x, y[..n]);
    }
  }

  class Subscription {
    const host: string
    const typ: string
    var buffer: seq<Message>
    var closed: bool
    var dropped: bool
    /** What the client has read, and the stretch of the publication log it was offered. */
    ghost var consumed: seq<Message>
    ghost var since: nat
    ghost var end: nat

    ghost function Got(): seq<Message>
      reads this`consumed, this`buffer
    {
      consumed + buffer
    }

    constructor (host: string, typ: string, ghost at: nat)
      ensures this.host == host && this.typ == typ && buffer == [] && !closed && !dropped
      ensures consumed == [] && since == at && end == at
    {
      this.host, this.typ, buffer, closed, dropped := host, typ, [], false, false;
      consumed, since, end := [], at, at;
    }

    /** A send that does not block. */
    method Offer(m: Message) returns (sent: bool)
      requires !closed
      modifies this`buffer
      ensures sent <==> |old(buffer)| < BUFFER
      ensures buffer == if sent then old(buffer) + [m] else old(buffer)
    {
      sent := |buffer| < BUFFER;
      if sent { buffer := buffer + [m]; }
    }

    method Shut()
      requires !closed
      modifies this`closed
      ensures closed
    {
      closed := true;
    }

    /** The client reads: a message while there is one; nothing, for good, once the channel is closed and empty. */
    method Receive() returns (m: Option<Message>, over: bool)
      modifies this`buffer, this`consumed
      ensures Got() == old(Got()) && |buffer| <= |old(buffer)|
      ensures m == if old(buffer) == [] then None else Some(old(buffer)[0])
      ensures m.Some? ==> consumed == old(consumed) + [m.value] && buffer == old(buffer)[1..]
      ensures m.None? ==> consumed == old(consumed) && buffer == old(buffer)
      ensures over <==> closed && old(buffer) == []
    {
      m, over := None, closed && buffer == [];
      if buffer != [] {
        m := Some(buffer[0]);
        consumed, buffer := consumed + [buffer[0]], buffer[1..];
      }
    }

    method ReceiveSome(n: nat)
      modifies this`buffer, this`consumed
      ensures Got() == old(Got()) && |buffer| <= |old(buffer)|
    {
      for k := 0 to n
        invariant Got() == old(Got()) && |buffer| <= |old(buffer)|
      {
        var m, over := Receive();
      }
    }

    /**
     One published message reaches an open subscription, whose client may read first: skipped,
     buffered, or the end.
     */
    method Take(m: Message, readFirst: nat, ghost log: seq<Message>) returns (kept: bool)
      requires !closed && !dropped && Faithful(this, log) && end < |log| && log[end] == m
      modifies this`buffer, this`consumed, this`closed, this`dropped, this`end
      ensures Faithful(this, log) && closed == dropped == !kept
      ensures kept ==> end == old(end) + 1 && |buffer| <= |old(buffer)| + (if Wants(host, typ, m) then 1 else 0)
      ensures !kept ==> end == old(end) && Wants(host, typ, m) && |buffer| == BUFFER <= |old(buffer)|
    {
      hide Filtered, Wants;
      FilteredGrows(host, typ, log, since, end);
      kept := true;
      if Wants(host, typ, m) {
        ReceiveSome(readFirst);
        ghost var got := Got();
        kept := Offer(m);
        if kept {
          assert Got() == got + [m];
        } else {
          dropped := true;
          Shut();
        }
      }
      if kept { end := end + 1; }
    }
  }

  /** What a subscription has been given, against the log of everything published. */
  ghost predicate Faithful(s: Subscription, log: seq<Message>)
    reads s`since, s`end, s`consumed, s`buffer
  {
    s.since <= s.end <= |log| && s.Got() == Filtered(s.host, s.typ, log[s.since..s.end]) && |s.buffer| <= BUFFER
  }

  /** In the set: open and up to date. Out of it: closed; if dropped, at a message it asked for. */
  ghost predicate Placed(s: Subscription, live: bool, log: seq<Message>)
    reads s`closed, s`dropped, s`end
  {
    && (live ==> !s.closed && !s.dropped && s.end == |log|)
    && (!live ==> s.closed && (s.dropped ==> s.end < |log| && Wants(s.host, s.typ, log[s.end])))
  }

  class Hub {
    var subs: set<Subscription>
    var closed: bool
    /** Everything published, and every subscription ever made. */
    ghost var log: seq<Message>
    ghost var all: set<Subscription>

    ghost predicate Valid()
      reads this, all
    {
      && subs <= all && (closed ==> subs == {})
      && forall s :: s in all ==> Faithful(s, log) && Placed(s, s in subs, log)
    }

    constructor ()
      ensures Valid() && all == {} && log == [] && !closed
    {
      subs, closed, log, all := {}, false, [], {};
    }

    /** After Close the subscription is closed from the start. */
    method Subscribe(host: string, typ: string) returns (s: Subscription)
      requires Valid()
      modifies this`subs, this`all
      ensures Valid() && fresh(s) && all == old(all) + {s} && s.host == host && s.typ == typ
      ensures s.since == |log| && s.Got() == [] && s.closed == closed && !s.dropped
      ensures subs == if closed then old(subs) else old(subs) + {s}
    {
      s := new Subscription(host, typ, |log|);
      all := all + {s};
      if closed { s.Shut(); } else { subs := subs + {s}; }
    }

    /** Safe after a drop, and twice. */
    method Unsubscribe(s: Subscription)
      requires Valid() && s in all
      modifies this`subs, s`closed
      ensures Valid() && subs == old(subs) - {s} && s.closed
    {
      if s in subs {
        subs := subs - {s};
        s.Shut();
      }
    }

    method Read(s: Subscription) returns (m: Option<Message>, over: bool)
      requires Valid() && s in all
      modifies s`buffer, s`consumed
      ensures Valid() && s.Got() == old(s.Got())
      ensures m == if old(s.buffer) == [] then None else Some(old(s.buffer)[0])
      ensures over <==> s.closed && old(s.buffer) == []
    {
      m, over := s.Receive();
    }

    /** Every channel ends closed, each shut exactly once, and the set stays empty from here on. */
    method Close()
      requires Valid()
      modifies this`subs, this`closed, subs`closed
      ensures Valid() && closed && subs == {}
      ensures forall s :: s in all ==> s.closed
    {
      hide Faithful;
      closed := true;
      while subs != {}
        invariant subs <= old(subs) && closed && all == old(all) && log == old(log)
        invariant forall s :: s in all ==> Faithful(s, log)
        invariant forall s :: s in all ==> Placed(s, s in subs, log)
        decreases |subs|
      {
        var s :| s in subs;
        subs := subs - {s};
        s.Shut();
      }
    }

    /** Offers the messages to one subscriber, which reads on meanwhile; drops it when its buffer is full. */
    method Deliver(s: Subscription, msgs: seq<Message>, readFirst: nat -> nat)
      requires s in subs && !s.closed && !s.dropped && Faithful(s, log)
      requires s.end + |msgs| == |log| && log[s.end..] == msgs
      modifies this`subs, s`buffer, s`consumed, s`closed, s`dropped, s`end
      ensures subs == if s.dropped then old(subs) - {s} else old(subs)
      ensures Faithful(s, log) && Placed(s, !s.dropped, log)
      ensures s.dropped ==> |s.buffer| == BUFFER
      ensures |old(s.buffer)| + |Filtered(s.host, s.typ, msgs)| <= BUFFER ==> !s.dropped
    {
      hide Filtered, Wants, Faithful;
      ghost var start := s.end;
      for k := 0 to |msgs|
        invariant s in subs && subs == old(subs) && !s.closed && !s.dropped && Faithful(s, log) && s.end == start + k
        invariant |s.buffer| <= |old(s.buffer)| + |Filtered(s.host, s.typ, msgs[..k])|
      {
        assert msgs[k] == log[start..][k] == log[s.end];
        FilteredCount(s.host, s.typ, msgs, k);
        var kept := s.Take(msgs[k], readFirst(k), log);
        if !kept {
          subs := subs - {s};
          return;
        }
      }
      assert msgs[..|msgs|] == msgs;
    }

    /** The messages join the log; no subscriber has been offered them yet. */
    ghost method Announce(msgs: seq<Message>)
      requires Valid()
      modifies this`log
      ensures log == old(log) + msgs && log[|old(log)|..] == msgs
      ensures forall s :: s in all ==> Faithful(s, log)
      ensures forall s :: s in all - subs ==> Placed(s, false, log)
      ensures forall s :: s in subs ==> !s.closed && !s.dropped && s.end == |old(log)|
    {
      hide Filtered, Wants, Faithful, Placed;
      log := log + msgs;
      forall s | s in all ensures Faithful(s, log) { LogGrew(s, old(log), msgs); }
      forall s | s in all - subs ensures Placed(s, false, log) { StillOut(s, old(log), msgs); }
      forall s | s in subs ensures !s.closed && !s.dropped && s.end == |old(log)| { UpToDate(s, old(log)); }
    }

    /** Delivers to every subscriber without blocking. */
    method Publish(msgs: seq<Message>, readFirst: nat -> nat)
      requires Valid()
      modifies this`subs, this`log, subs`buffer, subs`consumed, subs`closed, subs`dropped, subs`end
      ensures Valid() && log == old(log) + msgs && subs <= old(subs) && closed == old(closed) && all == old(all)
      ensures forall s :: s in old(subs) - subs ==> s.dropped && |s.buffer| == BUFFER
      ensures forall s :: s in old(subs) && |old(s.buffer)| + |Filtered(s.host, s.typ, msgs)| <= BUFFER ==> s in subs
    {
      hide Filtered, Wants, Faithful, Placed;
      Announce(msgs);
      var todo := subs;
      while todo != {}
        invariant subs <= old(subs) && todo <= subs && log == old(log) + msgs && closed == old(closed)
        invariant all == old(all)
        invariant forall s :: s in all ==> Faithful(s, log)
        invariant forall s :: s in todo ==> !s.closed && !s.dropped && s.end == |old(log)| && s.buffer == old(s.buffer)
        invariant forall s :: s in all - todo ==> Placed(s, s in subs, log)
        invariant forall s :: s in old(subs) - subs ==> s.dropped && |s.buffer| == BUFFER
        invariant forall s :: s in old(subs) && |old(s.buffer)| + |Filtered(s.host, s.typ, msgs)| <= BUFFER ==>
          s in subs
        decreases |todo|
      {
        var s :| s in todo;
        todo := todo - {s};
        Deliver(s, msgs, readFirst);
      }
    }
  }

  lemma StillOut(s: Subscription, log: seq<Message>, more: seq<Message>)
    requires Placed(s, false, log)
    ensures Placed(s, false, log + more)
  {
  }

  lemma UpToDate(s: Subscription, log: seq<Message>)
    requires Placed(s, true, log)
    ensures !s.closed && !s.dropped && s.end == |log|
  {
  }

  lemma FilteredCount(host: string, typ: string, ms: seq<Message>, k: nat)
    requires k < |ms|
    ensures |Filtered(host, typ, ms[..k + 1])|
          == |Filtered(host, typ, ms[..k])| + (if Wants(host, typ, ms[k]) then 1 else 0)
    ensures |Filtered(host, typ, ms[..k + 1])| <= |Filtered(host, typ, ms)|
  {
    assert ms[..k + 1][..k] == ms[..k];
    FilteredShorter(host, typ, ms, k + 1);
  }

  lemma {:induction false} FilteredShorter(host: string, typ: string, ms: seq<Message>, k: nat)
    requires k <= |ms|
    ensures |Filtered(host, typ, ms[..k])| <= |Filtered(host, typ, ms)|
  {
    FilteredSplits(host, typ, ms[..k], ms[k..]);
    assert ms == ms[..k] + ms[k..];
  }

  lemma LogGrew(s: Subscription, log: seq<Message>, more: seq<Message>)
    requires Faithful(s, log)
    ensures Faithful(s, log + more)
  {
    assert (log + more)[s.since..s.end] == log[s.since..s.end];
  }

  /** Cutting a log at a message the subscriber wants leaves a proper prefix of what it asked for. */
  lemma CutIsProper(host: string, typ: string, log: seq<Message>, since: nat, end: nat)
    requires since <= end < |log| && Wants(host, typ, log[end])
    ensures Filtered(host, typ, log[since..end]) < Filtered(host, typ, log[since..])
  {
    FilteredGrows(host, typ, log, since, end);
    FilteredSplits(host, typ, log[since..end + 1], log[end + 1..]);
    assert log[since..] == log[since..end + 1] + log[end + 1..];
  }

  lemma CutIsPrefix(host: string, typ: string, log: seq<Message>, since: nat, end: nat)
    requires since <= end <= |log|
    ensures Filtered(host, typ, log[since..end]) <= Filtered(host, typ, log[since..])
  {
    FilteredSplits(host, typ, log[since..end], log[end..]);
    assert log[since..] == log[since..end] + log[end..];
  }

  /**
   Delivery is gap-free. A live subscriber has read or has buffered exactly what it asked
   for since it subscribed; any other a prefix of that, and a dropped one a proper prefix.
   */
  lemma GapFree(h: Hub, s: Subscription)
    requires h.Valid() && s in h.all
    ensures s in h.subs ==> exists at :: AskedAt(s.host, s.typ, h.log[s.since..], s.consumed + s.buffer, at)
    ensures s in h.subs ==> !s.closed && s.consumed + s.buffer == Filtered(s.host, s.typ, h.log[s.since..])
    ensures s !in h.subs ==> s.closed && s.consumed + s.buffer <= Filtered(s.host, s.typ, h.log[s.since..])
    ensures s.dropped ==> s !in h.subs && s.consumed + s.buffer < Filtered(s.host, s.typ, h.log[s.since..])
  {
    assert Faithful(s, h.log) && Placed(s, s in h.subs, h.log);
    assert s in h.subs ==> h.log[s.since..s.end] == h.log[s.since..];
    CutIsPrefix(s.host, s.typ, h.log, s.since, s.end);
    var at := FilteredMeans(s.host, s.typ, h.log[s.since..]);
    if s.dropped { CutIsProper(s.host, s.typ, h.log, s.since, s.end); }
  }
}
