/**
 The agent's queue on disk (internal/agent/spool/spool.go): one file a batch, under a zero-padded
 sequence number, so that name order is send order.
 */
module SpoolNames {
  import opened Order

  /** The largest uint64. */
  const MAX_SEQ: nat := 18_446_744_073_709_551_615

  const WIDTH: nat := 20

  const SUFFIX := ".json"

  function Pow10(n: nat): (p: nat)
    ensures p > 0
  {
    if n == 0 then 1 else 10 * Pow10(n - 1)
  }

  function Digit(d: nat): char
    requires d < 10
  {
    '0' + d as char
  }

  predicate IsDigits(s: string) {
    forall i :: 0 <= i < |s| ==> '0' <= s[i] <= '9'
  }

  function Init(s: string): string
    requires s != ""
  {
    s[..|s| - 1]
  }

  function Final(s: string): char
    requires s != ""
  {
    s[|s| - 1]
  }

  /** %0<w>d. */
  function Padded(n: nat, w: nat): (s: string)
    ensures |s| == w && IsDigits(s)
  {
    if w == 0 then "" else Padded(n / 10, w - 1) + [Digit(n % 10)]
  }

  /** The number a string of digits spells. */
  function Spelled(s: string): nat
    requires IsDigits(s)
  {
    if s == "" then 0 else 10 * Spelled(Init(s)) + (Final(s) - '0') as nat
  }

  lemma {:induction false} PaddedSpells(n: nat, w: nat)
    requires n < Pow10(w)
    ensures Spelled(Padded(n, w)) == n
  {
    hide Padded, Spelled, Init, Final, IsDigits;
    if w == 0 {
      NothingPadded(n);
      NothingSpelled();
    } else {
      var tens: nat := n / 10;
      assert n == 10 * tens + n % 10;
      PaddedSpells(tens, w - 1);
      LastDigit(n, w);
      SpelledLast(Padded(n, w));
    }
  }

  lemma LastDigit(n: nat, w: nat)
    requires w > 0
    ensures Padded(n, w) != "" && Init(Padded(n, w)) == Padded(n / 10, w - 1)
    ensures Final(Padded(n, w)) as int - '0' as int == n % 10
  {
  }

  lemma NothingPadded(n: nat)
    ensures Padded(n, 0) == ""
  {
  }

  lemma {:induction false} LessAtLast(a: string, b: string)
    requires |a| == |b| > 0
    ensures Less(a, b) <==> (Less(Init(a), Init(b)) || (Init(a) == Init(b) && Final(a) < Final(b)))
  {
    if |a| > 1 {
      LessAtLast(a[1..], b[1..]);
      assert Init(a)[1..] == Init(a[1..]) && Init(b)[1..] == Init(b[1..]);
      assert Init(a) == [a[0]] + Init(a)[1..] && Init(b) == [b[0]] + Init(b)[1..];
    } else {
      assert a[1..] == "" && b[1..] == "" && Init(a) == "" && Init(b) == "";
    }
  }

  lemma LessOfNothing()
    ensures !Less("", "")
  {
  }

  lemma SpelledLast(s: string)
    requires s != "" && IsDigits(s)
    ensures IsDigits(Init(s)) && '0' <= Final(s) <= '9' && s == Init(s) + [Final(s)]
    ensures Spelled(s) == 10 * Spelled(Init(s)) + (Final(s) as int - '0' as int)
  {
  }

  lemma NothingSpelled()
    ensures Spelled("") == 0
  {
  }

  /** Among digit strings of one length, lexical order is numeric order. */
  lemma {:induction false} LexicalIsNumeric(a: string, b: string)
    requires |a| == |b| && IsDigits(a) && IsDigits(b)
    ensures Less(a, b) <==> Spelled(a) < Spelled(b)
    ensures Spelled(a) == Spelled(b) ==> a == b
    decreases |a|
  {
    hide Less, Spelled, Init, Final, IsDigits;
    if a == "" {
      LessOfNothing();
      NothingSpelled();
    } else {
      SpelledLast(a);
      SpelledLast(b);
      LexicalIsNumeric(Init(a), Init(b));
      LessAtLast(a, b);
    }
  }

  lemma {:induction false} LessWithSuffix(a: string, b: string, s: string)
    requires |a| == |b|
    ensures Less(a + s, b + s) <==> Less(a, b)
  {
    if a == "" {
      assert a + s == s == b + s;
      LessIrreflexive(s);
    } else {
      LessWithSuffix(a[1..], b[1..], s);
      assert (a + s)[1..] == a[1..] + s && (b + s)[1..] == b[1..] + s;
    }
  }

  lemma SeqFits()
    ensures MAX_SEQ < Pow10(WIDTH)
  {
    assert Pow10(5) == 100_000;
    assert Pow10(10) == 10_000_000_000 by { assert Pow10(7) == 10_000_000; }
    assert Pow10(15) == 1_000_000_000_000_000 by { assert Pow10(12) == 1_000_000_000_000; }
    assert Pow10(20) == 100_000_000_000_000_000_000 by { assert Pow10(17) == 100_000_000_000_000_000; }
  }

  function Name(seqno: nat): string
    requires seqno <= MAX_SEQ
  {
    SeqFits();
    Padded(seqno, WIDTH) + SUFFIX
  }

  /** For every uint64, name order is number order; a number is read back from its name. */
  lemma NamesInOrder(a: nat, b: nat)
    requires a <= MAX_SEQ && b <= MAX_SEQ
    ensures Less(Name(a), Name(b)) <==> a < b
    ensures Name(a) == Name(b) <==> a == b
  {
    hide Padded, Spelled, Less, Pow10;
    SeqFits();
    var x, y := Padded(a, WIDTH), Padded(b, WIDTH);
    PaddedSpells(a, WIDTH);
    PaddedSpells(b, WIDTH);
    LexicalIsNumeric(x, y);
    LessWithSuffix(x, y, SUFFIX);
    assert Name(a)[..WIDTH] == x && Name(b)[..WIDTH] == y;
  }

  /** strconv.ParseUint of a name without its suffix. */
  function Parsed(name: string): (n: nat)
    requires |name| >= WIDTH && IsDigits(name[..WIDTH])
  {
    Spelled(name[..WIDTH])
  }

  lemma NameParses(seqno: nat)
    requires seqno <= MAX_SEQ
    ensures |Name(seqno)| == WIDTH + 5 && Name(seqno)[WIDTH..] == SUFFIX
    ensures IsDigits(Name(seqno)[..WIDTH]) && Parsed(Name(seqno)) == seqno
  {
    hide Padded, Spelled, Pow10;
    SeqFits();
    PaddedSpells(seqno, WIDTH);
    assert Name(seqno)[..WIDTH] == Padded(seqno, WIDTH);
  }
}

/** The queue itself, as steps on a value: what each call does to the directory and the list. */
module SpoolQueue {
  import opened Wrappers
  import opened Order
  import opened SpoolNames

  /** A batch and the idempotency key fixed when it was queued. */
  datatype Entry<+B> = Entry(key: string, batch: B)

  /** A stored file; its body is None when it cannot be decoded. */
  datatype File<+B> = File(size: nat, body: Option<Entry<B>>)

  datatype Bounds = Bounds(maxBatches: nat, maxBytes: nat)

  /** Files by sequence number, the listed numbers oldest first, and the last number given out. */
  datatype Queue<B> = Queue(files: map<nat, File<B>>, items: seq<nat>, last: nat)

  ghost predicate Rising(items: seq<nat>) {
    forall i, j :: 0 <= i < j < |items| ==> items[i] < items[j]
  }

  ghost predicate Valid<B>(q: Queue<B>) {
    && Rising(q.items)
    && (forall k :: k in q.items <==> k in q.files)
    && (forall k :: k in q.files ==> k <= q.last)
    && q.last <= MAX_SEQ
  }

  function Bytes<B>(files: map<nat, File<B>>, items: seq<nat>): nat {
    if items == [] then 0 else (if items[0] in files then files[items[0]].size else 0) + Bytes(files, items[1..])
  }

  predicate Over<B>(b: Bounds, q: Queue<B>) {
    |q.items| > 1 && (|q.items| > b.maxBatches || Bytes(q.files, q.items) > b.maxBytes)
  }

  function DropFront<B>(q: Queue<B>): Queue<B>
    requires q.items != []
  {
    Queue(q.files - {q.items[0]}, q.items[1..], q.last)
  }

  /** Drops the oldest while over the bounds, as long as removing files works. */
  function Trim<B>(b: Bounds, q: Queue<B>, removes: nat): Queue<B>
    decreases |q.items|
  {
    if !Over(b, q) || removes == 0 then q else Trim(b, DropFront(q), removes - 1)
  }

  /** The next number: the clock's nanoseconds, or one more than the last. */
  function NextSeq(last: nat, clock: nat): nat {
    if clock <= last then last + 1 else clock
  }

  /** The least number that is not behind the clock and is new. */
  lemma NextSeqIsLeast(last: nat, clock: nat, m: nat)
    ensures var n := NextSeq(last, clock); last < n && clock <= n && (last < m && clock <= m ==> n <= m)
  {
  }

  /** The same in the 64 bits of the program. */
  function NextSeq64(last: nat, clock: nat): nat {
    if clock <= last then (last + 1) % (MAX_SEQ + 1) else clock
  }

  /** Numbers rise, and nothing wraps, exactly while the last one is not the largest there is. */
  lemma SeqRisesIff(last: nat, clock: nat)
    requires last <= MAX_SEQ && clock <= MAX_SEQ
    ensures last < NextSeq64(last, clock) <==> last < MAX_SEQ
    ensures NextSeq(last, clock) <= MAX_SEQ <==> last < MAX_SEQ
    ensures last < MAX_SEQ ==> NextSeq64(last, clock) == NextSeq(last, clock)
  {
    if last < MAX_SEQ {
      assert (last + 1) % (MAX_SEQ + 1) == last + 1;
    }
  }

  /** After the largest number comes 0: the newest batch would be named before every other, and sent first. */
  lemma WrappedNameSortsFirst(clock: nat, k: nat)
    requires clock <= MAX_SEQ && 0 < k <= MAX_SEQ
    ensures NextSeq64(MAX_SEQ, clock) == 0 && Less(Name(NextSeq64(MAX_SEQ, clock)), Name(k))
  {
    hide Name;
    NamesInOrder(0, k);
  }

  function Append<B>(q: Queue<B>, clock: nat, f: File<B>): Queue<B> {
    var n := NextSeq(q.last, clock);
    Queue(q.files[n := f], q.items + [n], n)
  }

  function Add<B>(b: Bounds, q: Queue<B>, clock: nat, f: File<B>, removes: nat): Queue<B> {
    Trim(b, Append(q, clock, f), removes)
  }

  /** Discards undecodable files at the front. */
  function Peeked<B>(q: Queue<B>, removes: nat): Queue<B>
    decreases |q.items|
  {
    if q.items == [] || q.items[0] !in q.files || q.files[q.items[0]].body.Some? || removes == 0 then q
    else Peeked(DropFront(q), removes - 1)
  }

  function Without(items: seq<nat>, k: nat): seq<nat> {
    if items == [] then [] else if items[0] == k then items[1..] else [items[0]] + Without(items[1..], k)
  }

  function Remove<B>(q: Queue<B>, k: nat): Queue<B> {
    if k in q.items then Queue(q.files - {k}, Without(q.items, k), q.last) else q
  }

  // ----- every step keeps the queue in order -----

  lemma AppendKeeps<B>(q: Queue<B>, clock: nat, f: File<B>)
    requires Valid(q) && NextSeq(q.last, clock) <= MAX_SEQ
    ensures Valid(Append(q, clock, f)) && NextSeq(q.last, clock) !in q.files
  {
    assert forall i :: 0 <= i < |q.items| ==> q.items[i] in q.items;
  }

  lemma DropFrontKeeps<B>(q: Queue<B>)
    requires Valid(q) && q.items != []
    ensures Valid(DropFront(q))
  {
    var d := DropFront(q);
    forall k ensures k in d.items <==> k in d.files {
      assert q.items == [q.items[0]] + d.items;
      if k in d.items {
        var i :| 0 <= i < |d.items| && d.items[i] == k;
        assert q.items[i + 1] == k;
      }
    }
  }

  lemma BytesLocal<B>(f: map<nat, File<B>>, g: map<nat, File<B>>, items: seq<nat>)
    requires forall k :: k in items ==> (k in f <==> k in g) && (k in f ==> f[k] == g[k])
    ensures Bytes(f, items) == Bytes(g, items)
  {
    if items != [] {
      assert items[0] in items;
      BytesLocal(f, g, items[1..]);
    }
  }

  lemma {:induction false} BytesAppend<B>(f: map<nat, File<B>>, items: seq<nat>, k: nat)
    requires k in f
    ensures Bytes(f, items + [k]) == Bytes(f, items) + f[k].size
  {
    if items == [] {
      assert [] + [k] == [k] && [k][1..] == [];
    } else {
      BytesAppend(f, items[1..], k);
      assert (items + [k])[1..] == items[1..] + [k];
    }
  }

  /** Dropping the oldest takes its size off the total. */
  lemma DropFrontBytes<B>(q: Queue<B>)
    requires Valid(q) && q.items != []
    ensures Bytes(DropFront(q).files, DropFront(q).items) == Bytes(q.files, q.items) - q.files[q.items[0]].size
  {
    var d := DropFront(q);
    assert q.items[0] in q.items;
    forall k | k in q.items[1..] ensures k != q.items[0] {
      var i :| 0 <= i < |q.items[1..]| && q.items[1..][i] == k;
      assert q.items[i + 1] == k;
    }
    BytesLocal(d.files, q.files, q.items[1..]);
  }

  /** The queue with its oldest `k` batches gone. */
  function From<B>(q: Queue<B>, k: nat): (r: Queue<B>)
    requires k <= |q.items|
    ensures |r.items| == |q.items| - k
    decreases k
  {
    if k == 0 then q else DropFront(From(q, k - 1))
  }

  lemma {:induction false} FromItems<B>(q: Queue<B>, k: nat)
    requires k <= |q.items|
    ensures From(q, k).items == q.items[k..]
  {
    if k > 0 { FromItems(q, k - 1); }
  }

  lemma {:induction false} FromFront<B>(q: Queue<B>, k: nat)
    requires k < |q.items|
    ensures From(DropFront(q), k) == From(q, k + 1)
  {
    if k > 0 { FromFront(q, k - 1); }
  }

  /** What is left keeps its files as they were. */
  lemma {:induction false} FromFiles<B>(q: Queue<B>, k: nat)
    requires Valid(q) && k <= |q.items|
    ensures Valid(From(q, k)) && From(q, k).items == q.items[k..] && From(q, k).last == q.last
    ensures forall x :: x in From(q, k).files ==> x in q.files && From(q, k).files[x] == q.files[x]
    ensures Bytes(From(q, k).files, From(q, k).items) == Bytes(q.files, q.items[k..])
  {
    hide Valid, Bytes;
    FromItems(q, k);
    if k > 0 {
      FromFiles(q, k - 1);
      FromItems(q, k - 1);
      DropFrontKeeps(From(q, k - 1));
    }
    LeftOver(q, From(q, k), k);
    BytesLocal(From(q, k).files, q.files, q.items[k..]);
  }

  lemma LeftOver<B>(q: Queue<B>, r: Queue<B>, k: nat)
    requires Valid(r) && k <= |q.items| && r.items == q.items[k..]
    requires forall x :: x in r.files ==> x in q.files && r.files[x] == q.files[x]
    ensures forall x :: x in q.items[k..] ==> x in q.files && x in r.files && r.files[x] == q.files[x]
  {
    hide Rising;
  }

  lemma {:induction false} TrimIsFrom<B>(b: Bounds, q: Queue<B>, removes: nat) returns (k: nat)
    requires Valid(q)
    ensures k <= |q.items| && Trim(b, q, removes) == From(q, k)
    ensures q.items != [] ==> k < |q.items|
    ensures forall j :: 0 <= j < k ==> Over(b, From(q, j))
    ensures k <= removes && (k < removes ==> !Over(b, From(q, k)))
    decreases |q.items|
  {
    hide Valid, Bytes;
    if !Over(b, q) || removes == 0 {
      k := 0;
    } else {
      DropFrontKeeps(q);
      var m := TrimIsFrom(b, DropFront(q), removes - 1);
      k := m + 1;
      FromFront(q, m);
      forall j | 0 <= j < k ensures Over(b, From(q, j)) {
        if j > 0 { FromFront(q, j - 1); }
      }
    }
  }

  /** `r` is `q` without its oldest `k` batches. */
  ghost predicate Shorter<B>(q: Queue<B>, k: nat, r: Queue<B>) {
    && k <= |q.items| && r.items == q.items[k..] && r.last == q.last && Valid(r)
    && forall x :: x in r.files ==> x in q.files && r.files[x] == q.files[x]
  }

  /**
   What eviction leaves: the queue without its shortest sufficient prefix. Every shorter
   prefix would leave several batches that are too many or too large together; the newest
   stays; and if no removal fails, one batch remains or both bounds hold.
   */
  lemma TrimDropsShortestPrefix<B>(b: Bounds, q: Queue<B>, removes: nat) returns (k: nat)
    requires Valid(q)
    ensures Shorter(q, k, Trim(b, q, removes)) && k <= removes && (q.items != [] ==> k < |q.items|)
    ensures forall j :: 0 <= j < k ==>
      |q.items| - j > 1 && (|q.items| - j > b.maxBatches || Bytes(q.files, q.items[j..]) > b.maxBytes)
    ensures k < removes ==>
      |q.items| - k <= 1 || (|q.items| - k <= b.maxBatches && Bytes(q.files, q.items[k..]) <= b.maxBytes)
  {
    hide Valid, Bytes, Trim;
    k := TrimIsFrom(b, q, removes);
    FromFiles(q, k);
    forall j | 0 <= j < k
      ensures |q.items| - j > 1 && (|q.items| - j > b.maxBatches || Bytes(q.files, q.items[j..]) > b.maxBytes)
    {
      FromFiles(q, j);
    }
  }

  /** The oldest file cannot be read. */
  predicate Stuck<B>(q: Queue<B>) {
    q.items != [] && q.items[0] in q.files && q.files[q.items[0]].body.None?
  }

  lemma {:induction false} PeekIsFrom<B>(q: Queue<B>, removes: nat) returns (k: nat)
    requires Valid(q)
    ensures k <= |q.items| && Peeked(q, removes) == From(q, k)
    ensures forall j :: 0 <= j < k ==> Stuck(From(q, j))
    ensures k <= removes && (k < removes ==> !Stuck(From(q, k)))
    decreases |q.items|
  {
    hide Valid;
    if !Stuck(q) || removes == 0 {
      k := 0;
    } else {
      DropFrontKeeps(q);
      var m := PeekIsFrom(DropFront(q), removes - 1);
      k := m + 1;
      FromFront(q, m);
      forall j | 0 <= j < k ensures Stuck(From(q, j)) {
        if j > 0 { FromFront(q, j - 1); }
      }
    }
  }

  /** What peeking leaves: the queue without its oldest unreadable files, up to a readable one or a failed removal. */
  lemma PeekDropsUnreadable<B>(q: Queue<B>, removes: nat) returns (k: nat)
    requires Valid(q)
    ensures Shorter(q, k, Peeked(q, removes)) && k <= removes
    ensures forall j :: 0 <= j < k ==> q.items[j] in q.files && q.files[q.items[j]].body.None?
    ensures k < removes && k < |q.items| ==> q.items[k] in q.files && q.files[q.items[k]].body.Some?
  {
    hide Valid, Peeked, Bytes;
    k := PeekIsFrom(q, removes);
    FromFiles(q, k);
    FrontHasFile(From(q, k));
    forall j | 0 <= j < k ensures q.items[j] in q.files && q.files[q.items[j]].body.None? {
      assert Stuck(From(q, j));
      FromFiles(q, j);
    }
  }

  lemma FrontHasFile<B>(q: Queue<B>)
    requires Valid(q)
    ensures q.items != [] ==> q.items[0] in q.files
  {
    if q.items != [] { assert q.items[0] in q.items; }
  }

  lemma {:induction false} WithoutHas(items: seq<nat>, k: nat, x: nat)
    requires Rising(items)
    ensures x in Without(items, k) <==> x in items && x != k
  {
    if items != [] {
      assert items == [items[0]] + items[1..];
      WithoutHas(items[1..], k, x);
      if x in items[1..] { FirstIsLeast(items, x); }
    }
  }

  lemma FirstIsLeast(items: seq<nat>, x: nat)
    requires Rising(items) && items != [] && x in items[1..]
    ensures items[0] < x
  {
    var i :| 0 <= i < |items[1..]| && items[1..][i] == x;
    assert items[i + 1] == x;
  }

  lemma {:induction false} WithoutRises(items: seq<nat>, k: nat)
    requires Rising(items)
    ensures Rising(Without(items, k))
  {
    if items != [] {
      WithoutRises(items[1..], k);
      var rest := Without(items[1..], k);
      forall i | 0 <= i < |rest| ensures items[0] < rest[i] {
        WithoutHas(items[1..], k, rest[i]);
        FirstIsLeast(items, rest[i]);
      }
    }
  }

  lemma RemoveKeeps<B>(q: Queue<B>, k: nat)
    requires Valid(q)
    ensures Valid(Remove(q, k)) && Remove(q, k).last == q.last && Remove(q, k).files == q.files - {k}
  {
    hide Rising;
    WithoutRises(q.items, k);
    forall x ensures x in Without(q.items, k) <==> x in q.items && x != k { WithoutHas(q.items, k, x); }
  }

  lemma HasElement(a: seq<nat>)
    ensures a == [] || exists x :: x in a
  {
    if a != [] { assert a[0] in a; }
  }

  lemma FirstAtMost(items: seq<nat>, x: nat)
    requires Rising(items) && items != [] && x in items
    ensures items[0] <= x
    ensures x in items[1..] <==> items[0] < x
  {
    var i :| 0 <= i < |items| && items[i] == x;
    if i > 0 { assert items[1..][i - 1] == x; }
    if x in items[1..] { FirstIsLeast(items, x); }
  }

  /** An ordered list is determined by its elements, so reopening the same files restores the same queue. */
  lemma {:induction false} SameFilesSameOrder(a: seq<nat>, b: seq<nat>)
    requires Rising(a) && Rising(b) && forall k :: k in a <==> k in b
    ensures a == b
  {
    HasElement(a);
    HasElement(b);
    if a != [] {
      assert a[0] in a && b[0] in b;
      FirstAtMost(b, a[0]);
      FirstAtMost(a, b[0]);
      forall k ensures k in a[1..] <==> k in b[1..] {
        if k in a {
          FirstAtMost(a, k);
          FirstAtMost(b, k);
        }
        assert k in a[1..] ==> k in a;
        assert k in b[1..] ==> k in b;
      }
      SameFilesSameOrder(a[1..], b[1..]);
      assert a == [a[0]] + a[1..] && b == [b[0]] + b[1..];
    }
  }

  /** A queue as `Open` finds it after a crash: only the files are left. */
  ghost predicate Reopened<B>(files: map<nat, File<B>>, q: Queue<B>) {
    Valid(q) && q.files == files && (q.last == 0 || q.last in files)
  }

  lemma ReopenRestores<B>(q: Queue<B>, r: Queue<B>)
    requires Valid(q) && Reopened(q.files, r)
    ensures r.items == q.items && r.files == q.files && r.last <= q.last
  {
    SameFilesSameOrder(q.items, r.items);
  }
}

/** The spool as the agent holds it: a directory, a list of items and running totals. */
module Spool {
  import opened Wrappers
  import opened Order
  import opened SpoolNames
  import opened SpoolQueue

  datatype Item = Item(name: string, size: nat)

  const TMP_PREFIX := ".tmp-"

  /** A name the spool reads: it ends like those it writes. */
  predicate Json(name: string) {
    |name| >= |SUFFIX| && name[|name| - |SUFFIX|..] == SUFFIX
  }

  /** Of the files the spool reads, the directory holds exactly the numbered ones. */
  ghost predicate Holds<B>(dir: map<string, File<B>>, files: map<nat, File<B>>) {
    && (forall k :: k in files ==> k <= MAX_SEQ && Name(k) in dir && dir[Name(k)] == files[k])
    && (forall name :: name in dir && Json(name) ==> exists k :: k in files && name == Name(k))
  }

  ghost predicate Lists<B>(items: seq<Item>, files: map<nat, File<B>>, nums: seq<nat>) {
    |items| == |nums| && forall i :: 0 <= i < |nums| ==>
      nums[i] in files && nums[i] <= MAX_SEQ && items[i] == Item(Name(nums[i]), files[nums[i]].size)
  }

  lemma HoldsMore<B>(dir: map<string, File<B>>, files: map<nat, File<B>>, n: nat, f: File<B>)
    requires Holds(dir, files) && n <= MAX_SEQ && n !in files
    ensures Name(n) !in dir && Holds(dir[Name(n) := f], files[n := f])
  {
    hide Name;
    NameParses(n);
    forall k | k in files ensures Name(k) != Name(n) { NamesInOrder(k, n); }
  }

  /** Files the spool does not read may lie beside its own. */
  lemma HoldsForeign<B>(dir: map<string, File<B>>, files: map<nat, File<B>>, name: string, f: File<B>)
    requires Holds(dir, files) && !Json(name)
    ensures Holds(dir[name := f], files)
  {
    hide Name;
    forall k | k in files ensures Name(k) != name { NameParses(k); }
  }

  lemma HoldsLess<B>(dir: map<string, File<B>>, files: map<nat, File<B>>, n: nat)
    requires Holds(dir, files) && n in files
    ensures Holds(dir - {Name(n)}, files - {n})
  {
    hide Name;
    forall k | k in files && k != n ensures Name(k) != Name(n) { NamesInOrder(k, n); }
  }

  predicate Tmp(name: string) {
    TMP_PREFIX <= name
  }

  /** The queue with one more file, at its place in the order. */
  function Inserted<B>(q: Queue<B>, n: nat, f: File<B>, i: nat): Queue<B>
    requires i <= |q.items|
  {
    Queue(q.files[n := f], q.items[..i] + [n] + q.items[i..], if n > q.last then n else q.last)
  }

  lemma InsertedValid<B>(q: Queue<B>, n: nat, f: File<B>, i: nat)
    requires SpoolQueue.Valid(q) && n <= MAX_SEQ && n !in q.files && i <= |q.items|
    requires forall j :: 0 <= j < i ==> q.items[j] < n
    requires forall j :: i <= j < |q.items| ==> n < q.items[j]
    ensures SpoolQueue.Valid(Inserted(q, n, f, i))
  {
    var items := q.items[..i] + [n] + q.items[i..];
    assert q.items == q.items[..i] + q.items[i..];
    assert forall k :: k in items <==> k in q.items || k == n;
  }

  lemma {:induction false} BytesInserted<B>(files: map<nat, File<B>>, items: seq<nat>, n: nat, i: nat)
    requires n in files && i <= |items|
    ensures Bytes(files, items[..i] + [n] + items[i..]) == Bytes(files, items) + files[n].size
  {
    var all := items[..i] + [n] + items[i..];
    if i == 0 {
      assert all[1..] == items;
    } else {
      BytesInserted(files, items[1..], n, i - 1);
      assert all[1..] == items[1..][..i - 1] + [n] + items[1..][i - 1..];
    }
  }

  lemma ListsInserted<B>(items: seq<Item>, q: Queue<B>, n: nat, f: File<B>, i: nat)
    requires SpoolQueue.Valid(q) && Lists(items, q.files, q.items) && n !in q.files && n <= MAX_SEQ && i <= |items|
    ensures var r := Inserted(q, n, f, i);
      Lists(items[..i] + [Item(Name(n), f.size)] + items[i..], r.files, r.items)
      && Bytes(r.files, r.items) == Bytes(q.files, q.items) + f.size
  {
    hide Name, Bytes;
    BytesInserted(q.files[n := f], q.items, n, i);
    BytesLocal(q.files, q.files[n := f], q.items);
  }

  /** Finds where a name belongs among the sorted items. */
  method Place<B>(items: seq<Item>, n: nat, ghost q: Queue<B>) returns (i: nat)
    requires SpoolQueue.Valid(q) && Lists(items, q.files, q.items) && n <= MAX_SEQ && n !in q.files
    ensures i <= |items|
    ensures forall j :: 0 <= j < i ==> q.items[j] < n
    ensures forall j :: i <= j < |q.items| ==> n < q.items[j]
  {
    hide Name, Less;
    i := 0;
    while i < |items| && Less(items[i].name, Name(n))
      invariant 0 <= i <= |items|
      invariant forall j :: 0 <= j < i ==> q.items[j] < n
    {
      NamesInOrder(q.items[i], n);
      i := i + 1;
    }
    if i < |items| {
      NamesInOrder(q.items[i], n);
      assert q.items[i] in q.items;
    }
  }

  /** Lists one more file of the directory. */
  method LoadFile<B>(
      name: string, f: File<B>, items: seq<Item>, bytes: int, lastSeq: nat, ghost q: Queue<B>,
      ghost k: nat, ghost dir: map<string, File<B>>)
    returns (items': seq<Item>, bytes': int, lastSeq': nat, ghost q': Queue<B>)
    requires k <= MAX_SEQ && name == Name(k) && name !in dir
    requires Reopened(q.files, q) && lastSeq == q.last && Holds(dir, q.files)
    requires Lists(items, q.files, q.items) && bytes == Bytes(q.files, q.items)
    ensures Reopened(q'.files, q') && lastSeq' == q'.last && Holds(dir[name := f], q'.files)
    ensures Lists(items', q'.files, q'.items) && bytes' == Bytes(q'.files, q'.items)
  {
    hide Name, Bytes, SpoolQueue.Valid;
    NameParses(k);
    var n := Parsed(name);
    assert k !in q.files;
    HoldsMore(dir, q.files, k, f);
    var i := Place(items, n, q);
    InsertedValid(q, n, f, i);
    ListsInserted(items, q, n, f, i);
    items' := items[..i] + [Item(name, f.size)] + items[i..];
    bytes' := bytes + f.size;
    lastSeq' := if n > lastSeq then n else lastSeq;
    q' := Inserted(q, n, f, i);
  }

  method Load<B>(dir: map<string, File<B>>) returns (items: seq<Item>, bytes: int, lastSeq: nat, ghost q: Queue<B>)
    requires forall name :: name in dir && Json(name) ==> Tmp(name) || exists k: nat :: k <= MAX_SEQ && name == Name(k)
    ensures Reopened(q.files, q) && Holds(map name | name in dir && !Tmp(name) :: dir[name], q.files)
    ensures Lists(items, q.files, q.items) && bytes == Bytes(q.files, q.items) && lastSeq == q.last
  {
    hide Name, Bytes, Tmp, Json, Holds, Reopened, Lists;
    items, bytes, lastSeq, q := [], 0, 0, Queue(map[], [], 0);
    EmptyQueue<B>();
    NothingKept(dir);
    var left := dir.Keys;
    while left != {}
      invariant left <= dir.Keys
      invariant Reopened(q.files, q) && lastSeq == q.last && Holds(Kept(dir, left), q.files)
      invariant Lists(items, q.files, q.items) && bytes == Bytes(q.files, q.items)
      decreases |left|
    {
      var name :| name in left;
      if Tmp(name) {
        assert Kept(dir, left - {name}) == Kept(dir, left);
      } else if !Json(name) {
        assert Kept(dir, left - {name}) == Kept(dir, left)[name := dir[name]];
        HoldsForeign(Kept(dir, left), q.files, name, dir[name]);
      } else {
        ghost var k: nat :| k <= MAX_SEQ && name == Name(k);
        items, bytes, lastSeq, q := LoadFile(name, dir[name], items, bytes, lastSeq, q, k, Kept(dir, left));
        assert Kept(dir, left - {name}) == Kept(dir, left)[name := dir[name]];
      }
      left := left - {name};
    }
    assert Kept(dir, left) == map name | name in dir && !Tmp(name) :: dir[name];
  }

  /** The files already looked at, without temporary ones. */
  ghost function Kept<B>(dir: map<string, File<B>>, left: set<string>): map<string, File<B>> {
    map name | name in dir && !Tmp(name) && name !in left :: dir[name]
  }

  lemma NothingKept<B>(dir: map<string, File<B>>)
    ensures Holds(Kept(dir, dir.Keys), map[])
  {
  }

  lemma EmptyQueue<B>()
    ensures var q: Queue<B> := Queue(map[], [], 0);
      Reopened(q.files, q) && Lists([], q.files, q.items) && Bytes(q.files, q.items) == 0
  {
  }

  class Spool<B> {
    const bounds: Bounds
    var dir: map<string, File<B>>
    var items: seq<Item>
    var bytes: int
    var lastSeq: nat
    var corrupt: nat
    /** The queue these fields stand for. */
    ghost var q: Queue<B>

    ghost predicate Valid()
      reads this
    {
      && SpoolQueue.Valid(q) && Holds(dir, q.files) && Lists(items, q.files, q.items)
      && bytes == Bytes(q.files, q.items) && lastSeq == q.last
    }

    /** The queue the directory's complete files stand for; temporary files are gone afterwards. */
    constructor (bounds: Bounds, dir: map<string, File<B>>)
      requires forall name :: name in dir && Json(name) ==>
        Tmp(name) || exists k: nat :: k <= MAX_SEQ && name == Name(k)
      ensures Valid() && Reopened(q.files, q) && this.bounds == bounds && corrupt == 0
      ensures this.dir == map name | name in dir && !Tmp(name) :: dir[name]
    {
      hide SpoolQueue.Valid, Holds, Lists, Bytes, Name, Json;
      var found, total, last, queue := Load(dir);
      this.bounds := bounds;
      this.dir := map name | name in dir && !Tmp(name) :: dir[name];
      items, bytes, lastSeq, corrupt, q := found, total, last, 0, queue;
    }

    /** Removes the oldest file and forgets it. */
    method DropOldest()
      requires Valid() && items != []
      modifies this
      ensures Valid() && q == DropFront(old(q)) && corrupt == old(corrupt)
    {
      hide Name, SpoolQueue.Valid, Bytes;
      assert q.items != [];
      DropFrontKeeps(q);
      DropFrontBytes(q);
      HoldsLess(dir, q.files, q.items[0]);
      ListsRest(items, q);
      dir := dir - {items[0].name};
      bytes := bytes - items[0].size;
      items := items[1..];
      q := DropFront(q);
    }

    /** Writes a new file under the next name and lists it last. */
    method AppendFile(clock: nat, f: File<B>)
      requires Valid() && NextSeq(lastSeq, clock) <= MAX_SEQ
      modifies this
      ensures Valid() && q == Append(old(q), clock, f) && corrupt == old(corrupt)
      ensures dir == old(dir)[Name(q.last) := f] && Name(q.last) !in old(dir)
    {
      hide Name, SpoolQueue.Valid, Bytes;
      var n := if clock <= lastSeq then lastSeq + 1 else clock;
      AppendKeeps(q, clock, f);
      HoldsMore(dir, q.files, n, f);
      BytesAppended(q, n, f);
      ListsMore(items, q.files, q.items, n, f);
      dir := dir[Name(n) := f];
      lastSeq := n;
      items := items + [Item(Name(n), f.size)];
      bytes := bytes + f.size;
      q := Append(q, clock, f);
    }

    /** Drops the oldest batches over the bounds; `removes` bounds how many removals succeed. */
    method Evict(removes: nat) returns (ok: bool, dropped: nat)
      requires Valid()
      modifies this
      ensures Valid() && corrupt == old(corrupt) && q == Trim(bounds, old(q), removes)
      ensures dropped == |old(q).items| - |q.items| && (ok <==> !Over(bounds, q))
      ensures ok ==> |items| <= 1 || (|items| <= bounds.maxBatches && bytes <= bounds.maxBytes)
    {
      hide Name, SpoolQueue.Valid, Bytes, Holds;
      dropped := 0;
      var left := removes;
      while |items| > 1 && (|items| > bounds.maxBatches || bytes > bounds.maxBytes)
        invariant Valid() && corrupt == old(corrupt)
        invariant Trim(bounds, q, left) == Trim(bounds, old(q), removes)
        invariant dropped == |old(q).items| - |q.items|
        decreases |items|
      {
        if left == 0 { return false, dropped; }
        DropOldest();
        left := left - 1;
        dropped := dropped + 1;
      }
      ok := true;
    }

    /**
     Appends a batch and drops the oldest ones over the bounds. `written` is false when
     the file could not be written.
     */
    method Add(
        clock: nat, key: string, batch: B, size: nat, written: bool, removes: nat) returns (ok: bool, dropped: nat)
      requires Valid() && NextSeq(lastSeq, clock) <= MAX_SEQ
      modifies this
      ensures Valid() && corrupt == old(corrupt)
      ensures key == "" || !written ==> !ok && q == old(q) && dropped == 0
      ensures key != "" && written ==>
        && q == SpoolQueue.Add(bounds, old(q), clock, File(size, Some(Entry(key, batch))), removes)
        && dropped == |old(q).items| + 1 - |q.items|
        && (ok <==> !Over(bounds, q))
      ensures ok ==> |items| <= 1 || (|items| <= bounds.maxBatches && bytes <= bounds.maxBytes)
    {
      hide Name, SpoolQueue.Valid, Bytes, Holds, SpoolQueue.Trim;
      if key == "" || !written { return false, 0; }
      AppendFile(clock, File(size, Some(Entry(key, batch))));
      ok, dropped := Evict(removes);
    }

    /** The oldest batch; undecodable files before it are discarded and counted. */
    method Peek(removes: nat) returns (r: Option<(nat, Entry<B>)>, ok: bool)
      requires Valid()
      modifies this
      ensures Valid() && q == Peeked(old(q), removes)
      ensures corrupt == old(corrupt) + |old(q).items| - |q.items|
      ensures ok && r.None? ==> q.items == []
      ensures ok && r.Some? ==> q.items != [] && r.value.0 == q.items[0] && q.files[q.items[0]].body == Some(r.value.1)
      ensures !ok ==> r.None? && q.items != [] && q.files[q.items[0]].body.None?
      ensures |old(q).items| <= removes ==> ok
    {
      hide Name, SpoolQueue.Valid, Bytes;
      var left := removes;
      while |items| > 0
        invariant Valid() && Peeked(q, left) == Peeked(old(q), removes)
        invariant corrupt == old(corrupt) + |old(q).items| - |q.items|
        invariant |old(q).items| <= removes ==> |q.items| <= left
        decreases |items|
      {
        FrontIsListed(dir, items, q);
        var f := dir[items[0].name];
        if f.body.Some? {
          NameParses(q.items[0]);
          return Some((Parsed(items[0].name), f.body.value)), true;
        }
        if left == 0 { return None, false; }
        DropOldest();
        corrupt := corrupt + 1;
        left := left - 1;
      }
      return None, true;
    }

    /** Deletes an entry returned by Peek, if it is still there. */
    method RemoveEntry(seqno: nat, works: bool) returns (ok: bool)
      requires Valid() && seqno <= MAX_SEQ
      modifies this
      ensures Valid() && corrupt == old(corrupt)
      ensures ok <==> works || seqno !in old(q).items
      ensures q == if ok then Remove(old(q), seqno) else old(q)
    {
      hide SpoolQueue.Valid, Bytes, Name;
      var i := 0;
      while i < |items| && items[i].name != Name(seqno)
        invariant 0 <= i <= |items|
        invariant forall j :: 0 <= j < i ==> items[j].name != Name(seqno)
      {
        i := i + 1;
      }
      FoundAt(items, q, seqno, i);
      if i == |items| { return true; }
      if !works { return false; }
      RemoveKeeps(q, seqno);
      HoldsLess(dir, q.files, seqno);
      RemoveBytes(q, i);
      ListsWithout(items, q, i);
      dir := dir - {items[i].name};
      bytes := bytes - items[i].size;
      items := items[..i] + items[i + 1..];
      q := Remove(q, seqno);
      return true;
    }
  }

  lemma ListsRest<B>(items: seq<Item>, q: Queue<B>)
    requires SpoolQueue.Valid(q) && Lists(items, q.files, q.items) && items != []
    ensures Lists(items[1..], DropFront(q).files, q.items[1..]) && items[0].name == Name(q.items[0])
    ensures q.items[0] in q.files && items[0].size == q.files[q.items[0]].size
  {
    hide Name;
    assert forall i :: 0 < i < |q.items| ==> q.items[0] < q.items[i];
  }

  lemma ListsMore<B>(items: seq<Item>, files: map<nat, File<B>>, nums: seq<nat>, n: nat, f: File<B>)
    requires Lists(items, files, nums) && n !in files && n <= MAX_SEQ
    ensures Lists(items + [Item(Name(n), f.size)], files[n := f], nums + [n])
  {
    hide Name;
  }

  lemma BytesAppended<B>(q: Queue<B>, n: nat, f: File<B>)
    requires SpoolQueue.Valid(q) && n !in q.files
    ensures Bytes(q.files[n := f], q.items + [n]) == Bytes(q.files, q.items) + f.size
  {
    BytesAppend(q.files[n := f], q.items, n);
    BytesLocal(q.files, q.files[n := f], q.items);
  }

  lemma FrontIsListed<B>(dir: map<string, File<B>>, items: seq<Item>, q: Queue<B>)
    requires Holds(dir, q.files) && Lists(items, q.files, q.items) && items != []
    ensures q.items != [] && q.items[0] <= MAX_SEQ && q.items[0] in q.files
    ensures items[0].name == Name(q.items[0]) && items[0].name in dir && dir[items[0].name] == q.files[q.items[0]]
  {
    hide Name;
  }

  lemma FoundAt<B>(items: seq<Item>, q: Queue<B>, seqno: nat, i: nat)
    requires SpoolQueue.Valid(q) && Lists(items, q.files, q.items) && seqno <= MAX_SEQ && i <= |items|
    requires forall j :: 0 <= j < i ==> items[j].name != Name(seqno)
    requires i < |items| ==> items[i].name == Name(seqno)
    ensures i < |items| ==> q.items[i] == seqno && seqno in q.files && items[i].size == q.files[seqno].size
    ensures i == |items| <==> seqno !in q.items
  {
    hide Name;
    if i < |items| { NamesInOrder(q.items[i], seqno); }
  }

  lemma {:induction false} WithoutAt(items: seq<nat>, i: nat)
    requires Rising(items) && i < |items|
    ensures Without(items, items[i]) == items[..i] + items[i + 1..]
  {
    if i > 0 {
      WithoutAt(items[1..], i - 1);
      assert items[0] < items[i] == items[1..][i - 1];
      assert items[..i] == [items[0]] + items[1..][..i - 1] && items[1..][i..] == items[i + 1..];
    }
  }

  lemma {:induction false} BytesWithout<B>(files: map<nat, File<B>>, items: seq<nat>, i: nat)
    requires i < |items| && items[i] in files
    ensures Bytes(files, items[..i] + items[i + 1..]) == Bytes(files, items) - files[items[i]].size
  {
    if i == 0 {
      assert items[..0] + items[1..] == items[1..];
    } else {
      BytesWithout(files, items[1..], i - 1);
      assert (items[..i] + items[i + 1..])[1..] == items[1..][..i - 1] + items[1..][i..];
    }
  }

  lemma RemoveBytes<B>(q: Queue<B>, i: nat)
    requires SpoolQueue.Valid(q) && i < |q.items|
    ensures q.items[i] in q.files
    ensures var r := Remove(q, q.items[i]);
      Bytes(r.files, r.items) == Bytes(q.files, q.items) - q.files[q.items[i]].size
  {
    hide Bytes;
    assert q.items[i] in q.items;
    WithoutAt(q.items, i);
    BytesWithout(q.files, q.items, i);
    var rest := q.items[..i] + q.items[i + 1..];
    forall k | k in rest ensures k != q.items[i] {
      var j :| 0 <= j < |rest| && rest[j] == k;
      assert j < i ==> k == q.items[j];
      assert j >= i ==> k == q.items[j + 1];
    }
    BytesLocal(q.files - {q.items[i]}, q.files, rest);
  }

  lemma ListsWithout<B>(items: seq<Item>, q: Queue<B>, i: nat)
    requires SpoolQueue.Valid(q) && Lists(items, q.files, q.items) && i < |items|
    ensures var r := Remove(q, q.items[i]); Lists(items[..i] + items[i + 1..], r.files, r.items)
  {
    hide Name;
    assert q.items[i] in q.items;
    WithoutAt(q.items, i);
    var rest := q.items[..i] + q.items[i + 1..];
    forall j | 0 <= j < |rest| ensures rest[j] != q.items[i] {
      assert j < i ==> rest[j] == q.items[j];
      assert j >= i ==> rest[j] == q.items[j + 1];
    }
  }
}
