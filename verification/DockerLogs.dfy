/**
 Docker's multiplexed log stream (internal/agent/collect/docker_logs.go): frames of an
 8-byte header and a payload carry two interleaved byte streams; lines do not respect
 frame boundaries.
 */
module DockerLogs {

  type Byte = b: int | 0 <= b < 256
  type Text = seq<Byte>

  const NEWLINE: Byte := 10

  /** The first header byte, the three after it, and the payload. */
  datatype Frame = Frame(kind: Byte, pad: Text, payload: Text)

  datatype Line = Line(stderr: bool, text: Text)

  predicate IsStderr(kind: Byte) {
    kind == 2
  }

  // ----- frames -----

  /** A big-endian uint32. */
  function Number(b: Text): nat
    requires |b| == 4
  {
    var x: int, y: int, z: int := b[0], b[1], b[2];
    ((x * 256 + y) * 256 + z) * 256 + b[3]
  }

  lemma BigEndian(b: Text)
    requires |b| == 4
    ensures var w: int, x: int, y: int, z: int := b[0], b[1], b[2], b[3];
      Number(b) == w * 0x100_0000 + x * 0x1_0000 + y * 0x100 + z
  {
  }

  function Digits(n: nat): Text
    requires n < 0x1_0000_0000
  {
    [n / 0x100_0000, n / 0x1_0000 % 256, n / 256 % 256, n % 256]
  }

  /** A whole frame stands at the front. */
  predicate HasFrame(input: Text) {
    |input| >= 8 && |input| - 8 >= Number(input[4..8])
  }

  function First(input: Text): Frame
    requires HasFrame(input)
  {
    Frame(input[0], input[1..4], input[8..8 + Number(input[4..8])])
  }

  function Beyond(input: Text): Text
    requires HasFrame(input)
  {
    input[8 + Number(input[4..8])..]
  }

  /** The complete frames; a truncated one ends the stream. */
  function Parse(input: Text): seq<Frame>
    decreases |input|
  {
    if HasFrame(input) then [First(input)] + Parse(Beyond(input)) else []
  }

  predicate WellSized(f: Frame) {
    |f.pad| == 3 && |f.payload| < 0x1_0000_0000
  }

  function Encode(f: Frame): Text
    requires WellSized(f)
  {
    [f.kind] + f.pad + Digits(|f.payload|) + f.payload
  }

  function EncodeAll(fs: seq<Frame>): Text
    requires forall f :: f in fs ==> WellSized(f)
  {
    if fs == [] then [] else Encode(fs[0]) + EncodeAll(fs[1..])
  }

  lemma DigitsRoundTrip(n: nat)
    requires n < 0x1_0000_0000
    ensures Number(Digits(n)) == n
  {
    assert n / 256 / 256 == n / 0x1_0000 && n / 0x1_0000 / 256 == n / 0x100_0000;
  }

  lemma EncodeRoundTrip(f: Frame, tail: Text)
    requires WellSized(f)
    ensures var input := Encode(f) + tail; HasFrame(input) && First(input) == f && Beyond(input) == tail
  {
    hide Number, Digits;
    var input, n := Encode(f) + tail, |f.payload|;
    assert |Digits(n)| == 4 by { DigitsLength(n); }
    assert input[4..8] == Digits(n);
    DigitsRoundTrip(n);
    assert input[1..4] == f.pad && input[8..8 + n] == f.payload && input[8 + n..] == tail;
  }

  lemma DigitsLength(n: nat)
    requires n < 0x1_0000_0000
    ensures |Digits(n)| == 4
  {
  }

  lemma ParseOne(f: Frame, tail: Text)
    requires WellSized(f)
    ensures Parse(Encode(f) + tail) == [f] + Parse(tail)
  {
    hide HasFrame, First, Beyond, Encode, WellSized;
    EncodeRoundTrip(f, tail);
  }

  lemma JoinTexts(a: Text, b: Text, c: Text)
    ensures (a + b) + c == a + (b + c)
  {
  }

  lemma JoinFrames(fs: seq<Frame>, gs: seq<Frame>)
    requires fs != []
    ensures [fs[0]] + (fs[1..] + gs) == fs + gs
  {
  }

  /** Frames are read back as written, whatever follows them; a truncated frame adds nothing. */
  lemma {:induction false} ParseEncoded(fs: seq<Frame>, tail: Text)
    requires forall f :: f in fs ==> WellSized(f)
    ensures Parse(EncodeAll(fs) + tail) == fs + Parse(tail)
  {
    hide Parse, Encode, WellSized;
    if fs == [] {
      assert EncodeAll(fs) + tail == tail && fs + Parse(tail) == Parse(tail);
    } else {
      JoinTexts(Encode(fs[0]), EncodeAll(fs[1..]), tail);
      ParseOne(fs[0], EncodeAll(fs[1..]) + tail);
      ParseEncoded(fs[1..], tail);
      JoinFrames(fs, Parse(tail));
    }
  }

  // ----- lines -----

  /** strings.Split(text, "\n"). */
  function Split(text: Text): (parts: seq<Text>)
    ensures parts != []
  {
    if text == [] then [[]]
    else
      var init, c := Split(text[..|text| - 1]), text[|text| - 1];
      if c == NEWLINE then init + [[]] else init[..|init| - 1] + [init[|init| - 1] + [c]]
  }

  /** The newline-terminated lines. */
  function Lines(text: Text): seq<Text> {
    Split(text)[..|Split(text)| - 1]
  }

  /** The incomplete line at the end. */
  function Rest(text: Text): Text {
    Split(text)[|Split(text)| - 1]
  }

  function Terminated(lines: seq<Text>): Text {
    if lines == [] then [] else Terminated(lines[..|lines| - 1]) + lines[|lines| - 1] + [NEWLINE]
  }

  lemma SplitGrows(text: Text, c: Byte)
    ensures Lines(text + [c]) == if c == NEWLINE then Lines(text) + [Rest(text)] else Lines(text)
    ensures Rest(text + [c]) == if c == NEWLINE then [] else Rest(text) + [c]
  {
    assert (text + [c])[..|text|] == text;
    assert Split(text) == Lines(text) + [Rest(text)];
  }

  lemma NothingSplit()
    ensures Lines([]) == [] && Rest([]) == []
  {
  }

  /** The lines and the rest make up the text, and hold no newline. */
  lemma {:induction false} SplitMeans(text: Text)
    ensures text == Terminated(Lines(text)) + Rest(text)
    ensures NEWLINE !in Rest(text) && forall l :: l in Lines(text) ==> NEWLINE !in l
  {
    hide Lines, Rest;
    if text == [] {
      NothingSplit();
    } else {
      var init, c := text[..|text| - 1], text[|text| - 1];
      assert text == init + [c];
      SplitMeans(init);
      SplitGrows(init, c);
      if c == NEWLINE {
        assert Lines(text)[..|Lines(text)| - 1] == Lines(init);
      }
    }
  }

  /** Splitting can go on from the incomplete line. */
  lemma {:induction false} SplitResumes(a: Text, b: Text)
    ensures Lines(a + b) == Lines(a) + Lines(Rest(a) + b)
    ensures Rest(a + b) == Rest(Rest(a) + b)
  {
    hide Lines, Rest;
    if b == [] {
      assert a + b == a && Rest(a) + b == Rest(a);
      RestIsWhole(a);
    } else {
      var init, c := b[..|b| - 1], b[|b| - 1];
      SplitResumes(a, init);
      assert a + b == (a + init) + [c] && Rest(a) + b == (Rest(a) + init) + [c];
      SplitGrows(a + init, c);
      SplitGrows(Rest(a) + init, c);
    }
  }

  lemma {:induction false} Unbroken(text: Text)
    requires NEWLINE !in text
    ensures Lines(text) == [] && Rest(text) == text
  {
    hide Lines, Rest;
    if text == [] {
      NothingSplit();
    } else {
      var init, c := text[..|text| - 1], text[|text| - 1];
      assert text == init + [c];
      Unbroken(init);
      SplitGrows(init, c);
    }
  }

  lemma RestIsWhole(a: Text)
    ensures Lines(Rest(a)) == [] && Rest(Rest(a)) == Rest(a)
  {
    SplitMeans(a);
    Unbroken(Rest(a));
  }

  // ----- what is emitted -----

  function NonEmpty(lines: seq<Text>): seq<Text> {
    if lines == [] then []
    else
      var init, l := NonEmpty(lines[..|lines| - 1]), lines[|lines| - 1];
      if l != [] then init + [l] else init
  }

  lemma {:induction false} NonEmptyJoins(a: seq<Text>, b: seq<Text>)
    ensures NonEmpty(a + b) == NonEmpty(a) + NonEmpty(b)
  {
    if b == [] {
      assert a + b == a;
    } else {
      assert (a + b)[..|a + b| - 1] == a + b[..|b| - 1];
      NonEmptyJoins(a, b[..|b| - 1]);
    }
  }

  /** All the bytes a stream carried. */
  function Payload(fs: seq<Frame>, stderr: bool): Text {
    if fs == [] then []
    else
      var init, f := Payload(fs[..|fs| - 1], stderr), fs[|fs| - 1];
      if IsStderr(f.kind) == stderr then init + f.payload else init
  }

  /** Bytes of a stream join in frame order: kind 2 is standard error, every other kind standard output. */
  lemma {:induction false} StreamsByKind(a: seq<Frame>, f: Frame, b: seq<Frame>, stderr: bool)
    ensures Payload(a + b, stderr) == Payload(a, stderr) + Payload(b, stderr)
    ensures Payload([f], true) == if f.kind == 2 then f.payload else []
    ensures Payload([f], false) == if f.kind == 2 then [] else f.payload
  {
    assert [f][..0] == [];
    if b == [] {
      assert a + b == a;
    } else {
      StreamsByKind(a, f, b[..|b| - 1], stderr);
      assert (a + b)[..|a + b| - 1] == a + b[..|b| - 1];
    }
  }

  lemma PayloadGrows(fs: seq<Frame>, f: Frame, stderr: bool)
    ensures Payload(fs + [f], stderr) == if IsStderr(f.kind)
          == stderr then Payload(fs, stderr) + f.payload else Payload(fs, stderr)
  {
    assert (fs + [f])[..|fs|] == fs;
  }

  /** The lines emitted for one stream, in order. */
  function Of(out: seq<Line>, stderr: bool): seq<Text> {
    if out == [] then []
    else
      var init, l := Of(out[..|out| - 1], stderr), out[|out| - 1];
      if l.stderr == stderr then init + [l.text] else init
  }

  lemma OfGrows(out: seq<Line>, l: Line, stderr: bool)
    ensures Of(out + [l], stderr) == if l.stderr == stderr then Of(out, stderr) + [l.text] else Of(out, stderr)
  {
    assert (out + [l])[..|out|] == out;
  }

  /** The lines a stream should emit. */
  function Expected(fs: seq<Frame>, stderr: bool): seq<Text> {
    NonEmpty(Lines(Payload(fs, stderr)))
  }

  lemma ExpectedGrows(fs: seq<Frame>, f: Frame, stderr: bool)
    ensures IsStderr(f.kind) == stderr ==>
      var text := Rest(Payload(fs, stderr)) + f.payload;
      && Expected(fs + [f], stderr) == Expected(fs, stderr) + NonEmpty(Lines(text))
      && Rest(Payload(fs + [f], stderr)) == Rest(text)
    ensures IsStderr(f.kind) != stderr ==>
      Expected(fs + [f], stderr) == Expected(fs, stderr) && Payload(fs + [f], stderr) == Payload(fs, stderr)
  {
    hide Lines, Rest, NonEmpty, Payload;
    PayloadGrows(fs, f, stderr);
    if IsStderr(f.kind) == stderr {
      SplitResumes(Payload(fs, stderr), f.payload);
      NonEmptyJoins(Lines(Payload(fs, stderr)), Lines(Rest(Payload(fs, stderr)) + f.payload));
    }
  }

  /** Appends the non-empty lines to what was emitted. */
  method EmitAll(out: seq<Line>, stderr: bool, lines: seq<Text>) returns (all: seq<Line>)
    ensures Of(all, stderr) == Of(out, stderr) + NonEmpty(lines)
    ensures Of(all, !stderr) == Of(out, !stderr) && out <= all
  {
    all := out;
    for k := 0 to |lines|
      invariant Of(all, stderr) == Of(out, stderr) + NonEmpty(lines[..k])
      invariant Of(all, !stderr) == Of(out, !stderr) && out <= all
    {
      assert lines[..k + 1][..k] == lines[..k];
      if lines[k] != [] {
        OfGrows(all, Line(stderr, lines[k]), stderr);
        OfGrows(all, Line(stderr, lines[k]), !stderr);
        all := all + [Line(stderr, lines[k])];
      }
    }
    assert lines[..|lines|] == lines;
  }

  /** What is pending on a stream; nothing if it never spoke. */
  function Pending(pending: map<bool, Text>, stderr: bool): Text {
    if stderr in pending then pending[stderr] else []
  }

  /**
   For each stream, emits exactly the non-empty newline-terminated lines of the bytes its
   complete frames carried, as soon as they are complete: `cuts[n]` lines after `n` frames.
   */
  method Demux(input: Text) returns (out: seq<Line>, ghost cuts: seq<nat>)
    ensures forall stderr :: Of(out, stderr) == Expected(Parse(input), stderr)
    ensures Prompt(Parse(input), out, cuts)
  {
    hide HasFrame, First, Beyond, Lines, Rest, NonEmpty, Of, Expected, Payload;
    hide Prompt;
    out, cuts := [], [0];
    var r, pending: map<bool, Text> := input, map[];
    ghost var done: seq<Frame> := [];
    NothingYet();
    while HasFrame(r)
      invariant Parse(input) == done + Parse(r)
      invariant forall stderr :: Pending(pending, stderr) == Rest(Payload(done, stderr))
      invariant forall stderr :: Of(out, stderr) == Expected(done, stderr)
      invariant Prompt(done, out, cuts)
      decreases |r|
    {
      ghost var before := out;
      var f := First(r);
      var stderr := IsStderr(f.kind);
      var text := Pending(pending, stderr) + f.payload;
      var parts := Split(text);
      ExpectedGrows(done, f, stderr);
      ExpectedGrows(done, f, !stderr);
      IsSplit(text);
      pending := pending[stderr := parts[|parts| - 1]];
      out := EmitAll(out, stderr, parts[..|parts| - 1]);
      BeyondShrinks(r);
      assert done + ([f] + Parse(Beyond(r))) == (done + [f]) + Parse(Beyond(r));
      PromptGrows(done, f, before, out, cuts);
      cuts := cuts + [|out|];
      done, r := done + [f], Beyond(r);
    }
    assert done + [] == done;
  }

  /** The first `end` lines are those of the first `n` frames. */
  ghost predicate CutAt(fs: seq<Frame>, out: seq<Line>, n: nat, end: nat)
    requires n <= |fs|
  {
    end <= |out| && forall stderr :: Of(out[..end], stderr) == Expected(fs[..n], stderr)
  }

  ghost predicate Prompt(fs: seq<Frame>, out: seq<Line>, cuts: seq<nat>) {
    && |cuts| == |fs| + 1 && cuts[0] == 0 && cuts[|fs|] == |out|
    && forall n :: 0 <= n <= |fs| ==> CutAt(fs, out, n, cuts[n])
  }

  lemma PromptGrows(fs: seq<Frame>, f: Frame, before: seq<Line>, out: seq<Line>, cuts: seq<nat>)
    requires Prompt(fs, before, cuts) && before <= out
    requires forall stderr :: Of(out, stderr) == Expected(fs + [f], stderr)
    ensures Prompt(fs + [f], out, cuts + [|out|])
  {
    hide Of, Expected;
    var all, ends := fs + [f], cuts + [|out|];
    assert all[..|all|] == all && out[..|out|] == out;
    forall n | 0 <= n <= |fs| ensures CutAt(all, out, n, cuts[n]) {
      assert CutAt(fs, before, n, cuts[n]);
      assert all[..n] == fs[..n] && out[..cuts[n]] == before[..cuts[n]];
    }
  }

  lemma BeyondShrinks(r: Text)
    requires HasFrame(r)
    ensures |Beyond(r)| < |r|
  {
  }

  lemma IsSplit(text: Text)
    ensures Split(text)[..|Split(text)| - 1] == Lines(text) && Split(text)[|Split(text)| - 1] == Rest(text)
  {
  }

  lemma NothingYet()
    ensures forall stderr :: Of([], stderr) == Expected([], stderr) && Rest(Payload([], stderr)) == []
    ensures Prompt([], [], [0])
  {
  }

  /** Any two framings of the same bytes emit the same lines per stream, however the streams interleave. */
  lemma FramingIndependent(a: seq<Frame>, b: seq<Frame>, tailA: Text, tailB: Text, stderr: bool)
    requires (forall f :: f in a ==> WellSized(f)) && (forall f :: f in b ==> WellSized(f))
    requires !HasFrame(tailA) && !HasFrame(tailB)
    requires Payload(a, stderr) == Payload(b, stderr)
    ensures Expected(Parse(EncodeAll(a) + tailA), stderr) == Expected(Parse(EncodeAll(b) + tailB), stderr)
  {
    hide HasFrame;
    ParseEncoded(a, tailA);
    ParseEncoded(b, tailB);
    assert a + [] == a && b + [] == b;
  }
}
