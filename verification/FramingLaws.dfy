/** What the two splitters promise about any stream, however the reads cut it. */
module FramingLaws {
  import opened Common
  import opened Lines
  import opened Machine
  import opened Sequences
  import opened Framing

  /** The bytes a chunk puts on the wire. */
  function Wire(c: Chunk): Bytes {
    match c
    case Frame(f) => f + [LF]
    case Raw(r) => r
  }

  function WireOf(chunks: seq<Chunk>): Bytes {
    if chunks == [] then [] else Wire(chunks[0]) + WireOf(chunks[1..])
  }

  function FramesOf(chunks: seq<Chunk>): seq<Bytes> {
    if chunks == [] then []
    else (if chunks[0].Frame? then [chunks[0].frame] else []) + FramesOf(chunks[1..])
  }

  function Framewise(cap: nat): (Framer, Bytes) -> Run<Framer, Chunk> {
    (s, read) => Framed(s, read, cap)
  }

  function Recordwise(cap: nat): (Framer, Bytes) -> Run<Framer, Bytes> {
    (s, read) => Recorded(s, read, cap)
  }

  lemma {:induction false} WireAppend(a: seq<Chunk>, b: seq<Chunk>)
    ensures WireOf(a + b) == WireOf(a) + WireOf(b)
  {
    if a == [] {
      EmptyAppend(b);
      EmptyAppend(WireOf(b));
    } else {
      WireAppend(a[1..], b);
      FirstOfAppend(a, b);
      AppendAssociates(Wire(a[0]), WireOf(a[1..]), WireOf(b));
    }
  }

  lemma {:induction false} FramesAppend(a: seq<Chunk>, b: seq<Chunk>)
    ensures FramesOf(a + b) == FramesOf(a) + FramesOf(b)
  {
    if a == [] {
      EmptyAppend(b);
      EmptyAppend(FramesOf(b));
    } else {
      FramesAppend(a[1..], b);
      FirstOfAppend(a, b);
      AppendAssociates(if a[0].Frame? then [a[0].frame] else [], FramesOf(a[1..]), FramesOf(b));
    }
  }

  lemma WireOne(c: Chunk)
    ensures WireOf([c]) == Wire(c)
  {
    EmptyAppend(Wire(c));
  }

  // ---------------------------------------------------------------- nothing is lost

  /** After any complete line the framer is empty. */
  lemma {:induction false} AfterLines(s: Framer, lines: seq<Bytes>)
    ensures Fold(FrameLines(), s, lines).state == if lines == [] then s else EMPTY
    ensures Fold(RecordLines(), s, lines).state == if lines == [] then s else EMPTY
    decreases |lines|
  {
    if lines != [] {
      AfterLines(EMPTY, lines[1..]);
    }
  }

  lemma FramedValid(s: Framer, data: Bytes, cap: nat)
    requires Valid(s, cap)
    ensures Valid(Framed(s, data, cap).state, cap)
  {
    AfterLines(s, LinesOf(data));
    LinesAppend(data, []);
  }

  lemma {:induction false} LinesAndTail(data: Bytes)
    ensures Unlines(LinesOf(data)) + TailOf(data) == data
    decreases |data|
  {
    if FirstLf(data) == |data| {
      NoLines(data);
      EmptyAppend(data);
    } else {
      var head, rest := data[..FirstLf(data)], data[FirstLf(data) + 1..];
      FirstLineSplit(data);
      LineFirst(head, rest);
      LinesAndTail(rest);
      AppendAssociates(head + [LF], Unlines(LinesOf(rest)), TailOf(rest));
    }
  }

  lemma LineConserves(s: Framer, head: Bytes)
    requires s.overflowed ==> s.buf == []
    ensures WireOf(FrameLine(s, head).out) == Pending(s) + (head + [LF])
  {
    WireOne(FrameLine(s, head).out[0]);
    EmptyAppend(head + [LF]);
    AppendAssociates(s.buf, head, [LF]);
  }

  lemma RestConserves(s: Framer, data: Bytes, cap: nat)
    requires s.overflowed ==> s.buf == []
    ensures WireOf(FrameRest(s, data, cap).out) + Pending(FrameRest(s, data, cap).state) == Pending(s) + data
  {
    var r := FrameRest(s, data, cap);
    if r.out != [] {
      WireOne(r.out[0]);
    }
    EmptyAppend(Pending(r.state));
    EmptyAppend(WireOf(r.out));
    EmptyAppend(Pending(s));
    EmptyAppend(data);
  }

  lemma {:induction false} LinesConserve(s: Framer, lines: seq<Bytes>)
    requires s.overflowed ==> s.buf == []
    ensures WireOf(Fold(FrameLines(), s, lines).out) + Pending(Fold(FrameLines(), s, lines).state)
            == Pending(s) + Unlines(lines)
    decreases |lines|
  {
    if lines == [] {
      EmptyAppend(Pending(s));
    } else {
      var more := Fold(FrameLines(), EMPTY, lines[1..]);
      LineConserves(s, lines[0]);
      LinesConserve(EMPTY, lines[1..]);
      WireAppend(FrameLine(s, lines[0]).out, more.out);
      AppendAssociates(WireOf(FrameLine(s, lines[0]).out), WireOf(more.out), Pending(more.state));
      EmptyAppend(Unlines(lines[1..]));
      AppendAssociates(Pending(s), lines[0] + [LF], Unlines(lines[1..]));
    }
  }

  /** Every byte read is on the wire or still pending, in order. */
  lemma FramedConserves(s: Framer, data: Bytes, cap: nat)
    requires s.overflowed ==> s.buf == []
    ensures WireOf(Framed(s, data, cap).out) + Pending(Framed(s, data, cap).state) == Pending(s) + data
  {
    var lines := Fold(FrameLines(), s, LinesOf(data));
    var rest := FrameRest(lines.state, TailOf(data), cap);
    AfterLines(s, LinesOf(data));
    LinesConserve(s, LinesOf(data));
    RestConserves(lines.state, TailOf(data), cap);
    WireAppend(lines.out, rest.out);
    LinesAndTail(data);
    AppendAssociates(WireOf(lines.out), WireOf(rest.out), Pending(rest.state));
    AppendAssociates(WireOf(lines.out), Pending(lines.state), TailOf(data));
    AppendAssociates(Pending(s), Unlines(LinesOf(data)), TailOf(data));
  }

  lemma {:induction false} StreamConserved(s: Framer, chunks: seq<Bytes>, cap: nat)
    requires Valid(s, cap)
    ensures Valid(Fold(Framewise(cap), s, chunks).state, cap)
    ensures WireOf(Fold(Framewise(cap), s, chunks).out) + Pending(Fold(Framewise(cap), s, chunks).state)
            == Pending(s) + Flatten(chunks)
    decreases |chunks|
  {
    if chunks == [] {
      EmptyAppend(Pending(s));
    } else {
      var first := Framed(s, chunks[0], cap);
      var rest := Fold(Framewise(cap), first.state, chunks[1..]);
      FramedValid(s, chunks[0], cap);
      FramedConserves(s, chunks[0], cap);
      StreamConserved(first.state, chunks[1..], cap);
      WireAppend(first.out, rest.out);
      AppendAssociates(WireOf(first.out), WireOf(rest.out), Pending(rest.state));
      AppendAssociates(WireOf(first.out), Pending(first.state), Flatten(chunks[1..]));
      AppendAssociates(Pending(s), chunks[0], Flatten(chunks[1..]));
    }
  }

  // ---------------------------------------------------------------- the gate and the tap agree

  lemma {:induction false} LinesAgree(s: Framer, lines: seq<Bytes>)
    ensures FramesOf(Fold(FrameLines(), s, lines).out) == Fold(RecordLines(), s, lines).out
    decreases |lines|
  {
    if lines != [] {
      LinesAgree(EMPTY, lines[1..]);
      FramesAppend(FrameLine(s, lines[0]).out, Fold(FrameLines(), EMPTY, lines[1..]).out);
    }
  }

  /** On one read: the same fields afterwards, and the frames are the recorded lines. */
  lemma FramersAgree(s: Framer, data: Bytes, cap: nat)
    ensures Framed(s, data, cap).state == Recorded(s, data, cap).state
    ensures FramesOf(Framed(s, data, cap).out) == Recorded(s, data, cap).out
  {
    AfterLines(s, LinesOf(data));
    LinesAgree(s, LinesOf(data));
    var lines := Fold(FrameLines(), s, LinesOf(data));
    FramesAppend(lines.out, FrameRest(lines.state, TailOf(data), cap).out);
  }

  /** On any sequence of reads. */
  lemma {:induction false} StreamsAgree(s: Framer, chunks: seq<Bytes>, cap: nat)
    ensures Fold(Framewise(cap), s, chunks).state == Fold(Recordwise(cap), s, chunks).state
    ensures FramesOf(Fold(Framewise(cap), s, chunks).out) == Fold(Recordwise(cap), s, chunks).out
    decreases |chunks|
  {
    if chunks != [] {
      var first := Framed(s, chunks[0], cap);
      FramersAgree(s, chunks[0], cap);
      StreamsAgree(first.state, chunks[1..], cap);
      FramesAppend(first.out, Fold(Framewise(cap), first.state, chunks[1..]).out);
    }
  }

  // ---------------------------------------------------------------- when chunking matters

  /** The read ends inside a line that has outgrown the cap during this read. */
  predicate OverlongTail(s: Framer, read: Bytes, cap: nat) {
    var start := if NoLf(read) then s else EMPTY;
    !start.overflowed && TailOf(read) != [] && |start.buf| + |TailOf(read)| > cap
  }

  lemma RestTwice(s: Framer, tail: Bytes, b: Bytes, cap: nat)
    requires Valid(s, cap)
    ensures var first := RecordRest(s, tail, cap);
            RecordRest(s, tail + b, cap) == Then(first, RecordRest(first.state, b, cap))
  {
    EmptyAppend(tail);
    EmptyAppend(b);
    AppendAssociates(s.buf, tail, b);
  }

  lemma ChunkingUnfinished(s: Framer, tail: Bytes, b: Bytes, cap: nat)
    requires Valid(s, cap) && NoLf(tail) && NoLf(b)
    ensures var first := RecordRest(s, tail, cap);
            Recorded(s, tail + b, cap) == Then(first, Recorded(first.state, b, cap))
  {
    SplitRest(RecordLines(), RecordRests(cap), RecordRest(s, tail, cap).state, b);
    SplitRest(RecordLines(), RecordRests(cap), s, tail + b);
    RestTwice(s, tail, b, cap);
  }

  lemma ChunkingFinished(s: Framer, tail: Bytes, l: Bytes, more: Bytes, cap: nat)
    requires Valid(s, cap) && NoLf(tail) && NoLf(l)
    ensures var first := RecordRest(s, tail, cap);
            Split(RecordLines(), RecordRests(cap), s, (tail + l) + [LF] + more) ==
            Then(first, Split(RecordLines(), RecordRests(cap), first.state, l + [LF] + more))
            <==> !(!s.overflowed && tail != [] && |s.buf| + |tail| > cap)
  {
    var first := RecordRest(s, tail, cap);
    SplitLine(RecordLines(), RecordRests(cap), first.state, l, more);
    SplitLine(RecordLines(), RecordRests(cap), s, tail + l, more);
    EmptyAppend(Recorded(EMPTY, more, cap).out);
    AppendAssociates(s.buf, tail, l);
    EmptyAppend(l);
    EmptyAppend(Split(RecordLines(), RecordRests(cap), first.state, l + [LF] + more).out);
  }

  /** For the unfinished line `tail` alone. */
  lemma ChunkingOneLine(s: Framer, tail: Bytes, b: Bytes, cap: nat)
    requires Valid(s, cap) && NoLf(tail)
    ensures var first := RecordRest(s, tail, cap);
            Recorded(s, tail + b, cap) == Then(first, Recorded(first.state, b, cap))
            <==> !(!s.overflowed && tail != [] && |s.buf| + |tail| > cap && !NoLf(b))
  {
    if NoLf(b) {
      ChunkingUnfinished(s, tail, b, cap);
    } else {
      var l, more := b[..FirstLf(b)], b[FirstLf(b) + 1..];
      FirstLineSplit(b);
      AppendAssociates(tail, l, [LF]);
      AppendAssociates(tail, l + [LF], more);
      ChunkingFinished(s, tail, l, more, cap);
    }
  }

  /**
   The framers are not independent of chunking in general: two reads are one read exactly
   when the first does not end inside an over-long line that the second completes.
   */
  lemma ChunkingExactlyWhen(s: Framer, a: Bytes, b: Bytes, cap: nat)
    requires Valid(s, cap)
    ensures Recorded(s, a + b, cap) == Then(Recorded(s, a, cap), Recorded(Recorded(s, a, cap).state, b, cap))
            <==> !(OverlongTail(s, a, cap) && !NoLf(b))
  {
    var lines := Fold(RecordLines(), s, LinesOf(a));
    var tail := TailOf(a);
    var first := RecordRest(lines.state, tail, cap);
    AfterLines(s, LinesOf(a));
    LinesAppend(a, b);
    SplitAppend(RecordLines(), RecordRests(cap), s, a, b);
    ThenAssociates(lines, first, Recorded(first.state, b, cap));
    ThenCancels(lines, Recorded(lines.state, tail + b, cap), Then(first, Recorded(first.state, b, cap)));
    ChunkingOneLine(lines.state, tail, b, cap);
    if NoLf(a) {
      NoLines(a);
    } else {
      assert LinesOf(a) != [];
    }
  }

  lemma ThenCancels<S, E>(first: Run<S, E>, a: Run<S, E>, b: Run<S, E>)
    ensures Then(first, a) == Then(first, b) <==> a == b
  {
    AppendCancels(first.out, a.out, b.out);
  }

  /** The same condition governs the frames of the forwarding splitter. */
  lemma FramesChunkingExactlyWhen(s: Framer, a: Bytes, b: Bytes, cap: nat)
    requires Valid(s, cap)
    ensures var first := Framed(s, a, cap);
            var second := Framed(first.state, b, cap);
            var whole := Framed(s, a + b, cap);
            (whole.state == second.state && FramesOf(whole.out) == FramesOf(first.out) + FramesOf(second.out))
            <==> !(OverlongTail(s, a, cap) && !NoLf(b))
  {
    ChunkingExactlyWhen(s, a, b, cap);
    FramersAgree(s, a, cap);
    FramersAgree(Framed(s, a, cap).state, b, cap);
    FramersAgree(s, a + b, cap);
  }

  /** A stream the reads of which change what is recorded. */
  lemma ChunkingMatters()
    ensures Recorded(EMPTY, [1, 2, LF], 1).out == [[1, 2]]
    ensures Fold(Recordwise(1), EMPTY, [[1, 2], [LF]]).out == []
  {
    var a: Bytes, b: Bytes, s: Bytes := [1, 2], [LF], [1, 2, LF];
    assert s == a + [LF] + [] && b == [] + [LF] + [];
    LineFirst(a, []);
    LineFirst([], []);
    NoLines([]);
    NoLines(a);
    var over := Framer([], true);
    FoldOne(RecordLines(), EMPTY, a);
    FoldOne(RecordLines(), over, []);
    EmptyAppend(a);
    assert Recorded(EMPTY, s, 1).out == ([EMPTY.buf + a] + []) + [];
    assert Recorded(EMPTY, a, 1) == Run(over, []);
    assert Recorded(over, b, 1) == Run(EMPTY, []);
    assert [a, b][1..] == [b];
    FoldOne(Recordwise(1), over, b);
  }

  // ---------------------------------------------------------------- streams that fit

  lemma {:induction false} EmptyRecordsLines(lines: seq<Bytes>)
    ensures Fold(RecordLines(), EMPTY, lines) == Run(EMPTY, lines)
  {
    if lines != [] {
      EmptyRecordsLines(lines[1..]);
      EmptyAppend(lines[0]);
    }
  }

  lemma EmptyYieldsLines(more: Bytes, cap: nat)
    requires |TailOf(more)| <= cap
    ensures Recorded(EMPTY, more, cap) == Run(Framer(TailOf(more), false), LinesOf(more))
  {
    EmptyRecordsLines(LinesOf(more));
    EmptyAppend(LinesOf(more));
    EmptyAppend(TailOf(more));
  }

  lemma ReadYieldsFirst(s: Framer, l: Bytes, more: Bytes, cap: nat)
    requires !s.overflowed && NoLf(l) && |TailOf(more)| <= cap
    ensures Split(RecordLines(), RecordRests(cap), s, l + [LF] + more) ==
            Run(Framer(TailOf(more), false), [s.buf + l] + LinesOf(more))
  {
    SplitLine(RecordLines(), RecordRests(cap), s, l, more);
    EmptyYieldsLines(more, cap);
  }

  /** A read that does not end inside an over-long line yields its complete lines. */
  lemma ReadYieldsLines(s: Framer, data: Bytes, cap: nat)
    requires Valid(s, cap) && !s.overflowed && |TailOf(s.buf + data)| <= cap
    ensures Recorded(s, data, cap) == Run(Framer(TailOf(s.buf + data), false), LinesOf(s.buf + data))
  {
    if NoLf(data) {
      EmptyAppend(s.buf);
      NoLines(s.buf + data);
      SplitRest(RecordLines(), RecordRests(cap), s, data);
    } else {
      var l, more := data[..FirstLf(data)], data[FirstLf(data) + 1..];
      FirstLineSplit(data);
      AppendAssociates(s.buf, l, [LF]);
      AppendAssociates(s.buf, l + [LF], more);
      LineFirst(s.buf + l, more);
      ReadYieldsFirst(s, l, more, cap);
    }
  }

  /** Every line of the stream, finished or not, is within the cap. */
  predicate EveryLineFits(stream: Bytes, cap: nat) {
    |TailOf(stream)| <= cap && AllFit(LinesOf(stream), cap)
  }

  predicate AllFit(lines: seq<Bytes>, cap: nat) {
    forall i :: 0 <= i < |lines| ==> |lines[i]| <= cap
  }

  lemma LaterFit(a: seq<Bytes>, b: seq<Bytes>, cap: nat)
    requires AllFit(a + b, cap)
    ensures AllFit(b, cap)
  {
    forall i | 0 <= i < |b|
      ensures |b[i]| <= cap
    {
      assert b[i] == (a + b)[|a| + i];
    }
  }

  /** An unfinished line is no longer than the line it becomes. */
  lemma UnfinishedFits(t: Bytes, y: Bytes, cap: nat)
    requires NoLf(t) && EveryLineFits(t + y, cap)
    ensures |t| <= cap
  {
    if NoLf(y) {
      NoLines(t + y);
    } else {
      FirstLineSplit(y);
      var l, more := y[..FirstLf(y)], y[FirstLf(y) + 1..];
      AppendAssociates(t, l, [LF]);
      AppendAssociates(t, l + [LF], more);
      LineFirst(t + l, more);
      assert LinesOf(t + y)[0] == t + l;
    }
  }

  lemma TailOfPrefixFits(x: Bytes, y: Bytes, cap: nat)
    requires EveryLineFits(x + y, cap)
    ensures |TailOf(x)| <= cap && EveryLineFits(TailOf(x) + y, cap)
  {
    LinesAppend(x, y);
    LaterFit(LinesOf(x), LinesOf(TailOf(x) + y), cap);
    UnfinishedFits(TailOf(x), y, cap);
  }

  /**
   When every line fits the cap, both splitters yield exactly the lines of the whole
   stream, however the reads cut it.
   */
  lemma {:induction false} FittingStream(s: Framer, chunks: seq<Bytes>, cap: nat)
    requires Valid(s, cap) && !s.overflowed && EveryLineFits(s.buf + Flatten(chunks), cap)
    ensures var all := s.buf + Flatten(chunks);
            && Fold(Recordwise(cap), s, chunks) == Run(Framer(TailOf(all), false), LinesOf(all))
            && Fold(Framewise(cap), s, chunks).state == Framer(TailOf(all), false)
            && FramesOf(Fold(Framewise(cap), s, chunks).out) == LinesOf(all)
    decreases |chunks|
  {
    StreamsAgree(s, chunks, cap);
    if chunks == [] {
      assert s.buf + [] == s.buf;
      assert FirstLf(s.buf) == |s.buf|;
    } else {
      var x, y := s.buf + chunks[0], Flatten(chunks[1..]);
      assert s.buf + Flatten(chunks) == x + y;
      TailOfPrefixFits(x, y, cap);
      ReadYieldsLines(s, chunks[0], cap);
      LinesAppend(x, y);
      FittingStream(Framer(TailOf(x), false), chunks[1..], cap);
    }
  }

  /** Lines that fit the cap, each written with a newline (10) after it, are the lines both splitters yield. */
  lemma WrittenLinesAreRead(lines: seq<Bytes>, chunks: seq<Bytes>, cap: nat)
    requires forall i :: 0 <= i < |lines| ==> 10 !in lines[i] && |lines[i]| <= cap
    requires Flatten(chunks) == Unlines(lines)
    ensures Fold(Recordwise(cap), EMPTY, chunks) == Run(EMPTY, lines)
    ensures FramesOf(Fold(Framewise(cap), EMPTY, chunks).out) == lines
  {
    LinesReadBack(lines);
    EmptyAppend(Flatten(chunks));
    FittingStream(EMPTY, chunks, cap);
  }
}
