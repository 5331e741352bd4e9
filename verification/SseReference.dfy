/**
 The splitter does not see chunk boundaries, and over a whole stream it yields exactly the
 events a reader of the complete stream would.
 */
module SseReference {
  import opened Common
  import opened Lines
  import opened Machine
  import opened Sequences
  import opened Sse

  // ---------------------------------------------------------------- chunking

  /** What holds between pushes: a kept line is within the cap. */
  predicate Valid(s: State, cap: nat) {
    && (s.lineDirty ==> s.line == [] && s.overflow)
    && (!s.lineDirty ==> |s.line| <= cap)
  }

  /** One byte at a time. */
  function ByteStep(s: State, b: byte, cap: nat): Fed {
    if b == LF then EndLine(s, cap) else Run(BufferLine(s, [b], cap), [])
  }

  function Bytewise(cap: nat): (State, byte) -> Fed {
    (s, b) => ByteStep(s, b, cap)
  }

  /** Within a line, buffering a piece at once or byte by byte is the same. */
  lemma {:induction false} FeedLine(s: State, l: Bytes, cap: nat)
    requires Valid(s, cap) && NoLf(l)
    ensures Fold(Bytewise(cap), s, l) == Run(BufferLine(s, l, cap), [])
    ensures Valid(BufferLine(s, l, cap), cap)
    decreases |l|
  {
    if l == [] {
      assert s.line + l == s.line;
    } else {
      FeedLine(BufferLine(s, [l[0]], cap), l[1..], cap);
      assert s.line + [l[0]] + l[1..] == s.line + l;
    }
  }

  lemma ValidAfterLine(s: State, l: Bytes, cap: nat)
    ensures Valid(LineStep(s, l, cap).state, cap)
    ensures LineStep(s, l, cap).state.line == [] && !LineStep(s, l, cap).state.lineDirty
  {
  }

  /** A line with its newline, byte by byte. */
  lemma FeedWholeLine(s: State, l: Bytes, rest: Bytes, cap: nat)
    requires Valid(s, cap) && NoLf(l)
    ensures Fold(Bytewise(cap), s, l + [LF] + rest) ==
            Then(LineStep(s, l, cap), Fold(Bytewise(cap), LineStep(s, l, cap).state, rest))
  {
    FeedLine(s, l, cap);
    FoldSnoc(Bytewise(cap), s, l, LF);
    assert [] + LineStep(s, l, cap).out == LineStep(s, l, cap).out;
    FoldAppend(Bytewise(cap), s, l + [LF], rest);
  }

  lemma {:induction false} PushIsFeed(s: State, bytes: Bytes, cap: nat)
    requires Valid(s, cap)
    ensures PushResult(s, bytes, cap) == Fold(Bytewise(cap), s, bytes)
    ensures Valid(PushResult(s, bytes, cap).state, cap)
    decreases |bytes|
  {
    var k := FirstLf(bytes);
    if k == |bytes| {
      FeedLine(s, bytes, cap);
    } else {
      var head, rest := bytes[..k], bytes[k + 1..];
      assert bytes == head + [LF] + rest;
      FeedWholeLine(s, head, rest, cap);
      ValidAfterLine(s, head, cap);
      PushIsFeed(LineStep(s, head, cap).state, rest, cap);
    }
  }

  /** Pushing two pieces is pushing their concatenation: same state, same events in order. */
  lemma ChunkingIndependent(s: State, a: Bytes, b: Bytes, cap: nat)
    requires Valid(s, cap)
    ensures PushResult(s, a + b, cap) ==
            Then(PushResult(s, a, cap), PushResult(PushResult(s, a, cap).state, b, cap))
  {
    PushIsFeed(s, a, cap);
    PushIsFeed(PushResult(s, a, cap).state, b, cap);
    PushIsFeed(s, a + b, cap);
    FoldAppend(Bytewise(cap), s, a, b);
  }

  function Chunkwise(cap: nat): (State, Bytes) -> Fed {
    (s, chunk) => PushResult(s, chunk, cap)
  }

  lemma {:induction false} PushAllIsFeed(s: State, chunks: seq<Bytes>, cap: nat)
    requires Valid(s, cap)
    ensures Fold(Chunkwise(cap), s, chunks) == Fold(Bytewise(cap), s, Flatten(chunks))
    decreases |chunks|
  {
    if chunks != [] {
      PushIsFeed(s, chunks[0], cap);
      PushAllIsFeed(PushResult(s, chunks[0], cap).state, chunks[1..], cap);
      FoldAppend(Bytewise(cap), s, chunks[0], Flatten(chunks[1..]));
    }
  }

  // ---------------------------------------------------------------- the reference reader

  /** A line without the one carriage return (13) it may end in. */
  function Content(l: Bytes): Bytes {
    if l != [] && l[|l| - 1] == 13 then l[..|l| - 1] else l
  }

  predicate Blank(l: Bytes) {
    Content(l) == []
  }

  /** `data` alone, or `data:` and whatever follows it. */
  predicate IsData(l: Bytes) {
    Content(l) == [100, 97, 116, 97] || [100, 97, 116, 97, 58] <= Content(l)
  }

  /** What follows `data:`, without one space (32) in front. */
  function DataValue(l: Bytes): Bytes
    requires IsData(l)
  {
    var c := Content(l);
    if |c| <= 5 then [] else if c[5] == 32 then c[6..] else c[5..]
  }

  /** The data lines are `data`, `data:` v for a v that starts with no space, and `data: ` v; nothing else is one. */
  lemma DataLineExactly(l: Bytes, v: Bytes)
    ensures IsData(l) && DataValue(l) == v <==>
            || (Content(l) == [100, 97, 116, 97] && v == [])
            || (Content(l) == [100, 97, 116, 97, 58] + v && (v == [] || v[0] != 32))
            || Content(l) == [100, 97, 116, 97, 58, 32] + v
  {
    var c := Content(l);
    var p, q: Bytes := [100, 97, 116, 97, 58], [100, 97, 116, 97, 58, 32];
    if IsData(l) && DataValue(l) == v && |c| > 4 {
      assert c == c[..5] + c[5..] && c[..5] == p;
      if |c| > 5 && c[5] == 32 {
        assert c == q + c[6..];
      }
    }
    if c == p + v && (v == [] || v[0] != 32) {
      assert c[5..] == v;
    }
    if c == q + v {
      assert c[..5] == p && c[5] == 32 && c[6..] == v;
    }
  }

  /** The splitter reads a line as the reference does. */
  lemma SameReading(l: Bytes)
    ensures StripCr(l) == Content(l)
    ensures FieldOf(StripCr(l)) == DATA <==> IsData(l)
    ensures IsData(l) ==> ValueOf(StripCr(l)) == DataValue(l)
  {
    var c := Content(l);
    var k := FirstColon(c);
    if FieldOf(c) == DATA {
      assert k == 4 && c[..4] == DATA;
      if |c| > 4 {
        assert c[..5] == c[..4] + [c[4]];
      }
    }
    if IsData(l) && |c| > 4 {
      assert c[..5] == [100, 97, 116, 97, 58];
      assert c[0] == 100 && c[1] == 97 && c[2] == 116 && c[3] == 97 && c[4] == COLON;
      assert k == 4;
      assert c[..4] == DATA;
      assert c[5..] != [] ==> c[5..][0] == c[5] && c[5..][1..] == c[6..];
    }
  }

  /** Position of the first blank line, or |lines|. */
  function FirstBlank(lines: seq<Bytes>): (k: nat)
    ensures k <= |lines|
    ensures k < |lines| ==> Blank(lines[k])
    ensures forall i :: 0 <= i < k ==> !Blank(lines[i])
  {
    if lines == [] || Blank(lines[0]) then 0 else 1 + FirstBlank(lines[1..])
  }

  /** The values of the data fields of one event, in order. */
  function DataValues(block: seq<Bytes>): seq<Bytes> {
    if block == [] then []
    else
      var l := block[|block| - 1];
      DataValues(block[..|block| - 1]) + (if IsData(l) then [DataValue(l)] else [])
  }

  function Joined(values: seq<Bytes>): Bytes {
    if values == [] then []
    else if |values| == 1 then values[0]
    else Joined(values[..|values| - 1]) + [10] + values[|values| - 1]
  }

  predicate LinesFit(block: seq<Bytes>, cap: nat) {
    forall i :: 0 <= i < |block| ==> |block[i]| <= cap
  }

  predicate WithinCap(block: seq<Bytes>, cap: nat) {
    LinesFit(block, cap) && |Joined(DataValues(block))| <= cap
  }

  /** An event is emitted exactly when it has a data field and everything fits the cap. */
  function EventOf(block: seq<Bytes>, cap: nat): seq<Bytes> {
    if DataValues(block) != [] && WithinCap(block, cap) then [Joined(DataValues(block))] else []
  }

  function EventsOf(lines: seq<Bytes>, cap: nat): seq<Bytes>
    decreases |lines|
  {
    var k := FirstBlank(lines);
    if k == |lines| then [] else EventOf(lines[..k], cap) + EventsOf(lines[k + 1..], cap)
  }

  // ---------------------------------------------------------------- equality with it

  predicate BetweenLines(s: State) {
    s.line == [] && !s.lineDirty
  }

  lemma {:induction false} FeedIsLinewise(s: State, stream: Bytes, cap: nat)
    requires BetweenLines(s)
    ensures Fold(Bytewise(cap), s, stream).out == Fold(Linewise(cap), s, LinesOf(stream)).out
    decreases |stream|
  {
    var k := FirstLf(stream);
    if k == |stream| {
      FeedLine(s, stream, cap);
    } else {
      var l, rest := stream[..k], stream[k + 1..];
      assert stream == l + [LF] + rest;
      FeedWholeLine(s, l, rest, cap);
      ValidAfterLine(s, l, cap);
      var lines := LinesOf(stream);
      assert lines[0] == l && lines[1..] == LinesOf(rest);
      FeedIsLinewise(LineStep(s, l, cap).state, rest, cap);
    }
  }

  /** The splitter's fields after the lines of an event that is not finished yet. */
  predicate Holds(s: State, block: seq<Bytes>, cap: nat) {
    && BetweenLines(s)
    && (s.overflow <==> !WithinCap(block, cap))
    && (!s.overflow ==> s.sawData == (DataValues(block) != []) && s.data == Joined(DataValues(block)))
  }

  lemma DataValuesNext(block: seq<Bytes>, l: Bytes)
    ensures DataValues(block + [l]) == DataValues(block) + (if IsData(l) then [DataValue(l)] else [])
  {
    assert (block + [l])[..|block|] == block;
  }

  lemma JoinedNext(values: seq<Bytes>, v: Bytes)
    ensures Joined(values + [v]) == Joined(values) + (if values != [] then [10] else []) + v
  {
    assert (values + [v])[..|values|] == values;
  }

  lemma LinesFitNext(block: seq<Bytes>, l: Bytes, cap: nat)
    ensures LinesFit(block + [l], cap) <==> LinesFit(block, cap) && |l| <= cap
  {
    var next := block + [l];
    assert next[|block|] == l;
    assert forall i :: 0 <= i < |block| ==> next[i] == block[i];
  }

  /** Adding a line to an unfinished event: what its data and its fitting become. */
  lemma BlockNext(block: seq<Bytes>, l: Bytes, cap: nat)
    ensures WithinCap(block + [l], cap)
            <==> WithinCap(block, cap) && |l| <= cap && |Joined(DataValues(block + [l]))| <= cap
    ensures IsData(l) ==>
              && DataValues(block + [l]) != []
              && Joined(DataValues(block + [l])) ==
                 Joined(DataValues(block)) + (if DataValues(block) != [] then [10] else []) + DataValue(l)
    ensures !IsData(l) ==> DataValues(block + [l]) == DataValues(block)
  {
    DataValuesNext(block, l);
    LinesFitNext(block, l, cap);
    if IsData(l) {
      JoinedNext(DataValues(block), DataValue(l));
    } else {
      assert DataValues(block) + [] == DataValues(block);
    }
  }

  /** What one non-blank line does to the fields. */
  lemma LineStepFields(s: State, l: Bytes, cap: nat)
    requires cap >= 1 && BetweenLines(s) && !Blank(l)
    ensures var t := LineStep(s, l, cap);
            var data := s.data + (if s.sawData then [10] else []) + (if IsData(l) then DataValue(l) else []);
            && t.out == [] && BetweenLines(t.state)
            && (t.state.overflow <==> s.overflow || |l| > cap || (IsData(l) && |data| > cap))
            && (!t.state.overflow && IsData(l) ==> t.state.sawData && t.state.data == data)
            && (!t.state.overflow && !IsData(l) ==> t.state.sawData == s.sawData && t.state.data == s.data)
  {
    SameReading(l);
    assert [] + l == l;
    assert StripCr(l)[0] == COLON ==> FieldOf(StripCr(l)) == [];
  }

  lemma HoldsNext(s: State, block: seq<Bytes>, l: Bytes, cap: nat)
    requires cap >= 1 && Holds(s, block, cap) && !Blank(l)
    ensures LineStep(s, l, cap).out == []
    ensures Holds(LineStep(s, l, cap).state, block + [l], cap)
  {
    BlockNext(block, l, cap);
    LineStepFields(s, l, cap);
  }

  /** A blank line finishes the event. */
  lemma HoldsBlank(s: State, block: seq<Bytes>, l: Bytes, cap: nat)
    requires cap >= 1 && Holds(s, block, cap) && Blank(l)
    ensures LineStep(s, l, cap).out == EventOf(block, cap)
    ensures Holds(LineStep(s, l, cap).state, [], cap)
  {
    assert |l| <= 1;
    assert [] + l == l;
  }

  /** The first event of a stream of lines, and the rest of the stream. */
  lemma FirstEvent(block: seq<Bytes>, l: Bytes, rest: seq<Bytes>, cap: nat)
    requires forall i :: 0 <= i < |block| ==> !Blank(block[i])
    requires Blank(l)
    ensures EventsOf(block + [l] + rest, cap) == EventOf(block, cap) + EventsOf(rest, cap)
  {
    var all := block + [l] + rest;
    assert all[|block|] == l;
    assert forall i :: 0 <= i < |block| ==> all[i] == block[i];
    assert FirstBlank(all) == |block|;
    assert all[..|block|] == block && all[|block| + 1..] == rest;
  }

  lemma NoEvent(block: seq<Bytes>, cap: nat)
    requires forall i :: 0 <= i < |block| ==> !Blank(block[i])
    ensures EventsOf(block, cap) == []
  {
  }

  lemma {:induction false} LinewiseIsEvents(s: State, block: seq<Bytes>, lines: seq<Bytes>, cap: nat)
    requires cap >= 1 && Holds(s, block, cap)
    requires forall i :: 0 <= i < |block| ==> !Blank(block[i])
    ensures Fold(Linewise(cap), s, lines).out == EventsOf(block + lines, cap)
    decreases |lines|
  {
    if lines == [] {
      assert block + lines == block;
      NoEvent(block, cap);
    } else {
      var l, rest := lines[0], lines[1..];
      assert block + lines == block + [l] + rest;
      if Blank(l) {
        HoldsBlank(s, block, l, cap);
        LinewiseIsEvents(LineStep(s, l, cap).state, [], rest, cap);
        assert [] + rest == rest;
        FirstEvent(block, l, rest, cap);
      } else {
        HoldsNext(s, block, l, cap);
        LinewiseIsEvents(LineStep(s, l, cap).state, block + [l], rest, cap);
      }
    }
  }

  /** No data field fits a cap of zero: neither side ever emits. */
  lemma {:induction false} NothingFitsZero(s: State, lines: seq<Bytes>)
    requires BetweenLines(s) && !s.sawData
    ensures Fold(Linewise(0), s, lines).out == []
    decreases |lines|
  {
    if lines != [] {
      assert [] + lines[0] == lines[0];
      NothingFitsZero(LineStep(s, lines[0], 0).state, lines[1..]);
    }
  }

  lemma {:induction false} ValueMeansData(block: seq<Bytes>)
    requires DataValues(block) != []
    ensures exists i :: 0 <= i < |block| && IsData(block[i])
  {
    if !IsData(block[|block| - 1]) {
      ValueMeansData(block[..|block| - 1]);
    }
  }

  /** A block with a data field has a line of at least four bytes. */
  lemma DataNeedsRoom(block: seq<Bytes>)
    requires DataValues(block) != []
    ensures !LinesFit(block, 0)
  {
    ValueMeansData(block);
    var i :| 0 <= i < |block| && IsData(block[i]);
    assert |Content(block[i])| >= 4;
  }

  lemma {:induction false} NoEventFitsZero(lines: seq<Bytes>)
    ensures EventsOf(lines, 0) == []
    decreases |lines|
  {
    var k := FirstBlank(lines);
    if k < |lines| {
      if DataValues(lines[..k]) != [] {
        DataNeedsRoom(lines[..k]);
      }
      NoEventFitsZero(lines[k + 1..]);
    }
  }

  /**
   However a stream is cut into chunks, and whatever the cap, the splitter yields exactly
   the events of the complete stream.
   */
  lemma EqualsReference(chunks: seq<Bytes>, cap: nat)
    ensures Fold(Chunkwise(cap), FRESH, chunks).out == EventsOf(LinesOf(Flatten(chunks)), cap)
  {
    var lines := LinesOf(Flatten(chunks));
    PushAllIsFeed(FRESH, chunks, cap);
    FeedIsLinewise(FRESH, Flatten(chunks), cap);
    if cap == 0 {
      NothingFitsZero(FRESH, lines);
      NoEventFitsZero(lines);
    } else {
      LinewiseIsEvents(FRESH, [], lines, cap);
      assert [] + lines == lines;
    }
  }

  // ---------------------------------------------------------------- one event, byte by byte

  /** A value on a line of its own, after `data: `. */
  function DataLine(): Bytes -> Bytes {
    v => [100, 97, 116, 97, 58, 32] + v
  }

  predicate PlainValue(v: Bytes) {
    10 !in v && (v == [] || v[|v| - 1] != 13)
  }

  lemma DataLineReads(v: Bytes)
    requires PlainValue(v)
    ensures var l := DataLine()(v);
            IsData(l) && DataValue(l) == v && !Blank(l) && 10 !in l
  {
    var l := DataLine()(v);
    assert v != [] ==> l[|l| - 1] == v[|v| - 1];
    assert Content(l) == l;
    DataLineExactly(l, v);
  }

  lemma {:induction false} DataLinesRead(values: seq<Bytes>)
    requires forall i :: 0 <= i < |values| ==> PlainValue(values[i])
    ensures DataValues(Mapped(DataLine(), values)) == values
  {
    if values != [] {
      var n := |values| - 1;
      DataLinesRead(values[..n]);
      DataLineReads(values[n]);
      assert values == values[..n] + [values[n]];
      MappedAppend(DataLine(), values[..n], [values[n]]);
      DataValuesNext(Mapped(DataLine(), values[..n]), DataLine()(values[n]));
    }
  }

  lemma BlockOf(values: seq<Bytes>)
    requires forall i :: 0 <= i < |values| ==> PlainValue(values[i])
    ensures var block := Mapped(DataLine(), values);
            && (forall i :: 0 <= i < |block| ==> !Blank(block[i]) && 10 !in block[i])
            && DataValues(block) == values
  {
    DataLinesRead(values);
    forall i | 0 <= i < |values|
      ensures !Blank(Mapped(DataLine(), values)[i]) && 10 !in Mapped(DataLine(), values)[i]
    {
      DataLineReads(values[i]);
    }
  }

  /** The one event of the lines of a message. */
  lemma OneEvent(block: seq<Bytes>, values: seq<Bytes>, cap: nat)
    requires (forall i :: 0 <= i < |block| ==> !Blank(block[i]) && |block[i]| <= cap) && DataValues(block) == values
    requires values != [] && |Joined(values)| <= cap
    ensures EventsOf(block + [[]], cap) == [Joined(values)]
  {
    EmptyAppend(block + [[]]);
    FirstEvent(block, [], [], cap);
    EmptyAppend(EventOf(block, cap));
  }

  /**
   What a server that sends an event of several lines is read as, however its bytes are cut: the
   lines joined by newlines (10), when every line and the whole fit the cap.
   */
  lemma MessageIsRead(values: seq<Bytes>, chunks: seq<Bytes>, cap: nat)
    requires values != [] && Flatten(chunks) == Unlines(Mapped(DataLine(), values) + [[]])
    requires forall i :: 0 <= i < |values| ==> PlainValue(values[i]) && |values[i]| + 6 <= cap
    requires |Joined(values)| <= cap
    ensures Fold(Chunkwise(cap), FRESH, chunks).out == [Joined(values)]
  {
    BlockOf(values);
    LinesReadBack(Mapped(DataLine(), values) + [[]]);
    EqualsReference(chunks, cap);
    OneEvent(Mapped(DataLine(), values), values, cap);
  }

  /** `data: ` v and a blank line, byte for byte. */
  lemma OneValueIsRead(v: Bytes, cap: nat)
    requires PlainValue(v) && |v| + 6 <= cap
    ensures PushResult(FRESH, [100, 97, 116, 97, 58, 32] + v + [10, 10], cap).out == [v]
  {
    var stream := [100, 97, 116, 97, 58, 32] + v + [10, 10];
    assert Mapped(DataLine(), [v]) + [[]] == [DataLine()(v), []];
    assert Unlines([[]]) == [10];
    assert [DataLine()(v), []][1..] == [[]];
    assert Unlines([DataLine()(v), []]) == stream;
    FlattenOne(stream);
    MessageIsRead([v], [stream], cap);
    FoldOne(Chunkwise(cap), FRESH, stream);
  }
}
