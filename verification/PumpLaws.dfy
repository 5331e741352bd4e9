/** What reaches the server, the client and the recording, in each mode. */
module PumpLaws {
  import opened Common
  import opened Sequences
  import opened Machine
  import opened Lines
  import opened Framing
  import opened FramingLaws
  import opened Json
  import opened Policy
  import opened Pump

  // ---------------------------------------------------------------- monitor mode

  ghost predicate AlwaysPasses(g: Gate) {
    forall f :: g.decide(f).action == Pass
  }

  lemma MonitorChunk(g: Gate, dropping: bool, c: Chunk)
    requires g.mode == Monitor && AlwaysPasses(g)
    ensures ServerBytes(GateStep(g, dropping, c).out) == Wire(c)
  {
    match c {
      case Frame(f) =>
        FrameEffects(g, dropping, f);
        ActionBytes(g, f);
      case Raw(r) =>
        ServerOne(ToServer(r));
    }
  }

  lemma {:induction false} MonitorChunks(g: Gate, dropping: bool, chunks: seq<Chunk>)
    requires g.mode == Monitor && AlwaysPasses(g)
    ensures ServerBytes(Fold(Gated(g), dropping, chunks).out) == WireOf(chunks)
    decreases |chunks|
  {
    if chunks != [] {
      var first := GateStep(g, dropping, chunks[0]);
      MonitorChunk(g, dropping, chunks[0]);
      MonitorChunks(g, first.state, chunks[1..]);
      ServerAppend(first.out, Fold(Gated(g), first.state, chunks[1..]).out);
    }
  }

  /**
   Monitor mode is transparent: for every policy, however the reads cut the stream,
   whatever the cap, the server is sent exactly the bytes the client sent.
   */
  lemma MonitorTransparent(
    rules: Rules, parse: Bytes -> Option<Json>, scan: string -> seq<Secret>, record: bool, input: seq<Bytes>, cap: nat)
    requires rules.mode == Monitor
    ensures ServerBytes(Effects(PolicyGate(rules, parse, scan, record), input, cap)) == Flatten(input)
  {
    var g := PolicyGate(rules, parse, scan, record);
    var chunks := Chunks(input, cap);
    forall f
      ensures g.decide(f).action == Pass
    {
      MonitorPasses(parse(f), rules, scan);
    }
    MonitorChunks(g, false, chunks.out);
    StreamConserved(EMPTY, input, cap);
    TrailingBytes(Pending(chunks.state));
    ServerAppend(Fold(Gated(g), false, chunks.out).out, Trailing(Pending(chunks.state)));
    EmptyAppend(Flatten(input));
  }

  // ---------------------------------------------------------------- enforce mode

  /** The frames the gate lets through, in order. */
  function Passed(g: Gate, frames: seq<Bytes>): seq<Bytes> {
    if frames == [] then []
    else (if g.decide(frames[0]).action == Pass then [frames[0]] else []) + Passed(g, frames[1..])
  }

  /** The refusals the gate answers these frames with, in order. */
  function ReplyUnits(g: Gate, frames: seq<Bytes>): seq<Bytes> {
    if frames == [] then []
    else
      (if g.decide(frames[0]).action.Refuse? then [g.decide(frames[0]).action.reply] else [])
      + ReplyUnits(g, frames[1..])
  }

  function Replies(g: Gate, frames: seq<Bytes>): Bytes {
    Flatten(ReplyUnits(g, frames))
  }

  lemma {:induction false} ReplyUnitsAppend(g: Gate, a: seq<Bytes>, b: seq<Bytes>)
    ensures ReplyUnits(g, a + b) == ReplyUnits(g, a) + ReplyUnits(g, b)
  {
    if a == [] {
      EmptyAppend(b);
      EmptyAppend(ReplyUnits(g, b));
    } else {
      ReplyUnitsAppend(g, a[1..], b);
      FirstOfAppend(a, b);
      AppendAssociates(
        if g.decide(a[0]).action.Refuse? then [g.decide(a[0]).action.reply] else [],
        ReplyUnits(g, a[1..]), ReplyUnits(g, b));
    }
  }

  lemma RepliesAppend(g: Gate, a: seq<Bytes>, b: seq<Bytes>)
    ensures Replies(g, a + b) == Replies(g, a) + Replies(g, b)
  {
    ReplyUnitsAppend(g, a, b);
    FlattenAppend(ReplyUnits(g, a), ReplyUnits(g, b));
  }

  lemma OneReply(g: Gate, f: Bytes)
    ensures ReplyUnits(g, [f]) == if g.decide(f).action.Refuse? then [g.decide(f).action.reply] else []
    ensures Replies(g, [f]) == if g.decide(f).action.Refuse? then g.decide(f).action.reply else []
  {
    var first := if g.decide(f).action.Refuse? then [g.decide(f).action.reply] else [];
    assert [f][1..] == [];
    EmptyAppend(first);
    assert ReplyUnits(g, [f]) == first;
    if g.decide(f).action.Refuse? {
      FlattenOne(first[0]);
    }
  }

  lemma {:induction false} PassedAppend(g: Gate, a: seq<Bytes>, b: seq<Bytes>)
    ensures Unlines(Passed(g, a + b)) == Unlines(Passed(g, a)) + Unlines(Passed(g, b))
  {
    if a == [] {
      EmptyAppend(b);
      EmptyAppend(Unlines(Passed(g, b)));
    } else {
      PassedAppend(g, a[1..], b);
      FirstOfAppend(a, b);
      PassedFirst(g, a);
      PassedFirst(g, a + b);
      var first := if g.decide(a[0]).action == Pass then a[0] + [LF] else [];
      AppendAssociates(first, Unlines(Passed(g, a[1..])), Unlines(Passed(g, b)));
    }
  }

  lemma PassedFirst(g: Gate, a: seq<Bytes>)
    requires a != []
    ensures Unlines(Passed(g, a))
            == (if g.decide(a[0]).action == Pass then a[0] + [LF] else []) + Unlines(Passed(g, a[1..]))
  {
    EmptyAppend(Passed(g, a[1..]));
    EmptyAppend(Unlines(Passed(g, a[1..])));
    if g.decide(a[0]).action == Pass {
      FirstOfAppend([a[0]], Passed(g, a[1..]));
      EmptyAppend(Passed(g, a[1..]));
    }
  }

  lemma EnforceChunk(g: Gate, dropping: bool, c: Chunk)
    requires g.mode == Enforce
    ensures ServerBytes(GateStep(g, dropping, c).out) == Unlines(Passed(g, FramesOf([c])))
  {
    var out := GateStep(g, dropping, c).out;
    match c {
      case Frame(f) =>
        FrameEffects(g, dropping, f);
        ActionBytes(g, f);
        assert FramesOf([c]) == [f];
        PassedFirst(g, [f]);
        EmptyAppend(ServerBytes(out));
      case Raw(r) =>
        assert FramesOf([c]) == [];
        if out != [] {
          ServerOne(out[0]);
        }
    }
  }

  lemma {:induction false} EnforceChunks(g: Gate, dropping: bool, chunks: seq<Chunk>)
    requires g.mode == Enforce
    ensures ServerBytes(Fold(Gated(g), dropping, chunks).out) == Unlines(Passed(g, FramesOf(chunks)))
    decreases |chunks|
  {
    if chunks != [] {
      var first := GateStep(g, dropping, chunks[0]);
      EnforceChunk(g, dropping, chunks[0]);
      EnforceChunks(g, first.state, chunks[1..]);
      ServerAppend(first.out, Fold(Gated(g), first.state, chunks[1..]).out);
      assert chunks == [chunks[0]] + chunks[1..];
      FramesAppend([chunks[0]], chunks[1..]);
      PassedAppend(g, FramesOf([chunks[0]]), FramesOf(chunks[1..]));
    }
  }

  lemma ChunkReplies(g: Gate, dropping: bool, c: Chunk)
    ensures ClientBytes(GateStep(g, dropping, c).out) == Replies(g, FramesOf([c]))
  {
    var out := GateStep(g, dropping, c).out;
    match c {
      case Frame(f) =>
        FrameEffects(g, dropping, f);
        ActionBytes(g, f);
        assert FramesOf([c]) == [f];
        OneReply(g, f);
      case Raw(r) =>
        assert FramesOf([c]) == [];
        if out != [] {
          ServerOne(out[0]);
        }
    }
  }

  lemma {:induction false} ChunksReplies(g: Gate, dropping: bool, chunks: seq<Chunk>)
    ensures ClientBytes(Fold(Gated(g), dropping, chunks).out) == Replies(g, FramesOf(chunks))
    decreases |chunks|
  {
    if chunks != [] {
      var first := GateStep(g, dropping, chunks[0]);
      ChunkReplies(g, dropping, chunks[0]);
      ChunksReplies(g, first.state, chunks[1..]);
      ClientAppend(first.out, Fold(Gated(g), first.state, chunks[1..]).out);
      assert chunks == [chunks[0]] + chunks[1..];
      FramesAppend([chunks[0]], chunks[1..]);
      RepliesAppend(g, FramesOf([chunks[0]]), FramesOf(chunks[1..]));
    }
  }

  /** In either mode the client is sent exactly the refusals, one after the other. */
  lemma ClientSees(g: Gate, input: seq<Bytes>, cap: nat)
    ensures ClientBytes(Effects(g, input, cap)) == Flatten(ReplyUnits(g, FramesOf(Chunks(input, cap).out)))
  {
    var chunks := Chunks(input, cap);
    var out := Fold(Gated(g), false, chunks.out).out;
    ChunksReplies(g, false, chunks.out);
    TrailingBytes(Pending(chunks.state));
    ClientAppend(out, Trailing(Pending(chunks.state)));
    EmptyAppend(ClientBytes(out));
  }

  /**
   Enforce mode: the server is sent exactly the frames the gate passes, each with its
   newline and in order, and then the unfinished frame; the client is sent exactly the
   refusals. An over-long frame reaches neither. The frames are the ones the tap's
   splitter would record.
   */
  lemma EnforceSends(g: Gate, input: seq<Bytes>, cap: nat)
    requires g.mode == Enforce
    ensures var frames := Fold(Recordwise(cap), EMPTY, input).out;
            && ServerBytes(Effects(g, input, cap)) == Unlines(Passed(g, frames)) + Pending(Chunks(input, cap).state)
            && ClientBytes(Effects(g, input, cap)) == Replies(g, frames)
  {
    var chunks := Chunks(input, cap);
    var out := Fold(Gated(g), false, chunks.out).out;
    EnforceChunks(g, false, chunks.out);
    StreamsAgree(EMPTY, input, cap);
    TrailingBytes(Pending(chunks.state));
    ServerAppend(out, Trailing(Pending(chunks.state)));
    ClientSees(g, input, cap);
  }

  /** When every line fits the cap, what the server is sent depends on the stream alone. */
  lemma EnforceFittingStream(g: Gate, input: seq<Bytes>, cap: nat)
    requires g.mode == Enforce && EveryLineFits(Flatten(input), cap)
    ensures var stream := Flatten(input);
            && ServerBytes(Effects(g, input, cap)) == Unlines(Passed(g, LinesOf(stream))) + TailOf(stream)
            && ClientBytes(Effects(g, input, cap)) == Replies(g, LinesOf(stream))
  {
    EnforceSends(g, input, cap);
    EmptyAppend(Flatten(input));
    FittingStream(EMPTY, input, cap);
  }

  // ---------------------------------------------------------------- the recording

  function TapsIn(msgs: seq<Msg>): seq<Bytes> {
    if msgs == [] then [] else (if msgs[0].Tap? then [msgs[0].frame] else []) + TapsIn(msgs[1..])
  }

  lemma {:induction false} TapsAppend(a: seq<Msg>, b: seq<Msg>)
    ensures TapsIn(a + b) == TapsIn(a) + TapsIn(b)
  {
    if a == [] {
      EmptyAppend(b);
      EmptyAppend(TapsIn(b));
    } else {
      TapsAppend(a[1..], b);
      FirstOfAppend(a, b);
      AppendAssociates(if a[0].Tap? then [a[0].frame] else [], TapsIn(a[1..]), TapsIn(b));
    }
  }

  lemma {:induction false} NoTaps(msgs: seq<Msg>)
    requires forall i :: 0 <= i < |msgs| ==> !msgs[i].Tap?
    ensures TapsIn(msgs) == []
  {
    if msgs != [] {
      NoTaps(msgs[1..]);
    }
  }

  lemma ChunkTaps(g: Gate, dropping: bool, c: Chunk)
    ensures TapsIn(Offers(GateStep(g, dropping, c).out)) == if g.record then FramesOf([c]) else []
  {
    var out := GateStep(g, dropping, c).out;
    match c {
      case Frame(f) =>
        FrameEffects(g, dropping, f);
        var tap, events := Offers(OfferTap(g, f)), Offers(OfferEvents(g.decide(f).events));
        OnlyOffers(OfferTap(g, f));
        OnlyOffers(OfferEvents(g.decide(f).events));
        TapsAppend(tap, events);
        NoTaps(events);
        EmptyAppend(TapsIn(tap));
        assert tap == if g.record then [Tap(f)] else [];
        assert FramesOf([c]) == [f];
      case Raw(r) =>
        if out != [] {
          ServerOne(out[0]);
        }
        NoTaps(Offers(out));
        assert FramesOf([c]) == [];
    }
  }

  /** Every frame is offered to the recording, in order, whether or not it was let through. */
  lemma {:induction false} RecordsEveryFrame(g: Gate, dropping: bool, chunks: seq<Chunk>)
    ensures TapsIn(Offers(Fold(Gated(g), dropping, chunks).out)) == if g.record then FramesOf(chunks) else []
    decreases |chunks|
  {
    if chunks != [] {
      var first := GateStep(g, dropping, chunks[0]);
      var more := Fold(Gated(g), first.state, chunks[1..]).out;
      ChunkTaps(g, dropping, chunks[0]);
      RecordsEveryFrame(g, first.state, chunks[1..]);
      OffersAppend(first.out, more);
      TapsAppend(Offers(first.out), Offers(more));
      assert chunks == [chunks[0]] + chunks[1..];
      FramesAppend([chunks[0]], chunks[1..]);
    }
  }

  // ---------------------------------------------------------------- the latch

  /** How many reads end inside a line that outgrew the cap during that read. */
  function Onsets(input: seq<Bytes>, cap: nat): nat {
    if input == [] then 0
    else
      var n := |input| - 1;
      Onsets(input[..n], cap) + (if OverlongTail(Chunks(input[..n], cap).state, input[n], cap) then 1 else 0)
  }

  function OversizedIn(msgs: seq<Msg>): nat {
    if msgs == [] then 0 else (if msgs[0] == Oversized then 1 else 0) + OversizedIn(msgs[1..])
  }

  lemma {:induction false} OversizedAppend(a: seq<Msg>, b: seq<Msg>)
    ensures OversizedIn(a + b) == OversizedIn(a) + OversizedIn(b)
  {
    if a == [] {
      EmptyAppend(b);
    } else {
      OversizedAppend(a[1..], b);
      FirstOfAppend(a, b);
    }
  }

  lemma {:induction false} NoOversized(msgs: seq<Msg>)
    requires forall i :: 0 <= i < |msgs| ==> msgs[i] != Oversized
    ensures OversizedIn(msgs) == 0
  {
    if msgs != [] {
      NoOversized(msgs[1..]);
    }
  }

  lemma OtherOffers(effects: seq<Effect>)
    requires forall i :: 0 <= i < |effects| ==> effects[i].Offer? && effects[i].msg != Oversized
    ensures OversizedIn(Offers(effects)) == 0
  {
    OnlyOffers(effects);
    NoOversized(Offers(effects));
  }

  lemma FrameNotOversized(g: Gate, dropping: bool, f: Bytes)
    ensures OversizedIn(Offers(GateStep(g, dropping, Frame(f)).out)) == 0
  {
    FrameEffects(g, dropping, f);
    OtherOffers(OfferTap(g, f));
    OtherOffers(OfferEvents(g.decide(f).events));
    OversizedAppend(Offers(OfferTap(g, f)), Offers(OfferEvents(g.decide(f).events)));
  }

  /** The latch before and after a line: set exactly when the framer is inside an over-long frame. */
  lemma LatchLine(g: Gate, s: Framer, head: Bytes)
    requires g.mode == Enforce && NoLf(head)
    ensures var r := Fold(Gated(g), s.overflowed, FrameLine(s, head).out);
            r.state == false && OversizedIn(Offers(r.out)) == 0
  {
    var c := FrameLine(s, head).out[0];
    FoldOne(Gated(g), s.overflowed, c);
    if s.overflowed {
      assert c.raw[|c.raw| - 1] == LF;
    } else {
      FrameNotOversized(g, s.overflowed, c.frame);
    }
  }

  lemma {:induction false} LatchLines(g: Gate, s: Framer, lines: seq<Bytes>)
    requires g.mode == Enforce && forall i :: 0 <= i < |lines| ==> NoLf(lines[i])
    ensures var r := Fold(Gated(g), s.overflowed, Fold(FrameLines(), s, lines).out);
            r.state == Fold(FrameLines(), s, lines).state.overflowed && OversizedIn(Offers(r.out)) == 0
    decreases |lines|
  {
    if lines != [] {
      var first, more := FrameLine(s, lines[0]).out, Fold(FrameLines(), EMPTY, lines[1..]).out;
      LatchLine(g, s, lines[0]);
      LatchLines(g, EMPTY, lines[1..]);
      FoldAppend(Gated(g), s.overflowed, first, more);
      OffersAppend(Fold(Gated(g), s.overflowed, first).out, Fold(Gated(g), false, more).out);
      OversizedAppend(Offers(Fold(Gated(g), s.overflowed, first).out), Offers(Fold(Gated(g), false, more).out));
    }
  }

  lemma LatchRest(g: Gate, s: Framer, data: Bytes, cap: nat)
    requires g.mode == Enforce && Valid(s, cap) && NoLf(data)
    ensures var r := Fold(Gated(g), s.overflowed, FrameRest(s, data, cap).out);
            && r.state == FrameRest(s, data, cap).state.overflowed
            && OversizedIn(Offers(r.out)) == if !s.overflowed && data != [] && |s.buf| + |data| > cap then 1 else 0
  {
    var out := FrameRest(s, data, cap).out;
    if out != [] {
      FoldOne(Gated(g), s.overflowed, out[0]);
      var raw := out[0].raw;
      assert raw[|raw| - 1] == data[|data| - 1];
      if !s.overflowed {
        ServerOne(Offer(Oversized));
      }
    }
  }

  /** One read: the latch follows the framer, and an onset is reported once. */
  lemma LatchRead(g: Gate, s: Framer, read: Bytes, cap: nat)
    requires g.mode == Enforce && Valid(s, cap)
    ensures var r := Fold(Gated(g), s.overflowed, Framed(s, read, cap).out);
            && r.state == Framed(s, read, cap).state.overflowed
            && OversizedIn(Offers(r.out)) == if OverlongTail(s, read, cap) then 1 else 0
  {
    var lines := Fold(FrameLines(), s, LinesOf(read));
    var rest := FrameRest(lines.state, TailOf(read), cap);
    LinesHaveNoLf(read);
    LinesAppend(read, []);
    AfterLines(s, LinesOf(read));
    LatchLines(g, s, LinesOf(read));
    LatchRest(g, lines.state, TailOf(read), cap);
    FoldAppend(Gated(g), s.overflowed, lines.out, rest.out);
    var a := Fold(Gated(g), s.overflowed, lines.out);
    var b := Fold(Gated(g), a.state, rest.out);
    OffersAppend(a.out, b.out);
    OversizedAppend(Offers(a.out), Offers(b.out));
    if NoLf(read) {
      NoLines(read);
    } else {
      assert LinesOf(read) != [];
    }
  }

  /**
   After every read the drop latch equals the framer's overflow flag, and the over-long
   frames reported so far are exactly the ones that began: each is reported once.
   */
  lemma {:induction false} LatchFollowsFramer(g: Gate, input: seq<Bytes>, cap: nat)
    requires g.mode == Enforce
    ensures var r := Progress(g, input, cap, |input|);
            && r.state == Chunks(input, cap).state.overflowed
            && OversizedIn(Offers(r.out)) == Onsets(input, cap)
  {
    assert input[..|input|] == input;
    if input != [] {
      var n := |input| - 1;
      var before := input[..n];
      LatchFollowsFramer(g, before, cap);
      assert before[..n] == before;
      ChunksNext(g, input, cap, n);
      StreamConserved(EMPTY, before, cap);
      LatchRead(g, Chunks(before, cap).state, input[n], cap);
      var a := Progress(g, before, cap, n);
      var b := Fold(Gated(g), a.state, Framed(Chunks(before, cap).state, input[n], cap).out);
      OffersAppend(a.out, b.out);
      OversizedAppend(Offers(a.out), Offers(b.out));
    }
  }
}
