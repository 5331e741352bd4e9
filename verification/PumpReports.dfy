/** What the client-to-server pump tells the storage thread: every frame, and every finding of the policy. */
module PumpReports {
  import opened Common
  import opened Sequences
  import opened Machine
  import opened Lines
  import opened Framing
  import opened FramingLaws
  import opened Json
  import opened Policy
  import opened Pump
  import opened PumpLaws

  function Message(): Report -> Msg {
    report => Security(report)
  }

  /** What one frame has to tell: the frame itself if it is recorded, then the findings about it. */
  function Told(g: Gate, frame: Bytes): seq<Msg> {
    (if g.record then [Tap(frame)] else []) + Mapped(Message(), g.decide(frame).events)
  }

  function AllTold(g: Gate, frames: seq<Bytes>): seq<Msg> {
    if frames == [] then [] else Told(g, frames[0]) + AllTold(g, frames[1..])
  }

  /** The messages about frames that fit the cap. */
  function AboutFrames(msgs: seq<Msg>): seq<Msg> {
    if msgs == [] then [] else (if msgs[0].Oversized? then [] else [msgs[0]]) + AboutFrames(msgs[1..])
  }

  lemma {:induction false} AboutFramesAppend(a: seq<Msg>, b: seq<Msg>)
    ensures AboutFrames(a + b) == AboutFrames(a) + AboutFrames(b)
  {
    if a == [] {
      EmptyAppend(b);
      EmptyAppend(AboutFrames(b));
    } else {
      AboutFramesAppend(a[1..], b);
      FirstOfAppend(a, b);
      AppendAssociates(if a[0].Oversized? then [] else [a[0]], AboutFrames(a[1..]), AboutFrames(b));
    }
  }

  lemma {:induction false} AllAboutFrames(msgs: seq<Msg>)
    requires forall i :: 0 <= i < |msgs| ==> !msgs[i].Oversized?
    ensures AboutFrames(msgs) == msgs
  {
    if msgs != [] {
      AllAboutFrames(msgs[1..]);
      assert msgs == [msgs[0]] + msgs[1..];
    }
  }

  lemma FrameTold(g: Gate, dropping: bool, f: Bytes)
    ensures AboutFrames(Offers(GateStep(g, dropping, Frame(f)).out)) == Told(g, f)
  {
    FrameEffects(g, dropping, f);
    OnlyOffers(OfferTap(g, f));
    OnlyOffers(OfferEvents(g.decide(f).events));
    assert Offers(OfferTap(g, f)) == if g.record then [Tap(f)] else [];
    assert Offers(OfferEvents(g.decide(f).events)) == Mapped(Message(), g.decide(f).events);
    AllAboutFrames(Told(g, f));
  }

  lemma RawTold(g: Gate, dropping: bool, r: Bytes)
    ensures AboutFrames(Offers(GateStep(g, dropping, Raw(r)).out)) == []
  {
    var out := GateStep(g, dropping, Raw(r)).out;
    if out != [] {
      ServerOne(out[0]);
    }
  }

  lemma {:induction false} ChunksTold(g: Gate, dropping: bool, chunks: seq<Chunk>)
    ensures AboutFrames(Offers(Fold(Gated(g), dropping, chunks).out)) == AllTold(g, FramesOf(chunks))
    decreases |chunks|
  {
    if chunks != [] {
      var first := GateStep(g, dropping, chunks[0]);
      var more := Fold(Gated(g), first.state, chunks[1..]).out;
      ChunksTold(g, first.state, chunks[1..]);
      OffersAppend(first.out, more);
      AboutFramesAppend(Offers(first.out), Offers(more));
      match chunks[0] {
        case Frame(f) =>
          FrameTold(g, dropping, f);
          FirstOfAppend([f], FramesOf(chunks[1..]));
        case Raw(r) =>
          RawTold(g, dropping, r);
          EmptyAppend(FramesOf(chunks[1..]));
          EmptyAppend(AboutFrames(Offers(more)));
      }
    }
  }

  lemma TrailingTellsNothing(tail: Bytes)
    ensures Offers(Trailing(tail)) == []
  {
    if Trailing(tail) != [] {
      ServerOne(Trailing(tail)[0]);
    }
  }

  /**
   Besides the onsets of over-long frames the storage thread is told exactly this, in this order:
   each frame, if recording is on, followed by every finding about it.
   */
  lemma FramesAndFindings(g: Gate, input: seq<Bytes>, cap: nat)
    ensures AboutFrames(Offers(Effects(g, input, cap))) == AllTold(g, FramesOf(Chunks(input, cap).out))
  {
    var chunks := Chunks(input, cap);
    var out := Fold(Gated(g), false, chunks.out).out;
    ChunksTold(g, false, chunks.out);
    OffersAppend(out, Trailing(Pending(chunks.state)));
    TrailingTellsNothing(Pending(chunks.state));
    EmptyAppend(Offers(out));
  }

  // ---------------------------------------------------------------- a write that fails

  lemma ActsFirst(g: Gate, dropping: bool, f: Bytes)
    requires !g.decide(f).action.Swallow?
    ensures GateStep(g, dropping, Frame(f)).out != []
    ensures GateStep(g, dropping, Frame(f)).out[0]
            == if g.decide(f).action == Pass then ToServer(f + [10]) else ToClient(g.decide(f).action.reply)
  {
  }

  /**
   A frame is told of only after it has been sent or refused: when it is, the storage thread has
   been told of exactly the frames before it. So a frame whose write fails leaves no record.
   */
  lemma ToldAfterwards(g: Gate, before: seq<Chunk>, f: Bytes, after: seq<Chunk>)
    requires !g.decide(f).action.Swallow?
    ensures var out := Fold(Gated(g), false, before + ([Frame(f)] + after)).out;
            var k := |Fold(Gated(g), false, before).out|;
            && k < |out|
            && out[k] == (if g.decide(f).action == Pass then ToServer(f + [10]) else ToClient(g.decide(f).action.reply))
            && AboutFrames(Offers(out[..k])) == AllTold(g, FramesOf(before))
  {
    var first := Fold(Gated(g), false, before);
    var one := GateStep(g, first.state, Frame(f));
    var more := Fold(Gated(g), one.state, after).out;
    FoldAppend(Gated(g), false, before, [Frame(f)] + after);
    FoldAppend(Gated(g), first.state, [Frame(f)], after);
    FoldOne(Gated(g), first.state, Frame(f));
    ActsFirst(g, first.state, f);
    ChunksTold(g, false, before);
    Positioned(first.out, one.out, more);
  }

  lemma Positioned(a: seq<Effect>, b: seq<Effect>, c: seq<Effect>)
    requires b != []
    ensures (a + (b + c))[|a|] == b[0] && (a + (b + c))[..|a|] == a
  {
  }

  // ---------------------------------------------------------------- the findings alone

  function ReportsIn(msgs: seq<Msg>): seq<Report> {
    if msgs == [] then [] else (if msgs[0].Security? then [msgs[0].report] else []) + ReportsIn(msgs[1..])
  }

  lemma {:induction false} ReportsAppend(a: seq<Msg>, b: seq<Msg>)
    ensures ReportsIn(a + b) == ReportsIn(a) + ReportsIn(b)
  {
    if a == [] {
      EmptyAppend(b);
      EmptyAppend(ReportsIn(b));
    } else {
      ReportsAppend(a[1..], b);
      FirstOfAppend(a, b);
      AppendAssociates(if a[0].Security? then [a[0].report] else [], ReportsIn(a[1..]), ReportsIn(b));
    }
  }

  lemma {:induction false} ReportsOnly(reports: seq<Report>)
    ensures ReportsIn(Mapped(Message(), reports)) == reports
  {
    if reports != [] {
      ReportsOnly(reports[1..]);
      assert Mapped(Message(), reports)[1..] == Mapped(Message(), reports[1..]);
      assert reports == [reports[0]] + reports[1..];
    }
  }

  lemma {:induction false} ReportsAboutFrames(msgs: seq<Msg>)
    ensures ReportsIn(AboutFrames(msgs)) == ReportsIn(msgs)
  {
    if msgs != [] {
      ReportsAboutFrames(msgs[1..]);
      if msgs[0].Oversized? {
        EmptyAppend(AboutFrames(msgs[1..]));
      } else {
        FirstOfAppend([msgs[0]], AboutFrames(msgs[1..]));
      }
    }
  }

  /** The findings about each of the frames, one frame after the other. */
  function Findings(g: Gate, frames: seq<Bytes>): seq<Report> {
    if frames == [] then [] else g.decide(frames[0]).events + Findings(g, frames[1..])
  }

  lemma {:induction false} FindingsTold(g: Gate, frames: seq<Bytes>)
    ensures ReportsIn(AllTold(g, frames)) == Findings(g, frames)
  {
    if frames != [] {
      var tap := if g.record then [Tap(frames[0])] else [];
      var events := Mapped(Message(), g.decide(frames[0]).events);
      FindingsTold(g, frames[1..]);
      ReportsAppend(tap + events, AllTold(g, frames[1..]));
      ReportsAppend(tap, events);
      ReportsOnly(g.decide(frames[0]).events);
      assert ReportsIn(tap) == [];
      EmptyAppend(ReportsIn(events));
    }
  }

  /** Recorded or not, the storage thread is told every finding about every frame, in order, and no other. */
  lemma EveryFindingIsTold(g: Gate, input: seq<Bytes>, cap: nat)
    ensures ReportsIn(Offers(Effects(g, input, cap))) == Findings(g, FramesOf(Chunks(input, cap).out))
  {
    FramesAndFindings(g, input, cap);
    ReportsAboutFrames(Offers(Effects(g, input, cap)));
    FindingsTold(g, FramesOf(Chunks(input, cap).out));
  }

  /** Where the findings about frame i stand among all findings. */
  lemma {:induction false} FindingsAt(g: Gate, frames: seq<Bytes>, i: nat)
    requires i < |frames|
    ensures var k, n := |Findings(g, frames[..i])|, |g.decide(frames[i]).events|;
            k + n <= |Findings(g, frames)| && Findings(g, frames)[k..k + n] == g.decide(frames[i]).events
  {
    var first, rest := g.decide(frames[0]).events, Findings(g, frames[1..]);
    if i > 0 {
      FindingsAt(g, frames[1..], i - 1);
      assert frames[..i][0] == frames[0] && frames[..i][1..] == frames[1..][..i - 1];
      var k, n := |Findings(g, frames[1..][..i - 1])|, |g.decide(frames[i]).events|;
      assert (first + rest)[|first| + k..|first| + k + n] == rest[k..k + n];
    } else {
      assert (first + rest)[0..|first|] == first;
    }
  }

  /** A decision's reports say that the frame was blocked exactly when it is withheld, and a withheld one has some. */
  ghost predicate Truthful(d: Decision) {
    (d.action != Pass ==> d.events != []) && forall r :: r in d.events ==> (r.blocked <==> d.action != Pass)
  }

  lemma PolicyIsTruthful(
    rules: Rules, parse: Bytes -> Option<Json>, scan: string -> seq<Secret>, record: bool, frame: Bytes)
    ensures Truthful(PolicyGate(rules, parse, scan, record).decide(frame))
  {
    if parse(frame).Some? {
      ReportsAreTrue(parse(frame).value, rules, scan);
    }
  }

  /**
   Among the reports from k to m are those about this frame: one at least if it was withheld, and
   all of them true.
   */
  ghost predicate Traced(told: seq<Report>, k: int, m: int, d: Decision) {
    && 0 <= k <= m <= |told| && told[k..m] == d.events
    && (d.action != Pass ==> k < m)
    && forall j :: k <= j < m ==> (told[j].blocked <==> d.action != Pass)
  }

  lemma TruthfulIsTraced(told: seq<Report>, k: int, m: int, d: Decision)
    requires Truthful(d) && 0 <= k <= m <= |told| && told[k..m] == d.events
    ensures Traced(told, k, m, d)
  {
    forall j | k <= j < m
      ensures told[j].blocked <==> d.action != Pass
    {
      assert told[j] == told[k..m][j - k];
      assert told[j] in d.events;
    }
  }

  /**
   No block without a trace: every frame that a policy withholds has at least one report among
   those told, in the place of the frame, and exactly the reports of withheld frames say that
   they were blocked.
   */
  lemma BlocksLeaveATrace(
    rules: Rules, parse: Bytes -> Option<Json>, scan: string -> seq<Secret>, record: bool,
    input: seq<Bytes>, cap: nat, i: nat)
    requires i < |FramesOf(Chunks(input, cap).out)|
    ensures var g, frames := PolicyGate(rules, parse, scan, record), FramesOf(Chunks(input, cap).out);
            Traced(ReportsIn(Offers(Effects(g, input, cap))), |Findings(g, frames[..i])|,
                   |Findings(g, frames[..i])| + |g.decide(frames[i]).events|, g.decide(frames[i]))
  {
    var g, frames := PolicyGate(rules, parse, scan, record), FramesOf(Chunks(input, cap).out);
    PolicyIsTruthful(rules, parse, scan, record, frames[i]);
    TraceAt(g, input, cap, i);
  }

  lemma TraceAt(g: Gate, input: seq<Bytes>, cap: nat, i: nat)
    requires i < |FramesOf(Chunks(input, cap).out)| && Truthful(g.decide(FramesOf(Chunks(input, cap).out)[i]))
    ensures var frames := FramesOf(Chunks(input, cap).out);
            Traced(ReportsIn(Offers(Effects(g, input, cap))), |Findings(g, frames[..i])|,
                   |Findings(g, frames[..i])| + |g.decide(frames[i]).events|, g.decide(frames[i]))
  {
    var frames := FramesOf(Chunks(input, cap).out);
    var k, d := |Findings(g, frames[..i])|, g.decide(frames[i]);
    EveryFindingIsTold(g, input, cap);
    FindingsAt(g, frames, i);
    TruthfulIsTraced(Findings(g, frames), k, k + |d.events|, d);
  }
}
