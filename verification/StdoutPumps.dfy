/** The two pumps on one stdout: what each writes under the lock, and when no line is ever broken. */
module StdoutPumps {
  import opened Common
  import opened Sequences
  import opened Machine
  import opened Lines
  import opened Framing
  import opened FramingLaws
  import opened Json
  import opened Policy
  import opened Pump
  import opened PumpLaws
  import opened Stdout

  function WireUnits(chunks: seq<Chunk>): seq<Bytes> {
    if chunks == [] then [] else [Wire(chunks[0])] + WireUnits(chunks[1..])
  }

  /**
   What the server pump writes under the lock, one chunk at a time, and the unfinished frame at the
   end of its input.
   */
  function ServerUnits(input: seq<Bytes>, cap: nat, ended: bool): seq<Bytes> {
    var chunks := Chunks(input, cap);
    WireUnits(chunks.out) + (if ended && Pending(chunks.state) != [] then [Pending(chunks.state)] else [])
  }

  /** What the client pump writes under the lock: one refusal at a time. */
  function ClientUnits(g: Gate, input: seq<Bytes>, cap: nat): seq<Bytes> {
    ReplyUnits(g, FramesOf(Chunks(input, cap).out))
  }

  lemma {:induction false} WireUnitsFlat(chunks: seq<Chunk>)
    ensures Flatten(WireUnits(chunks)) == WireOf(chunks)
  {
    if chunks != [] {
      WireUnitsFlat(chunks[1..]);
      FirstOfAppend([Wire(chunks[0])], WireUnits(chunks[1..]));
    }
  }

  lemma {:induction false} WireUnitsAppend(a: seq<Chunk>, b: seq<Chunk>)
    ensures WireUnits(a + b) == WireUnits(a) + WireUnits(b)
  {
    if a == [] {
      EmptyAppend(b);
      EmptyAppend(WireUnits(b));
    } else {
      WireUnitsAppend(a[1..], b);
      FirstOfAppend(a, b);
      AppendAssociates([Wire(a[0])], WireUnits(a[1..]), WireUnits(b));
    }
  }

  /**
   The units are what the pumps write: together they are every byte the server sent, and every
   byte the gate's effects send to the client.
   */
  lemma UnitsAreWritten(g: Gate, fromServer: seq<Bytes>, fromClient: seq<Bytes>, cap: nat)
    ensures Flatten(ServerUnits(fromServer, cap, false)) == WireOf(Chunks(fromServer, cap).out)
    ensures Flatten(ServerUnits(fromServer, cap, true)) == Flatten(fromServer)
    ensures Flatten(ClientUnits(g, fromClient, cap)) == ClientBytes(Effects(g, fromClient, cap))
  {
    var chunks := Chunks(fromServer, cap);
    var rest := Pending(chunks.state);
    WireUnitsFlat(chunks.out);
    EmptyAppend(WireUnits(chunks.out));
    StreamConserved(EMPTY, fromServer, cap);
    EmptyAppend(Flatten(fromServer));
    if rest == [] {
      EmptyAppend(WireOf(chunks.out));
    } else {
      FlattenAppend(WireUnits(chunks.out), [rest]);
      FlattenOne(rest);
    }
    ClientSees(g, fromClient, cap);
  }

  // ---------------------------------------------------------------- which reads make whole lines

  lemma AllLinesAppend(a: seq<Bytes>, b: seq<Bytes>)
    ensures AllLines(a + b) <==> AllLines(a) && AllLines(b)
  {
    if AllLines(a + b) {
      forall i | 0 <= i < |a| ensures IsLine(a[i]) {
        assert (a + b)[i] == a[i];
      }
      forall i | 0 <= i < |b| ensures IsLine(b[i]) {
        assert (a + b)[|a| + i] == b[i];
      }
    }
  }

  lemma FrameIsLine(f: Bytes)
    requires NoLf(f)
    ensures IsLine(f + [LF])
  {
    assert (f + [LF])[..|f|] == f;
  }

  lemma UnendedIsNoLine(u: Bytes)
    requires NoLf(u)
    ensures !IsLine(u)
  {
  }

  /** The lines of a read that does not start inside an over-long line. */
  lemma {:induction false} LinesMakeLines(s: Framer, lines: seq<Bytes>)
    requires !s.overflowed && NoLf(s.buf) && forall i :: 0 <= i < |lines| ==> NoLf(lines[i])
    ensures AllLines(WireUnits(Fold(FrameLines(), s, lines).out))
    decreases |lines|
  {
    if lines != [] {
      var first, rest := FrameLine(s, lines[0]).out, Fold(FrameLines(), EMPTY, lines[1..]).out;
      LinesMakeLines(EMPTY, lines[1..]);
      FrameIsLine(s.buf + lines[0]);
      WireUnitsAppend(first, rest);
      assert WireUnits(first) == [(s.buf + lines[0]) + [LF]];
      AllLinesAppend(WireUnits(first), WireUnits(rest));
    }
  }

  lemma RestMakesNoLine(s: Framer, data: Bytes, cap: nat)
    requires !s.overflowed && NoLf(s.buf) && NoLf(data)
    ensures AllLines(WireUnits(FrameRest(s, data, cap).out)) <==> !FrameRest(s, data, cap).state.overflowed
  {
    if FrameRest(s, data, cap).state.overflowed {
      UnendedIsNoLine(s.buf + data);
      assert WireUnits(FrameRest(s, data, cap).out)[0] == s.buf + data;
    }
  }

  /** One read makes whole lines exactly when it does not end inside an over-long line. */
  lemma ReadMakesLines(s: Framer, read: Bytes, cap: nat)
    requires Valid(s, cap) && !s.overflowed
    ensures AllLines(WireUnits(Framed(s, read, cap).out)) <==> !OverlongTail(s, read, cap)
    ensures Framed(s, read, cap).state.overflowed <==> OverlongTail(s, read, cap)
  {
    var lines := Fold(FrameLines(), s, LinesOf(read));
    var rest := FrameRest(lines.state, TailOf(read), cap);
    LinesHaveNoLf(read);
    LinesAppend(read, []);
    AfterLines(s, LinesOf(read));
    LinesMakeLines(s, LinesOf(read));
    RestMakesNoLine(lines.state, TailOf(read), cap);
    WireUnitsAppend(lines.out, rest.out);
    AllLinesAppend(WireUnits(lines.out), WireUnits(rest.out));
    if NoLf(read) {
      NoLines(read);
    } else {
      LinesAndTail(read);
    }
  }

  lemma {:induction false} ReadsMakeLines(input: seq<Bytes>, cap: nat)
    ensures AllLines(WireUnits(Chunks(input, cap).out)) <==> Onsets(input, cap) == 0
    ensures Onsets(input, cap) == 0 ==> !Chunks(input, cap).state.overflowed
    decreases |input|
  {
    if input != [] {
      var n := |input| - 1;
      var before := Chunks(input[..n], cap);
      ReadsMakeLines(input[..n], cap);
      assert input == input[..n] + [input[n]];
      FoldSnoc(Framewise(cap), EMPTY, input[..n], input[n]);
      StreamConserved(EMPTY, input[..n], cap);
      var next := Framed(before.state, input[n], cap);
      WireUnitsAppend(before.out, next.out);
      AllLinesAppend(WireUnits(before.out), WireUnits(next.out));
      if Onsets(input[..n], cap) == 0 {
        ReadMakesLines(before.state, input[n], cap);
      }
    }
  }

  /**
   The server pump's units are lines exactly when no read ends inside an over-long line and nothing
   is left unfinished.
   */
  lemma ServerUnitsAreLines(input: seq<Bytes>, cap: nat, ended: bool)
    ensures AllLines(ServerUnits(input, cap, ended))
            <==> Onsets(input, cap) == 0 && (ended ==> Pending(Chunks(input, cap).state) == [])
  {
    var chunks := Chunks(input, cap);
    ReadsMakeLines(input, cap);
    StreamConserved(EMPTY, input, cap);
    EmptyAppend(WireUnits(chunks.out));
    if ended && Pending(chunks.state) != [] {
      AllLinesAppend(WireUnits(chunks.out), [Pending(chunks.state)]);
      UnendedIsNoLine(Pending(chunks.state));
      assert [Pending(chunks.state)][0] == Pending(chunks.state);
    }
  }

  ghost predicate ParsesWell(parse: Bytes -> Option<Json>) {
    forall f :: parse(f).Some? ==> WellFormed(parse(f).value)
  }

  lemma {:induction false} RepliesAreLines(
    rules: Rules, parse: Bytes -> Option<Json>, scan: string -> seq<Secret>, record: bool, frames: seq<Bytes>)
    requires ParsesWell(parse)
    ensures AllLines(ReplyUnits(PolicyGate(rules, parse, scan, record), frames))
  {
    if frames != [] {
      RepliesAreLines(rules, parse, scan, record, frames[1..]);
      if Decide(parse(frames[0]), rules, scan).action.Refuse? {
        RefusalIsOneLine(parse(frames[0]), rules, scan);
      }
    }
  }

  /**
   Exactly when the two pumps share stdout without ever breaking a line, over all interleavings:
   no read from the server ends inside an over-long line and, once its input has ended, it did
   not end inside a line. The policy and the client's input do not matter.
   */
  lemma PumpsAtomicExactlyWhen(
    rules: Rules, parse: Bytes -> Option<Json>, scan: string -> seq<Secret>, record: bool,
    fromServer: seq<Bytes>, fromClient: seq<Bytes>, cap: nat, ended: bool)
    requires ParsesWell(parse)
    ensures AlwaysWhole(ServerUnits(fromServer, cap, ended),
            ClientUnits(PolicyGate(rules, parse, scan, record), fromClient, cap))
            <==> Onsets(fromServer, cap) == 0 && (ended ==> Pending(Chunks(fromServer, cap).state) == [])
  {
    RepliesAreLines(rules, parse, scan, record, FramesOf(Chunks(fromClient, cap).out));
    ServerUnitsAreLines(fromServer, cap, ended);
    AlwaysWholeExactlyWhen(ServerUnits(fromServer, cap, ended),
        ClientUnits(PolicyGate(rules, parse, scan, record), fromClient, cap));
  }

  /**
   In every interleaving of the two pumps the client has the first of the server's units and the
   first refusals, each in order; and once both pumps are done it has exactly the bytes the
   server sent and the bytes the gate answered, merged unit by unit.
   */
  lemma PumpsShareStdout(
    run: seq<State>, i: nat, g: Gate, fromServer: seq<Bytes>, fromClient: seq<Bytes>, cap: nat)
    requires IsRun(run, ServerUnits(fromServer, cap, true), ClientUnits(g, fromClient, cap))
    requires i < |run| && run[i].holder.None?
    ensures run[i].out == Written(run[i].log)
    ensures By(Server, run[i].log) <= ServerUnits(fromServer, cap, true)
            && By(Client, run[i].log) <= ClientUnits(g, fromClient, cap)
    ensures run[i].queue == map[Server := [], Client := []] ==>
              && Flatten(By(Server, run[i].log)) == Flatten(fromServer)
              && Flatten(By(Client, run[i].log)) == ClientBytes(Effects(g, fromClient, cap))
  {
    var server, client := ServerUnits(fromServer, cap, true), ClientUnits(g, fromClient, cap);
    RunInv(run, server, client, i);
    WrittenFirst(run, server, client, i);
    if run[i].queue == map[Server := [], Client := []] {
      FinallyMerged(run, server, client, i);
      UnitsAreWritten(g, fromServer, fromClient, cap);
    }
  }

  // ---------------------------------------------------------------- a broken line

  const SPLIT_READS: seq<Bytes> := [[1, 2], [3, LF]]

  lemma SplitFirst()
    ensures Framed(EMPTY, [1, 2], 1) == Run(Framer([], true), [Raw([1, 2])])
  {
    var one: Bytes := [1, 2];
    NoLines(one);
    SplitRest(FrameLines(), FrameRests(1), EMPTY, one);
    EmptyAppend(one);
  }

  lemma SplitSecond()
    ensures Framed(Framer([], true), [3, LF], 1) == Run(EMPTY, [Raw([3, LF])])
  {
    var two: Bytes := [3, LF];
    assert two == [3] + [LF] + [] && [3] + [LF] == two;
    SplitLine(FrameLines(), FrameRests(1), Framer([], true), [3], []);
    SplitRest(FrameLines(), FrameRests(1), EMPTY, []);
  }

  lemma TwoRaws(a: Bytes, b: Bytes)
    ensures WireUnits([Raw(a), Raw(b)]) == [a, b]
  {
    assert [Raw(b)][1..] == [] && [Raw(a), Raw(b)][1..] == [Raw(b)];
    assert WireUnits([Raw(b)]) == [b];
  }

  /** With a cap of 1 the line arrives over-long, in two reads. */
  lemma SplitUnits()
    ensures ServerUnits(SPLIT_READS, 1, false) == [[1, 2], [3, LF]]
  {
    var two: Bytes := [3, LF];
    SplitFirst();
    SplitSecond();
    assert SPLIT_READS[1..] == [two];
    FoldOne(Framewise(1), Framer([], true), two);
    assert Chunks(SPLIT_READS, 1).out == [Raw([1, 2]), Raw(two)];
    TwoRaws([1, 2], two);
    EmptyAppend(WireUnits(Chunks(SPLIT_READS, 1).out));
  }

  /** A pump writes its next unit at once. */
  lemma WriteUnit(run: seq<State>, server: seq<Bytes>, client: seq<Bytes>, who: Who) returns (more: seq<State>)
    requires IsRun(run, server, client)
    requires var s := run[|run| - 1]; s.holder.None? && who in s.queue && s.queue[who] != [] && s.queue[who][0] != []
    ensures IsRun(more, server, client)
    ensures var s, t := run[|run| - 1], more[|more| - 1];
            t.holder.None? && t.out == s.out + s.queue[who][0] && t.log == s.log + [Entry(who, s.queue[who][0])]
  {
    var s := run[|run| - 1];
    var u := s.queue[who][0];
    var taken := s.(holder := Some(Entry(who, u)), left := u, queue := s.queue[who := s.queue[who][1..]]);
    var written := taken.(out := s.out + u, left := []);
    var t := written.(holder := None, log := s.log + [Entry(who, u)]);
    assert Acquire(s, taken, who);
    RunNext(run, server, client, taken);
    assert u[..|u|] == u && u[|u|..] == [];
    assert Write(taken, written, |u|);
    RunNext(run + [taken], server, client, written);
    assert Release(written, t);
    RunNext(run + [taken] + [written], server, client, t);
    more := run + [taken] + [written] + [t];
  }

  lemma LineAfter(head: Bytes, u: Bytes)
    requires NoLf(head) && IsLine(u)
    ensures LinesOf(head + u) == [head + Body(u)]
  {
    assert head + u == (head + Body(u)) + [LF] + [];
    LineFirst(head + Body(u), []);
    NoLines([]);
  }

  /** Whatever the first refusal is, it can land inside the server's line. */
  lemma RefusalSplitsLine(client: seq<Bytes>) returns (run: seq<State>)
    requires client != [] && IsLine(client[0])
    ensures IsRun(run, ServerUnits(SPLIT_READS, 1, false), client)
    ensures run[|run| - 1].holder.None? && LinesOf(run[|run| - 1].out) == [[1, 2] + Body(client[0])]
  {
    var server: seq<Bytes> := [[1, 2], [3, LF]];
    SplitUnits();
    var before := Drain(Server, server, client, 1);
    assert server[..1] == [[1, 2]];
    FlattenOne([1, 2]);
    run := WriteUnit(before, server, client, Client);
    LineAfter([1, 2], client[0]);
  }

  /** A call of a tool named rm, and a policy that denies it. */
  const RM_CALL := Object([
    Member("id", Number("1")), Member("method", Str("tools/call")),
        Member("params", Object([Member("name", Str("rm"))]))])

  const NO_RM := Rules(Enforce, [], ["rm"], false)

  lemma RmIsRefused(scan: string -> seq<Secret>)
    ensures WellFormed(RM_CALL) && Decide(Some(RM_CALL), NO_RM, scan).action.Refuse?
  {
    var ms := RM_CALL.members;
    assert ms[0].key == "id" && ms[1].key == "method" && ms[2].key == "params";
    assert |ms[0].key| == 2 && |ms[1].key| == 6 && |ms[2].key| == 6 && ms[1].key[0] == 'm' && ms[2].key[0] == 'p';
    assert Get(RM_CALL, "id") == Some(Number("1"));
    assert GetStr(RM_CALL, "method") == Some("tools/call");
    assert ms[2].json.members[0].key == "name";
    assert ToolName(RM_CALL) == Some("rm");
    assert NO_RM.deny[0] == "rm" && MatchesRule("rm", "rm");
  }

  lemma RmReply(parse: Bytes -> Option<Json>, scan: string -> seq<Secret>, record: bool, f: Bytes)
    requires parse(f) == Some(RM_CALL)
    ensures var action := PolicyGate(NO_RM, parse, scan, record).decide(f).action;
            action.Refuse? && IsLine(action.reply)
  {
    RmIsRefused(scan);
    RefusalIsOneLine(parse(f), NO_RM, scan);
  }

  lemma OneRefusal(g: Gate, f: Bytes)
    requires NoLf(f) && g.decide(f).action.Refuse?
    ensures ClientUnits(g, [f + [LF]], 1) == [g.decide(f).action.reply]
  {
    OneRead(f);
    OneReply(g, f);
  }

  /**
   The two pumps at work: the server's line comes in two reads, the client's frame is a denied
   call, and the refusal lands inside the server's line.
   */
  lemma OverlongSplits(
    parse: Bytes -> Option<Json>, scan: string -> seq<Secret>, record: bool, f: Bytes) returns (run: seq<State>)
    requires NoLf(f) && parse(f) == Some(RM_CALL)
    ensures var client := ClientUnits(PolicyGate(NO_RM, parse, scan, record), [f + [LF]], 1);
            && |client| == 1 && IsRun(run, ServerUnits(SPLIT_READS, 1, false), client)
            && run[|run| - 1].holder.None? && LinesOf(run[|run| - 1].out) == [[1, 2] + Body(client[0])]
  {
    var g := PolicyGate(NO_RM, parse, scan, record);
    RmReply(parse, scan, record, f);
    OneRefusal(g, f);
    run := RefusalSplitsLine([g.decide(f).action.reply]);
  }

  /** A line that comes whole in one read is one frame, however long it is. */
  lemma OneRead(f: Bytes)
    requires NoLf(f)
    ensures FramesOf(Chunks([f + [LF]], 1).out) == [f]
  {
    var read := f + [LF];
    assert read == f + [LF] + [];
    SplitLine(FrameLines(), FrameRests(1), EMPTY, f, []);
    SplitRest(FrameLines(), FrameRests(1), EMPTY, []);
    EmptyAppend(f);
    FoldOne(Framewise(1), EMPTY, read);
    assert Framed(EMPTY, read, 1).out == [Frame(f)];
    assert [Frame(f)][1..] == [];
  }
}
