/**
 The two pumps of `wrap`: bytes are read, framed, decided, written, and only then offered
 to the storage thread, whose channel may drop anything.
 */
module Pump {
  import opened Common
  import opened Sequences
  import opened Machine
  import opened Lines
  import opened Framing
  import opened FramingLaws
  import opened Json
  import opened Policy

  /** What a pump offers to the storage channel. */
  datatype Msg = Tap(frame: Bytes) | Security(report: Report) | Oversized

  /** One observable action of a pump. */
  datatype Effect = ToServer(bytes: Bytes) | ToClient(bytes: Bytes) | Offer(msg: Msg)

  /** What the client-to-server pump decides with. */
  datatype Gate = Gate(mode: Mode, decide: Bytes -> Decision, record: bool)

  /** The gate of a policy, given JSON parsing and the secret scan. */
  function PolicyGate(rules: Rules, parse: Bytes -> Option<Json>, scan: string -> seq<Secret>, record: bool): Gate {
    Gate(rules.mode, frame => Decide(parse(frame), rules, scan), record)
  }

  // ---------------------------------------------------------------- what each chunk does

  function OfferEvents(events: seq<Report>): seq<Effect> {
    seq(|events|, i requires 0 <= i < |events| => Offer(Security(events[i])))
  }

  function OfferTap(g: Gate, frame: Bytes): seq<Effect> {
    if g.record then [Offer(Tap(frame))] else []
  }

  /** The wire action of a decided frame. */
  function WireAction(g: Gate, frame: Bytes): seq<Effect> {
    match g.decide(frame).action
    case Pass => [ToServer(frame + [LF])]
    case Refuse(reply) => [ToClient(reply)]
    case Swallow => []
  }

  /** `dropping` is the latch that is set while an over-long frame is being discarded. */
  function GateStep(g: Gate, dropping: bool, c: Chunk): Run<bool, Effect> {
    match c
    case Frame(f) => Run(dropping, WireAction(g, f) + OfferTap(g, f) + OfferEvents(g.decide(f).events))
    case Raw(r) =>
      if g.mode == Enforce then
        Run(!(r != [] && r[|r| - 1] == LF), if dropping then [] else [Offer(Oversized)])
      else Run(dropping, [ToServer(r)])
  }

  function Gated(g: Gate): (bool, Chunk) -> Run<bool, Effect> {
    (dropping, c) => GateStep(g, dropping, c)
  }

  function ServerBytes(effects: seq<Effect>): Bytes {
    if effects == [] then []
    else (if effects[0].ToServer? then effects[0].bytes else []) + ServerBytes(effects[1..])
  }

  function ClientBytes(effects: seq<Effect>): Bytes {
    if effects == [] then []
    else (if effects[0].ToClient? then effects[0].bytes else []) + ClientBytes(effects[1..])
  }

  function Offers(effects: seq<Effect>): seq<Msg> {
    if effects == [] then []
    else (if effects[0].Offer? then [effects[0].msg] else []) + Offers(effects[1..])
  }

  // ---------------------------------------------------------------- the outside world

  /** What fits of `bytes` into a pipe that breaks for good after `limit` bytes. */
  function Clip(limit: Option<nat>, bytes: Bytes): Bytes {
    if limit.Some? && limit.value < |bytes| then bytes[..limit.value] else bytes
  }

  /** A byte sink; once a write has failed the sink is full and stays so. */
  class Pipe {
    const limit: Option<nat>
    var written: Bytes

    /** It never holds more than its limit. */
    ghost predicate Fits()
      reads this
    {
      limit.Some? ==> |written| <= limit.value
    }

    constructor (limit: Option<nat>)
      ensures this.limit == limit && written == [] && Fits()
    {
      this.limit := limit;
      written := [];
    }

    method WriteAll(bytes: Bytes) returns (ok: bool)
      requires Fits()
      modifies this
      ensures Fits()
      ensures written == Clip(limit, old(written) + bytes)
      ensures ok <==> Clip(limit, old(written) + bytes) == old(written) + bytes
    {
      var all := written + bytes;
      if limit.Some? && limit.value < |all| {
        written := all[..limit.value];
        assert |written| < |all|;
        return false;
      }
      written := all;
      ok := true;
    }
  }

  /** The bounded storage channel: `accepts` says which offers find room. */
  class Channel {
    const accepts: nat -> bool
    var offered: seq<Msg>
    var delivered: seq<Msg>

    constructor (accepts: nat -> bool)
      ensures this.accepts == accepts && offered == [] && delivered == []
    {
      this.accepts := accepts;
      offered, delivered := [], [];
    }

    method TrySend(m: Msg)
      modifies this
      ensures offered == old(offered) + [m]
      ensures delivered == old(delivered) || delivered == old(delivered) + [m]
    {
      if accepts(|offered|) {
        delivered := delivered + [m];
      }
      offered := offered + [m];
    }
  }

  lemma ClipTwice(limit: Option<nat>, a: Bytes, b: Bytes)
    ensures Clip(limit, Clip(limit, a) + b) == Clip(limit, a + b)
  {
  }

  lemma {:induction false} ServerAppend(a: seq<Effect>, b: seq<Effect>)
    ensures ServerBytes(a + b) == ServerBytes(a) + ServerBytes(b)
  {
    if a == [] {
      EmptyAppend(b);
      EmptyAppend(ServerBytes(b));
    } else {
      ServerAppend(a[1..], b);
      FirstOfAppend(a, b);
      AppendAssociates(if a[0].ToServer? then a[0].bytes else [], ServerBytes(a[1..]), ServerBytes(b));
    }
  }

  lemma {:induction false} ClientAppend(a: seq<Effect>, b: seq<Effect>)
    ensures ClientBytes(a + b) == ClientBytes(a) + ClientBytes(b)
  {
    if a == [] {
      EmptyAppend(b);
      EmptyAppend(ClientBytes(b));
    } else {
      ClientAppend(a[1..], b);
      FirstOfAppend(a, b);
      AppendAssociates(if a[0].ToClient? then a[0].bytes else [], ClientBytes(a[1..]), ClientBytes(b));
    }
  }

  lemma {:induction false} OffersAppend(a: seq<Effect>, b: seq<Effect>)
    ensures Offers(a + b) == Offers(a) + Offers(b)
  {
    if a == [] {
      EmptyAppend(b);
      EmptyAppend(Offers(b));
    } else {
      OffersAppend(a[1..], b);
      FirstOfAppend(a, b);
      AppendAssociates(if a[0].Offer? then [a[0].msg] else [], Offers(a[1..]), Offers(b));
    }
  }

  // ---------------------------------------------------------------- whole runs

  /** Reads before the first empty one, which is end of file. */
  function EofAt(input: seq<Bytes>): (n: nat)
    ensures n <= |input|
    ensures forall i :: 0 <= i < n ==> input[i] != []
    ensures n < |input| ==> input[n] == []
  {
    if input == [] || input[0] == [] then 0 else 1 + EofAt(input[1..])
  }

  function Chunks(input: seq<Bytes>, cap: nat): Run<Framer, Chunk> {
    Fold(Framewise(cap), EMPTY, input)
  }

  /** Bytes still buffered at end of file are forwarded as they are. */
  function Trailing(rest: Bytes): seq<Effect> {
    if rest == [] then [] else [ToServer(rest)]
  }

  /** Everything the client-to-server pump does on this input, in order. */
  function Effects(g: Gate, input: seq<Bytes>, cap: nat): seq<Effect> {
    Fold(Gated(g), false, Chunks(input, cap).out).out + Trailing(Pending(Chunks(input, cap).state))
  }

  /** Once the pipe is full, what follows no longer matters. */
  lemma ClipSaturated(limit: Option<nat>, base: Bytes, a: seq<Effect>, b: seq<Effect>)
    requires a <= b
    requires Clip(limit, base + ServerBytes(a)) != base + ServerBytes(a)
    ensures Clip(limit, base + ServerBytes(b)) == Clip(limit, base + ServerBytes(a))
  {
    assert b == a + b[|a|..];
    ServerAppend(a, b[|a|..]);
    AppendAssociates(base, ServerBytes(a), ServerBytes(b[|a|..]));
  }

  lemma ServerOne(e: Effect)
    ensures ServerBytes([e]) == (if e.ToServer? then e.bytes else [])
    ensures ClientBytes([e]) == (if e.ToClient? then e.bytes else [])
    ensures Offers([e]) == (if e.Offer? then [e.msg] else [])
  {
    EmptyAppend(ServerBytes([e]));
    EmptyAppend(ClientBytes([e]));
    EmptyAppend(Offers([e]));
  }

  lemma {:induction false} OnlyOffers(effects: seq<Effect>)
    requires forall i :: 0 <= i < |effects| ==> effects[i].Offer?
    ensures ServerBytes(effects) == [] && ClientBytes(effects) == [] && |Offers(effects)| == |effects|
    ensures forall i :: 0 <= i < |effects| ==> Offers(effects)[i] == effects[i].msg
  {
    if effects != [] {
      OnlyOffers(effects[1..]);
      forall i | 0 <= i < |effects|
        ensures Offers(effects)[i] == effects[i].msg
      {
        if i > 0 {
          assert effects[1..][i - 1] == effects[i];
        }
      }
    }
  }

  /** The three projections of what a frame does. */
  lemma FrameEffects(g: Gate, dropping: bool, f: Bytes)
    ensures var out := GateStep(g, dropping, Frame(f)).out;
            && ServerBytes(out) == ServerBytes(WireAction(g, f))
            && ClientBytes(out) == ClientBytes(WireAction(g, f))
            && Offers(out) == Offers(OfferTap(g, f)) + Offers(OfferEvents(g.decide(f).events))
  {
    var a, b, c := WireAction(g, f), OfferTap(g, f), OfferEvents(g.decide(f).events);
    ServerAppend(a + b, c);
    ServerAppend(a, b);
    ClientAppend(a + b, c);
    ClientAppend(a, b);
    OffersAppend(a + b, c);
    OffersAppend(a, b);
    OnlyOffers(b);
    OnlyOffers(c);
    EmptyAppend(ServerBytes(a));
    EmptyAppend(ClientBytes(a));
    if a != [] {
      ServerOne(a[0]);
    }
    EmptyAppend(Offers(b));
  }

  // ---------------------------------------------------------------- the client-to-server pump

  method SendEvents(events: seq<Report>, tx: Channel)
    modifies tx
    ensures tx.offered == old(tx.offered) + Offers(OfferEvents(events))
  {
    var i := 0;
    OnlyOffers(OfferEvents(events));
    ghost var all := Offers(OfferEvents(events));
    while i < |events|
      invariant 0 <= i <= |events| == |all|
      invariant tx.offered == old(tx.offered) + all[..i]
    {
      tx.TrySend(Security(events[i]));
      assert all[..i + 1] == all[..i] + [all[i]];
      i := i + 1;
    }
    assert all[..i] == all;
  }

  /** Writes what the decision says; a failure towards the client is only logged. */
  method Act(action: FrameAction, f: Bytes, server: Pipe, stdout: Pipe) returns (ok: bool)
    requires server != stdout && server.Fits() && stdout.Fits()
    modifies server, stdout
    ensures server.Fits() && stdout.Fits()
    ensures var s := old(server.written) + (if action == Pass then f + [LF] else []);
            server.written == Clip(server.limit, s) && (ok <==> server.written == s)
    ensures stdout.written == Clip(stdout.limit, old(stdout.written) + (if action.Refuse? then action.reply else []))
    ensures !ok ==> action == Pass && stdout.written == old(stdout.written)
  {
    ok := true;
    EmptyAppend(server.written);
    EmptyAppend(stdout.written);
    match action {
      case Pass =>
        ghost var before := server.written;
        AppendAssociates(before, f, [LF]);
        ok := server.WriteAll(f);
        if ok {
          ok := server.WriteAll([LF]);
        } else {
          ClipTwice(server.limit, before + f, [LF]);
        }
      case Refuse(reply) =>
        var _ := stdout.WriteAll(reply);
      case Swallow =>
    }
  }

  /** One frame: decide, act on the wire, then offer the recording and the events. */
  method HandleFrame(f: Bytes, g: Gate, server: Pipe, stdout: Pipe, tx: Channel) returns (ok: bool)
    requires server != stdout && server.Fits() && stdout.Fits()
    modifies server, stdout, tx
    ensures server.Fits() && stdout.Fits()
    ensures var out := GateStep(g, false, Frame(f)).out;
            && server.written == Clip(server.limit, old(server.written) + ServerBytes(out))
            && (ok <==> server.written == old(server.written) + ServerBytes(out))
            && (ok ==> stdout.written == Clip(stdout.limit, old(stdout.written) + ClientBytes(out))
                       && tx.offered == old(tx.offered) + Offers(out))
            && (!ok ==> stdout.written == old(stdout.written) && tx.offered == old(tx.offered)
                        && out[0].ToServer? && ServerBytes(out[..1]) == ServerBytes(out))
  {
    FrameEffects(g, false, f);
    var decision := g.decide(f);
    ActionBytes(g, f);
    ok := Act(decision.action, f, server, stdout);
    if !ok {
      var out := GateStep(g, false, Frame(f)).out;
      assert out[..1] == [ToServer(f + [LF])];
      ServerOne(out[0]);
      return;
    }
    ghost var before := tx.offered;
    OnlyOffers(OfferTap(g, f));
    EmptyAppend(before);
    if g.record {
      tx.TrySend(Tap(f));
    }
    assert tx.offered == before + Offers(OfferTap(g, f));
    AppendAssociates(before, Offers(OfferTap(g, f)), Offers(OfferEvents(decision.events)));
    SendEvents(decision.events, tx);
  }

  lemma ActionBytes(g: Gate, f: Bytes)
    ensures var action := g.decide(f).action;
            && ServerBytes(WireAction(g, f)) == (if action == Pass then f + [LF] else [])
            && ClientBytes(WireAction(g, f)) == (if action.Refuse? then action.reply else [])
            && Offers(WireAction(g, f)) == []
  {
    if WireAction(g, f) != [] {
      ServerOne(WireAction(g, f)[0]);
    }
  }

  /** One segment of an over-long frame. */
  method HandleRaw(r: Bytes, g: Gate, wasDropping: bool, server: Pipe, tx: Channel) returns (dropping: bool, ok: bool)
    requires server.Fits()
    modifies server, tx
    ensures server.Fits()
    ensures var step := GateStep(g, wasDropping, Raw(r));
            && server.written == Clip(server.limit, old(server.written) + ServerBytes(step.out))
            && (ok <==> server.written == old(server.written) + ServerBytes(step.out))
            && dropping == step.state && ClientBytes(step.out) == []
            && tx.offered == old(tx.offered) + Offers(step.out)
            && (!ok ==> |step.out| == 1 && step.out[0].ToServer?)
  {
    dropping, ok := wasDropping, true;
    EmptyAppend(server.written);
    EmptyAppend(tx.offered);
    ghost var out := GateStep(g, wasDropping, Raw(r)).out;
    if out != [] {
      ServerOne(out[0]);
    }
    if g.mode == Enforce {
      if !dropping {
        dropping := true;
        tx.TrySend(Oversized);
      }
      if r != [] && r[|r| - 1] == LF {
        dropping := false;
      }
    } else {
      ok := server.WriteAll(r);
    }
  }

  /** The sinks hold what the effects `done` put there, starting from `s`, `c` and `o`. */
  ghost predicate Reflects(server: Pipe, stdout: Pipe, tx: Channel, s: Bytes, c: Bytes, o: seq<Msg>, done: seq<Effect>)
    reads server, stdout, tx
  {
    && server.written == s + ServerBytes(done)
    && stdout.written == Clip(stdout.limit, c + ClientBytes(done))
    && tx.offered == o + Offers(done)
  }

  /** The pipe broke while carrying out effect `k` of `done`; the others before it are done, and none after it. */
  ghost predicate BrokeAt(
    server: Pipe, stdout: Pipe, tx: Channel, s: Bytes, c: Bytes, o: seq<Msg>, done: seq<Effect>, k: int)
    reads server, stdout, tx
  {
    && 0 <= k < |done|
    && Stops(server.limit, s, done, k)
    && server.written == Clip(server.limit, s + ServerBytes(done[..k + 1]))
    && stdout.written == Clip(stdout.limit, c + ClientBytes(done[..k]))
    && tx.offered == o + Offers(done[..k])
  }

  /** The server's bytes of the first k effects fit after `s`; those of one more do not. */
  predicate Stops(limit: Option<nat>, s: Bytes, effects: seq<Effect>, k: int)
    requires 0 <= k < |effects|
  {
    && Clip(limit, s + ServerBytes(effects[..k])) == s + ServerBytes(effects[..k])
    && Clip(limit, s + ServerBytes(effects[..k + 1])) != s + ServerBytes(effects[..k + 1])
  }

  ghost predicate Broke(server: Pipe, stdout: Pipe, tx: Channel, s: Bytes, c: Bytes, o: seq<Msg>, done: seq<Effect>)
    reads server, stdout, tx
  {
    exists k: int :: BrokeAt(server, stdout, tx, s, c, o, done, k)
  }

  /** How many of the effects are carried out: all, or those before the one that breaks the pipe. */
  predicate Reaches(limit: Option<nat>, s: Bytes, effects: seq<Effect>, k: int) {
    if k == |effects| then Clip(limit, s + ServerBytes(effects)) == s + ServerBytes(effects)
    else 0 <= k < |effects| && Stops(limit, s, effects, k)
  }

  lemma ReflectsNext(stdoutLimit: Option<nat>, s: Bytes, c: Bytes, o: seq<Msg>, done: seq<Effect>, more: seq<Effect>)
    ensures s + ServerBytes(done + more) == (s + ServerBytes(done)) + ServerBytes(more)
    ensures Clip(stdoutLimit, c + ClientBytes(done + more))
            == Clip(stdoutLimit, Clip(stdoutLimit, c + ClientBytes(done)) + ClientBytes(more))
    ensures o + Offers(done + more) == (o + Offers(done)) + Offers(more)
  {
    ServerAppend(done, more);
    ClientAppend(done, more);
    OffersAppend(done, more);
    AppendAssociates(s, ServerBytes(done), ServerBytes(more));
    AppendAssociates(c, ClientBytes(done), ClientBytes(more));
    AppendAssociates(o, Offers(done), Offers(more));
    ClipTwice(stdoutLimit, c + ClientBytes(done), ClientBytes(more));
  }

  /** One chunk. `done` is what the run has done before it. */
  method HandleChunk(chunk: Chunk, g: Gate, wasDropping: bool, server: Pipe, stdout: Pipe, tx: Channel,
                     ghost s: Bytes, ghost c: Bytes, ghost o: seq<Msg>, ghost done: seq<Effect>)
    returns (dropping: bool, ok: bool)
    requires server != stdout && server.Fits() && stdout.Fits()
    requires Reflects(server, stdout, tx, s, c, o, done)
    modifies server, stdout, tx
    ensures server.Fits() && stdout.Fits()
    ensures var r := Gated(g)(wasDropping, chunk);
            if ok then dropping == r.state && Reflects(server, stdout, tx, s, c, o, done + r.out)
            else Broke(server, stdout, tx, s, c, o, done + r.out)
  {
    ReflectsNext(stdout.limit, s, c, o, done, GateStep(g, wasDropping, chunk).out);
    EmptyAppend(stdout.written);
    dropping := wasDropping;
    match chunk {
      case Raw(r) =>
        dropping, ok := HandleRaw(r, g, dropping, server, tx);
      case Frame(f) =>
        ok := HandleFrame(f, g, server, stdout, tx);
    }
    if !ok {
      ghost var out := GateStep(g, wasDropping, chunk).out;
      BreaksAtFirst(done, out);
      AppendAssociates(s, ServerBytes(done), ServerBytes(out[..1]));
      assert BrokeAt(server, stdout, tx, s, c, o, done + out, |done|);
    }
  }

  lemma TakenPast<T>(a: seq<T>, b: seq<T>)
    requires b != []
    ensures (a + b)[..|a|] == a && (a + b)[..|a| + 1] == a + b[..1]
  {
  }

  lemma BreaksAtFirst(done: seq<Effect>, out: seq<Effect>)
    requires out != []
    ensures (done + out)[..|done|] == done
    ensures ServerBytes((done + out)[..|done| + 1]) == ServerBytes(done) + ServerBytes(out[..1])
  {
    TakenPast(done, out);
    ServerAppend(done, out[..1]);
  }

  /** What was to follow does not matter. */
  lemma BrokeStays(
    server: Pipe, stdout: Pipe, tx: Channel, s: Bytes, c: Bytes, o: seq<Msg>, a: seq<Effect>, b: seq<Effect>)
    requires a <= b && Broke(server, stdout, tx, s, c, o, a)
    ensures Broke(server, stdout, tx, s, c, o, b)
  {
    var k: int :| BrokeAt(server, stdout, tx, s, c, o, a, k);
    assert b[..k] == a[..k] && b[..k + 1] == a[..k + 1];
    assert BrokeAt(server, stdout, tx, s, c, o, b, k);
  }

  lemma DonePrefix(g: Gate, dropping: bool, chunks: seq<Chunk>, j: nat, done: seq<Effect>)
    requires j <= |chunks|
    ensures done + Fold(Gated(g), dropping, chunks[..j]).out <= done + Fold(Gated(g), dropping, chunks).out
  {
    assert chunks == chunks[..j] + chunks[j..];
    FoldPrefix(Gated(g), dropping, chunks[..j], chunks[j..]);
  }

  /** The chunks of one read. `done` is what the run has done before them. */
  method HandleChunks(chunks: seq<Chunk>, g: Gate, wasDropping: bool, server: Pipe, stdout: Pipe, tx: Channel,
                      ghost s: Bytes, ghost c: Bytes, ghost o: seq<Msg>, ghost done: seq<Effect>)
    returns (dropping: bool, ok: bool)
    requires server != stdout && server.Fits() && stdout.Fits()
    requires Reflects(server, stdout, tx, s, c, o, done)
    modifies server, stdout, tx
    ensures server.Fits() && stdout.Fits()
    ensures var r := Fold(Gated(g), wasDropping, chunks);
            if ok then dropping == r.state && Reflects(server, stdout, tx, s, c, o, done + r.out)
            else Broke(server, stdout, tx, s, c, o, done + r.out)
  {
    dropping, ok := wasDropping, true;
    ghost var step := Gated(g);
    EmptyAppend(done);
    var j := 0;
    while j < |chunks|
      invariant 0 <= j <= |chunks|
      invariant server.Fits() && stdout.Fits()
      invariant dropping == Fold(step, wasDropping, chunks[..j]).state
      invariant Reflects(server, stdout, tx, s, c, o, done + Fold(step, wasDropping, chunks[..j]).out)
    {
      ghost var sofar, next := Fold(step, wasDropping, chunks[..j]), step(dropping, chunks[j]);
      assert chunks[..j + 1] == chunks[..j] + [chunks[j]];
      FoldSnoc(step, wasDropping, chunks[..j], chunks[j]);
      AppendAssociates(done, sofar.out, next.out);
      dropping, ok := HandleChunk(chunks[j], g, dropping, server, stdout, tx, s, c, o, done + sofar.out);
      if !ok {
        DonePrefix(g, wasDropping, chunks, j + 1, done);
        BrokeStays(server, stdout, tx, s, c, o,
                   done + Fold(step, wasDropping, chunks[..j + 1]).out, done + Fold(step, wasDropping, chunks).out);
        return;
      }
      j := j + 1;
    }
    assert chunks[..j] == chunks;
  }

  lemma ChunksNext(g: Gate, input: seq<Bytes>, cap: nat, i: nat)
    requires i < |input|
    ensures var sofar := Chunks(input[..i], cap);
            var next := Framed(sofar.state, input[i], cap);
            var gated := Fold(Gated(g), false, sofar.out);
            && Chunks(input[..i + 1], cap) == Then(sofar, next)
            && Fold(Gated(g), false, Chunks(input[..i + 1], cap).out)
                == Then(gated, Fold(Gated(g), gated.state, next.out))
  {
    assert input[..i + 1] == input[..i] + [input[i]];
    FoldSnoc(Framewise(cap), EMPTY, input[..i], input[i]);
    FoldAppend(Gated(g), false, Chunks(input[..i], cap).out, Framed(Chunks(input[..i], cap).state, input[i], cap).out);
  }

  /** What part of the input makes the pump do is where all it does starts. */
  lemma EffectsPrefix(g: Gate, input: seq<Bytes>, cap: nat, i: nat)
    requires i <= |input|
    ensures Fold(Gated(g), false, Chunks(input[..i], cap).out).out <= Effects(g, input, cap)
  {
    assert input == input[..i] + input[i..];
    FoldPrefix(Framewise(cap), EMPTY, input[..i], input[i..]);
    var a, b := Chunks(input[..i], cap).out, Chunks(input, cap).out;
    assert b == a + b[|a|..];
    FoldPrefix(Gated(g), false, a, b[|a|..]);
  }

  lemma TrailingBytes(rest: Bytes)
    ensures ServerBytes(Trailing(rest)) == rest && ClientBytes(Trailing(rest)) == [] && Offers(Trailing(rest)) == []
  {
    if rest != [] {
      ServerOne(ToServer(rest));
    }
  }

  /** What the pump has done after `i` reads. */
  function Progress(g: Gate, input: seq<Bytes>, cap: nat, i: nat): Run<bool, Effect>
    requires i <= |input|
  {
    Fold(Gated(g), false, Chunks(input[..i], cap).out)
  }

  /** One read of the pump. */
  method PumpRead(
    framer: FramedStream, input: seq<Bytes>, i: nat, g: Gate, wasDropping: bool, server: Pipe, stdout: Pipe,
    tx: Channel, ghost s: Bytes, ghost c: Bytes, ghost o: seq<Msg>)
    returns (dropping: bool, ok: bool)
    requires i < |input| && server != stdout && server.Fits() && stdout.Fits()
    requires framer.Now() == Chunks(input[..i], framer.cap).state
    requires wasDropping == Progress(g, input, framer.cap, i).state
    requires Reflects(server, stdout, tx, s, c, o, Progress(g, input, framer.cap, i).out)
    modifies framer, server, stdout, tx
    ensures server.Fits() && stdout.Fits()
    ensures ok ==>
              && framer.Now() == Chunks(input[..i + 1], framer.cap).state
              && dropping == Progress(g, input, framer.cap, i + 1).state
              && Reflects(server, stdout, tx, s, c, o, Progress(g, input, framer.cap, i + 1).out)
    ensures !ok ==> Broke(server, stdout, tx, s, c, o, Effects(g, input, framer.cap))
  {
    ChunksNext(g, input, framer.cap, i);
    var chunks := framer.Push(input[i]);
    dropping, ok := HandleChunks(chunks, g, wasDropping, server, stdout, tx, s, c, o,
        Progress(g, input, framer.cap, i).out);
    if !ok {
      EffectsPrefix(g, input, framer.cap, i + 1);
      BrokeStays(server, stdout, tx, s, c, o, Progress(g, input, framer.cap, i + 1).out, Effects(g, input, framer.cap));
    }
  }

  /** What the sinks hold when as many of the effects were carried out as the server's pipe allows. */
  ghost predicate Carried(
    server: Pipe, stdout: Pipe, tx: Channel, s: Bytes, c: Bytes, o: seq<Msg>, all: seq<Effect>, k: int)
    reads server, stdout, tx
  {
    && Reaches(server.limit, s, all, k)
    && server.written == Clip(server.limit, s + ServerBytes(all))
    && stdout.written == Clip(stdout.limit, c + ClientBytes(all[..k]))
    && tx.offered == o + Offers(all[..k])
  }

  /** The trailing bytes did not fit: everything before them is done. */
  lemma EndBreaks(limit: Option<nat>, s: Bytes, done: seq<Effect>, rest: Bytes)
    requires Clip(limit, s + ServerBytes(done)) == s + ServerBytes(done)
    ensures var all := done + Trailing(rest);
            Reaches(limit, s, all, if Clip(limit, s + ServerBytes(all)) == s + ServerBytes(all) then |all| else |done|)
  {
    var all := done + Trailing(rest);
    EmptyAppend(done);
    assert all[..|all|] == all && all[..|done|] == done;
  }

  /** End of file: bytes of an unfinished frame are forwarded as they are. */
  method PumpEnd(framer: FramedStream, server: Pipe, stdout: Pipe, tx: Channel,
                 ghost s: Bytes, ghost c: Bytes, ghost o: seq<Msg>, ghost done: seq<Effect>)
    returns (ghost k: nat)
    requires server != stdout && server.Fits() && stdout.Fits()
    requires Reflects(server, stdout, tx, s, c, o, done)
    modifies framer, server
    ensures Carried(server, stdout, tx, s, c, o, done + Trailing(Pending(old(framer.Now()))), k)
  {
    ghost var rest := Pending(framer.Now());
    ghost var all := done + Trailing(rest);
    TrailingBytes(rest);
    ReflectsNext(stdout.limit, s, c, o, done, Trailing(rest));
    EndBreaks(server.limit, s, done, rest);
    EmptyAppend(server.written);
    EmptyAppend(stdout.written);
    EmptyAppend(tx.offered);
    k := if Clip(server.limit, s + ServerBytes(all)) == s + ServerBytes(all) then |all| else |done|;
    assert all[..|all|] == all && all[..|done|] == done;
    var rem := framer.Finish();
    if rem.Some? {
      var _ := server.WriteAll(rem.value);
    }
  }

  /** End of file after the pipe broke: nothing more fits. */
  method PumpEndBroken(framer: FramedStream, server: Pipe, stdout: Pipe, tx: Channel,
                       ghost s: Bytes, ghost c: Bytes, ghost o: seq<Msg>, ghost all: seq<Effect>)
    returns (ghost k: nat)
    requires server != stdout && server.Fits() && Broke(server, stdout, tx, s, c, o, all)
    modifies framer, server
    ensures Carried(server, stdout, tx, s, c, o, all, k)
  {
    k :| BrokeAt(server, stdout, tx, s, c, o, all, k);
    ClipSaturated(server.limit, s, all[..k + 1], all);
    var rem := framer.Finish();
    if rem.Some? {
      var _ := server.WriteAll(rem.value);
    }
  }

  /**
   The client-to-server pump. Whatever the storage channel drops, and even when the server's
   pipe breaks part way, the server holds exactly what fits of the bytes the gate lets through.
   The client and the channel get exactly theirs up to the effect that broke the pipe, and all
   of theirs if none did.
   */
  method PumpC2s(input: seq<Bytes>, g: Gate, cap: nat, server: Pipe, stdout: Pipe, tx: Channel) returns (ghost k: nat)
    requires server != stdout && server.Fits() && stdout.Fits()
    modifies server, stdout, tx
    ensures var all := Effects(g, input[..EofAt(input)], cap);
            Carried(server, stdout, tx, old(server.written), old(stdout.written), old(tx.offered), all, k)
  {
    ghost var s, c, o := server.written, stdout.written, tx.offered;
    var live := input[..EofAt(input)];
    var framer := new FramedStream(cap);
    var dropping, ok := false, true;
    EmptyAppend(s);
    EmptyAppend(c);
    EmptyAppend(o);
    assert Progress(g, live, cap, 0) == Run(false, []);
    var i := 0;
    while i < |live| && ok
      invariant 0 <= i <= |live|
      invariant server.Fits() && stdout.Fits()
      invariant framer.cap == cap && fresh(framer)
      invariant ok ==> framer.Now() == Chunks(live[..i], cap).state
      invariant ok ==> dropping == Progress(g, live, cap, i).state
      invariant ok ==> Reflects(server, stdout, tx, s, c, o, Progress(g, live, cap, i).out)
      invariant !ok ==> Broke(server, stdout, tx, s, c, o, Effects(g, live, cap))
    {
      dropping, ok := PumpRead(framer, live, i, g, dropping, server, stdout, tx, s, c, o);
      i := i + 1;
    }
    if ok {
      assert live[..i] == live;
      k := PumpEnd(framer, server, stdout, tx, s, c, o, Progress(g, live, cap, i).out);
    } else {
      k := PumpEndBroken(framer, server, stdout, tx, s, c, o, Effects(g, live, cap));
    }
  }

  /** The server's pipe settles how much is carried out; a pipe that never breaks lets everything through. */
  lemma ReachesOnce(limit: Option<nat>, s: Bytes, effects: seq<Effect>, j: int, k: int)
    requires Reaches(limit, s, effects, j) && Reaches(limit, s, effects, k)
    ensures j == k && (limit.None? ==> k == |effects|)
  {
    assert effects[..|effects|] == effects;
    if j < k {
      StopsBefore(limit, s, effects, j, k);
    } else if k < j {
      StopsBefore(limit, s, effects, k, j);
    }
  }

  lemma StopsBefore(limit: Option<nat>, s: Bytes, effects: seq<Effect>, j: nat, k: nat)
    requires j < k <= |effects| && Stops(limit, s, effects, j)
    ensures Clip(limit, s + ServerBytes(effects[..k])) != s + ServerBytes(effects[..k])
  {
    assert effects[..k] == effects[..j + 1] + effects[j + 1..k];
    ServerAppend(effects[..j + 1], effects[j + 1..k]);
  }
}
