/** The server-to-client pump: every byte the server sends is written, and frames are tapped. */
module ServerPump {
  import opened Common
  import opened Sequences
  import opened Machine
  import opened Lines
  import opened Framing
  import opened FramingLaws
  import opened Pump

  function Taps(record: bool, frames: seq<Bytes>): seq<Msg> {
    if record then seq(|frames|, i requires 0 <= i < |frames| => Tap(frames[i])) else []
  }

  lemma TapsAppend(record: bool, a: seq<Bytes>, b: seq<Bytes>)
    ensures Taps(record, a + b) == Taps(record, a) + Taps(record, b)
  {
  }

  lemma WireOfPrefix(a: seq<Chunk>, b: seq<Chunk>)
    requires a <= b
    ensures WireOf(a) <= WireOf(b)
  {
    assert b == a + b[|a|..];
    WireAppend(a, b[|a|..]);
  }

  /** What the first k chunks put on stdout is where the whole stream starts. */
  lemma WireStarts(input: seq<Bytes>, cap: nat, k: nat)
    requires k <= |Chunks(input, cap).out|
    ensures WireOf(Chunks(input, cap).out[..k]) <= Flatten(input)
  {
    WireOfPrefix(Chunks(input, cap).out[..k], Chunks(input, cap).out);
    StreamConserved(EMPTY, input, cap);
    EmptyAppend(Flatten(input));
  }

  /** A write that did not fit leaves stdout full, and full of the stream's first bytes. */
  lemma FullOf(limit: Option<nat>, s: Bytes, part: Bytes, whole: Bytes)
    requires part <= whole
    requires Clip(limit, s + part) != s + part
    ensures Clip(limit, s + whole) == Clip(limit, s + part) && Clip(limit, s + whole) != s + whole
  {
    assert whole == part + whole[|part|..];
    AppendAssociates(s, part, whole[|part|..]);
  }

  lemma NextChunk(done: seq<Chunk>, chunks: seq<Chunk>, j: nat)
    requires j < |chunks|
    ensures (done + chunks[..j]) + [chunks[j]] == done + chunks[..j + 1]
  {
    assert chunks[..j + 1] == chunks[..j] + [chunks[j]];
    AppendAssociates(done, chunks[..j], [chunks[j]]);
  }

  method WriteChunk(c: Chunk, record: bool, stdout: Pipe, tx: Channel) returns (ok: bool)
    requires stdout.Fits()
    modifies stdout, tx
    ensures stdout.Fits() && stdout.written == Clip(stdout.limit, old(stdout.written) + Wire(c))
    ensures ok <==> stdout.written == old(stdout.written) + Wire(c)
    ensures tx.offered == old(tx.offered) + (if ok then Taps(record, FramesOf([c])) else [])
  {
    EmptyAppend(tx.offered);
    match c {
      case Raw(r) =>
        assert FramesOf([c]) == [];
        ok := stdout.WriteAll(r);
      case Frame(f) =>
        assert FramesOf([c]) == [f];
        AppendAssociates(stdout.written, f, [LF]);
        ClipTwice(stdout.limit, stdout.written + f, [LF]);
        ok := stdout.WriteAll(f);
        if ok {
          ok := stdout.WriteAll([LF]);
        }
        if ok && record {
          tx.TrySend(Tap(f));
        }
    }
  }

  lemma WroteNext(s: Bytes, o: seq<Msg>, record: bool, before: seq<Chunk>, c: Chunk)
    ensures s + WireOf(before + [c]) == (s + WireOf(before)) + Wire(c)
    ensures o + Taps(record, FramesOf(before + [c]))
            == (o + Taps(record, FramesOf(before))) + Taps(record, FramesOf([c]))
  {
    WireAppend(before, [c]);
    WireOne(c);
    AppendAssociates(s, WireOf(before), Wire(c));
    FramesAppend(before, [c]);
    TapsAppend(record, FramesOf(before), FramesOf([c]));
    AppendAssociates(o, Taps(record, FramesOf(before)), Taps(record, FramesOf([c])));
  }

  /** Everything of `done` has been written and offered, starting from `s` and `o`. */
  ghost predicate Sent(stdout: Pipe, tx: Channel, s: Bytes, o: seq<Msg>, record: bool, done: seq<Chunk>)
    reads stdout, tx
  {
    stdout.written == s + WireOf(done) && tx.offered == o + Taps(record, FramesOf(done))
  }

  /** The first k chunks fit after `s`; one more does not. */
  predicate Stops(limit: Option<nat>, s: Bytes, chunks: seq<Chunk>, k: int)
    requires 0 <= k < |chunks|
  {
    && Clip(limit, s + WireOf(chunks[..k])) == s + WireOf(chunks[..k])
    && Clip(limit, s + WireOf(chunks[..k + 1])) != s + WireOf(chunks[..k + 1])
  }

  /** Stdout filled up in chunk k of `done`; only the frames before it were offered. */
  ghost predicate StoppedAt(stdout: Pipe, tx: Channel, s: Bytes, o: seq<Msg>, record: bool, done: seq<Chunk>, k: int)
    reads stdout, tx
  {
    && 0 <= k < |done| && Stops(stdout.limit, s, done, k)
    && stdout.written == Clip(stdout.limit, s + WireOf(done[..k + 1]))
    && tx.offered == o + Taps(record, FramesOf(done[..k]))
  }

  ghost predicate Stopped(stdout: Pipe, tx: Channel, s: Bytes, o: seq<Msg>, record: bool, done: seq<Chunk>)
    reads stdout, tx
  {
    exists k: int :: StoppedAt(stdout, tx, s, o, record, done, k)
  }

  /** What was to follow does not matter. */
  lemma StaysStopped(stdout: Pipe, tx: Channel, s: Bytes, o: seq<Msg>, record: bool, a: seq<Chunk>, b: seq<Chunk>)
    requires a <= b && Stopped(stdout, tx, s, o, record, a)
    ensures Stopped(stdout, tx, s, o, record, b)
  {
    var k: int :| StoppedAt(stdout, tx, s, o, record, a, k);
    assert b[..k] == a[..k] && b[..k + 1] == a[..k + 1];
    assert StoppedAt(stdout, tx, s, o, record, b, k);
  }

  method WriteNext(
    c: Chunk, record: bool, stdout: Pipe, tx: Channel, ghost s: Bytes, ghost o: seq<Msg>, ghost done: seq<Chunk>)
    returns (ok: bool)
    requires stdout.Fits() && Sent(stdout, tx, s, o, record, done)
    modifies stdout, tx
    ensures stdout.Fits()
    ensures if ok then Sent(stdout, tx, s, o, record, done + [c]) else Stopped(stdout, tx, s, o, record, done + [c])
  {
    WroteNext(s, o, record, done, c);
    ok := WriteChunk(c, record, stdout, tx);
    if !ok {
      TakenPast(done, [c]);
      EmptyAppend(tx.offered);
      assert [c][..1] == [c];
      assert StoppedAt(stdout, tx, s, o, record, done + [c], |done|);
    }
  }

  /** The chunks of one read. */
  method WriteChunks(
    chunks: seq<Chunk>, record: bool, stdout: Pipe, tx: Channel, ghost s: Bytes, ghost o: seq<Msg>,
    ghost done: seq<Chunk>)
    returns (ok: bool)
    requires stdout.Fits() && Sent(stdout, tx, s, o, record, done)
    modifies stdout, tx
    ensures stdout.Fits()
    ensures if ok then Sent(stdout, tx, s, o, record, done + chunks)
            else Stopped(stdout, tx, s, o, record, done + chunks)
  {
    ok := true;
    EmptyAppend(done);
    var j := 0;
    while j < |chunks|
      invariant 0 <= j <= |chunks|
      invariant stdout.Fits() && ok
      invariant Sent(stdout, tx, s, o, record, done + chunks[..j])
    {
      NextChunk(done, chunks, j);
      ok := WriteNext(chunks[j], record, stdout, tx, s, o, done + chunks[..j]);
      j := j + 1;
      if !ok {
        StaysStopped(stdout, tx, s, o, record, done + chunks[..j], done + chunks);
        return;
      }
    }
    assert chunks[..j] == chunks;
  }

  lemma ChunksSnoc(input: seq<Bytes>, cap: nat, i: nat)
    requires i < |input|
    ensures Chunks(input[..i + 1], cap)
            == Then(Chunks(input[..i], cap), Framed(Chunks(input[..i], cap).state, input[i], cap))
  {
    assert input[..i + 1] == input[..i] + [input[i]];
    FoldSnoc(Framewise(cap), EMPTY, input[..i], input[i]);
  }

  lemma ChunksSoFar(input: seq<Bytes>, cap: nat, i: nat)
    requires i <= |input|
    ensures Chunks(input[..i], cap).out <= Chunks(input, cap).out
  {
    assert input == input[..i] + input[i..];
    FoldPrefix(Framewise(cap), EMPTY, input[..i], input[i..]);
  }

  method WriteRead(
    framer: FramedStream, input: seq<Bytes>, i: nat, record: bool, stdout: Pipe, tx: Channel, ghost s: Bytes,
    ghost o: seq<Msg>)
    returns (ok: bool)
    requires i < |input| && stdout.Fits() && framer.Now() == Chunks(input[..i], framer.cap).state
    requires Sent(stdout, tx, s, o, record, Chunks(input[..i], framer.cap).out)
    modifies framer, stdout, tx
    ensures stdout.Fits()
    ensures ok ==>
              && framer.Now() == Chunks(input[..i + 1], framer.cap).state
              && Sent(stdout, tx, s, o, record, Chunks(input[..i + 1], framer.cap).out)
    ensures !ok ==> Stopped(stdout, tx, s, o, record, Chunks(input, framer.cap).out)
  {
    ghost var sofar := Chunks(input[..i], framer.cap).out;
    ChunksSnoc(input, framer.cap, i);
    var chunks := framer.Push(input[i]);
    ok := WriteChunks(chunks, record, stdout, tx, s, o, sofar);
    if !ok {
      ChunksSoFar(input, framer.cap, i + 1);
      StaysStopped(stdout, tx, s, o, record, sofar + chunks, Chunks(input, framer.cap).out);
    }
  }

  /** How many chunks stdout takes whole: all, or those before the one that fills it. */
  predicate Takes(limit: Option<nat>, s: Bytes, chunks: seq<Chunk>, k: int) {
    if k == |chunks| then Clip(limit, s + WireOf(chunks)) == s + WireOf(chunks)
    else 0 <= k < |chunks| && Stops(limit, s, chunks, k)
  }

  /** End of file: bytes of an unfinished frame are written as they are. */
  method WriteRest(framer: FramedStream, stdout: Pipe)
    requires stdout.Fits()
    modifies framer, stdout
    ensures stdout.written == Clip(stdout.limit, old(stdout.written) + Pending(old(framer.Now())))
  {
    EmptyAppend(stdout.written);
    var rem := framer.Finish();
    if rem.Some? {
      var _ := stdout.WriteAll(rem.value);
    }
  }

  /** A full pipe stays as it is. */
  lemma StaysFull(limit: Option<nat>, whole: Bytes, more: Bytes)
    requires Clip(limit, whole) != whole
    ensures Clip(limit, Clip(limit, whole) + more) == Clip(limit, whole)
  {
  }

  /** After the reads were all written. */
  method EndSent(
    framer: FramedStream, input: seq<Bytes>, record: bool, stdout: Pipe, tx: Channel, ghost s: Bytes, ghost o: seq<Msg>)
    requires stdout.Fits() && framer.Now() == Chunks(input, framer.cap).state
    requires Sent(stdout, tx, s, o, record, Chunks(input, framer.cap).out)
    modifies framer, stdout
    ensures stdout.written == Clip(stdout.limit, s + Flatten(input))
  {
    StreamConserved(EMPTY, input, framer.cap);
    EmptyAppend(Flatten(input));
    AppendAssociates(s, WireOf(Chunks(input, framer.cap).out), Pending(framer.Now()));
    WriteRest(framer, stdout);
  }

  lemma StoppedFull(limit: Option<nat>, s: Bytes, input: seq<Bytes>, cap: nat, k: nat)
    requires k <= |Chunks(input, cap).out|
    requires var part := WireOf(Chunks(input, cap).out[..k]); Clip(limit, s + part) != s + part
    ensures Clip(limit, s + Flatten(input)) == Clip(limit, s + WireOf(Chunks(input, cap).out[..k]))
    ensures Clip(limit, s + Flatten(input)) != s + Flatten(input)
  {
    WireStarts(input, cap, k);
    FullOf(limit, s, WireOf(Chunks(input, cap).out[..k]), Flatten(input));
  }

  /** After stdout filled up: nothing more fits. */
  method EndStopped(
    framer: FramedStream, input: seq<Bytes>, record: bool, stdout: Pipe, tx: Channel, ghost s: Bytes, ghost o: seq<Msg>)
    returns (ghost k: nat)
    requires stdout.Fits() && Stopped(stdout, tx, s, o, record, Chunks(input, framer.cap).out)
    modifies framer, stdout
    ensures stdout.written == Clip(stdout.limit, s + Flatten(input))
    ensures var all := Chunks(input, framer.cap).out;
            k < |all| && Stops(stdout.limit, s, all, k) && tx.offered == o + Taps(record, FramesOf(all[..k]))
  {
    k :| StoppedAt(stdout, tx, s, o, record, Chunks(input, framer.cap).out, k);
    StoppedFull(stdout.limit, s, input, framer.cap, k + 1);
    StaysFull(stdout.limit, s + WireOf(Chunks(input, framer.cap).out[..k + 1]), Pending(framer.Now()));
    WriteRest(framer, stdout);
  }

  /**
   The server-to-client pump. The client holds exactly what fits of the bytes the server
   sent, however the reads cut them and whatever the channel drops. Exactly the frames of the
   chunks that stdout took whole have been offered to the recording.
   */
  method PumpS2c(input: seq<Bytes>, record: bool, cap: nat, stdout: Pipe, tx: Channel) returns (ghost k: nat)
    requires stdout.Fits()
    modifies stdout, tx
    ensures var live := input[..EofAt(input)];
            var all := Chunks(live, cap).out;
            && stdout.written == Clip(stdout.limit, old(stdout.written) + Flatten(live))
            && k <= |all| && Takes(stdout.limit, old(stdout.written), all, k)
            && tx.offered == old(tx.offered) + Taps(record, FramesOf(all[..k]))
  {
    ghost var s, o := stdout.written, tx.offered;
    var live := input[..EofAt(input)];
    var framer := new FramedStream(cap);
    var ok := true;
    EmptyAppend(s);
    EmptyAppend(o);
    var i := 0;
    while i < |live| && ok
      invariant 0 <= i <= |live|
      invariant stdout.Fits() && framer.cap == cap && fresh(framer)
      invariant ok ==> framer.Now() == Chunks(live[..i], cap).state
      invariant ok ==> Sent(stdout, tx, s, o, record, Chunks(live[..i], cap).out)
      invariant !ok ==> Stopped(stdout, tx, s, o, record, Chunks(live, cap).out)
    {
      ok := WriteRead(framer, live, i, record, stdout, tx, s, o);
      i := i + 1;
    }
    if ok {
      assert live[..i] == live;
      k := |Chunks(live, cap).out|;
      assert Chunks(live, cap).out[..k] == Chunks(live, cap).out;
      EndSent(framer, live, record, stdout, tx, s, o);
    } else {
      k := EndStopped(framer, live, record, stdout, tx, s, o);
    }
  }
}
