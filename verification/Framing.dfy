/**
 Newline framing of the stdio legs. `LineSplitter` only records, and silently drops an
 over-long frame; `FramedStream` drives the forwarding, and passes such a frame through
 raw. Both look at the cap once per read, after the last newline of the read.
 */
module Framing {
  import opened Common
  import opened Lines
  import opened Machine
  import opened Sequences

  /** The fields of either splitter. */
  datatype Framer = Framer(buf: Bytes, overflowed: bool)

  const EMPTY := Framer([], false)

  datatype Chunk = Frame(frame: Bytes) | Raw(raw: Bytes)

  /** Holds between pushes. */
  predicate Valid(s: Framer, cap: nat) {
    (if s.overflowed then s.buf == [] else |s.buf| <= cap) && NoLf(s.buf)
  }

  // ---------------------------------------------------------------- the recording splitter

  /** The newline that ends the buffered frame, `head` being the bytes before it. */
  function RecordLine(s: Framer, head: Bytes): Run<Framer, Bytes> {
    Run(EMPTY, if s.overflowed then [] else [s.buf + head])
  }

  /** Bytes that no newline follows yet. */
  function RecordRest(s: Framer, data: Bytes, cap: nat): Run<Framer, Bytes> {
    if s.overflowed || data == [] then Run(s, [])
    else if |s.buf| + |data| > cap then Run(Framer([], true), [])
    else Run(Framer(s.buf + data, false), [])
  }

  function RecordLines(): (Framer, Bytes) -> Run<Framer, Bytes> {
    (s, head) => RecordLine(s, head)
  }

  function RecordRests(cap: nat): (Framer, Bytes) -> Run<Framer, Bytes> {
    (s, data) => RecordRest(s, data, cap)
  }

  function Recorded(s: Framer, data: Bytes, cap: nat): Run<Framer, Bytes> {
    Split(RecordLines(), RecordRests(cap), s, data)
  }

  class LineSplitter {
    const cap: nat
    var buf: Bytes
    var overflowed: bool

    constructor (cap: nat)
      ensures this.cap == cap && Now() == EMPTY
    {
      this.cap := cap;
      buf, overflowed := [], false;
    }

    ghost function Now(): Framer
      reads this
    {
      Framer(buf, overflowed)
    }

    method Push(input: Bytes) returns (out: seq<Bytes>)
      modifies this
      ensures Run(Now(), out) == Recorded(old(Now()), input, cap)
    {
      out := [];
      var data := input;
      var pos := FirstLf(data);
      while pos < |data|
        invariant pos == FirstLf(data)
        invariant Recorded(old(Now()), input, cap) == Then(Run(Now(), out), Recorded(Now(), data, cap))
        decreases |data|
      {
        var head := data[..pos];
        SplitNext(RecordLines(), RecordRests(cap), Run(Now(), out), data, RecordLine(Now(), head));
        data := data[pos + 1..];
        if overflowed {
          EmptyAppend(out);
          overflowed := false;
          buf := [];
        } else {
          out := out + [buf + head];
          buf := [];
        }
        pos := FirstLf(data);
      }
      SplitRest(RecordLines(), RecordRests(cap), Now(), data);
      if !overflowed && data != [] {
        buf := buf + data;
        if |buf| > cap {
          overflowed := true;
          buf := [];
        }
      }
      EmptyAppend(out);
    }
  }

  // ---------------------------------------------------------------- the forwarding splitter

  function FrameLine(s: Framer, head: Bytes): Run<Framer, Chunk> {
    Run(EMPTY, [if s.overflowed then Raw(head + [LF]) else Frame(s.buf + head)])
  }

  function FrameRest(s: Framer, data: Bytes, cap: nat): Run<Framer, Chunk> {
    if data == [] then Run(s, [])
    else if s.overflowed then Run(s, [Raw(data)])
    else if |s.buf| + |data| > cap then Run(Framer([], true), [Raw(s.buf + data)])
    else Run(Framer(s.buf + data, false), [])
  }

  function FrameLines(): (Framer, Bytes) -> Run<Framer, Chunk> {
    (s, head) => FrameLine(s, head)
  }

  function FrameRests(cap: nat): (Framer, Bytes) -> Run<Framer, Chunk> {
    (s, data) => FrameRest(s, data, cap)
  }

  function Framed(s: Framer, data: Bytes, cap: nat): Run<Framer, Chunk> {
    Split(FrameLines(), FrameRests(cap), s, data)
  }

  /** What is still owed to the wire at end of file. */
  function Pending(s: Framer): Bytes {
    if s.overflowed then [] else s.buf
  }

  class FramedStream {
    const cap: nat
    var buf: Bytes
    var overflowed: bool

    constructor (cap: nat)
      ensures this.cap == cap && Now() == EMPTY
    {
      this.cap := cap;
      buf, overflowed := [], false;
    }

    ghost function Now(): Framer
      reads this
    {
      Framer(buf, overflowed)
    }

    method Push(input: Bytes) returns (out: seq<Chunk>)
      modifies this
      ensures Run(Now(), out) == Framed(old(Now()), input, cap)
    {
      out := [];
      var data := input;
      var pos := FirstLf(data);
      while pos < |data|
        invariant pos == FirstLf(data)
        invariant Framed(old(Now()), input, cap) == Then(Run(Now(), out), Framed(Now(), data, cap))
        decreases |data|
      {
        var head := data[..pos];
        SplitNext(FrameLines(), FrameRests(cap), Run(Now(), out), data, FrameLine(Now(), head));
        data := data[pos + 1..];
        if overflowed {
          out := out + [Raw(head + [LF])];
          overflowed := false;
          buf := [];
        } else {
          out := out + [Frame(buf + head)];
          buf := [];
        }
        pos := FirstLf(data);
      }
      SplitRest(FrameLines(), FrameRests(cap), Now(), data);
      if overflowed {
        if data != [] {
          out := out + [Raw(data)];
        }
      } else if data != [] {
        buf := buf + data;
        if |buf| > cap {
          out := out + [Raw(buf)];
          buf := [];
          overflowed := true;
        }
      }
      EmptyAppend(out);
    }

    method Finish() returns (rest: Option<Bytes>)
      modifies this
      ensures rest == if Pending(old(Now())) == [] then None else Some(Pending(old(Now())))
      ensures rest.Some? ==> Now() == EMPTY
      ensures rest.None? ==> Now() == old(Now())
    {
      if overflowed || buf == [] {
        return None;
      }
      rest := Some(buf);
      buf := [];
    }
  }
}
