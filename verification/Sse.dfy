/**
 The Server-Sent Events splitter of the tap path, after section 9.2.6 of the WHATWG HTML
 Standard without lone carriage returns as line ends.
 */
module Sse {
  import opened Common
  import opened Lines
  import opened Machine
  import opened Sequences

  const COLON: byte := 58
  const SPACE: byte := 32
  const DATA: Bytes := [100, 97, 116, 97]

  /** The splitter's fields. */
  datatype State = State(line: Bytes, data: Bytes, sawData: bool, overflow: bool, lineDirty: bool)

  /** A state and the events emitted on the way to it. */
  type Fed = Run<State, Bytes>

  const FRESH := State([], [], false, false, false)

  function StripCr(line: Bytes): Bytes {
    if line != [] && line[|line| - 1] == CR then line[..|line| - 1] else line
  }

  /** Index of the first colon, or |line|. */
  function FirstColon(line: Bytes): (k: nat)
    ensures k <= |line|
    ensures k < |line| ==> line[k] == COLON
    ensures forall i :: 0 <= i < k ==> line[i] != COLON
  {
    IndexOf(line, COLON)
  }

  function FieldOf(line: Bytes): Bytes {
    line[..FirstColon(line)]
  }

  function ValueOf(line: Bytes): Bytes {
    var k := FirstColon(line);
    if k == |line| then []
    else
      var v := line[k + 1..];
      if v != [] && v[0] == SPACE then v[1..] else v
  }

  function BufferLine(s: State, chunk: Bytes, cap: nat): State {
    if s.lineDirty then s
    else if |s.line| + |chunk| > cap then s.(line := [], overflow := true, lineDirty := true)
    else s.(line := s.line + chunk)
  }

  /** One complete line whose carriage return is gone; a blank line dispatches. */
  function HandleLine(s: State, line: Bytes, cap: nat): Fed {
    if line == [] then
      Run(s.(data := [], sawData := false, overflow := false),
          if s.sawData && !s.overflow then [s.data] else [])
    else if line[0] == COLON then Run(s, [])
    else if FieldOf(line) == DATA && !s.overflow then
      var data := s.data + (if s.sawData then [LF] else []) + ValueOf(line);
      if |data| > cap then Run(s.(data := [], sawData := true, overflow := true), [])
      else Run(s.(data := data, sawData := true), [])
    else Run(s, [])
  }

  /** The newline that ends the buffered line. */
  function EndLine(s: State, cap: nat): Fed {
    var t := s.(line := [], lineDirty := false);
    if s.lineDirty then Run(t, []) else HandleLine(t, StripCr(s.line), cap)
  }

  /** The rest of a line and its newline. */
  function LineStep(s: State, l: Bytes, cap: nat): Fed {
    EndLine(BufferLine(s, l, cap), cap)
  }


  function Linewise(cap: nat): (State, Bytes) -> Fed {
    (s, l) => LineStep(s, l, cap)
  }

  function Restwise(cap: nat): (State, Bytes) -> Fed {
    (s, rest) => Run(BufferLine(s, rest, cap), [])
  }

  /** What one push does: whole lines first, then the remainder is buffered. */
  function PushResult(s: State, bytes: Bytes, cap: nat): Fed {
    Split(Linewise(cap), Restwise(cap), s, bytes)
  }

  function EventList(event: Option<Bytes>): seq<Bytes> {
    if event.Some? then [event.value] else []
  }

  lemma PushNext(before: Fed, bytes: Bytes, ended: Fed, cap: nat)
    requires FirstLf(bytes) < |bytes| && ended == LineStep(before.state, bytes[..FirstLf(bytes)], cap)
    ensures Then(before, PushResult(before.state, bytes, cap)) ==
            Then(Then(before, ended), PushResult(ended.state, bytes[FirstLf(bytes) + 1..], cap))
  {
    SplitNext(Linewise(cap), Restwise(cap), before, bytes, ended);
  }

  lemma PushLast(before: Fed, bytes: Bytes, after: State, cap: nat)
    requires FirstLf(bytes) == |bytes| && after == BufferLine(before.state, bytes, cap)
    ensures Then(before, PushResult(before.state, bytes, cap)) == Run(after, before.out)
  {
    SplitRest(Linewise(cap), Restwise(cap), before.state, bytes);
    EmptyAppend(before.out);
  }

  class Splitter {
    const cap: nat
    var line: Bytes
    var data: Bytes
    var sawData: bool
    var overflow: bool
    var lineDirty: bool

    constructor (cap: nat)
      ensures this.cap == cap && Now() == FRESH
    {
      this.cap := cap;
      line, data, sawData, overflow, lineDirty := [], [], false, false, false;
    }

    ghost function Now(): State
      reads this
    {
      State(line, data, sawData, overflow, lineDirty)
    }

    method Push(input: Bytes) returns (out: seq<Bytes>)
      modifies this
      ensures Run(Now(), out) == PushResult(old(Now()), input, cap)
    {
      out := [];
      var bytes := input;
      ghost var goal := PushResult(Now(), input, cap);
      EmptyAppend(goal.out);
      var pos := FirstLf(bytes);
      while pos < |bytes|
        invariant pos == FirstLf(bytes)
        invariant goal == Then(Run(Now(), out), PushResult(Now(), bytes, cap))
        decreases |bytes|
      {
        out := PushLine(bytes, pos, out);
        bytes := bytes[pos + 1..];
        pos := FirstLf(bytes);
      }
      PushRest(bytes, out);
    }

    /** The loop body of a push: take the buffered line up to the newline and handle it. */
    method PushLine(bytes: Bytes, pos: nat, out: seq<Bytes>) returns (more: seq<Bytes>)
      requires pos == FirstLf(bytes) < |bytes|
      modifies this
      ensures Then(Run(old(Now()), out), PushResult(old(Now()), bytes, cap)) ==
              Then(Run(Now(), more), PushResult(Now(), bytes[pos + 1..], cap))
    {
      ghost var before := Run(Now(), out);
      BufferLineBytes(bytes[..pos]);
      var l, dirty := line, lineDirty;
      line, lineDirty := [], false;
      var event := None;
      if !dirty {
        event := HandleOneLine(StripCr(l));
      }
      more := if event.Some? then out + [event.value] else out;
      PushNext(before, bytes, Run(Now(), EventList(event)), cap);
      EmptyAppend(out);
    }

    /** Trailing bytes with no newline yet. */
    method PushRest(bytes: Bytes, ghost out: seq<Bytes>)
      requires FirstLf(bytes) == |bytes|
      modifies this
      ensures Then(Run(old(Now()), out), PushResult(old(Now()), bytes, cap)) == Run(Now(), out)
    {
      ghost var before := Run(Now(), out);
      BufferLineBytes(bytes);
      PushLast(before, bytes, Now(), cap);
    }

    method BufferLineBytes(chunk: Bytes)
      modifies this
      ensures Now() == BufferLine(old(Now()), chunk, cap)
    {
      if lineDirty {
        return;
      }
      line := line + chunk;
      if |line| > cap {
        overflow := true;
        lineDirty := true;
        line := [];
      }
    }

    method HandleOneLine(l: Bytes) returns (event: Option<Bytes>)
      modifies this
      ensures Now() == HandleLine(old(Now()), l, cap).state
      ensures HandleLine(old(Now()), l, cap).out == if event.Some? then [event.value] else []
    {
      event := None;
      if l == [] {
        if sawData && !overflow {
          event := Some(data);
        }
        data, sawData, overflow := [], false, false;
        return;
      }
      if l[0] == COLON {
        return;
      }
      var k := FirstColon(l);
      var field, value := l[..k], [];
      if k < |l| {
        value := l[k + 1..];
        if value != [] && value[0] == SPACE {
          value := value[1..];
        }
      }
      if field == DATA && !overflow {
        if sawData {
          data := data + [LF];
        }
        sawData := true;
        data := data + value;
        if |data| > cap {
          overflow := true;
          data := [];
        }
      }
    }
  }
}
