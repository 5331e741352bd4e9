/** Facts about newline-delimited byte streams used by every framer. */
module Lines {
  import opened Common
  import opened Sequences
  import opened Machine

  type Bytes = seq<byte>

  predicate NoLf(s: Bytes) {
    forall i :: 0 <= i < |s| ==> s[i] != LF
  }

  /** Index of the first newline, or |s|. */
  function FirstLf(s: Bytes): (k: nat)
    ensures k <= |s|
    ensures k < |s| ==> s[k] == LF
    ensures forall i :: 0 <= i < k ==> s[i] != LF
  {
    IndexOf(s, LF)
  }

  /** The complete lines of a stream, without their newlines. */
  function LinesOf(s: Bytes): seq<Bytes>
    decreases |s|
  {
    var k := FirstLf(s);
    if k == |s| then [] else [s[..k]] + LinesOf(s[k + 1..])
  }

  /** What follows the last newline. */
  function TailOf(s: Bytes): Bytes
    decreases |s|
  {
    var k := FirstLf(s);
    if k == |s| then s else TailOf(s[k + 1..])
  }

  /** Lines, each with a newline (10) after it. */
  function Unlines(lines: seq<Bytes>): Bytes {
    if lines == [] then [] else lines[0] + [10] + Unlines(lines[1..])
  }

  function Flatten(chunks: seq<Bytes>): Bytes {
    if chunks == [] then [] else chunks[0] + Flatten(chunks[1..])
  }

  lemma {:induction false} FlattenAppend(a: seq<Bytes>, b: seq<Bytes>)
    ensures Flatten(a + b) == Flatten(a) + Flatten(b)
  {
    if a == [] {
      EmptyAppend(b);
      EmptyAppend(Flatten(b));
    } else {
      FlattenAppend(a[1..], b);
      FirstOfAppend(a, b);
      AppendAssociates(a[0], Flatten(a[1..]), Flatten(b));
    }
  }

  lemma FlattenOne(x: Bytes)
    ensures Flatten([x]) == x
  {
    assert [x][1..] == [];
    EmptyAppend(x);
  }

  lemma FirstLfOfLine(l: Bytes, rest: Bytes)
    requires NoLf(l)
    ensures FirstLf(l + [LF] + rest) == |l|
    ensures (l + [LF] + rest)[..|l|] == l && (l + [LF] + rest)[|l| + 1..] == rest
  {
    var s := l + [LF] + rest;
    assert s[|l|] == LF;
    assert forall i :: 0 <= i < |l| ==> s[i] == l[i];
  }

  /** The lines and the tail of a stream that starts with a whole line. */
  lemma LineFirst(l: Bytes, rest: Bytes)
    requires NoLf(l)
    ensures LinesOf(l + [LF] + rest) == [l] + LinesOf(rest)
    ensures TailOf(l + [LF] + rest) == TailOf(rest)
    ensures !NoLf(l + [LF] + rest)
  {
    FirstLfOfLine(l, rest);
    assert (l + [LF] + rest)[|l|] == LF;
  }

  /** Lines that are written one after the other are read back. */
  lemma {:induction false} LinesReadBack(lines: seq<Bytes>)
    requires forall i :: 0 <= i < |lines| ==> 10 !in lines[i]
    ensures LinesOf(Unlines(lines)) == lines && TailOf(Unlines(lines)) == []
  {
    if lines != [] {
      assert NoLf(lines[0]);
      LineFirst(lines[0], Unlines(lines[1..]));
      LinesReadBack(lines[1..]);
    }
  }

  lemma NoLines(x: Bytes)
    requires NoLf(x)
    ensures FirstLf(x) == |x| && LinesOf(x) == [] && TailOf(x) == x
  {
  }

  /** A stream with a newline is its first line, the newline, and the rest. */
  lemma FirstLineSplit(x: Bytes)
    requires FirstLf(x) < |x|
    ensures NoLf(x[..FirstLf(x)]) && x == x[..FirstLf(x)] + [LF] + x[FirstLf(x) + 1..]
  {
  }

  lemma {:induction false} LinesHaveNoLf(data: Bytes)
    ensures forall i :: 0 <= i < |LinesOf(data)| ==> NoLf(LinesOf(data)[i])
    decreases |data|
  {
    if FirstLf(data) < |data| {
      var l, more := data[..FirstLf(data)], data[FirstLf(data) + 1..];
      FirstLineSplit(data);
      LineFirst(l, more);
      LinesHaveNoLf(more);
    }
  }

  lemma {:induction false} LinesAppend(x: Bytes, y: Bytes)
    ensures LinesOf(x + y) == LinesOf(x) + LinesOf(TailOf(x) + y)
    ensures TailOf(x + y) == TailOf(TailOf(x) + y)
    ensures NoLf(TailOf(x))
    decreases |x|
  {
    if FirstLf(x) == |x| {
      NoLines(x);
      EmptyAppend(LinesOf(x + y));
    } else {
      FirstLineSplit(x);
      var l, rest := x[..FirstLf(x)], x[FirstLf(x) + 1..];
      LinesAppend(rest, y);
      LineFirst(l, rest);
      LineFirst(l, rest + y);
      AppendAssociates(l + [LF], rest, y);
      AppendAssociates([l], LinesOf(rest), LinesOf(TailOf(rest) + y));
    }
  }

  /**
   What a framer does with the bytes of one read: `line` handles each completed line, then
   `rest` what follows the last newline.
   */
  function Split<S, E>(line: (S, Bytes) -> Run<S, E>, rest: (S, Bytes) -> Run<S, E>, s: S, bytes: Bytes): Run<S, E> {
    var lines := Fold(line, s, LinesOf(bytes));
    Then(lines, rest(lines.state, TailOf(bytes)))
  }

  lemma SplitRest<S, E>(line: (S, Bytes) -> Run<S, E>, rest: (S, Bytes) -> Run<S, E>, s: S, bytes: Bytes)
    requires NoLf(bytes)
    ensures Split(line, rest, s, bytes) == rest(s, bytes)
  {
    NoLines(bytes);
    EmptyAppend(rest(s, bytes).out);
  }

  lemma SplitLine<S, E>(line: (S, Bytes) -> Run<S, E>, rest: (S, Bytes) -> Run<S, E>, s: S, l: Bytes, more: Bytes)
    requires NoLf(l)
    ensures Split(line, rest, s, l + [LF] + more) == Then(line(s, l), Split(line, rest, line(s, l).state, more))
  {
    LineFirst(l, more);
    FoldAppend(line, s, [l], LinesOf(more));
    FoldOne(line, s, l);
    var lines := Fold(line, line(s, l).state, LinesOf(more));
    ThenAssociates(line(s, l), lines, rest(lines.state, TailOf(more)));
  }

  /** One iteration of a framer's loop over the bytes it was given, after `before`. */
  lemma SplitNext<S, E>(
    line: (S, Bytes) -> Run<S, E>, rest: (S, Bytes) -> Run<S, E>, before: Run<S, E>, bytes: Bytes, ended: Run<S, E>)
    requires FirstLf(bytes) < |bytes| && ended == line(before.state, bytes[..FirstLf(bytes)])
    ensures Then(before, Split(line, rest, before.state, bytes)) ==
            Then(Then(before, ended), Split(line, rest, ended.state, bytes[FirstLf(bytes) + 1..]))
  {
    FirstLineSplit(bytes);
    SplitLine(line, rest, before.state, bytes[..FirstLf(bytes)], bytes[FirstLf(bytes) + 1..]);
    ThenAssociates(before, ended, Split(line, rest, ended.state, bytes[FirstLf(bytes) + 1..]));
  }

  /** The lines of the first part, then the unfinished line together with the second part. */
  lemma SplitAppend<S, E>(line: (S, Bytes) -> Run<S, E>, rest: (S, Bytes) -> Run<S, E>, s: S, a: Bytes, b: Bytes)
    ensures var lines := Fold(line, s, LinesOf(a));
            Split(line, rest, s, a + b) == Then(lines, Split(line, rest, lines.state, TailOf(a) + b))
  {
    LinesAppend(a, b);
    FoldAppend(line, s, LinesOf(a), LinesOf(TailOf(a) + b));
    var lines := Fold(line, s, LinesOf(a));
    var more := Fold(line, lines.state, LinesOf(TailOf(a) + b));
    ThenAssociates(lines, more, rest(more.state, TailOf(a + b)));
  }
}
