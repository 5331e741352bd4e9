/**
 The command line of a recorded session: stored by joining the argv with spaces, and split
 again, honouring quotes, when the session is replayed without a structured argv.
 */
module Argv {
  import opened Common
  import opened Sequences
  import opened Machine

  /** The Unicode White_Space property, which `char::is_whitespace` tests. */
  predicate IsSpace(c: char) {
    var u := c as int;
    || 0x9 <= u <= 0xD || u == 0x20 || u == 0x85 || u == 0xA0 || u == 0x1680 || 0x2000 <= u <= 0x200A
    || u == 0x2028 || u == 0x2029 || u == 0x202F || u == 0x205F || u == 0x3000
  }

  predicate IsQuote(c: char) {
    c == '"' || c == '\''
  }

  // ---------------------------------------------------------------- splitting

  /** The token being read, whether there is one, and the quote it is inside of. */
  datatype Reader = Reader(cur: string, inToken: bool, quote: Option<char>)

  const FRESH := Reader("", false, None)

  function ReadChar(r: Reader, c: char): Run<Reader, string> {
    if r.quote.Some? then
      if c == r.quote.value then Run(r.(quote := None), []) else Run(r.(cur := r.cur + [c]), [])
    else if IsQuote(c) then Run(Reader(r.cur, true, Some(c)), [])
    else if IsSpace(c) then (if r.inToken then Run(FRESH, [r.cur]) else Run(r, []))
    else Run(Reader(r.cur + [c], true, None), [])
  }

  function Read(r: Reader, s: string): Run<Reader, string> {
    Fold((q, c) => ReadChar(q, c), r, s)
  }

  function Split(command: string): seq<string> {
    var run := Read(FRESH, command);
    run.out + if run.state.inToken then [run.state.cur] else []
  }

  lemma ReadStep(r: Reader, s: string)
    requires s != ""
    ensures Read(r, s) == Then(ReadChar(r, s[0]), Read(ReadChar(r, s[0]).state, s[1..]))
  {
  }

  lemma ReadAppend(r: Reader, a: string, b: string)
    ensures Read(r, a + b) == Then(Read(r, a), Read(Read(r, a).state, b))
  {
    FoldAppend((q, c) => ReadChar(q, c), r, a, b);
  }

  lemma ReadSnoc(r: Reader, a: string, c: char)
    ensures Read(r, a + [c]) == Then(Read(r, a), ReadChar(Read(r, a).state, c))
  {
    FoldSnoc((q, x) => ReadChar(q, x), r, a, c);
  }

  method SplitCommand(command: string) returns (parts: seq<string>)
    ensures parts == Split(command)
  {
    parts := [];
    var cur: string, inToken, quote: Option<char> := "", false, None;
    var i := 0;
    while i < |command|
      invariant 0 <= i <= |command|
      invariant inToken || (cur == "" && quote == None)
      invariant Read(FRESH, command[..i]) == Run(Reader(cur, inToken, quote), parts)
    {
      var c := command[i];
      ReadSnoc(FRESH, command[..i], c);
      assert command[..i + 1] == command[..i] + [c];
      match quote {
        case Some(q) =>
          if c == q {
            quote := None;
          } else {
            cur := cur + [c];
          }
        case None =>
          if IsQuote(c) {
            quote, inToken := Some(c), true;
          } else if IsSpace(c) {
            if inToken {
              parts, cur, inToken := parts + [cur], "", false;
            }
          } else {
            cur, inToken := cur + [c], true;
          }
      }
      i := i + 1;
    }
    assert command[..i] == command;
    if inToken {
      parts := parts + [cur];
    }
  }

  // ---------------------------------------------------------------- joining

  /** `argv.join(" ")`. */
  function Join(argv: seq<string>): string {
    if argv == [] then ""
    else if |argv| == 1 then argv[0]
    else argv[0] + ([' '] + Join(argv[1..]))
  }

  /** One token after the other, with one blank (U+0020) between two. */
  lemma {:induction false} JoinedText(argv: seq<string>, token: string)
    ensures Join([]) == "" && Join([token]) == token
    ensures argv != [] ==> Join(argv + [token]) == Join(argv) + " " + token
  {
    if |argv| == 1 {
      assert (argv + [token])[1..] == [token];
      AppendAssociates(argv[0], " ", token);
    } else if argv != [] {
      JoinedText(argv[1..], token);
      FirstOfAppend(argv, [token]);
      AppendAssociates(argv[0], [' '] + Join(argv[1..]), " " + token);
      assert [' '] + Join(argv[1..] + [token]) == ([' '] + Join(argv[1..])) + (" " + token);
      AppendAssociates(Join(argv), " ", token);
    }
  }

  predicate Plain(token: string) {
    token != "" && forall i :: 0 <= i < |token| ==> !IsSpace(token[i]) && !IsQuote(token[i])
  }

  predicate AllPlain(argv: seq<string>) {
    forall i :: 0 <= i < |argv| ==> Plain(argv[i])
  }

  predicate Wrapped(token: string, text: string) {
    text != "" && IsQuote(text[0]) && text[0] !in token && text == [text[0]] + (token + [text[0]])
  }

  /** A token written bare, or inside a quote character it does not contain. */
  predicate Written(token: string, text: string) {
    (Plain(token) && text == token) || Wrapped(token, text)
  }

  predicate AllWritten(argv: seq<string>, texts: seq<string>) {
    |argv| == |texts| && forall i :: 0 <= i < |argv| ==> Written(argv[i], texts[i])
  }

  lemma {:induction false} ReadPlain(before: string, rest: string)
    requires forall i :: 0 <= i < |rest| ==> !IsSpace(rest[i]) && !IsQuote(rest[i])
    ensures Read(Reader(before, true, None), rest) == Run(Reader(before + rest, true, None), [])
    ensures rest != "" ==> Read(Reader(before, false, None), rest) == Run(Reader(before + rest, true, None), [])
    decreases |rest|
  {
    if rest == "" {
      EmptyAppend(before);
    } else {
      ReadPlain(before + [rest[0]], rest[1..]);
      assert rest == [rest[0]] + rest[1..];
      AppendAssociates(before, [rest[0]], rest[1..]);
    }
  }

  lemma {:induction false} ReadQuoted(before: string, q: char, rest: string)
    requires q !in rest
    ensures Read(Reader(before, true, Some(q)), rest) == Run(Reader(before + rest, true, Some(q)), [])
    decreases |rest|
  {
    if rest == "" {
      EmptyAppend(before);
    } else {
      ReadQuoted(before + [rest[0]], q, rest[1..]);
      assert rest == [rest[0]] + rest[1..];
      AppendAssociates(before, [rest[0]], rest[1..]);
    }
  }

  lemma ReadWritten(token: string, text: string)
    requires Written(token, text)
    ensures Read(FRESH, text) == Run(Reader(token, true, None), [])
  {
    EmptyAppend(token);
    if Wrapped(token, text) {
      var q := text[0];
      ReadAppend(FRESH, [q], token + [q]);
      ReadSnoc(Reader("", true, Some(q)), token, q);
      ReadQuoted("", q, token);
      FoldOne((r, c) => ReadChar(r, c), FRESH, q);
    } else {
      ReadPlain("", token);
    }
  }

  lemma {:induction false} ReadJoined(argv: seq<string>, texts: seq<string>)
    requires AllWritten(argv, texts) && argv != []
    ensures Read(FRESH, Join(texts)) == Run(Reader(argv[|argv| - 1], true, None), argv[..|argv| - 1])
    decreases |argv|
  {
    ReadWritten(argv[0], texts[0]);
    if |argv| > 1 {
      ReadJoined(argv[1..], texts[1..]);
      ReadAppend(FRESH, texts[0], [' '] + Join(texts[1..]));
      ReadAppend(Reader(argv[0], true, None), [' '], Join(texts[1..]));
      FoldOne((r, c) => ReadChar(r, c), Reader(argv[0], true, None), ' ');
      assert argv[..|argv| - 1] == [argv[0]] + argv[1..][..|argv| - 2];
    }
  }

  /** Splitting undoes joining when every token is written bare or quoted in a way that can be read back. */
  lemma SplitUndoesJoin(argv: seq<string>, texts: seq<string>)
    requires AllWritten(argv, texts)
    ensures Split(Join(texts)) == argv
  {
    if argv != [] {
      ReadJoined(argv, texts);
      assert argv == argv[..|argv| - 1] + [argv[|argv| - 1]];
    }
  }

  // ---------------------------------------------------------------- what splitting cannot give back

  function TotalLength(tokens: seq<string>): nat {
    if tokens == [] then 0 else |tokens[0]| + TotalLength(tokens[1..])
  }

  function Spaces(s: string): nat {
    if s == "" then 0 else (if IsSpace(s[0]) then 1 else 0) + Spaces(s[1..])
  }

  function TokenSpaces(tokens: seq<string>): nat {
    if tokens == [] then 0 else Spaces(tokens[0]) + TokenSpaces(tokens[1..])
  }

  predicate HasQuote(s: string) {
    exists i :: 0 <= i < |s| && IsQuote(s[i])
  }

  lemma {:induction false} TotalLengthAppend(a: seq<string>, b: seq<string>)
    ensures TotalLength(a + b) == TotalLength(a) + TotalLength(b)
  {
    if a == [] {
      EmptyAppend(b);
    } else {
      TotalLengthAppend(a[1..], b);
      FirstOfAppend(a, b);
    }
  }

  lemma {:induction false} SpacesAppend(a: string, b: string)
    ensures Spaces(a + b) == Spaces(a) + Spaces(b)
  {
    if a == "" {
      EmptyAppend(b);
    } else {
      SpacesAppend(a[1..], b);
      FirstOfAppend(a, b);
    }
  }

  /** Every token read costs a separator on top of its characters, and a quote is lost. */
  lemma {:induction false} ReadCost(r: Reader, s: string)
    ensures var run := Read(r, s);
            TotalLength(run.out) + |run.out| + |run.state.cur| + (if r.quote.None? && HasQuote(s) then 1 else 0)
            <= |r.cur| + |s|
    decreases |s|
  {
    if s != "" {
      var one := ReadChar(r, s[0]);
      var rest := Read(one.state, s[1..]);
      ReadStep(r, s);
      ReadCost(one.state, s[1..]);
      TotalLengthAppend(one.out, rest.out);
      HasQuoteFirst(s);
      assert TotalLength(one.out) + |one.out| + |one.state.cur| <= |r.cur| + 1;
    }
  }

  lemma HasQuoteFirst(s: string)
    requires s != ""
    ensures HasQuote(s) ==> IsQuote(s[0]) || HasQuote(s[1..])
  {
    if i :| 0 <= i < |s| && IsQuote(s[i]) {
      assert i > 0 ==> s[1..][i - 1] == s[i];
    }
  }

  /** Without quotes only separators are lost, and no token is empty. */
  lemma {:induction false} ReadUnquoted(r: Reader, s: string)
    requires r.quote.None? && (r.inToken <==> r.cur != "") && !HasQuote(s)
    ensures var run := Read(r, s);
            && TotalLength(run.out) + |run.state.cur| + Spaces(s) == |r.cur| + |s|
            && (run.state.inToken <==> run.state.cur != "")
            && "" !in run.out
    decreases |s|
  {
    if s != "" {
      var one := ReadChar(r, s[0]);
      var rest := Read(one.state, s[1..]);
      assert !IsQuote(s[0]);
      assert forall i :: 0 <= i < |s| - 1 ==> s[1..][i] == s[i + 1];
      ReadStep(r, s);
      ReadUnquoted(one.state, s[1..]);
      TotalLengthAppend(one.out, rest.out);
    }
  }

  lemma {:induction false} JoinCounts(argv: seq<string>)
    requires argv != []
    ensures |Join(argv)| == TotalLength(argv) + |argv| - 1
    ensures Spaces(Join(argv)) == TokenSpaces(argv) + |argv| - 1
  {
    if |argv| > 1 {
      JoinCounts(argv[1..]);
      SpacesAppend([' '], Join(argv[1..]));
      SpacesAppend(argv[0], [' '] + Join(argv[1..]));
      assert Spaces([' ']) == 1;
    }
  }

  lemma {:induction false} QuoteInJoin(argv: seq<string>, i: nat)
    requires i < |argv| && HasQuote(argv[i])
    ensures HasQuote(Join(argv))
  {
    if |argv| > 1 {
      var rest := [' '] + Join(argv[1..]);
      if i == 0 {
        var k :| 0 <= k < |argv[0]| && IsQuote(argv[0][k]);
        assert Join(argv)[k] == argv[0][k];
      } else {
        QuoteInJoin(argv[1..], i - 1);
        var k :| 0 <= k < |Join(argv[1..])| && IsQuote(Join(argv[1..])[k]);
        assert Join(argv)[|argv[0]| + 1 + k] == Join(argv[1..])[k];
      }
    }
  }

  lemma {:induction false} NoSpaceAt(s: string, k: nat)
    requires Spaces(s) == 0 && k < |s|
    ensures !IsSpace(s[k])
  {
    if k > 0 {
      NoSpaceAt(s[1..], k - 1);
    }
  }

  lemma {:induction false} NoTokenSpaces(tokens: seq<string>, i: nat)
    requires TokenSpaces(tokens) == 0 && i < |tokens|
    ensures Spaces(tokens[i]) == 0
  {
    if i > 0 {
      NoTokenSpaces(tokens[1..], i - 1);
    }
  }

  lemma SplitTotals(command: string)
    ensures TotalLength(Split(command)) + |Split(command)| + (if HasQuote(command) then 1 else 0) <= |command| + 1
    ensures !HasQuote(command) ==> TotalLength(Split(command)) + Spaces(command) == |command| && "" !in Split(command)
  {
    var run := Read(FRESH, command);
    ReadCost(FRESH, command);
    EmptyAppend(run.out);
    TotalLengthAppend(run.out, [run.state.cur]);
    assert TotalLength([run.state.cur]) == |run.state.cur|;
    if !HasQuote(command) {
      ReadUnquoted(FRESH, command);
    }
  }

  lemma OnlyPlainSurvives(argv: seq<string>, i: nat)
    requires Split(Join(argv)) == argv && i < |argv|
    ensures Plain(argv[i])
  {
    SplitTotals(Join(argv));
    JoinCounts(argv);
    assert !HasQuote(Join(argv));
    if HasQuote(argv[i]) {
      QuoteInJoin(argv, i);
    }
    NoTokenSpaces(argv, i);
    forall k | 0 <= k < |argv[i]| ensures !IsSpace(argv[i][k]) {
      NoSpaceAt(argv[i], k);
    }
  }

  /** An argv survives joining and splitting exactly when no token is empty or holds whitespace or a quote. */
  lemma JoinSplitsBackExactlyWhen(argv: seq<string>)
    ensures Split(Join(argv)) == argv <==> AllPlain(argv)
  {
    if AllPlain(argv) {
      SplitUndoesJoin(argv, argv);
    }
    if Split(Join(argv)) == argv {
      forall i | 0 <= i < |argv| ensures Plain(argv[i]) {
        OnlyPlainSurvives(argv, i);
      }
    }
  }

  // ---------------------------------------------------------------- replay

  /** The argv to start again: the structured one if it was recorded and can be read. */
  function StdioArgv(command: string, structured: Option<seq<string>>): seq<string> {
    if structured.Some? then structured.value else Split(command)
  }

  /** A session is replayed with its own argv if that was recorded, and otherwise exactly when it is plain. */
  lemma ReplayedExactlyWhen(argv: seq<string>, structured: bool)
    ensures StdioArgv(Join(argv), if structured then Some(argv) else None) == argv <==> structured || AllPlain(argv)
  {
    JoinSplitsBackExactlyWhen(argv);
  }

  // ---------------------------------------------------------------- single characters

  /** The code points with the White_Space property. */
  const WHITE: set<int> := {
    9, 10, 11, 12, 13, 32, 0x85, 0xA0, 0x1680, 0x2000, 0x2001, 0x2002, 0x2003, 0x2004, 0x2005, 0x2006, 0x2007, 0x2008,
    0x2009, 0x200A, 0x2028, 0x2029, 0x202F, 0x205F, 0x3000 }

  /** What one character does between two others: white space splits, a quote goes, everything else stays. */
  lemma OneCharacter(c: char)
    ensures Split("a" + [c] + "b") ==
            if c as int in WHITE then ["a", "b"]
            else if c == '"' || c == '\'' then ["ab"]
            else ["a" + [c] + "b"]
  {
    var s, a := "a" + [c] + "b", Reader("a", true, None);
    assert s == ['a', c, 'b'] && s[1..] == [c, 'b'] && [c, 'b'][1..] == ['b'] && ['b'][1..] == [];
    assert [] + ['a'] == "a" && [] + ['b'] == "b" && "a" + ['b'] == "ab" && ("a" + [c]) + ['b'] == s;
    assert ReadChar(FRESH, 'a') == Run(a, []);
    ReadStep(FRESH, s);
    ReadStep(a, [c, 'b']);
    ReadStep(ReadChar(a, c).state, ['b']);
    assert IsSpace(c) <==> c as int in WHITE;
    assert Read(ReadChar(ReadChar(a, c).state, 'b').state, []) == Run(ReadChar(ReadChar(a, c).state, 'b').state, []);
  }
}
