/**
 A reader of compact JSON after RFC 8259, which gives back every value from its printed text,
 whatever follows: so the text determines the value.
 */
module JsonText {
  import opened Common
  import opened Json
  import opened Sequences

  /** What was read, and the text after it. */
  datatype Read<T> = Read(value: T, rest: string)

  // ---------------------------------------------------------------- strings

  function HexValue(c: char): Option<nat> {
    if '0' <= c <= '9' then Some(c as int - 48)
    else if 'a' <= c <= 'f' then Some(c as int - 87)
    else if 'A' <= c <= 'F' then Some(c as int - 55)
    else None
  }

  /** Four hexadecimal digits, as long as they are no half of a surrogate pair. */
  function CodeUnit(s: string): Option<char>
    requires |s| == 4
  {
    var a, b, c, d := HexValue(s[0]), HexValue(s[1]), HexValue(s[2]), HexValue(s[3]);
    if a.None? || b.None? || c.None? || d.None? then None
    else
      var n := ((a.value * 16 + b.value) * 16 + c.value) * 16 + d.value;
      if 0 <= n < 0xD800 || 0xE000 <= n < 0x10000 then Some(n as char) else None
  }

  /** The two-character escapes of section 7. */
  function Short(c: char): Option<char> {
    match c
    case '"' => Some('"')
    case '\\' => Some('\\')
    case '/' => Some('/')
    case 'b' => Some(8 as char)
    case 'f' => Some(12 as char)
    case 'n' => Some(10 as char)
    case 'r' => Some(13 as char)
    case 't' => Some(9 as char)
    case _ => None
  }

  function Prepend(c: char, r: Option<Read<string>>): Option<Read<string>> {
    if r.Some? then Some(Read([c] + r.value.value, r.value.rest)) else None
  }

  /** The rest of a string, up to the closing quote. */
  function ReadChars(s: string): (r: Option<Read<string>>)
    ensures r.Some? ==> |r.value.rest| < |s|
    decreases |s|
  {
    if s == "" || s[0] as int < 32 then None
    else if s[0] == '"' then Some(Read("", s[1..]))
    else if s[0] != '\\' then Prepend(s[0], ReadChars(s[1..]))
    else if |s| == 1 then None
    else if s[1] != 'u' then
      if Short(s[1]).Some? then Prepend(Short(s[1]).value, ReadChars(s[2..])) else None
    else if |s| < 6 || CodeUnit(s[2..6]).None? then None
    else Prepend(CodeUnit(s[2..6]).value, ReadChars(s[6..]))
  }

  // ---------------------------------------------------------------- values

  /** How many characters of a number the text starts with. */
  function NumberSpan(s: string): (n: nat)
    ensures n <= |s|
  {
    if s == "" || !NumberChar(s[0]) then 0 else 1 + NumberSpan(s[1..])
  }

  function ReadValue(s: string): (r: Option<Read<Json>>)
    ensures r.Some? ==> |r.value.rest| < |s|
    decreases |s|, 0
  {
    if s == "" then None
    else if s[0] == '"' then
      var t := ReadChars(s[1..]);
      if t.Some? then Some(Read(Str(t.value.value), t.value.rest)) else None
    else if s[0] == '[' then
      if |s| > 1 && s[1] == ']' then Some(Read(Array([]), s[2..]))
      else
        var t := ReadItems(s[1..]);
        if t.Some? then Some(Read(Array(t.value.value), t.value.rest)) else None
    else if s[0] == '{' then
      if |s| > 1 && s[1] == '}' then Some(Read(Object([]), s[2..]))
      else
        var t := ReadMembers(s[1..]);
        if t.Some? then Some(Read(Object(t.value.value), t.value.rest)) else None
    else if "null" <= s then Some(Read(Null, s[4..]))
    else if "true" <= s then Some(Read(Bool(true), s[4..]))
    else if "false" <= s then Some(Read(Bool(false), s[5..]))
    else
      var n := NumberSpan(s);
      if NumberText(s[..n]) then Some(Read(Number(s[..n]), s[n..])) else None
  }

  /** One value or more, separated by commas, up to the closing bracket. */
  function ReadItems(s: string): (r: Option<Read<seq<Json>>>)
    ensures r.Some? ==> |r.value.rest| < |s|
    decreases |s|, 1
  {
    var first := ReadValue(s);
    if first.None? || first.value.rest == "" then None
    else if first.value.rest[0] == ']' then Some(Read([first.value.value], first.value.rest[1..]))
    else if first.value.rest[0] != ',' then None
    else
      var more := ReadItems(first.value.rest[1..]);
      if more.Some? then Some(Read([first.value.value] + more.value.value, more.value.rest)) else None
  }

  function ReadMember(s: string): (r: Option<Read<Member>>)
    ensures r.Some? ==> |r.value.rest| < |s|
    decreases |s|, 1
  {
    if s == "" || s[0] != '"' then None
    else
      var key := ReadChars(s[1..]);
      if key.None? || key.value.rest == "" || key.value.rest[0] != ':' then None
      else
        var v := ReadValue(key.value.rest[1..]);
        if v.Some? then Some(Read(Member(key.value.value, v.value.value), v.value.rest)) else None
  }

  function ReadMembers(s: string): (r: Option<Read<seq<Member>>>)
    ensures r.Some? ==> |r.value.rest| < |s|
    decreases |s|, 2
  {
    var first := ReadMember(s);
    if first.None? || first.value.rest == "" then None
    else if first.value.rest[0] == '}' then Some(Read([first.value.value], first.value.rest[1..]))
    else if first.value.rest[0] != ',' then None
    else
      var more := ReadMembers(first.value.rest[1..]);
      if more.Some? then Some(Read([first.value.value] + more.value.value, more.value.rest)) else None
  }

  /** A text that is one value and nothing else. */
  function ReadJson(s: string): Option<Json> {
    var r := ReadValue(s);
    if r.Some? && r.value.rest == "" then Some(r.value.value) else None
  }

  // ---------------------------------------------------------------- the round trip

  /** What can follow a value inside a document. */
  predicate Delimited(s: string) {
    s == "" || s[0] in {',', ']', '}'}
  }

  ghost predicate WellFormedItems(items: seq<Json>) {
    forall i :: 0 <= i < |items| ==> WellFormed(items[i])
  }

  ghost predicate WellFormedMembers(ms: seq<Member>) {
    forall i :: 0 <= i < |ms| ==> WellFormed(ms[i].json)
  }

  lemma HexReads(n: nat)
    requires n < 16
    ensures HexValue(HexDigit(n)) == Some(n)
  {
  }

  lemma EscapedReads(c: char, rest: string)
    ensures ReadChars(EscapeChar(c) + rest) == Prepend(c, ReadChars(rest))
  {
    var e := EscapeChar(c);
    var s := e + rest;
    assert s[|e|..] == rest;
    if |e| == 6 {
      HexReads(c as int / 16);
      HexReads(c as int % 16);
      assert s[2..6] == ['0', '0', HexDigit(c as int / 16), HexDigit(c as int % 16)];
      assert CodeUnit(s[2..6]) == Some(c);
    }
  }

  lemma {:induction false} StringReads(a: string, x: string)
    ensures ReadChars(Escape(a) + ['"'] + x) == Some(Read(a, x))
  {
    if a == "" {
      EmptyAppend(['"']);
      assert (['"'] + x)[1..] == x;
    } else {
      AppendAssociates(EscapeChar(a[0]), Escape(a[1..]), ['"']);
      AppendAssociates(EscapeChar(a[0]), Escape(a[1..]) + ['"'], x);
      EscapedReads(a[0], Escape(a[1..]) + ['"'] + x);
      StringReads(a[1..], x);
      assert a == [a[0]] + a[1..];
    }
  }

  lemma {:induction false} NumberReads(text: string, x: string)
    requires (forall i :: 0 <= i < |text| ==> NumberChar(text[i])) && Delimited(x)
    ensures NumberSpan(text + x) == |text|
    decreases |text|
  {
    if text == "" {
      EmptyAppend(x);
    } else {
      FirstOfAppend(text, x);
      NumberReads(text[1..], x);
    }
  }

  lemma ItemsSplit(items: seq<Json>, x: string)
    requires items != []
    ensures SerializeItems(items) + [']'] + x == Serialize(items[0]) + (MoreItems(items[1..]) + [']'] + x)
    ensures MoreItems(items) + [']'] + x == [','] + (Serialize(items[0]) + (MoreItems(items[1..]) + [']'] + x))
  {
    var first, more := Serialize(items[0]), MoreItems(items[1..]);
    AppendAssociates(first, more, [']']);
    AppendAssociates(first, more + [']'], x);
    AppendAssociates([','], first, more);
    AppendAssociates([','], first + more, [']']);
    AppendAssociates([','], first + more + [']'], x);
  }

  lemma MoreItemsDelimited(items: seq<Json>, x: string)
    ensures Delimited(MoreItems(items) + [']'] + x)
    ensures MoreItems(items) + [']'] + x != "" && ((MoreItems(items) + [']'] + x)[0] == ']' <==> items == [])
  {
    if items == [] {
      EmptyAppend([']']);
      assert ([']'] + x)[0] == ']';
    } else {
      ItemsSplit(items, x);
    }
  }

  lemma MembersSplit(ms: seq<Member>, x: string)
    requires ms != []
    ensures SerializeMembers(ms) + ['}'] + x == SerializeMember(ms[0]) + (MoreMembers(ms[1..]) + ['}'] + x)
    ensures MoreMembers(ms) + ['}'] + x == [','] + (SerializeMember(ms[0]) + (MoreMembers(ms[1..]) + ['}'] + x))
  {
    var first, more := SerializeMember(ms[0]), MoreMembers(ms[1..]);
    AppendAssociates(first, more, ['}']);
    AppendAssociates(first, more + ['}'], x);
    AppendAssociates([','], first, more);
    AppendAssociates([','], first + more, ['}']);
    AppendAssociates([','], first + more + ['}'], x);
  }

  lemma MoreMembersDelimited(ms: seq<Member>, x: string)
    ensures Delimited(MoreMembers(ms) + ['}'] + x)
    ensures MoreMembers(ms) + ['}'] + x != "" && ((MoreMembers(ms) + ['}'] + x)[0] == '}' <==> ms == [])
  {
    if ms == [] {
      EmptyAppend(['}']);
      assert (['}'] + x)[0] == '}';
    } else {
      MembersSplit(ms, x);
    }
  }

  lemma MemberSplit(m: Member, x: string)
    ensures SerializeMember(m) + x == Quote(m.key) + ([':'] + (Serialize(m.json) + x))
  {
    AppendAssociates(Quote(m.key), [':'], Serialize(m.json));
    AppendAssociates(Quote(m.key), [':'] + Serialize(m.json), x);
    AppendAssociates([':'], Serialize(m.json), x);
  }

  lemma WordReads(v: Json, x: string)
    requires v.Null? || v.Bool?
    ensures ReadValue(Serialize(v) + x) == Some(Read(v, x))
  {
    var s := Serialize(v) + x;
    assert s[|Serialize(v)|..] == x;
    assert s[0] == Serialize(v)[0];
    assert v.Null? ==> "null" <= s;
    assert v == Bool(true) ==> "true" <= s;
    assert v == Bool(false) ==> "false" <= s;
  }

  lemma NumberValueReads(text: string, x: string)
    requires NumberText(text) && Delimited(x)
    ensures ReadValue(text + x) == Some(Read(Number(text), x))
  {
    var s := text + x;
    NumberReads(text, x);
    assert s[0] == text[0];
    assert s[..|text|] == text && s[|text|..] == x;
  }

  lemma StringValueReads(a: string, x: string)
    ensures ReadValue(Quote(a) + x) == Some(Read(Str(a), x))
  {
    var t := Escape(a) + ['"'] + x;
    assert Quote(a) + x == ['"'] + t;
    assert (['"'] + t)[1..] == t;
    StringReads(a, x);
  }

  /** What stands between brackets, read from its first character on. */
  lemma Inside(open: char, inner: string, close: char, x: string)
    ensures var s := [open] + inner + [close] + x;
            s[0] == open && s[1..] == inner + [close] + x
  {
    assert [open] + inner + [close] + x == [open] + (inner + [close] + x);
  }

  lemma EmptyReads(x: string)
    ensures ReadValue(['['] + "" + [']'] + x) == Some(Read(Array([]), x))
    ensures ReadValue(['{'] + "" + ['}'] + x) == Some(Read(Object([]), x))
  {
    var a, o := ['['] + "" + [']'] + x, ['{'] + "" + ['}'] + x;
    assert a[1] == ']' && a[2..] == x;
    assert o[1] == '}' && o[2..] == x;
  }

  /** No value starts as a list ends. */
  lemma StartsAValue(v: Json, x: string)
    requires WellFormed(v)
    ensures Serialize(v) + x != "" && (Serialize(v) + x)[0] !in {']', '}'}
  {
  }

  /** Reading a printed value gives it back, and leaves what follows. */
  lemma {:induction false} ValueReads(v: Json, x: string)
    requires WellFormed(v) && Delimited(x)
    ensures ReadValue(Serialize(v) + x) == Some(Read(v, x))
    decreases v, 0
  {
    match v {
      case Null | Bool(_) =>
        WordReads(v, x);
      case Number(text) =>
        NumberValueReads(text, x);
      case Str(a) =>
        StringValueReads(a, x);
      case Array(items) =>
        if items == [] {
          EmptyReads(x);
        } else {
          Inside('[', SerializeItems(items), ']', x);
          ItemsSplit(items, x);
          StartsAValue(items[0], MoreItems(items[1..]) + [']'] + x);
          ItemsRead(items, x);
        }
      case Object(ms) =>
        if ms == [] {
          EmptyReads(x);
        } else {
          Inside('{', SerializeMembers(ms), '}', x);
          MembersSplit(ms, x);
          assert SerializeMember(ms[0])[0] == '"';
          MembersRead(ms, x);
        }
    }
  }

  lemma OneItemRead(s: string, v: Json, rest: string)
    requires ReadValue(s) == Some(Read(v, [']'] + rest))
    ensures ReadItems(s) == Some(Read([v], rest))
  {
    assert ([']'] + rest)[1..] == rest;
  }

  lemma MoreItemsRead(s: string, v: Json, rest: string, items: seq<Json>, x: string)
    requires ReadValue(s) == Some(Read(v, [','] + rest)) && ReadItems(rest) == Some(Read(items, x))
    ensures ReadItems(s) == Some(Read([v] + items, x))
  {
    assert ([','] + rest)[1..] == rest;
  }

  /** A list of values as text: the first one, and what follows it. */
  lemma ItemsText(items: seq<Json>, x: string) returns (rest: string)
    requires items != []
    ensures SerializeItems(items) + [']'] + x == Serialize(items[0]) + rest && Delimited(rest)
    ensures items[1..] == [] ==> rest == [']'] + x
    ensures items[1..] != [] ==> rest == [','] + (SerializeItems(items[1..]) + [']'] + x)
  {
    rest := MoreItems(items[1..]) + [']'] + x;
    ItemsSplit(items, x);
    MoreItemsDelimited(items[1..], x);
    if items[1..] == [] {
      EmptyAppend([']']);
    } else {
      ItemsSplit(items[1..], x);
    }
  }

  lemma {:induction false} ItemsRead(items: seq<Json>, x: string)
    requires WellFormedItems(items) && items != []
    ensures ReadItems(SerializeItems(items) + [']'] + x) == Some(Read(items, x))
    decreases items, 1
  {
    var v, more := items[0], items[1..];
    var rest := ItemsText(items, x);
    ValueReads(v, rest);
    assert items == [v] + more;
    if more == [] {
      EmptyAppend([v]);
      OneItemRead(Serialize(v) + rest, v, x);
    } else {
      ItemsRead(more, x);
      MoreItemsRead(Serialize(v) + rest, v, SerializeItems(more) + [']'] + x, more, x);
    }
  }

  lemma {:induction false} MemberReads(m: Member, x: string)
    requires WellFormed(m.json) && Delimited(x)
    ensures ReadMember(SerializeMember(m) + x) == Some(Read(m, x))
    decreases m, 1
  {
    var rest := [':'] + (Serialize(m.json) + x);
    var t := Escape(m.key) + ['"'] + rest;
    MemberSplit(m, x);
    assert Quote(m.key) + rest == ['"'] + t;
    assert (['"'] + t)[1..] == t;
    StringReads(m.key, rest);
    assert rest[1..] == Serialize(m.json) + x;
    ValueReads(m.json, x);
  }

  lemma OneMemberRead(s: string, m: Member, rest: string)
    requires ReadMember(s) == Some(Read(m, ['}'] + rest))
    ensures ReadMembers(s) == Some(Read([m], rest))
  {
    assert (['}'] + rest)[1..] == rest;
  }

  lemma MoreMembersRead(s: string, m: Member, rest: string, ms: seq<Member>, x: string)
    requires ReadMember(s) == Some(Read(m, [','] + rest)) && ReadMembers(rest) == Some(Read(ms, x))
    ensures ReadMembers(s) == Some(Read([m] + ms, x))
  {
    assert ([','] + rest)[1..] == rest;
  }

  lemma MembersText(ms: seq<Member>, x: string) returns (rest: string)
    requires ms != []
    ensures SerializeMembers(ms) + ['}'] + x == SerializeMember(ms[0]) + rest && Delimited(rest)
    ensures ms[1..] == [] ==> rest == ['}'] + x
    ensures ms[1..] != [] ==> rest == [','] + (SerializeMembers(ms[1..]) + ['}'] + x)
  {
    rest := MoreMembers(ms[1..]) + ['}'] + x;
    MembersSplit(ms, x);
    MoreMembersDelimited(ms[1..], x);
    if ms[1..] == [] {
      EmptyAppend(['}']);
    } else {
      MembersSplit(ms[1..], x);
    }
  }

  lemma {:induction false} MembersRead(ms: seq<Member>, x: string)
    requires WellFormedMembers(ms) && ms != []
    ensures ReadMembers(SerializeMembers(ms) + ['}'] + x) == Some(Read(ms, x))
    decreases ms, 1
  {
    var m, more := ms[0], ms[1..];
    var rest := MembersText(ms, x);
    MemberReads(m, rest);
    assert ms == [m] + more;
    if more == [] {
      EmptyAppend([m]);
      OneMemberRead(SerializeMember(m) + rest, m, x);
    } else {
      MembersRead(more, x);
      MoreMembersRead(SerializeMember(m) + rest, m, SerializeMembers(more) + ['}'] + x, more, x);
    }
  }

  /** Every value is given back from its text. */
  lemma ReadsBack(v: Json)
    requires WellFormed(v)
    ensures ReadJson(Serialize(v)) == Some(v)
  {
    ValueReads(v, "");
    EmptyAppend(Serialize(v));
  }

  /** No two values print alike, whatever follows them. */
  lemma TextDetermines(v: Json, x: string, w: Json, y: string)
    requires WellFormed(v) && WellFormed(w) && Delimited(x) && Delimited(y)
    requires Serialize(v) + x == Serialize(w) + y
    ensures v == w && x == y
  {
    ValueReads(v, x);
    ValueReads(w, y);
  }

  // ---------------------------------------------------------------- which text

  /**
   Of the texts a reader would take for a character, the shortest is printed: two characters where
   section 7 has a letter for it, six (with small hexadecimal digits) for the other control
   characters, and the character itself for all the rest, the slash included.
   */
  lemma EscapesAreShort(c: char)
    ensures |Escape([c])| == if c != '/' && exists letter :: Short(letter) == Some(c) then 2
                             else if c as int < 32 then 6 else 1
    ensures forall i :: 0 <= i < |Escape([c])| ==> Escape([c])[i] == c || !('A' <= Escape([c])[i] <= 'Z')
  {
    assert [c][1..] == "" && Escape([c]) == EscapeChar(c) + Escape("");
    EmptyAppend(EscapeChar(c));
    assert Short('"') == Some('"') && Short('\\') == Some('\\');
    assert Short('b') == Some(8 as char) && Short('f') == Some(12 as char) && Short('n') == Some(10 as char);
    assert Short('r') == Some(13 as char) && Short('t') == Some(9 as char);
  }

  /** Text without quotes, backslashes and control characters is printed as it is. */
  lemma {:induction false} PlainText(s: string)
    requires forall i :: 0 <= i < |s| ==> s[i] as int >= 32 && s[i] != '"' && s[i] != '\\'
    ensures Quote(s) == ['"'] + s + ['"'] && Escape(s) == s
  {
    if s != "" {
      PlainText(s[1..]);
      assert s == [s[0]] + s[1..];
    }
  }
}
