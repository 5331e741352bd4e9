/**
 The policy from the frames themselves: which request is withheld, why, and what exactly is
 answered in its place.
 */
module PolicyFrames {
  import opened Common
  import opened Sequences
  import opened Lines
  import opened Json
  import opened JsonText
  import opened JsonMembers
  import opened Policy

  // ---------------------------------------------------------------- UTF-8

  predicate Continues(b: byte) {
    0x80 <= b < 0xC0
  }

  /** The first character of a text after RFC 3629, and how many bytes it takes. */
  function FirstCharacter(b: Bytes): (r: Option<(char, nat)>)
    ensures r.Some? ==> 1 <= r.value.1 <= |b|
  {
    if b == [] then None
    else if b[0] < 0x80 then Some((b[0] as char, 1))
    else if 0xC2 <= b[0] < 0xE0 && |b| >= 2 && Continues(b[1]) then
      Some((((b[0] as int - 0xC0) * 0x40 + (b[1] as int - 0x80)) as char, 2))
    else if 0xE0 <= b[0] < 0xF0 && |b| >= 3 && Continues(b[1]) && Continues(b[2]) then
      var n := ((b[0] as int - 0xE0) * 0x40 + (b[1] as int - 0x80)) * 0x40 + (b[2] as int - 0x80);
      if 0x800 <= n < 0xD800 || 0xE000 <= n < 0x10000 then Some((n as char, 3)) else None
    else if 0xF0 <= b[0] < 0xF5 && |b| >= 4 && Continues(b[1]) && Continues(b[2]) && Continues(b[3]) then
      var n := (((b[0] as int - 0xF0) * 0x40 + (b[1] as int - 0x80)) * 0x40 + (b[2] as int - 0x80)) * 0x40
               + (b[3] as int - 0x80);
      if 0x10000 <= n < 0x110000 then Some((n as char, 4)) else None
    else None
  }

  function ReadUtf8(b: Bytes): Option<string>
    decreases |b|
  {
    if b == [] then Some("")
    else
      var first := FirstCharacter(b);
      if first.None? then None
      else
        var rest := ReadUtf8(b[first.value.1..]);
        if rest.Some? then Some([first.value.0] + rest.value) else None
  }

  lemma TwoBytes(c: char, rest: Bytes)
    requires 0x80 <= c as int < 0x800
    ensures FirstCharacter(Utf8Char(c) + rest) == Some((c, 2)) && |Utf8Char(c)| == 2
  {
    var n := c as int;
    assert n == (n / 0x40) * 0x40 + n % 0x40;
  }

  lemma ThreeBytes(c: char, rest: Bytes)
    requires 0x800 <= c as int < 0x10000
    ensures FirstCharacter(Utf8Char(c) + rest) == Some((c, 3)) && |Utf8Char(c)| == 3
  {
    var n := c as int;
    assert n == ((n / 0x1000) * 0x40 + n / 0x40 % 0x40) * 0x40 + n % 0x40;
  }

  lemma FourBytes(c: char, rest: Bytes)
    requires 0x10000 <= c as int
    ensures FirstCharacter(Utf8Char(c) + rest) == Some((c, 4)) && |Utf8Char(c)| == 4
  {
    var n := c as int;
    assert n == (((n / 0x40000) * 0x40 + n / 0x1000 % 0x40) * 0x40 + n / 0x40 % 0x40) * 0x40 + n % 0x40;
  }

  lemma CharacterReads(c: char, rest: Bytes)
    ensures FirstCharacter(Utf8Char(c) + rest) == Some((c, |Utf8Char(c)|))
  {
    if 0x10000 <= c as int {
      FourBytes(c, rest);
    } else if 0x800 <= c as int {
      ThreeBytes(c, rest);
    } else if 0x80 <= c as int {
      TwoBytes(c, rest);
    }
  }

  /** Every text is read back from its bytes. */
  lemma {:induction false} Utf8Reads(s: string)
    ensures ReadUtf8(Utf8(s)) == Some(s)
  {
    if s != "" {
      CharacterReads(s[0], Utf8(s[1..]));
      assert (Utf8Char(s[0]) + Utf8(s[1..]))[|Utf8Char(s[0])|..] == Utf8(s[1..]);
      Utf8Reads(s[1..]);
      assert s == [s[0]] + s[1..];
    }
  }

  // ---------------------------------------------------------------- the answer to a blocked request

  /** The error object of a refusal. */
  ghost predicate ErrorSays(error: Json, rule: string) {
    Has(error, "code", Number("-32001")) && Has(error, "message", Str("blocked by mcpglass policy: " + rule))
  }

  /** A JSON-RPC error for this id that cites this rule. */
  ghost predicate RefusalSays(v: Json, id: Json, rule: string) {
    && Has(v, "jsonrpc", Str("2.0")) && Has(v, "id", id)
    && exists error :: Has(v, "error", error) && ErrorSays(error, rule)
  }

  lemma BodySays(id: Json, rule: string)
    ensures RefusalSays(ErrorBody(id, rule), id, rule)
  {
    var ms := ErrorBody(id, rule).members;
    assert ms[0] in ms && ms[1] in ms && ms[2] in ms;
    var error := ms[2].json;
    assert error.members[0] in error.members && error.members[1] in error.members;
    assert ErrorSays(error, rule);
  }

  /** One line (with its newline, 10) that a client reads as this error. */
  ghost predicate Refusal(reply: Bytes, id: Json, rule: string) {
    exists body: Bytes, text: string, v: Json ::
      && reply == body + [10] && 10 !in body
      && ReadUtf8(body) == Some(text) && ReadJson(text) == Some(v) && RefusalSays(v, id, rule)
  }

  lemma ErrorFrameReads(id: Json, rule: string)
    requires WellFormed(id)
    ensures Refusal(ErrorFrame(id, rule), id, rule)
  {
    var v := ErrorBody(id, rule);
    var text := Serialize(v);
    ErrorBodyWellFormed(id, rule);
    SerializedNoNewline(v);
    Utf8NoLf(text);
    Utf8Reads(text);
    ReadsBack(v);
    BodySays(id, rule);
    assert ErrorFrame(id, rule) == Utf8(text) + [10];
  }

  /** What becomes of a frame: refused under its own id for the first finding, dropped if it has none, or passed. */
  lemma RefusedUnderItsId(value: Json, rules: Rules, scan: string -> seq<Secret>)
    requires WellFormed(value)
    ensures var d := Decide(Some(value), rules, scan);
            && (d.action.Refuse? ==> d.events != [] && exists id ::
                  Has(value, "id", id) && !id.Null? && Refusal(d.action.reply, id, d.events[0].event.rule))
            && (d.action.Swallow? ==> forall id :: Has(value, "id", id) ==> id.Null?)
  {
    var d := Decide(Some(value), rules, scan);
    ReportsAreTrue(value, rules, scan);
    if d.action.Refuse? {
      var id := Get(value, "id").value;
      GetIsHas(value, "id", id);
      MemberWellFormed(value, "id", id);
      ErrorFrameReads(id, d.events[0].event.rule);
    } else if d.action.Swallow? {
      forall id | Has(value, "id", id)
        ensures id.Null?
      {
        GetIsHas(value, "id", id);
      }
    }
  }

  // ---------------------------------------------------------------- why a request is withheld

  /** The text under `params`, at this key. */
  ghost predicate Param(v: Json, key: string, w: Json) {
    exists params :: Has(v, "params", params) && Has(params, key, w)
  }

  /** A rule names a tool, or ends in a star and starts like it. */
  ghost predicate Covers(rule: string, name: string) {
    rule == name || exists front, rest :: rule == front + "*" && name == front + rest
  }

  lemma CoversExactly(rule: string, name: string)
    ensures MatchesRule(rule, name) <==> Covers(rule, name)
  {
    if rule != "" && rule[|rule| - 1] == '*' {
      var front := rule[..|rule| - 1];
      assert rule == front + "*";
      if front <= name {
        assert name == front + name[|front|..];
      }
    }
    if front, rest :| rule == front + "*" && name == front + rest {
      assert rule[..|rule| - 1] == front;
    }
  }

  lemma ParamStr(v: Json, key: string, s: string)
    requires WellFormed(v)
    ensures Get(v, "params").Some? && GetStr(Get(v, "params").value, key) == Some(s) <==> Param(v, key, Str(s))
  {
    ParamAt(v, key, Str(s));
  }

  lemma ParamAt(v: Json, key: string, w: Json)
    requires WellFormed(v)
    ensures Get(v, "params").Some? && Get(Get(v, "params").value, key) == Some(w) <==> Param(v, key, w)
  {
    if Get(v, "params").Some? {
      var params := Get(v, "params").value;
      GetIsHas(v, "params", params);
      MemberWellFormed(v, "params", params);
      GetIsHas(params, key, w);
    }
    if params :| Has(v, "params", params) && Has(params, key, w) {
      GetIsHas(v, "params", params);
    }
  }

  /** The deny list covers the tool that is called, or there is an allow list without it. */
  ghost predicate Forbidden(v: Json, rules: Rules) {
    || (exists name, rule :: Param(v, "name", Str(name)) && rule in rules.deny && Covers(rule, name))
    || (rules.allow != [] && forall name :: Param(v, "name", Str(name)) ==> name !in rules.allow)
  }

  /** Some string in the arguments of the call is a secret. */
  ghost predicate Betrays(v: Json, scan: string -> seq<Secret>) {
    exists arguments, s :: Param(v, "arguments", arguments) && arguments.Object? && Occurs(s, arguments)
        && scan(s) != []
  }

  lemma ForbiddenExactly(v: Json, rules: Rules)
    requires WellFormed(v)
    ensures Refused(rules, ToolName(v)) <==> Forbidden(v, rules)
  {
    forall name: string
      ensures ToolName(v) == Some(name) <==> Param(v, "name", Str(name))
    {
      ParamStr(v, "name", name);
    }
    forall rule: string, name: string
      ensures MatchesRule(rule, name) <==> Covers(rule, name)
    {
      CoversExactly(rule, name);
    }
    if ToolName(v).Some? {
      assert Param(v, "name", Str(ToolName(v).value));
    }
  }

  lemma BetraysExactly(v: Json, scan: string -> seq<Secret>)
    requires WellFormed(v)
    ensures Leaks(scan, v) <==> Betrays(v, scan)
  {
    forall arguments: Json
      ensures CallArguments(v) == Some(arguments) <==> Param(v, "arguments", arguments)
    {
      ParamAt(v, "arguments", arguments);
    }
    if CallArguments(v).Some? {
      assert Param(v, "arguments", CallArguments(v).value);
    }
  }

  /**
   Exactly which frames are withheld: in enforce mode the calls of a tool that is forbidden, and with
   the secret scan on also those that betray a secret. Everything else is passed on.
   */
  lemma WithheldExactlyWhen(v: Json, rules: Rules, scan: string -> seq<Secret>)
    requires WellFormed(v)
    ensures Decide(Some(v), rules, scan).action != Pass <==>
            && rules.mode == Enforce && Has(v, "method", Str("tools/call"))
            && (Forbidden(v, rules) || (rules.secretScan && Betrays(v, scan)))
  {
    GetStrIsHas(v, "method", "tools/call");
    BlockedExactlyWhen(v, rules, scan);
    ForbiddenExactly(v, rules);
    BetraysExactly(v, scan);
  }

  // ---------------------------------------------------------------- what is reported

  /** No deny rule covers the tool that is called. */
  ghost predicate Uncovered(v: Json, rules: Rules) {
    forall rule, name :: rule in rules.deny && Param(v, "name", Str(name)) ==> !Covers(rule, name)
  }

  /** What the lists have to say of a call: the first deny rule that covers it, or that it is not allowed. */
  ghost predicate ListFinding(v: Json, rules: Rules, findings: seq<Event>) {
    var tool := ToolName(v);
    && (forall i, name | 0 <= i < |rules.deny| && Param(v, "name", Str(name)) && Covers(rules.deny[i], name)
                         && (forall j :: 0 <= j < i ==> !Covers(rules.deny[j], name)) ::
          findings == [Event(PolicyDeny, rules.deny[i], Some(name), None)])
    && (Forbidden(v, rules) && Uncovered(v, rules) ==>
          findings == [Event(PolicyDeny, if tool.Some? then tool.value else "<missing name>", tool, None)])
    && (!Forbidden(v, rules) ==> findings == [])
  }

  lemma {:induction false} FirstDenyIs(deny: seq<string>, name: string, i: nat)
    requires i < |deny| && MatchesRule(deny[i], name) && forall j :: 0 <= j < i ==> !MatchesRule(deny[j], name)
    ensures FirstDeny(deny, name) == Some(deny[i])
  {
    if i > 0 {
      assert !MatchesRule(deny[0], name);
      FirstDenyIs(deny[1..], name, i - 1);
    }
  }

  lemma DenyEventsAre(v: Json, rules: Rules)
    requires WellFormed(v)
    ensures ListFinding(v, rules, DenyEvents(rules, ToolName(v)))
  {
    var tool, findings := ToolName(v), DenyEvents(rules, ToolName(v));
    ForbiddenExactly(v, rules);
    forall rule: string, name: string
      ensures MatchesRule(rule, name) <==> Covers(rule, name)
      ensures tool == Some(name) <==> Param(v, "name", Str(name))
    {
      CoversExactly(rule, name);
      ParamStr(v, "name", name);
    }
    forall i, name | 0 <= i < |rules.deny| && Param(v, "name", Str(name)) && Covers(rules.deny[i], name)
                     && (forall j :: 0 <= j < i ==> !Covers(rules.deny[j], name))
      ensures findings == [Event(PolicyDeny, rules.deny[i], Some(name), None)]
    {
      FirstDenyIs(rules.deny, name, i);
    }
    if tool.Some? {
      DenyFinds(rules.deny, tool.value);
    }
  }

  /**
   The strings inside a value one after the other: those of an array or an object, member by
   member; keys are none.
   */
  lemma {:induction false} StringsInOrder(items: seq<Json>, x: Json, ms: seq<Member>, m: Member, s: string)
    ensures StringsIn(Str(s)) == [s]
    ensures StringsIn(Array([])) == [] && StringsIn(Array(items + [x])) == StringsIn(Array(items)) + StringsIn(x)
    ensures StringsIn(Object([])) == [] && StringsIn(Object(ms + [m])) == StringsIn(Object(ms)) + StringsIn(m.json)
  {
    ItemStrings(items, x);
    MemberStrings(ms, m);
  }

  lemma {:induction false} ItemStrings(items: seq<Json>, x: Json)
    ensures StringsInItems(items + [x]) == StringsInItems(items) + StringsIn(x)
  {
    if items == [] {
      EmptyAppend([x]);
      assert [x][1..] == [];
      EmptyAppend(StringsIn(x));
    } else {
      ItemStrings(items[1..], x);
      FirstOfAppend(items, [x]);
      AppendAssociates(StringsIn(items[0]), StringsInItems(items[1..]), StringsIn(x));
    }
  }

  lemma {:induction false} MemberStrings(ms: seq<Member>, m: Member)
    ensures StringsInMembers(ms + [m]) == StringsInMembers(ms) + StringsIn(m.json)
  {
    if ms == [] {
      EmptyAppend([m]);
      assert [m][1..] == [];
      EmptyAppend(StringsIn(m.json));
    } else {
      MemberStrings(ms[1..], m);
      FirstOfAppend(ms, [m]);
      AppendAssociates(StringsIn(ms[0].json), StringsInMembers(ms[1..]), StringsIn(m.json));
    }
  }

  /** The secrets in these texts, text by text. */
  function Secrets(scan: string -> seq<Secret>, texts: seq<string>): seq<Secret> {
    if texts == [] then []
    else
      var n := |texts| - 1;
      Secrets(scan, texts[..n]) + scan(texts[n])
  }

  lemma {:induction false} ScansInOrder(scan: string -> seq<Secret>, texts: seq<string>, s: string)
    ensures ScanAll(scan, texts + [s]) == ScanAll(scan, texts) + scan(s)
  {
    if texts == [] {
      EmptyAppend([s]);
      assert [s][1..] == [];
      EmptyAppend(scan(s));
    } else {
      ScansInOrder(scan, texts[1..], s);
      FirstOfAppend(texts, [s]);
      AppendAssociates(scan(texts[0]), ScanAll(scan, texts[1..]), scan(s));
    }
  }

  lemma {:induction false} ScanIsSecrets(scan: string -> seq<Secret>, texts: seq<string>)
    ensures ScanAll(scan, texts) == Secrets(scan, texts)
  {
    if texts != [] {
      var n := |texts| - 1;
      ScanIsSecrets(scan, texts[..n]);
      ScansInOrder(scan, texts[..n], texts[n]);
      assert texts == texts[..n] + [texts[n]];
    }
  }

  /** A leak as it is reported: which pattern, in a call of which tool, and the masked preview. */
  function Leak(tool: Option<string>): Secret -> Event {
    (secret: Secret) => Event(SecretLeak, secret.pattern, tool, Some(secret.preview))
  }

  /**
   What is reported of a call: first what the lists say of it, then each secret in the strings of its
   arguments, in document order. Other frames are not reported at all.
   */
  lemma FindingsOf(v: Json, rules: Rules, scan: string -> seq<Secret>)
    requires WellFormed(v)
    ensures !Has(v, "method", Str("tools/call")) ==> Evaluate(v, rules, scan).events == []
    ensures Has(v, "method", Str("tools/call")) ==>
              exists lists: seq<Event>, leaks: seq<Event> ::
                && Evaluate(v, rules, scan).events == lists + leaks && ListFinding(v, rules, lists)
                && (!rules.secretScan ==> leaks == [])
                && (forall arguments :: Param(v, "arguments", arguments) && rules.secretScan ==>
                      leaks == if arguments.Object?
                               then Mapped(Leak(ToolName(v)), Secrets(scan, StringsIn(arguments))) else [])
                && ((forall arguments :: !Param(v, "arguments", arguments)) ==> leaks == [])
  {
    GetStrIsHas(v, "method", "tools/call");
    var tool := ToolName(v);
    var lists := DenyEvents(rules, tool);
    var leaks := if rules.secretScan then LeakEvents(ScanRequest(scan, v), tool) else [];
    DenyEventsAre(v, rules);
    forall arguments: Json
      ensures CallArguments(v) == Some(arguments) <==> Param(v, "arguments", arguments)
    {
      ParamAt(v, "arguments", arguments);
    }
    var found := CallArguments(v);
    if found.Some? && found.value.Object? {
      ScanIsSecrets(scan, StringsIn(found.value));
      assert LeakEvents(ScanRequest(scan, v), tool) == Mapped(Leak(tool), ScanRequest(scan, v));
    }
    if Has(v, "method", Str("tools/call")) {
      assert Evaluate(v, rules, scan).events == lists + leaks;
    }
  }
}
