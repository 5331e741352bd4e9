/**
 The client-to-server policy decision: deny and allow lists, the secret scan of a call's
 arguments, and the refusal sent back when a request is blocked.
 */
module Policy {
  import opened Common
  import opened Sequences
  import opened Lines
  import opened Json

  datatype Mode = Monitor | Enforce

  datatype Rules = Rules(mode: Mode, allow: seq<string>, deny: seq<string>, secretScan: bool)

  /** One match of a secret pattern: which pattern, and the masked preview. */
  datatype Secret = Secret(pattern: string, preview: string)

  datatype EventKind = PolicyDeny | SecretLeak

  /** A finding; a leak shows the masked preview. */
  datatype Event = Event(kind: EventKind, rule: string, tool: Option<string>, preview: Option<string>)

  datatype Action = Forward | Block

  datatype Evaluation = Evaluation(action: Action, events: seq<Event>)

  // ---------------------------------------------------------------- deny and allow

  /** A trailing star is a prefix wildcard; otherwise the comparison is exact. */
  predicate MatchesRule(pattern: string, name: string) {
    if pattern != "" && pattern[|pattern| - 1] == '*'
    then pattern[..|pattern| - 1] <= name
    else name == pattern
  }

  datatype DenyReason = DenyList(pattern: string) | NotAllowed

  function FirstDeny(deny: seq<string>, name: string): Option<string> {
    if deny == [] then None
    else if MatchesRule(deny[0], name) then Some(deny[0])
    else FirstDeny(deny[1..], name)
  }

  function Denial(rules: Rules, name: Option<string>): Option<DenyReason> {
    if name.Some? && FirstDeny(rules.deny, name.value).Some?
    then Some(DenyList(FirstDeny(rules.deny, name.value).value))
    else if rules.allow != [] && !(name.Some? && name.value in rules.allow) then Some(NotAllowed)
    else None
  }

  // ---------------------------------------------------------------- secrets

  /** Every string value inside `v`, in document order. */
  function StringsIn(v: Json): seq<string>
    decreases v, 0
  {
    match v
    case Str(s) => [s]
    case Array(items) => StringsInItems(items)
    case Object(ms) => StringsInMembers(ms)
    case _ => []
  }

  function StringsInItems(items: seq<Json>): seq<string>
    decreases items, 1
  {
    if items == [] then [] else StringsIn(items[0]) + StringsInItems(items[1..])
  }

  function StringsInMembers(ms: seq<Member>): seq<string>
    decreases ms, 1
  {
    if ms == [] then [] else StringsIn(ms[0].json) + StringsInMembers(ms[1..])
  }

  function ScanAll(scan: string -> seq<Secret>, texts: seq<string>): seq<Secret> {
    if texts == [] then [] else scan(texts[0]) + ScanAll(scan, texts[1..])
  }

  function CallArguments(request: Json): Option<Json> {
    var params := Get(request, "params");
    if params.Some? then Get(params.value, "arguments") else None
  }

  /** Only an object of arguments is scanned. */
  function ScanRequest(scan: string -> seq<Secret>, request: Json): seq<Secret> {
    var args := CallArguments(request);
    if args.Some? && args.value.Object? then ScanAll(scan, StringsIn(args.value)) else []
  }

  function ToolName(request: Json): Option<string> {
    var params := Get(request, "params");
    if params.Some? then GetStr(params.value, "name") else None
  }

  // ---------------------------------------------------------------- the decision

  function LeakEvents(secrets: seq<Secret>, tool: Option<string>): seq<Event> {
    seq(|secrets|, i requires 0 <= i < |secrets| =>
      Event(SecretLeak, secrets[i].pattern, tool, Some(secrets[i].preview)))
  }

  function DenyEvents(rules: Rules, tool: Option<string>): seq<Event> {
    match Denial(rules, tool)
    case None => []
    case Some(DenyList(pattern)) => [Event(PolicyDeny, pattern, tool, None)]
    case Some(NotAllowed) => [Event(PolicyDeny, if tool.Some? then tool.value else "<missing name>", tool, None)]
  }

  function Evaluate(request: Json, rules: Rules, scan: string -> seq<Secret>): Evaluation {
    if GetStr(request, "method") != Some("tools/call") then Evaluation(Forward, [])
    else
      var tool := ToolName(request);
      var events := DenyEvents(rules, tool)
          + (if rules.secretScan then LeakEvents(ScanRequest(scan, request), tool) else []);
      Evaluation(if rules.mode == Enforce && events != [] then Block else Forward, events)
  }

  method CollectStrings(v: Json, found: seq<string>) returns (out: seq<string>)
    ensures out == found + StringsIn(v)
    decreases v, 0
  {
    match v {
      case Str(s) =>
        out := found + [s];
      case Array(items) =>
        out := CollectItems(items, found);
      case Object(ms) =>
        out := CollectMembers(ms, found);
      case _ =>
        out := found;
    }
  }

  lemma {:induction false} StringsInItemsFrom(items: seq<Json>, i: nat)
    requires i < |items|
    ensures StringsInItems(items[i..]) == StringsIn(items[i]) + StringsInItems(items[i + 1..])
  {
    assert items[i..][1..] == items[i + 1..];
  }

  method CollectItems(items: seq<Json>, found: seq<string>) returns (out: seq<string>)
    ensures out == found + StringsInItems(items)
    decreases items, 1
  {
    out := found;
    var i := 0;
    assert items[0..] == items;
    while i < |items|
      invariant 0 <= i <= |items|
      invariant out + StringsInItems(items[i..]) == found + StringsInItems(items)
    {
      StringsInItemsFrom(items, i);
      AppendAssociates(out, StringsIn(items[i]), StringsInItems(items[i + 1..]));
      out := CollectStrings(items[i], out);
      i := i + 1;
    }
    EmptyAppend(out);
  }

  lemma {:induction false} StringsInMembersFrom(ms: seq<Member>, i: nat)
    requires i < |ms|
    ensures StringsInMembers(ms[i..]) == StringsIn(ms[i].json) + StringsInMembers(ms[i + 1..])
  {
    assert ms[i..][1..] == ms[i + 1..];
  }

  method CollectMembers(ms: seq<Member>, found: seq<string>) returns (out: seq<string>)
    ensures out == found + StringsInMembers(ms)
    decreases ms, 1
  {
    out := found;
    var i := 0;
    assert ms[0..] == ms;
    while i < |ms|
      invariant 0 <= i <= |ms|
      invariant out + StringsInMembers(ms[i..]) == found + StringsInMembers(ms)
    {
      StringsInMembersFrom(ms, i);
      AppendAssociates(out, StringsIn(ms[i].json), StringsInMembers(ms[i + 1..]));
      out := CollectStrings(ms[i].json, out);
      i := i + 1;
    }
    EmptyAppend(out);
  }

  lemma ScanAllFrom(scan: string -> seq<Secret>, texts: seq<string>, i: nat)
    requires i < |texts|
    ensures ScanAll(scan, texts[i..]) == scan(texts[i]) + ScanAll(scan, texts[i + 1..])
  {
    assert texts[i..][1..] == texts[i + 1..];
  }

  method ScanRequestArguments(request: Json, scan: string -> seq<Secret>) returns (hits: seq<Secret>)
    ensures hits == ScanRequest(scan, request)
  {
    hits := [];
    var args := CallArguments(request);
    if args.Some? && args.value.Object? {
      var texts := CollectStrings(args.value, []);
      EmptyAppend(StringsIn(args.value));
      var i := 0;
      assert texts[0..] == texts;
      EmptyAppend(ScanAll(scan, texts));
      while i < |texts|
        invariant 0 <= i <= |texts|
        invariant hits + ScanAll(scan, texts[i..]) == ScanAll(scan, texts)
      {
        ScanAllFrom(scan, texts, i);
        AppendAssociates(hits, scan(texts[i]), ScanAll(scan, texts[i + 1..]));
        hits := hits + scan(texts[i]);
        i := i + 1;
      }
      EmptyAppend(hits);
    }
  }

  method PushLeaks(hits: seq<Secret>, tool: Option<string>, events: seq<Event>) returns (out: seq<Event>)
    ensures out == events + LeakEvents(hits, tool)
  {
    out := events;
    var i := 0;
    while i < |hits|
      invariant 0 <= i <= |hits|
      invariant out == events + LeakEvents(hits, tool)[..i]
    {
      out := out + [Event(SecretLeak, hits[i].pattern, tool, Some(hits[i].preview))];
      i := i + 1;
    }
    assert LeakEvents(hits, tool)[..i] == LeakEvents(hits, tool);
  }

  method PushDenial(rules: Rules, tool: Option<string>, events: seq<Event>) returns (out: seq<Event>)
    ensures out == events + DenyEvents(rules, tool)
  {
    match Denial(rules, tool) {
      case None =>
        out := events;
      case Some(DenyList(pattern)) =>
        out := events + [Event(PolicyDeny, pattern, tool, None)];
      case Some(NotAllowed) =>
        out := events + [Event(PolicyDeny, if tool.Some? then tool.value else "<missing name>", tool, None)];
    }
  }

  method EvaluateRequest(request: Json, rules: Rules, scan: string -> seq<Secret>) returns (e: Evaluation)
    ensures e == Evaluate(request, rules, scan)
  {
    var events := [];
    if GetStr(request, "method") != Some("tools/call") {
      return Evaluation(Forward, events);
    }
    var tool := ToolName(request);
    events := PushDenial(rules, tool, events);
    EmptyAppend(events);
    if rules.secretScan {
      var hits := ScanRequestArguments(request, scan);
      events := PushLeaks(hits, tool, events);
    }
    e := Evaluation(if rules.mode == Enforce && events != [] then Block else Forward, events);
  }

  // ---------------------------------------------------------------- when a request is blocked

  /** The string occurs as a value somewhere inside `v`. */
  ghost predicate Occurs(s: string, v: Json)
    decreases v
  {
    match v
    case Str(t) => s == t
    case Array(items) => exists i :: 0 <= i < |items| && Occurs(s, items[i])
    case Object(ms) => exists i :: 0 <= i < |ms| && Occurs(s, ms[i].json)
    case _ => false
  }

  lemma {:induction false} CollectedOccurs(v: Json, s: string)
    ensures s in StringsIn(v) <==> Occurs(s, v)
    decreases v, 0
  {
    match v {
      case Array(items) =>
        CollectedInItems(items, s);
      case Object(ms) =>
        CollectedInMembers(ms, s);
      case _ =>
    }
  }

  lemma {:induction false} CollectedInItems(items: seq<Json>, s: string)
    ensures s in StringsInItems(items) <==> exists i :: 0 <= i < |items| && Occurs(s, items[i])
    decreases items, 1
  {
    if items != [] {
      CollectedOccurs(items[0], s);
      CollectedInItems(items[1..], s);
      assert forall i :: 0 <= i < |items[1..]| ==> items[1..][i] == items[i + 1];
      assert forall i :: 1 <= i < |items| ==> items[i] == items[1..][i - 1];
    }
  }

  lemma {:induction false} CollectedInMembers(ms: seq<Member>, s: string)
    ensures s in StringsInMembers(ms) <==> exists i :: 0 <= i < |ms| && Occurs(s, ms[i].json)
    decreases ms, 1
  {
    if ms != [] {
      CollectedOccurs(ms[0].json, s);
      CollectedInMembers(ms[1..], s);
      assert forall i :: 0 <= i < |ms[1..]| ==> ms[1..][i] == ms[i + 1];
      assert forall i :: 1 <= i < |ms| ==> ms[i] == ms[1..][i - 1];
    }
  }

  lemma {:induction false} ScanFinds(scan: string -> seq<Secret>, texts: seq<string>)
    ensures ScanAll(scan, texts) != [] <==> exists s :: s in texts && scan(s) != []
  {
    if texts != [] {
      ScanFinds(scan, texts[1..]);
      assert texts == [texts[0]] + texts[1..];
    }
  }

  lemma {:induction false} DenyFinds(deny: seq<string>, name: string)
    ensures FirstDeny(deny, name).Some? <==> exists p :: p in deny && MatchesRule(p, name)
  {
    if deny != [] {
      DenyFinds(deny[1..], name);
      assert deny == [deny[0]] + deny[1..];
    }
  }

  /** The lists refuse this tool. */
  ghost predicate Refused(rules: Rules, name: Option<string>) {
    || (name.Some? && exists p :: p in rules.deny && MatchesRule(p, name.value))
    || (rules.allow != [] && !(name.Some? && name.value in rules.allow))
  }

  /** Some string inside the call's arguments is a secret. */
  ghost predicate Leaks(scan: string -> seq<Secret>, request: Json) {
    var args := CallArguments(request);
    args.Some? && args.value.Object? && exists s :: Occurs(s, args.value) && scan(s) != []
  }

  /** Exactly when a request is blocked: nothing but enforce mode and a finding ever blocks. */
  lemma BlockedExactlyWhen(request: Json, rules: Rules, scan: string -> seq<Secret>)
    ensures Evaluate(request, rules, scan).action == Block <==>
            && rules.mode == Enforce
            && GetStr(request, "method") == Some("tools/call")
            && (Refused(rules, ToolName(request)) || (rules.secretScan && Leaks(scan, request)))
  {
    var tool := ToolName(request);
    if tool.Some? {
      DenyFinds(rules.deny, tool.value);
    }
    assert DenyEvents(rules, tool) != [] <==> Refused(rules, tool);
    var args := CallArguments(request);
    if args.Some? && args.value.Object? {
      ScanFinds(scan, StringsIn(args.value));
      forall s
        ensures s in StringsIn(args.value) <==> Occurs(s, args.value)
      {
        CollectedOccurs(args.value, s);
      }
    }
    assert LeakEvents(ScanRequest(scan, request), tool) != [] <==> ScanRequest(scan, request) != [];
    assert ScanRequest(scan, request) != [] <==> Leaks(scan, request);
  }

  // ---------------------------------------------------------------- the refusal

  /** UTF-8 of one character, by its code point. */
  function Utf8Char(c: char): Bytes {
    var n := c as int;
    if n < 0x80 then [n as byte]
    else if n < 0x800 then [(0xC0 + n / 0x40) as byte, (0x80 + n % 0x40) as byte]
    else if n < 0x10000 then [(0xE0 + n / 0x1000) as byte, (0x80 + n / 0x40 % 0x40) as byte, (0x80 + n % 0x40) as byte]
    else [(0xF0 + n / 0x40000) as byte, (0x80 + n / 0x1000 % 0x40) as byte, (0x80 + n / 0x40 % 0x40) as byte,
        (0x80 + n % 0x40) as byte]
  }

  function Utf8(s: string): Bytes {
    if s == "" then [] else Utf8Char(s[0]) + Utf8(s[1..])
  }

  function ErrorBody(id: Json, rule: string): Json {
    Object([
      Member("jsonrpc", Str("2.0")),
      Member("id", id),
      Member("error", Object([
        Member("code", Number("-32001")),
        Member("message", Str("blocked by mcpglass policy: " + rule))]))])
  }

  /** The refusal as one newline-terminated frame. */
  function ErrorFrame(id: Json, rule: string): Bytes {
    Utf8(Serialize(ErrorBody(id, rule))) + [LF]
  }

  datatype FrameAction = Pass | Refuse(reply: Bytes) | Swallow

  /** What is persisted of a finding: with the request's id, and whether the frame was blocked or only flagged. */
  datatype Report = Report(event: Event, rpcId: Option<string>, blocked: bool)

  function Reports(events: seq<Event>, rpcId: Option<string>, blocked: bool): seq<Report> {
    seq(|events|, i requires 0 <= i < |events| => Report(events[i], rpcId, blocked))
  }

  datatype Decision = Decision(action: FrameAction, events: seq<Report>)

  /** Deciding one frame; text that is not JSON passes undecided. */
  function Decide(value: Option<Json>, rules: Rules, scan: string -> seq<Secret>): Decision {
    if value.None? then Decision(Pass, [])
    else
      var e := Evaluate(value.value, rules, scan);
      var reports := Reports(e.events, IdText(value.value), e.action == Block);
      if e.action == Forward then Decision(Pass, reports)
      else
        var rule := if e.events != [] then e.events[0].rule else "policy";
        var id := Get(value.value, "id");
        Decision(if id.Some? && !id.value.Null? then Refuse(ErrorFrame(id.value, rule)) else Swallow, reports)
  }

  /** Monitor mode never withholds a frame. */
  lemma MonitorPasses(value: Option<Json>, rules: Rules, scan: string -> seq<Secret>)
    requires rules.mode == Monitor
    ensures Decide(value, rules, scan).action == Pass
  {
  }

  /**
   Every finding is reported, and every report says truly what happened to the frame: enforce
   mode withholds a frame exactly when there is something to report, and a withheld frame is
   refused exactly when the reports can name a request id.
   */
  lemma ReportsAreTrue(value: Json, rules: Rules, scan: string -> seq<Secret>)
    ensures var d, e := Decide(Some(value), rules, scan), Evaluate(value, rules, scan);
            && |d.events| == |e.events|
            && (forall i :: 0 <= i < |d.events| ==>
                  && d.events[i].event == e.events[i]
                  && (d.events[i].blocked <==> d.action != Pass)
                  && (d.events[i].rpcId.Some? <==> Get(value, "id").Some? && !Get(value, "id").value.Null?))
            && (d.action != Pass <==> rules.mode == Enforce && d.events != [])
            && (d.action.Refuse? <==> d.action != Pass && d.events[0].rpcId.Some?)
  {
  }

  predicate NoNewline(s: string) {
    forall i :: 0 <= i < |s| ==> s[i] as int != 10
  }

  lemma NoNewlineAppend(a: string, b: string)
    requires NoNewline(a) && NoNewline(b)
    ensures NoNewline(a + b)
  {
  }

  lemma {:induction false} EscapedNoNewline(s: string)
    ensures NoNewline(Escape(s)) && NoNewline(Quote(s))
  {
    if s != "" {
      EscapedNoNewline(s[1..]);
      EscapedCharNoNewline(s[0]);
      NoNewlineAppend(EscapeChar(s[0]), Escape(s[1..]));
    }
    NoNewlineAppend(['"'], Escape(s));
    NoNewlineAppend(['"'] + Escape(s), ['"']);
  }

  lemma EscapedCharNoNewline(c: char)
    ensures NoNewline(EscapeChar(c))
  {
  }

  /** Serialized JSON is one line, whatever its strings contain. */
  lemma {:induction false} SerializedNoNewline(v: Json)
    requires WellFormed(v)
    ensures NoNewline(Serialize(v))
    decreases v, 0
  {
    match v {
      case Str(s) =>
        EscapedNoNewline(s);
      case Array(items) =>
        if items != [] {
          SerializedNoNewline(items[0]);
          ItemsNoNewline(items[1..]);
          NoNewlineAppend(Serialize(items[0]), MoreItems(items[1..]));
        }
        NoNewlineAppend(['['], SerializeItems(items));
        NoNewlineAppend(['['] + SerializeItems(items), [']']);
      case Object(ms) =>
        if ms != [] {
          MemberNoNewline(ms[0]);
          MembersNoNewline(ms[1..]);
          NoNewlineAppend(SerializeMember(ms[0]), MoreMembers(ms[1..]));
        }
        NoNewlineAppend(['{'], SerializeMembers(ms));
        NoNewlineAppend(['{'] + SerializeMembers(ms), ['}']);
      case _ =>
    }
  }

  lemma {:induction false} ItemsNoNewline(items: seq<Json>)
    requires forall i :: 0 <= i < |items| ==> WellFormed(items[i])
    ensures NoNewline(MoreItems(items))
    decreases items, 2
  {
    if items != [] {
      SerializedNoNewline(items[0]);
      ItemsNoNewline(items[1..]);
      NoNewlineAppend([','], Serialize(items[0]));
      NoNewlineAppend([','] + Serialize(items[0]), MoreItems(items[1..]));
    }
  }

  lemma {:induction false} MemberNoNewline(m: Member)
    requires WellFormed(m.json)
    ensures NoNewline(SerializeMember(m))
    decreases m, 1
  {
    EscapedNoNewline(m.key);
    SerializedNoNewline(m.json);
    NoNewlineAppend(Quote(m.key), [':']);
    NoNewlineAppend(Quote(m.key) + [':'], Serialize(m.json));
  }

  lemma {:induction false} MembersNoNewline(ms: seq<Member>)
    requires forall i :: 0 <= i < |ms| ==> WellFormed(ms[i].json)
    ensures NoNewline(MoreMembers(ms))
    decreases ms, 2
  {
    if ms != [] {
      MemberNoNewline(ms[0]);
      MembersNoNewline(ms[1..]);
      NoNewlineAppend([','], SerializeMember(ms[0]));
      NoNewlineAppend([','] + SerializeMember(ms[0]), MoreMembers(ms[1..]));
    }
  }

  lemma {:induction false} Utf8NoLf(s: string)
    requires NoNewline(s)
    ensures NoLf(Utf8(s))
  {
    if s != "" {
      Utf8NoLf(s[1..]);
    }
  }

  /** A refusal is exactly one line, so it can never split or extend another frame. */
  lemma RefusalIsOneLine(value: Option<Json>, rules: Rules, scan: string -> seq<Secret>)
    requires value.Some? && WellFormed(value.value)
    requires Decide(value, rules, scan).action.Refuse?
    ensures var reply := Decide(value, rules, scan).action.reply;
            |reply| >= 1 && reply[|reply| - 1] == LF && NoLf(reply[..|reply| - 1])
  {
    var e := Evaluate(value.value, rules, scan);
    var rule := if e.events != [] then e.events[0].rule else "policy";
    var id := Get(value.value, "id").value;
    ErrorBodyWellFormed(id, rule);
    SerializedNoNewline(ErrorBody(id, rule));
    Utf8NoLf(Serialize(ErrorBody(id, rule)));
    var body := Utf8(Serialize(ErrorBody(id, rule)));
    assert (body + [LF])[..|body|] == body;
  }

  lemma ErrorBodyWellFormed(id: Json, rule: string)
    requires WellFormed(id)
    ensures WellFormed(ErrorBody(id, rule))
  {
    var inner := ErrorBody(id, rule).members[2].json;
    assert |inner.members[0].key| == 4 && |inner.members[1].key| == 7;
    assert WellFormed(inner);
    var ms := ErrorBody(id, rule).members;
    assert |ms[0].key| == 7 && |ms[1].key| == 2 && |ms[2].key| == 5;
  }
}
