/**
 What attaching a document is for: every server of it, top-level or in a project, is reached
 through the proxy afterwards.
 */
module AttachReach {
  import opened Common
  import opened Json
  import opened Sequences
  import opened Routes
  import opened Attach
  import opened AttachLaws

  /** The command and args of an attached stdio entry. */
  ghost predicate Wraps(exe: string, name: string, entry: Json, after: Json) {
    && Get(after, "command") == Some(Str(exe)) && Get(entry, "command").Some?
    && Get(after, "args").Some? && Get(after, "args").value.Array?
    && Get(after, "args").value.items
       == [Str("wrap"), Str("--name"), Str(name), Str("--"), Get(entry, "command").value]
          + (if Get(entry, "args").Some? && Get(entry, "args").value.Array? then Get(entry, "args").value.items else [])
  }

  /** An entry with a command that is not ours yet, and args that can be prefixed. */
  predicate RunsDirectly(ours: string -> bool, entry: Json) {
    && Get(entry, "command").Some? && Get(entry, "command").value.Str? && !ours(Get(entry, "command").value.chars)
    && (Get(entry, "args").Some? ==> Get(entry, "args").value.Array?)
  }

  /** An http URL of this machine, under /u/ and this route. */
  ghost predicate LocalUrl(url: string, route: string) {
    exists host, port :: Local(host, port) && url == "http://" + host + port + "/u/" + route
  }

  lemma LocalUrlExactly(url: string, route: string)
    ensures GatewayRoute(url) == Some(route) <==> LocalUrl(url, route)
  {
    GatewayRouteLiterally(url, route);
  }

  /** An entry that names no command but a URL which is not local to this machine under /u/. */
  ghost predicate ConnectsDirectly(entry: Json) {
    && !(Get(entry, "command").Some? && Get(entry, "command").value.Str?)
    && Get(entry, "url").Some? && Get(entry, "url").value.Str?
    && forall route :: !LocalUrl(Get(entry, "url").value.chars, route)
  }

  /** What attaching has to make of a server's entry. */
  ghost predicate Behind(c: Client, name: string, entry: Json, after: Json, table: Table) {
    if RunsDirectly(c.ours, entry) then Wraps(c.exe, name, entry, after)
    else if ConnectsDirectly(entry)
    then GetStr(after, "url").Some? && PointsAt(GetStr(after, "url").value, c.port, table, GetStr(entry, "url").value)
    else after == entry
  }

  lemma ConnectsExactly(entry: Json)
    ensures ConnectsDirectly(entry) <==>
            && GetStr(entry, "command").None? && GetStr(entry, "url").Some?
            && GatewayRoute(GetStr(entry, "url").value).None?
  {
    if GetStr(entry, "url").Some? {
      var url := GetStr(entry, "url").value;
      forall route: string
        ensures GatewayRoute(url) == Some(route) <==> LocalUrl(url, route)
      {
        LocalUrlExactly(url, route);
      }
      if GatewayRoute(url).Some? {
        assert LocalUrl(url, GatewayRoute(url).value);
      }
    }
  }

  lemma EntryBehind(c: Client, name: string, entry: Json, table: Table, final: Table)
    requires Extends(AttachEntry(c, name, entry, table).table, final)
    ensures Behind(c, name, entry, AttachEntry(c, name, entry, table).entry, final)
  {
    ConnectsExactly(entry);
    if RunsDirectly(c.ours, entry) {
      AttachWraps(c, name, entry, table);
    } else if ConnectsDirectly(entry) {
      AttachRoutes(c, name, entry, table);
    }
  }

  /** The members are the same servers, each behind the proxy now. */
  ghost predicate AllBehind(c: Client, before: seq<Member>, after: seq<Member>, table: Table) {
    && |after| == |before|
    && forall i :: 0 <= i < |before| ==>
         after[i].key == before[i].key && Behind(c, before[i].key, before[i].json, after[i].json, table)
  }

  lemma {:induction false} ServersBehind(c: Client, scope: Option<string>, ms: seq<Member>, table: Table, final: Table)
    requires Extends(SweepServers(Visitor(Attaching(c)), scope, ms, table).table, final)
    ensures AllBehind(c, ms, SweepServers(Visitor(Attaching(c)), scope, ms, table).members, final)
  {
    if ms != [] {
      var visit := Visitor(Attaching(c));
      var one := visit(ms[0].key, ms[0].json, table);
      var rest := SweepServers(visit, scope, ms[1..], one.table);
      ServersBehind(c, scope, ms[1..], one.table, final);
      ServersExtend(c, scope, ms[1..], one.table);
      ExtendsChain(one.table, rest.table, final);
      EntryBehind(c, ms[0].key, ms[0].json, table, final);
      var all := SweepServers(visit, scope, ms, table).members;
      assert all == [Member(ms[0].key, one.entry)] + rest.members;
      forall i | 0 <= i < |ms|
        ensures all[i].key == ms[i].key && Behind(c, ms[i].key, ms[i].json, all[i].json, final)
      {
        if i > 0 {
          assert ms[1..][i - 1] == ms[i] && all[i] == rest.members[i - 1];
        }
      }
    }
  }

  /** The servers of a document or of a project, each behind the proxy. */
  ghost predicate HolderBehind(c: Client, before: Json, after: Json, table: Table) {
    Get(before, "mcpServers").Some? && Get(before, "mcpServers").value.Object? ==>
      && Get(after, "mcpServers").Some? && Get(after, "mcpServers").value.Object?
      && AllBehind(c, Get(before, "mcpServers").value.members, Get(after, "mcpServers").value.members, table)
  }

  lemma SweptHolder(c: Client, scope: Option<string>, v: Json, table: Table, final: Table)
    requires Extends(SweepHolder(Visitor(Attaching(c)), scope, v, table).table, final)
    ensures HolderBehind(c, v, SweepHolder(Visitor(Attaching(c)), scope, v, table).doc, final)
  {
    if ObjectAt(v, "mcpServers").Some? {
      var servers := ObjectAt(v, "mcpServers").value;
      ServersBehind(c, scope, servers, table, final);
      PutThenGet(v, "mcpServers", SweepServers(Visitor(Attaching(c)), scope, servers, table).members, "projects");
    }
  }

  ghost predicate ProjectsBehind(c: Client, before: seq<Member>, after: seq<Member>, table: Table) {
    && |after| == |before|
    && forall i :: 0 <= i < |before| ==>
         after[i].key == before[i].key && HolderBehind(c, before[i].json, after[i].json, table)
  }

  lemma {:induction false} SweptProjects(c: Client, ms: seq<Member>, table: Table, final: Table)
    requires Extends(SweepProjects(Visitor(Attaching(c)), ms, table).table, final)
    ensures ProjectsBehind(c, ms, SweepProjects(Visitor(Attaching(c)), ms, table).members, final)
  {
    if ms != [] {
      var visit := Visitor(Attaching(c));
      var one := SweepHolder(visit, Some(ms[0].key), ms[0].json, table);
      var rest := SweepProjects(visit, ms[1..], one.table);
      SweptProjects(c, ms[1..], one.table, final);
      ProjectsExtend(c, ms[1..], one.table);
      ExtendsChain(one.table, rest.table, final);
      SweptHolder(c, Some(ms[0].key), ms[0].json, table, final);
      var all := SweepProjects(visit, ms, table).members;
      assert all == [Member(ms[0].key, one.doc)] + rest.members;
      forall i | 0 <= i < |ms|
        ensures all[i].key == ms[i].key && HolderBehind(c, ms[i].json, all[i].json, final)
      {
        if i > 0 {
          assert ms[1..][i - 1] == ms[i] && all[i] == rest.members[i - 1];
        }
      }
    }
  }

  /**
   After attaching a document, every server under `mcpServers`, and under the `mcpServers` of every
   member of `projects`, has its place and its name, and is behind the proxy: its command runs under
   the proxy's wrap, or its URL is the gateway's and the table resolves it. Other entries stay.
   */
  lemma AttachReachesEveryServer(c: Client, doc: Json, table: Table)
    ensures var r := SweepDocument(Visitor(Attaching(c)), doc, table);
            && HolderBehind(c, doc, r.doc, r.table)
            && (Get(doc, "projects").Some? && Get(doc, "projects").value.Object? ==>
                  && Get(r.doc, "projects").Some? && Get(r.doc, "projects").value.Object?
                  && ProjectsBehind(c, Get(doc, "projects").value.members, Get(r.doc, "projects").value.members,
                                    r.table))
  {
    var visit := Visitor(Attaching(c));
    var top := SweepHolder(visit, None, doc, table);
    var r := SweepDocument(visit, doc, table);
    var servers := ObjectAt(doc, "mcpServers");
    if servers.Some? {
      PutThenGet(doc, "mcpServers", SweepServers(visit, None, servers.value, table).members, "projects");
    }
    assert ObjectAt(top.doc, "projects") == ObjectAt(doc, "projects");
    if ObjectAt(doc, "projects").Some? {
      var projects := ObjectAt(doc, "projects").value;
      var swept := SweepProjects(visit, projects, top.table);
      ProjectsExtend(c, projects, top.table);
      SweptProjects(c, projects, top.table, r.table);
      PutThenGet(top.doc, "projects", swept.members, "mcpServers");
    }
    SweptHolder(c, None, doc, table, r.table);
    assert ObjectAt(r.doc, "mcpServers") == ObjectAt(top.doc, "mcpServers");
  }

  // ---------------------------------------------------------------- what is reported

  /** Text at this key. */
  predicate Names(entry: Json, key: string) {
    Get(entry, key).Some? && Get(entry, key).value.Str?
  }

  /** What attach says of an entry. */
  ghost predicate AttachSays(ours: string -> bool, entry: Json, outcome: Outcome) {
    outcome ==
    if RunsDirectly(ours, entry) || ConnectsDirectly(entry) then Changed
    else if !entry.Object? then Skipped("not an object")
    else if Names(entry, "command") && !ours(Get(entry, "command").value.chars) then Skipped("args is not an array")
    else if Names(entry, "command") || Names(entry, "url") then Unchanged
    else Skipped("no command or url")
  }

  lemma AttachSaysWhat(c: Client, name: string, entry: Json, table: Table)
    ensures AttachSays(c.ours, entry, AttachEntry(c, name, entry, table).outcome)
  {
    ConnectsExactly(entry);
  }

  /** The separator is at k, and what it stands before is a command. */
  predicate Separates(args: seq<Json>, k: int) {
    0 <= k < |args| && args[k] == Str("--") && forall i :: 0 <= i < k ==> args[i] != Str("--")
  }

  /** What detach says of an entry with a command that is ours. */
  ghost predicate UnwrapSays(args: Option<Json>, outcome: Outcome) {
    if args.None? || !args.value.Array? then outcome == Skipped("mcpglass command without args")
    else
      var items := args.value.items;
      if items == [] || items[0] != Str("wrap") then outcome == Skipped("not a wrap invocation")
      else
        && ((forall k :: !Separates(items, k)) ==> outcome == Skipped("no `--` separator"))
        && forall k :: Separates(items, k) ==>
             outcome == if k + 1 < |items| && items[k + 1].Str? then Changed else Skipped("nothing after `--`")
  }

  /** What detach says of an entry. */
  ghost predicate DetachSays(ours: string -> bool, entry: Json, table: Table, outcome: Outcome) {
    if !entry.Object? then outcome == Skipped("not an object")
    else if Names(entry, "command") then
      if ours(Get(entry, "command").value.chars) then UnwrapSays(Get(entry, "args"), outcome) else outcome == Unchanged
    else if Names(entry, "url") then
      && (forall route :: LocalUrl(Get(entry, "url").value.chars, route) ==>
            outcome == if route in table then Changed else Skipped("no gateway.toml mapping to restore url"))
      && ((forall route :: !LocalUrl(Get(entry, "url").value.chars, route)) ==> outcome == Unchanged)
    else outcome == Unchanged
  }

  lemma UnwrapSaysWhat(ours: string -> bool, ms: seq<Member>, command: string)
    requires ours(command)
    ensures UnwrapSays(Lookup(ms, "args"), DetachStdio(ours, ms, command).1)
  {
    var args := Lookup(ms, "args");
    if args.Some? && args.value.Array? {
      var items := args.value.items;
      assert Separator(items) < |items| ==> Separates(items, Separator(items));
    }
  }

  lemma DetachSaysWhat(ours: string -> bool, entry: Json, table: Table)
    ensures DetachSays(ours, entry, table, DetachEntry(ours, entry, table).outcome)
  {
    if GetStr(entry, "command").Some? {
      if ours(GetStr(entry, "command").value) {
        UnwrapSaysWhat(ours, entry.members, GetStr(entry, "command").value);
      }
    } else if GetStr(entry, "url").Some? {
      var url := GetStr(entry, "url").value;
      forall route: string
        ensures GatewayRoute(url) == Some(route) <==> LocalUrl(url, route)
      {
        LocalUrlExactly(url, route);
      }
      if GatewayRoute(url).Some? {
        assert LocalUrl(url, GatewayRoute(url).value);
      }
    }
  }

  /** One report a server, in document order: its name, where it stands, and what was said of it. */
  ghost predicate Reported(op: Op, scope: Option<string>, ms: seq<Member>, reports: seq<Report>) {
    && |reports| == |ms|
    && forall i :: 0 <= i < |ms| ==>
         && reports[i].name == ms[i].key && reports[i].scope == scope
         && exists table :: Said(op, ms[i], table, reports[i].outcome)
  }

  ghost predicate Said(op: Op, m: Member, table: Table, outcome: Outcome) {
    match op
    case Attaching(c) => AttachSays(c.ours, m.json, outcome)
    case Detaching(ours) => DetachSays(ours, m.json, table, outcome)
  }

  lemma {:induction false} ServersReported(op: Op, scope: Option<string>, ms: seq<Member>, table: Table)
    ensures Reported(op, scope, ms, SweepServers(Visitor(op), scope, ms, table).reports)
  {
    if ms != [] {
      var one := Visitor(op)(ms[0].key, ms[0].json, table);
      ServersReported(op, scope, ms[1..], one.table);
      match op {
        case Attaching(c) => AttachSaysWhat(c, ms[0].key, ms[0].json, table);
        case Detaching(ours) => DetachSaysWhat(ours, ms[0].json, table);
      }
      assert Said(op, ms[0], table, one.outcome);
      var rest := SweepServers(Visitor(op), scope, ms[1..], one.table).reports;
      var all := SweepServers(Visitor(op), scope, ms, table).reports;
      assert all == [Report(ms[0].key, scope, one.outcome)] + rest;
      forall i | 0 <= i < |ms|
        ensures all[i].name == ms[i].key && all[i].scope == scope
        ensures exists later :: Said(op, ms[i], later, all[i].outcome)
      {
        if i > 0 {
          assert ms[1..][i - 1] == ms[i] && all[i] == rest[i - 1];
        }
      }
    }
  }

  /** The servers of a document or a project. */
  function ServersOf(v: Json): seq<Member> {
    if Get(v, "mcpServers").Some? && Get(v, "mcpServers").value.Object? then Get(v, "mcpServers").value.members else []
  }

  lemma HolderReported(op: Op, scope: Option<string>, v: Json, table: Table)
    ensures Reported(op, scope, ServersOf(v), SweepHolder(Visitor(op), scope, v, table).reports)
  {
    ServersReported(op, scope, ServersOf(v), table);
  }

  /** The reports of one project after the other, each under the project's name. */
  ghost predicate ProjectsReported(op: Op, ms: seq<Member>, reports: seq<Report>) {
    if ms == [] then reports == []
    else exists n :: 0 <= n <= |reports| && Reported(op, Some(ms[0].key), ServersOf(ms[0].json), reports[..n])
                     && ProjectsReported(op, ms[1..], reports[n..])
  }

  lemma {:induction false} SweptReports(op: Op, ms: seq<Member>, table: Table)
    ensures ProjectsReported(op, ms, SweepProjects(Visitor(op), ms, table).reports)
  {
    if ms != [] {
      var one := SweepHolder(Visitor(op), Some(ms[0].key), ms[0].json, table);
      var rest := SweepProjects(Visitor(op), ms[1..], one.table).reports;
      HolderReported(op, Some(ms[0].key), ms[0].json, table);
      SweptReports(op, ms[1..], one.table);
      var all := SweepProjects(Visitor(op), ms, table).reports;
      assert all == one.reports + rest && all[..|one.reports|] == one.reports && all[|one.reports|..] == rest;
    }
  }

  /**
   Attach and detach report on every server, once, in document order: the top-level ones first and
   under no name, then those of each project under the project's.
   */
  lemma EveryServerIsReported(op: Op, doc: Json, table: Table)
    ensures var reports := SweepDocument(Visitor(op), doc, table).reports;
            var n := |ServersOf(doc)|;
            && n <= |reports| && Reported(op, None, ServersOf(doc), reports[..n])
            && ProjectsReported(op, if ObjectAt(doc, "projects").Some? then ObjectAt(doc, "projects").value else [],
                                reports[n..])
  {
    var visit := Visitor(op);
    var top := SweepHolder(visit, None, doc, table);
    HolderReported(op, None, doc, table);
    var servers := ObjectAt(doc, "mcpServers");
    if servers.Some? {
      PutThenGet(doc, "mcpServers", SweepServers(visit, None, servers.value, table).members, "projects");
    }
    assert ObjectAt(top.doc, "projects") == ObjectAt(doc, "projects");
    var reports := SweepDocument(visit, doc, table).reports;
    if ObjectAt(doc, "projects").Some? {
      var more := SweepProjects(visit, ObjectAt(doc, "projects").value, top.table).reports;
      SweptReports(op, ObjectAt(doc, "projects").value, top.table);
      assert reports == top.reports + more;
      assert reports[..|top.reports|] == top.reports && reports[|top.reports|..] == more;
    } else {
      assert reports[..|top.reports|] == top.reports && reports[|top.reports|..] == [];
    }
  }
}
