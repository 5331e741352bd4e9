/**
 Attaching a client's configuration document to the proxy and detaching it again.

 Attach rewrites every server entry of the document in place and records upstream URLs in the
 gateway table; detach rewrites them back. `ours` stands for the test that a command's file
 stem is mcpglass.
 */
module Attach {
  import opened Common
  import opened Json
  import opened Sequences
  import opened Routes

  // ---------------------------------------------------------------- ordered objects

  /** `Map::insert` with preserve_order: a present key keeps its position, a new one goes last. */
  function Insert(ms: seq<Member>, key: string, v: Json): seq<Member> {
    var k := KeyIndex(ms, key);
    if k < |ms| then ms[k := Member(key, v)] else ms + [Member(key, v)]
  }

  /** `Map::remove` with preserve_order: the last member takes the place of the removed one. */
  function Remove(ms: seq<Member>, key: string): seq<Member> {
    var k := KeyIndex(ms, key);
    if k == |ms| then ms
    else if k == |ms| - 1 then ms[..k]
    else ms[..|ms| - 1][k := ms[|ms| - 1]]
  }

  /** The mutable object behind a JSON value. */
  class ObjectMap {
    var members: seq<Member>

    constructor (ms: seq<Member>)
      ensures members == ms
    {
      members := ms;
    }

    method Find(key: string) returns (k: nat)
      ensures k == KeyIndex(members, key)
    {
      k := 0;
      while k < |members| && members[k].key != key
        invariant 0 <= k <= |members|
        invariant forall i :: 0 <= i < k ==> members[i].key != key
      {
        k := k + 1;
      }
    }

    method Set(key: string, v: Json)
      modifies this
      ensures members == Insert(old(members), key, v)
    {
      var k := Find(key);
      if k < |members| {
        members := members[k := Member(key, v)];
      } else {
        members := members + [Member(key, v)];
      }
    }

    method SwapRemove(key: string)
      modifies this
      ensures members == Remove(old(members), key)
    {
      var k := Find(key);
      if k < |members| {
        var last := members[|members| - 1];
        members := members[..|members| - 1];
        if k < |members| {
          members := members[k := last];
        }
      }
    }
  }

  // ---------------------------------------------------------------- entries

  datatype Outcome = Changed | Unchanged | Skipped(why: string)

  /** What attach is told: the proxy's own path, its port and which commands are the proxy's. */
  datatype Client = Client(exe: string, port: nat, ours: string -> bool)

  /** An entry after a visit, the gateway table after it, and the outcome reported. */
  datatype Visited = Visited(entry: Json, table: Table, outcome: Outcome)

  function WrapArgs(name: string, command: string, args: seq<Json>): seq<Json> {
    [Str("wrap"), Str("--name"), Str(name), Str("--"), Str(command)] + args
  }

  function AttachStdio(c: Client, name: string, ms: seq<Member>, command: string, table: Table): Visited {
    var args := Lookup(ms, "args");
    if c.ours(command) then Visited(Object(ms), table, Unchanged)
    else if args.Some? && !args.value.Array? then Visited(Object(ms), table, Skipped("args is not an array"))
    else
      var original := if args.Some? then args.value.items else [];
      var done := Insert(Insert(ms, "command", Str(c.exe)), "args", Array(WrapArgs(name, command, original)));
      Visited(Object(done), table, Changed)
  }

  function AttachUrl(c: Client, name: string, ms: seq<Member>, url: string, table: Table): Visited {
    if GatewayRoute(url).Some? then Visited(Object(ms), table, Unchanged)
    else
      var route := Route(table, name, url);
      Visited(Object(Insert(ms, "url", Str(GatewayUrl(c.port, route)))), table[route := url], Changed)
  }

  function AttachEntry(c: Client, name: string, entry: Json, table: Table): Visited {
    if !entry.Object? then Visited(entry, table, Skipped("not an object"))
    else if GetStr(entry, "command").Some? then
      AttachStdio(c, name, entry.members, GetStr(entry, "command").value, table)
    else if GetStr(entry, "url").Some? then
      AttachUrl(c, name, entry.members, GetStr(entry, "url").value, table)
    else Visited(entry, table, Skipped("no command or url"))
  }

  /** Position of the first `--`, or |args|. */
  function Separator(args: seq<Json>): (k: nat)
    ensures k <= |args|
    ensures k < |args| ==> args[k] == Str("--")
    ensures forall i :: 0 <= i < k ==> args[i] != Str("--")
  {
    if args == [] || args[0] == Str("--") then 0 else 1 + Separator(args[1..])
  }

  function DetachStdio(ours: string -> bool, ms: seq<Member>, command: string): (seq<Member>, Outcome) {
    var found := Lookup(ms, "args");
    if !ours(command) then (ms, Unchanged)
    else if found.None? || !found.value.Array? then (ms, Skipped("mcpglass command without args"))
    else
      var args := found.value.items;
      var sep := Separator(args);
      if args == [] || args[0] != Str("wrap") then (ms, Skipped("not a wrap invocation"))
      else if sep == |args| then (ms, Skipped("no `--` separator"))
      else if sep + 1 == |args| || !args[sep + 1].Str? then (ms, Skipped("nothing after `--`"))
      else
        var restored := Insert(ms, "command", args[sep + 1]);
        var rest := args[sep + 2..];
        (if rest == [] then Remove(restored, "args") else Insert(restored, "args", Array(rest)), Changed)
  }

  function DetachUrl(ms: seq<Member>, url: string, table: Table): (seq<Member>, Outcome) {
    var route := GatewayRoute(url);
    if route.None? then (ms, Unchanged)
    else if route.value in table then (Insert(ms, "url", Str(table[route.value])), Changed)
    else (ms, Skipped("no gateway.toml mapping to restore url"))
  }

  function DetachEntry(ours: string -> bool, entry: Json, table: Table): Visited {
    if !entry.Object? then Visited(entry, table, Skipped("not an object"))
    else if GetStr(entry, "command").Some? then
      var r := DetachStdio(ours, entry.members, GetStr(entry, "command").value);
      Visited(Object(r.0), table, r.1)
    else if GetStr(entry, "url").Some? then
      var r := DetachUrl(entry.members, GetStr(entry, "url").value, table);
      Visited(Object(r.0), table, r.1)
    else Visited(entry, table, Unchanged)
  }

  // ---------------------------------------------------------------- documents

  const SERVERS := "mcpServers"
  const PROJECTS := "projects"

  /** What is done to one entry, given its name and the table so far. */
  type Visit = (string, Json, Table) -> Visited

  datatype Op = Attaching(client: Client) | Detaching(ours: string -> bool)

  function Visitor(op: Op): Visit {
    match op
    case Attaching(c) => (name, entry, table) => AttachEntry(c, name, entry, table)
    case Detaching(ours) => (name, entry, table) => DetachEntry(ours, entry, table)
  }

  datatype Report = Report(name: string, scope: Option<string>, outcome: Outcome)

  /** Members after a visit to some of the servers below them. */
  datatype Swept = Swept(members: seq<Member>, table: Table, reports: seq<Report>)

  /** A whole document, or one project of it, after a visit to its servers. */
  datatype Rewritten = Rewritten(doc: Json, table: Table, reports: seq<Report>)

  function ObjectAt(v: Json, key: string): Option<seq<Member>> {
    var f := Get(v, key);
    if f.Some? && f.value.Object? then Some(f.value.members) else None
  }

  /** Replaces the members of the object at `key`, if there is one. */
  function PutObject(v: Json, key: string, ms: seq<Member>): Json {
    if ObjectAt(v, key).None? then v else Object(Insert(v.members, key, Object(ms)))
  }

  function SweepServers(visit: Visit, scope: Option<string>, ms: seq<Member>, table: Table): Swept {
    if ms == [] then Swept([], table, [])
    else
      var one := visit(ms[0].key, ms[0].json, table);
      var rest := SweepServers(visit, scope, ms[1..], one.table);
      Swept([Member(ms[0].key, one.entry)] + rest.members, rest.table, [Report(ms[0].key, scope, one.outcome)]
          + rest.reports)
  }

  /** The mcpServers object of a document or of a project. */
  function SweepHolder(visit: Visit, scope: Option<string>, v: Json, table: Table): Rewritten {
    var servers := ObjectAt(v, SERVERS);
    if servers.None? then Rewritten(v, table, [])
    else
      var swept := SweepServers(visit, scope, servers.value, table);
      Rewritten(PutObject(v, SERVERS, swept.members), swept.table, swept.reports)
  }

  function SweepProjects(visit: Visit, ms: seq<Member>, table: Table): Swept {
    if ms == [] then Swept([], table, [])
    else
      var one := SweepHolder(visit, Some(ms[0].key), ms[0].json, table);
      var rest := SweepProjects(visit, ms[1..], one.table);
      Swept([Member(ms[0].key, one.doc)] + rest.members, rest.table, one.reports + rest.reports)
  }

  /** The top-level servers first, then those of every project in document order. */
  function SweepDocument(visit: Visit, doc: Json, table: Table): Rewritten {
    var top := SweepHolder(visit, None, doc, table);
    var projects := ObjectAt(top.doc, PROJECTS);
    if projects.None? then top
    else
      var swept := SweepProjects(visit, projects.value, top.table);
      Rewritten(PutObject(top.doc, PROJECTS, swept.members), swept.table, top.reports + swept.reports)
  }

  // ---------------------------------------------------------------- the transforms in place

  /** What a sweep has done so far, then the rest of it. */
  function Joined(first: Swept, rest: Swept): Swept {
    Swept(first.members + rest.members, rest.table, first.reports + rest.reports)
  }

  lemma JoinedNext(first: Swept, one: Swept, rest: Swept)
    ensures Joined(first, Joined(one, rest)) == Joined(Joined(first, one), rest)
  {
    AppendAssociates(first.members, one.members, rest.members);
    AppendAssociates(first.reports, one.reports, rest.reports);
  }

  lemma JoinedEmpty(s: Swept, table: Table)
    ensures Joined(Swept([], table, []), s) == s
    ensures Joined(s, Swept([], s.table, [])) == s
  {
    EmptyAppend(s.members);
    EmptyAppend(s.reports);
  }

  method AttachStdioEntry(
    c: Client, name: string, obj: ObjectMap, command: string, ghost table: Table) returns (outcome: Outcome)
    modifies obj
    ensures var spec := AttachStdio(c, name, old(obj.members), command, table);
            Object(obj.members) == spec.entry && outcome == spec.outcome
  {
    if c.ours(command) {
      return Unchanged;
    }
    var args: seq<Json> := [];
    match Lookup(obj.members, "args") {
      case None =>
      case Some(Array(items)) => args := items;
      case Some(_) => return Skipped("args is not an array");
    }
    obj.Set("command", Str(c.exe));
    obj.Set("args", Array(WrapArgs(name, command, args)));
    return Changed;
  }

  method AttachOne(c: Client, name: string, entry: Json, gateway: Gateway) returns (after: Json, outcome: Outcome)
    modifies gateway
    ensures Visited(after, gateway.servers, outcome) == AttachEntry(c, name, entry, old(gateway.servers))
  {
    if !entry.Object? {
      return entry, Skipped("not an object");
    }
    var obj := new ObjectMap(entry.members);
    var command := GetStr(entry, "command");
    if command.Some? {
      outcome := AttachStdioEntry(c, name, obj, command.value, gateway.servers);
      return Object(obj.members), outcome;
    }
    var url := GetStr(entry, "url");
    if url.Some? {
      if GatewayRoute(url.value).Some? {
        return entry, Unchanged;
      }
      var route := gateway.AllocateRoute(name, url.value);
      gateway.servers := gateway.servers[route := url.value];
      obj.Set("url", Str(GatewayUrl(c.port, route)));
      return Object(obj.members), Changed;
    }
    return entry, Skipped("no command or url");
  }

  method DetachStdioEntry(ours: string -> bool, obj: ObjectMap, command: string) returns (outcome: Outcome)
    modifies obj
    ensures (obj.members, outcome) == DetachStdio(ours, old(obj.members), command)
  {
    if !ours(command) {
      return Unchanged;
    }
    var found := Lookup(obj.members, "args");
    if found.None? || !found.value.Array? {
      return Skipped("mcpglass command without args");
    }
    var args := found.value.items;
    if args == [] || args[0] != Str("wrap") {
      return Skipped("not a wrap invocation");
    }
    var sep := 0;
    while sep < |args| && args[sep] != Str("--")
      invariant 0 <= sep <= |args|
      invariant forall i :: 0 <= i < sep ==> args[i] != Str("--")
    {
      sep := sep + 1;
    }
    assert sep == Separator(args);
    if sep == |args| {
      return Skipped("no `--` separator");
    }
    if sep + 1 == |args| || !args[sep + 1].Str? {
      return Skipped("nothing after `--`");
    }
    obj.Set("command", args[sep + 1]);
    if sep + 2 == |args| {
      obj.SwapRemove("args");
    } else {
      obj.Set("args", Array(args[sep + 2..]));
    }
    return Changed;
  }

  method DetachOne(ours: string -> bool, entry: Json, table: Table) returns (after: Json, outcome: Outcome)
    ensures Visited(after, table, outcome) == DetachEntry(ours, entry, table)
  {
    if !entry.Object? {
      return entry, Skipped("not an object");
    }
    var obj := new ObjectMap(entry.members);
    var command := GetStr(entry, "command");
    if command.Some? {
      outcome := DetachStdioEntry(ours, obj, command.value);
      return Object(obj.members), outcome;
    }
    var url := GetStr(entry, "url");
    if url.Some? {
      var route := GatewayRoute(url.value);
      if route.None? {
        return entry, Unchanged;
      }
      if route.value !in table {
        return entry, Skipped("no gateway.toml mapping to restore url");
      }
      obj.Set("url", Str(table[route.value]));
      return Object(obj.members), Changed;
    }
    return entry, Unchanged;
  }

  method VisitOne(op: Op, name: string, entry: Json, gateway: Gateway) returns (after: Json, outcome: Outcome)
    modifies gateway
    ensures Visited(after, gateway.servers, outcome) == Visitor(op)(name, entry, old(gateway.servers))
  {
    match op {
      case Attaching(c) => after, outcome := AttachOne(c, name, entry, gateway);
      case Detaching(ours) => after, outcome := DetachOne(ours, entry, gateway.servers);
    }
  }

  method VisitServers(op: Op, scope: Option<string>, ms: seq<Member>, gateway: Gateway)
    returns (done: seq<Member>, reports: seq<Report>)
    modifies gateway
    ensures Swept(done, gateway.servers, reports) == SweepServers(Visitor(op), scope, ms, old(gateway.servers))
  {
    done, reports := [], [];
    ghost var total := SweepServers(Visitor(op), scope, ms, gateway.servers);
    JoinedEmpty(total, gateway.servers);
    var i := 0;
    while i < |ms|
      invariant 0 <= i <= |ms|
      invariant Joined(Swept(done, gateway.servers, reports),
                SweepServers(Visitor(op), scope, ms[i..], gateway.servers)) == total
    {
      ghost var before := Swept(done, gateway.servers, reports);
      var entry, outcome := VisitOne(op, ms[i].key, ms[i].json, gateway);
      done := done + [Member(ms[i].key, entry)];
      reports := reports + [Report(ms[i].key, scope, outcome)];
      JoinedNext(before, Swept([Member(ms[i].key, entry)], gateway.servers, [Report(ms[i].key, scope, outcome)]),
                 SweepServers(Visitor(op), scope, ms[i + 1..], gateway.servers));
      assert ms[i..][1..] == ms[i + 1..];
      i := i + 1;
    }
    JoinedEmpty(Swept(done, gateway.servers, reports), gateway.servers);
  }

  method VisitHolder(
    op: Op, scope: Option<string>, v: Json, gateway: Gateway) returns (after: Json, reports: seq<Report>)
    modifies gateway
    ensures Rewritten(after, gateway.servers, reports) == SweepHolder(Visitor(op), scope, v, old(gateway.servers))
  {
    after, reports := v, [];
    var servers := ObjectAt(v, SERVERS);
    if servers.Some? {
      var done;
      done, reports := VisitServers(op, scope, servers.value, gateway);
      after := PutObject(v, SERVERS, done);
    }
  }

  method VisitProjects(op: Op, ms: seq<Member>, gateway: Gateway) returns (done: seq<Member>, reports: seq<Report>)
    modifies gateway
    ensures Swept(done, gateway.servers, reports) == SweepProjects(Visitor(op), ms, old(gateway.servers))
  {
    done, reports := [], [];
    ghost var total := SweepProjects(Visitor(op), ms, gateway.servers);
    JoinedEmpty(total, gateway.servers);
    var i := 0;
    while i < |ms|
      invariant 0 <= i <= |ms|
      invariant Joined(Swept(done, gateway.servers, reports), SweepProjects(Visitor(op), ms[i..], gateway.servers))
                == total
    {
      ghost var before := Swept(done, gateway.servers, reports);
      var project, found := VisitHolder(op, Some(ms[i].key), ms[i].json, gateway);
      done := done + [Member(ms[i].key, project)];
      reports := reports + found;
      JoinedNext(before, Swept([Member(ms[i].key, project)], gateway.servers, found),
                 SweepProjects(Visitor(op), ms[i + 1..], gateway.servers));
      assert ms[i..][1..] == ms[i + 1..];
      i := i + 1;
    }
    JoinedEmpty(Swept(done, gateway.servers, reports), gateway.servers);
  }

  /** The configuration document being edited. */
  class Document {
    var doc: Json

    constructor (v: Json)
      ensures doc == v
    {
      doc := v;
    }

    /** Acts on the top-level server map, then on that of every project. */
    method ForEachServersMap(op: Op, gateway: Gateway) returns (reports: seq<Report>)
      modifies this, gateway
      ensures Rewritten(doc, gateway.servers, reports) == SweepDocument(Visitor(op), old(doc), old(gateway.servers))
    {
      doc, reports := VisitHolder(op, None, doc, gateway);
      var projects := ObjectAt(doc, PROJECTS);
      if projects.Some? {
        var done, found := VisitProjects(op, projects.value, gateway);
        doc := PutObject(doc, PROJECTS, done);
        reports := reports + found;
      }
    }

    method TransformAttach(c: Client, gateway: Gateway) returns (reports: seq<Report>)
      modifies this, gateway
      ensures Rewritten(doc, gateway.servers, reports)
              == SweepDocument(Visitor(Attaching(c)), old(doc), old(gateway.servers))
    {
      reports := ForEachServersMap(Attaching(c), gateway);
    }

    method TransformDetach(ours: string -> bool, gateway: Gateway) returns (reports: seq<Report>)
      modifies this, gateway
      ensures Rewritten(doc, gateway.servers, reports)
              == SweepDocument(Visitor(Detaching(ours)), old(doc), old(gateway.servers))
    {
      reports := ForEachServersMap(Detaching(ours), gateway);
    }
  }
}
