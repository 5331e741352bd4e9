/** What attaching and detaching mean for a whole document. */
module AttachLaws {
  import opened Common
  import opened Json
  import opened Sequences
  import opened Routes
  import opened Attach

  // ---------------------------------------------------------------- ordered objects

  lemma KeyIndexIs(ms: seq<Member>, key: string, k: nat)
    requires k <= |ms| && (k < |ms| ==> ms[k].key == key)
    requires forall i :: 0 <= i < k ==> ms[i].key != key
    ensures KeyIndex(ms, key) == k
  {
  }

  lemma KeyIndexAfterInsert(ms: seq<Member>, key: string, v: Json, other: string)
    ensures KeyIndex(Insert(ms, key, v), key) == KeyIndex(ms, key)
    ensures other != key && KeyIndex(ms, other) < |ms| ==> KeyIndex(Insert(ms, key, v), other) == KeyIndex(ms, other)
    ensures other != key && KeyIndex(ms, other) == |ms| ==>
            KeyIndex(Insert(ms, key, v), other) == |Insert(ms, key, v)|
  {
    KeyIndexIs(Insert(ms, key, v), key, KeyIndex(ms, key));
    if other != key {
      var k := KeyIndex(ms, other);
      KeyIndexIs(Insert(ms, key, v), other, if k < |ms| then k else |Insert(ms, key, v)|);
    }
  }

  lemma LookupAfterInsert(ms: seq<Member>, key: string, v: Json, other: string)
    ensures Lookup(Insert(ms, key, v), key) == Some(v)
    ensures other != key ==> Lookup(Insert(ms, key, v), other) == Lookup(ms, other)
  {
    KeyIndexAfterInsert(ms, key, v, other);
  }

  lemma InsertTwice(ms: seq<Member>, key: string, a: Json, b: Json)
    ensures Insert(Insert(ms, key, a), key, b) == Insert(ms, key, b)
  {
    KeyIndexAfterInsert(ms, key, a, key);
  }

  lemma InsertSame(ms: seq<Member>, key: string, v: Json)
    requires Lookup(ms, key) == Some(v)
    ensures Insert(ms, key, v) == ms
  {
  }

  /** Writes to two keys, one of them present, can be swapped. */
  lemma InsertsCommute(ms: seq<Member>, j: string, k: string, a: Json, b: Json)
    requires j != k && Lookup(ms, j).Some?
    ensures Insert(Insert(ms, j, a), k, b) == Insert(Insert(ms, k, b), j, a)
  {
    KeyIndexAfterInsert(ms, j, a, k);
    KeyIndexAfterInsert(ms, k, b, j);
  }

  /** Removing the key that was just added. */
  lemma RemoveAdded(ms: seq<Member>, key: string, v: Json)
    requires Lookup(ms, key).None?
    ensures Remove(Insert(ms, key, v), key) == ms
  {
    KeyIndexAfterInsert(ms, key, v, key);
  }

  /** Removing a member moves the last one into its place, and no other. */
  lemma LastTakesItsPlace(a: seq<Member>, m: Member, b: seq<Member>, last: Member)
    requires forall i :: 0 <= i < |a| ==> a[i].key != m.key
    ensures Remove(a + [m] + b + [last], m.key) == a + [last] + b
    ensures Remove(a + [m], m.key) == a
  {
    var all, short := a + [m] + b + [last], a + [m];
    KeyIndexIs(all, m.key, |a|);
    KeyIndexIs(short, m.key, |a|);
    assert all[..|all| - 1] == a + [m] + b && (a + [m] + b)[|a| := last] == a + [last] + b;
    assert short[..|a|] == a;
  }

  lemma RemoveShortens(ms: seq<Member>, key: string)
    requires Lookup(ms, key).Some?
    ensures |Remove(ms, key)| == |ms| - 1
  {
  }

  lemma InsertKeepsLength(ms: seq<Member>, key: string, v: Json)
    requires Lookup(ms, key).Some?
    ensures |Insert(ms, key, v)| == |ms|
  {
  }

  // ---------------------------------------------------------------- one entry

  /** The args detach would take a command out of. */
  predicate Unwraps(args: Option<Json>) {
    args.Some? && args.value.Array? &&
    var items := args.value.items;
    var sep := Separator(items);
    items != [] && items[0] == Str("wrap") && sep + 1 < |items| && items[sep + 1].Str?
  }

  /** The stdio entries attach rewrites. */
  predicate Wrapped(c: Client, entry: Json) {
    var command := GetStr(entry, "command");
    var args := Get(entry, "args");
    command.Some? && !c.ours(command.value) && (args.Some? ==> args.value.Array?)
  }

  /**
   When detaching restores an entry. For a rewritten stdio entry: the proxy's path is
   recognised as ours, the server is not named like the separator, and there is no empty args
   array. An entry that was ours before must not look like something attach wrote.
   */
  predicate Restorable(c: Client, name: string, entry: Json, table: Table) {
    var command, url := GetStr(entry, "command"), GetStr(entry, "url");
    if Wrapped(c, entry) then
      c.ours(c.exe) && name != "--" && Get(entry, "args") != Some(Array([]))
    else if command.Some? then
      c.ours(command.value) ==> !Unwraps(Get(entry, "args"))
    else
      url.Some? && GatewayRoute(url.value).Some? ==> FreeOrSame(table, url.value, GatewayRoute(url.value).value)
  }

  lemma WrapSeparator(name: string, command: string, args: seq<Json>)
    ensures var w := WrapArgs(name, command, args);
            w[0] == Str("wrap") &&
            Separator(w) == (if name == "--" then 2 else 3)
  {
    var w := WrapArgs(name, command, args);
    assert w[0] == Str("wrap") && w[1] == Str("--name") && w[2] == Str(name) && w[3] == Str("--");
  }

  /** What a wrapped entry looks like to the next visit. */
  lemma WrappedEntry(c: Client, name: string, ms: seq<Member>, command: string, args: seq<Json>)
    requires Lookup(ms, "command") == Some(Str(command))
    ensures var after := Insert(Insert(ms, "command", Str(c.exe)), "args", Array(WrapArgs(name, command, args)));
            && Lookup(after, "command") == Some(Str(c.exe))
            && Lookup(after, "args") == Some(Array(WrapArgs(name, command, args)))
            && Insert(after, "command", Str(command)) == Insert(ms, "args", Array(WrapArgs(name, command, args)))
  {
    var one := Insert(ms, "command", Str(c.exe));
    var wrapped := Array(WrapArgs(name, command, args));
    LookupAfterInsert(ms, "command", Str(c.exe), "args");
    LookupAfterInsert(one, "args", wrapped, "command");
    InsertsCommute(one, "command", "args", Str(command), wrapped);
    InsertTwice(ms, "command", Str(c.exe), Str(command));
    InsertSame(ms, "command", Str(command));
  }

  /** Members whose args have another length are other members. */
  lemma ArgsDiffer(ms: seq<Member>, after: seq<Member>, args: seq<Json>, rest: seq<Json>)
    requires Lookup(ms, "args").Some? ==> Lookup(ms, "args").value == Array(args)
    requires Lookup(after, "args") == Some(Array(rest)) && |rest| > |args|
    ensures after != ms
  {
  }

  /** Detaching an object whose args hold a wrapped command. */
  lemma DetachStdioUnwraps(ours: string -> bool, ms: seq<Member>, command: string, args: seq<Json>, sep: nat)
    requires ours(command) && Lookup(ms, "args") == Some(Array(args))
    requires sep == Separator(args) && sep + 1 < |args| && args[0] == Str("wrap") && args[sep + 1].Str?
    ensures var restored, rest := Insert(ms, "command", args[sep + 1]), args[sep + 2..];
            DetachStdio(ours, ms, command).0 ==
            if rest == [] then Remove(restored, "args") else Insert(restored, "args", Array(rest))
  {
  }

  /** The last write of a detach brings the args back, unless they were an empty array. */
  lemma ArgsRestored(ms: seq<Member>, wrapped: Json, args: seq<Json>)
    requires Lookup(ms, "args").Some? ==> Lookup(ms, "args").value == Array(args)
    requires Lookup(ms, "args").None? ==> args == []
    ensures var restored := Insert(ms, "args", wrapped);
            (if args == [] then Remove(restored, "args") else Insert(restored, "args", Array(args))) == ms
            <==> Lookup(ms, "args") != Some(Array([]))
  {
    var restored := Insert(ms, "args", wrapped);
    InsertTwice(ms, "args", wrapped, Array(args));
    LookupAfterInsert(ms, "args", wrapped, "args");
    if Lookup(ms, "args").None? {
      RemoveAdded(ms, "args", wrapped);
    } else {
      InsertSame(ms, "args", Array(args));
      InsertKeepsLength(ms, "args", wrapped);
      RemoveShortens(restored, "args");
    }
  }

  /** Detaching what attach wrote for a stdio entry with this command and these args. */
  lemma DetachWrapped(c: Client, name: string, ms: seq<Member>, command: string, args: seq<Json>)
    requires Lookup(ms, "command") == Some(Str(command))
    requires Lookup(ms, "args").Some? ==> Lookup(ms, "args").value == Array(args)
    requires Lookup(ms, "args").None? ==> args == []
    ensures var after := Insert(Insert(ms, "command", Str(c.exe)), "args", Array(WrapArgs(name, command, args)));
            && Lookup(after, "command") == Some(Str(c.exe))
            && (DetachStdio(c.ours, after, c.exe).0 == ms
                <==> c.ours(c.exe) && name != "--" && Lookup(ms, "args") != Some(Array([])))
  {
    var wrap := WrapArgs(name, command, args);
    var after := Insert(Insert(ms, "command", Str(c.exe)), "args", Array(wrap));
    WrappedEntry(c, name, ms, command, args);
    WrapSeparator(name, command, args);
    if !c.ours(c.exe) {
      ArgsDiffer(ms, after, args, wrap);
    } else if name == "--" {
      DetachStdioUnwraps(c.ours, after, c.exe, wrap, 2);
      var restored := Insert(after, "command", wrap[3]);
      LookupAfterInsert(restored, "args", Array(wrap[4..]), "args");
      ArgsDiffer(ms, Insert(restored, "args", Array(wrap[4..])), args, wrap[4..]);
    } else {
      DetachStdioUnwraps(c.ours, after, c.exe, wrap, 3);
      assert wrap[5..] == args;
      ArgsRestored(ms, Array(wrap), args);
    }
  }

  /** Detaching an entry attach left alone because its command was ours. */
  lemma DetachOursStdio(ours: string -> bool, ms: seq<Member>, command: string)
    requires ours(command) && Lookup(ms, "command") == Some(Str(command))
    ensures DetachStdio(ours, ms, command).0 == ms <==> !Unwraps(Lookup(ms, "args"))
  {
    if Unwraps(Lookup(ms, "args")) {
      var args := Lookup(ms, "args").value.items;
      var sep := Separator(args);
      var restored, rest := Insert(ms, "command", args[sep + 1]), args[sep + 2..];
      DetachStdioUnwraps(ours, ms, command, args, sep);
      LookupAfterInsert(ms, "command", args[sep + 1], "args");
      InsertKeepsLength(ms, "command", args[sep + 1]);
      RemoveShortens(restored, "args");
      LookupAfterInsert(restored, "args", Array(rest), "args");
      assert |rest| < |args|;
    }
  }

  /** Detaching an entry that points at a route recorded for its old URL. */
  lemma DetachRouted(ms: seq<Member>, url: string, pointed: string, final: Table)
    requires Lookup(ms, "url") == Some(Str(url))
    requires GatewayRoute(pointed).Some? && GatewayRoute(pointed).value in final
             && final[GatewayRoute(pointed).value] == url
    ensures var after := Insert(ms, "url", Str(pointed));
            && Lookup(after, "url") == Some(Str(pointed)) && Lookup(after, "command") == Lookup(ms, "command")
            && DetachUrl(after, pointed, final) == (ms, Changed)
  {
    LookupAfterInsert(ms, "url", Str(pointed), "command");
    InsertTwice(ms, "url", Str(pointed), Str(url));
    InsertSame(ms, "url", Str(url));
  }

  lemma DetachOursUrl(ms: seq<Member>, url: string, final: Table)
    requires Lookup(ms, "url") == Some(Str(url)) && GatewayRoute(url).Some?
    ensures DetachUrl(ms, url, final).0 == ms <==> FreeOrSame(final, url, GatewayRoute(url).value)
  {
    var route := GatewayRoute(url).value;
    if route in final {
      LookupAfterInsert(ms, "url", Str(final[route]), "url");
      if final[route] == url {
        InsertSame(ms, "url", Str(url));
      }
    }
  }

  function ArgsOf(ms: seq<Member>): seq<Json>
    requires Lookup(ms, "args").Some? ==> Lookup(ms, "args").value.Array?
  {
    if Lookup(ms, "args").Some? then Lookup(ms, "args").value.items else []
  }

  lemma DetachWrappedEntry(c: Client, name: string, entry: Json, table: Table, final: Table)
    requires Wrapped(c, entry)
    ensures DetachEntry(c.ours, AttachEntry(c, name, entry, table).entry, final).entry == entry
            <==> Restorable(c, name, entry, final)
  {
    DetachWrapped(c, name, entry.members, GetStr(entry, "command").value, ArgsOf(entry.members));
  }

  lemma DetachUnwrappedEntry(c: Client, name: string, entry: Json, table: Table, final: Table)
    requires !Wrapped(c, entry) && GetStr(entry, "command").Some?
    ensures DetachEntry(c.ours, AttachEntry(c, name, entry, table).entry, final).entry == entry
            <==> Restorable(c, name, entry, final)
  {
    if c.ours(GetStr(entry, "command").value) {
      DetachOursStdio(c.ours, entry.members, GetStr(entry, "command").value);
    }
  }

  /** What attach writes for a URL entry that is not ours, and the route it can be read back to. */
  lemma RoutedEntry(c: Client, name: string, entry: Json, table: Table) returns (route: string, pointed: string)
    requires entry.Object? && GetStr(entry, "command").None?
    requires GetStr(entry, "url").Some? && GatewayRoute(GetStr(entry, "url").value).None?
    ensures AttachEntry(c, name, entry, table)
            == Visited(Object(Insert(entry.members, "url", Str(pointed))), table[route := GetStr(entry, "url").value],
                Changed)
    ensures GatewayRoute(pointed) == Some(route)
  {
    route := Route(table, name, GetStr(entry, "url").value);
    pointed := GatewayUrl(c.port, route);
    GatewayUrlRoundTrip(c.port, route);
  }

  lemma DetachRoutedEntry(c: Client, name: string, entry: Json, table: Table, final: Table)
    requires entry.Object? && GetStr(entry, "command").None?
    requires GetStr(entry, "url").Some? && GatewayRoute(GetStr(entry, "url").value).None?
    requires Extends(AttachEntry(c, name, entry, table).table, final)
    ensures DetachEntry(c.ours, AttachEntry(c, name, entry, table).entry, final).entry == entry
  {
    var route, pointed := RoutedEntry(c, name, entry, table);
    assert final[route] == GetStr(entry, "url").value;
    DetachRouted(entry.members, GetStr(entry, "url").value, pointed, final);
  }

  lemma DetachUrlEntry(c: Client, name: string, entry: Json, table: Table, final: Table)
    requires GetStr(entry, "command").None?
    requires GetStr(entry, "url").Some? && GatewayRoute(GetStr(entry, "url").value).Some?
    ensures DetachEntry(c.ours, AttachEntry(c, name, entry, table).entry, final).entry == entry
            <==> Restorable(c, name, entry, final)
  {
    DetachOursUrl(entry.members, GetStr(entry, "url").value, final);
  }

  lemma DetachUndoesAttachEntry(c: Client, name: string, entry: Json, table: Table, final: Table)
    requires Extends(AttachEntry(c, name, entry, table).table, final)
    ensures DetachEntry(c.ours, AttachEntry(c, name, entry, table).entry, final).entry == entry
            <==> Restorable(c, name, entry, final)
  {
    if Wrapped(c, entry) {
      DetachWrappedEntry(c, name, entry, table, final);
    } else if GetStr(entry, "command").Some? {
      DetachUnwrappedEntry(c, name, entry, table, final);
    } else if GetStr(entry, "url").Some? {
      if GatewayRoute(GetStr(entry, "url").value).None? {
        DetachRoutedEntry(c, name, entry, table, final);
      } else {
        DetachUrlEntry(c, name, entry, table, final);
      }
    }
  }

  lemma WrapAgain(c: Client, again: Client, name: string, ms: seq<Member>, command: string, args: seq<Json>)
    requires Lookup(ms, "command") == Some(Str(command))
    ensures var wrap := WrapArgs(name, command, args);
            var after := Insert(Insert(ms, "command", Str(c.exe)), "args", Array(wrap));
            && Lookup(after, "command") == Some(Str(c.exe)) && Lookup(after, "args") == Some(Array(wrap))
            && Insert(Insert(after, "command", Str(again.exe)), "args", Array(WrapArgs(name, c.exe, wrap))) != after
  {
    var wrap := WrapArgs(name, command, args);
    var after := Insert(Insert(ms, "command", Str(c.exe)), "args", Array(wrap));
    var more := WrapArgs(name, c.exe, wrap);
    WrappedEntry(c, name, ms, command, args);
    LookupAfterInsert(Insert(after, "command", Str(again.exe)), "args", Array(more), "args");
    ArgsDiffer(after, Insert(Insert(after, "command", Str(again.exe)), "args", Array(more)), wrap, more);
  }

  lemma WrappedEntryAgain(c: Client, again: Client, name: string, entry: Json, table: Table, later: Table)
    requires again.ours == c.ours && Wrapped(c, entry)
    ensures var once := AttachEntry(c, name, entry, table);
            var twice := AttachEntry(again, name, once.entry, later);
            twice.table == later && (twice.entry == once.entry <==> c.ours(c.exe))
  {
    WrapAgain(c, again, name, entry.members, GetStr(entry, "command").value, ArgsOf(entry.members));
  }

  lemma RoutedEntryAgain(c: Client, again: Client, name: string, entry: Json, table: Table, later: Table)
    requires entry.Object? && GetStr(entry, "command").None?
    requires GetStr(entry, "url").Some? && GatewayRoute(GetStr(entry, "url").value).None?
    ensures var once := AttachEntry(c, name, entry, table);
            var twice := AttachEntry(again, name, once.entry, later);
            twice.table == later && twice.entry == once.entry
  {
    var route, pointed := RoutedEntry(c, name, entry, table);
    LookupAfterInsert(entry.members, "url", Str(pointed), "command");
  }

  /** Attaching an attached entry again never touches the table, and changes only unrecognised wraps. */
  lemma AttachEntryAgain(c: Client, again: Client, name: string, entry: Json, table: Table, later: Table)
    requires again.ours == c.ours
    ensures var once := AttachEntry(c, name, entry, table);
            var twice := AttachEntry(again, name, once.entry, later);
            && twice.table == later
            && (twice.entry == once.entry <==> (Wrapped(c, entry) ==> c.ours(c.exe)))
  {
    if Wrapped(c, entry) {
      WrappedEntryAgain(c, again, name, entry, table, later);
    } else if entry.Object? && GetStr(entry, "command").None? && GetStr(entry, "url").Some? {
      if GatewayRoute(GetStr(entry, "url").value).None? {
        RoutedEntryAgain(c, again, name, entry, table, later);
      }
    }
  }

  /** A rewritten stdio entry runs the same command and args behind the proxy's own. */
  lemma AttachWraps(c: Client, name: string, entry: Json, table: Table)
    requires Wrapped(c, entry)
    ensures var once := AttachEntry(c, name, entry, table);
            && once.outcome == Changed && once.table == table
            && GetStr(once.entry, "command") == Some(c.exe)
            && Get(once.entry, "args")
               == Some(Array([Str("wrap"), Str("--name"), Str(name), Str("--"), Get(entry, "command").value]
                             + (if Get(entry, "args").Some? then Get(entry, "args").value.items else [])))
  {
    WrappedEntry(c, name, entry.members, GetStr(entry, "command").value, ArgsOf(entry.members));
  }

  /** A URL of this machine, on this port in decimal, under a route that the table resolves to `upstream`. */
  ghost predicate PointsAt(url: string, port: nat, table: Table, upstream: string) {
    exists digits, route ::
      && url == "http://127.0.0.1:" + digits + "/u/" + route
      && AllDigits(digits) && ReadFrom(0, digits) == port && (|digits| > 1 ==> digits[0] != '0')
      && route in table && table[route] == upstream
  }

  lemma PointedAt(port: nat, route: string, table: Table, upstream: string)
    requires route in table && table[route] == upstream
    ensures PointsAt(GatewayUrl(port, route), port, table, upstream)
  {
    var digits := GatewayUrlLiterally(port, route);
  }

  /**
   A rewritten URL entry points at this machine, on the gateway's port in decimal, under a route
   that holds its old URL, and no other route changed.
   */
  lemma AttachRoutes(c: Client, name: string, entry: Json, table: Table)
    requires entry.Object? && GetStr(entry, "command").None?
    requires GetStr(entry, "url").Some? && GatewayRoute(GetStr(entry, "url").value).None?
    ensures var once := AttachEntry(c, name, entry, table);
            && once.outcome == Changed && GetStr(once.entry, "url").Some?
            && GatewayRoute(GetStr(once.entry, "url").value).Some?
            && once.table == table[GatewayRoute(GetStr(once.entry, "url").value).value := GetStr(entry, "url").value]
            && Extends(table, once.table)
            && PointsAt(GetStr(once.entry, "url").value, c.port, once.table, GetStr(entry, "url").value)
  {
    var route := Route(table, name, GetStr(entry, "url").value);
    var pointed := GatewayUrl(c.port, route);
    GatewayUrlRoundTrip(c.port, route);
    PointedAt(c.port, route, table[route := GetStr(entry, "url").value], GetStr(entry, "url").value);
    AttachEntryExtends(c, name, entry, table);
    LookupAfterInsert(entry.members, "url", Str(pointed), "command");
  }

  /** Every other entry, and every other key of an entry, is left as it is. */
  lemma AttachTouchesNothingElse(c: Client, name: string, entry: Json, table: Table, key: string)
    requires key !in {"command", "args", "url"}
    ensures var once := AttachEntry(c, name, entry, table);
            && Get(once.entry, key) == Get(entry, key)
            && (once.outcome != Changed ==> once.entry == entry && once.table == table)
  {
    if Wrapped(c, entry) {
      var one := Insert(entry.members, "command", Str(c.exe));
      var wrap := Array(WrapArgs(name, GetStr(entry, "command").value, ArgsOf(entry.members)));
      LookupAfterInsert(entry.members, "command", Str(c.exe), key);
      LookupAfterInsert(one, "args", wrap, key);
    } else if GetStr(entry, "command").None? && GetStr(entry, "url").Some? {
      if GatewayRoute(GetStr(entry, "url").value).None? {
        var route, pointed := RoutedEntry(c, name, entry, table);
        LookupAfterInsert(entry.members, "url", Str(pointed), key);
      }
    }
  }

  /** Attaching only adds routes. */
  lemma AttachEntryExtends(c: Client, name: string, entry: Json, table: Table)
    ensures Extends(table, AttachEntry(c, name, entry, table).table)
  {
    if entry.Object? && GetStr(entry, "url").Some? {
      RouteIsSafe(table, name, GetStr(entry, "url").value);
    }
  }

  // ---------------------------------------------------------------- objects inside a document

  lemma PutThenGet(v: Json, key: string, ms: seq<Member>, other: string)
    ensures ObjectAt(v, key).Some? ==> ObjectAt(PutObject(v, key, ms), key) == Some(ms)
    ensures other != key ==> ObjectAt(PutObject(v, key, ms), other) == ObjectAt(v, other)
  {
    if ObjectAt(v, key).Some? {
      LookupAfterInsert(v.members, key, Object(ms), other);
    }
  }

  lemma PutTwice(v: Json, key: string, a: seq<Member>, b: seq<Member>)
    ensures PutObject(PutObject(v, key, a), key, b) == PutObject(v, key, b)
  {
    if ObjectAt(v, key).Some? {
      PutThenGet(v, key, a, key);
      InsertTwice(v.members, key, Object(a), Object(b));
    }
  }

  lemma PutSame(v: Json, key: string)
    requires ObjectAt(v, key).Some?
    ensures PutObject(v, key, ObjectAt(v, key).value) == v
  {
    InsertSame(v.members, key, Object(ObjectAt(v, key).value));
  }

  lemma PutsCommute(v: Json, j: string, k: string, a: seq<Member>, b: seq<Member>)
    requires j != k
    ensures PutObject(PutObject(v, j, a), k, b) == PutObject(PutObject(v, k, b), j, a)
  {
    PutThenGet(v, j, a, k);
    PutThenGet(v, k, b, j);
    if ObjectAt(v, j).Some? && ObjectAt(v, k).Some? {
      InsertsCommute(v.members, j, k, Object(a), Object(b));
    }
  }

  /** Writes of different members to the same place give different values. */
  lemma PutInjective(v: Json, key: string, a: seq<Member>, b: seq<Member>)
    requires ObjectAt(v, key).Some?
    ensures PutObject(v, key, a) == PutObject(v, key, b) <==> a == b
  {
    PutThenGet(v, key, a, key);
    PutThenGet(v, key, b, key);
  }

  /** Two values with the same object at a key, after writes there. */
  lemma PutBoth(v: Json, w: Json, key: string, a: seq<Member>, b: seq<Member>)
    requires ObjectAt(v, key).Some? && ObjectAt(v, key) == ObjectAt(w, key)
    ensures PutObject(v, key, a) == PutObject(w, key, b) <==> v == w && a == b
  {
    PutThenGet(v, key, a, key);
    PutThenGet(w, key, b, key);
    PutTwice(v, key, a, ObjectAt(v, key).value);
    PutTwice(w, key, b, ObjectAt(v, key).value);
    PutSame(v, key);
    PutSame(w, key);
  }

  // ---------------------------------------------------------------- a visit after attaching

  /** What holds of a server's name and entry. */
  type Condition = (string, Json) -> bool

  predicate AllServers(good: Condition, ms: seq<Member>) {
    forall i :: 0 <= i < |ms| ==> good(ms[i].key, ms[i].json)
  }

  predicate AllHolder(good: Condition, v: Json) {
    ObjectAt(v, SERVERS).Some? ==> AllServers(good, ObjectAt(v, SERVERS).value)
  }

  predicate AllProjects(good: Condition, ms: seq<Member>) {
    forall i :: 0 <= i < |ms| ==> AllHolder(good, ms[i].json)
  }

  /** `good` holds of every server entry of the document. */
  predicate AllEntries(good: Condition, doc: Json) {
    AllHolder(good, doc) &&
    (ObjectAt(doc, PROJECTS).Some? ==> AllProjects(good, ObjectAt(doc, PROJECTS).value))
  }

  function RestorableFrom(c: Client, later: Table): Condition {
    (name, entry) => Restorable(c, name, entry, later)
  }

  /** Attach recognises what it wrote. */
  function Recognised(c: Client): Condition {
    (name, entry) => Wrapped(c, entry) ==> c.ours(c.exe)
  }

  /** When the second visit does what it should to an entry: detach restores it, attach leaves it. */
  function Settled(c: Client, op: Op, later: Table): Condition {
    if op.Detaching? then RestorableFrom(c, later) else Recognised(c)
  }

  /** What the second visit should leave: the original when detaching, the attached form otherwise. */
  function Wanted<T>(op: Op, original: T, attached: T): T {
    if op.Detaching? then original else attached
  }

  ghost predicate SameTest(c: Client, op: Op) {
    match op
    case Detaching(ours) => ours == c.ours
    case Attaching(again) => again.ours == c.ours
  }

  /** A detach needs the routes the attach recorded. */
  predicate Enough(op: Op, attached: Table, later: Table) {
    op.Detaching? ==> Extends(attached, later)
  }

  lemma EntryDetached(c: Client, name: string, entry: Json, table: Table, later: Table)
    requires Extends(Visitor(Attaching(c))(name, entry, table).table, later)
    ensures var once := Visitor(Attaching(c))(name, entry, table);
            var twice := Visitor(Detaching(c.ours))(name, once.entry, later);
            && twice.table == later
            && (twice.entry == entry <==> RestorableFrom(c, later)(name, entry))
  {
    var once := AttachEntry(c, name, entry, table);
    assert Visitor(Attaching(c))(name, entry, table) == once;
    DetachUndoesAttachEntry(c, name, entry, table, later);
    DetachKeepsTable(c.ours, once.entry, later);
    assert RestorableFrom(c, later)(name, entry) == Restorable(c, name, entry, later);
    assert Visitor(Detaching(c.ours))(name, once.entry, later) == DetachEntry(c.ours, once.entry, later);
  }

  lemma DetachKeepsTable(ours: string -> bool, entry: Json, table: Table)
    ensures DetachEntry(ours, entry, table).table == table
  {
  }

  lemma EntryVisitedAgain(c: Client, op: Op, name: string, entry: Json, table: Table, later: Table)
    requires SameTest(c, op) && Enough(op, Visitor(Attaching(c))(name, entry, table).table, later)
    ensures var once := Visitor(Attaching(c))(name, entry, table);
            var twice := Visitor(op)(name, once.entry, later);
            && twice.table == later
            && (twice.entry == Wanted(op, entry, once.entry) <==> Settled(c, op, later)(name, entry))
  {
    match op {
      case Detaching(_) => EntryDetached(c, name, entry, table, later);
      case Attaching(again) => EntryAttachedAgain(c, again, name, entry, table, later);
    }
  }

  lemma EntryAttachedAgain(c: Client, again: Client, name: string, entry: Json, table: Table, later: Table)
    requires again.ours == c.ours
    ensures var once := Visitor(Attaching(c))(name, entry, table);
            var twice := Visitor(Attaching(again))(name, once.entry, later);
            && twice.table == later
            && (twice.entry == once.entry <==> Recognised(c)(name, entry))
  {
    var once := AttachEntry(c, name, entry, table);
    assert Visitor(Attaching(c))(name, entry, table) == once;
    AttachEntryAgain(c, again, name, entry, table, later);
    assert Recognised(c)(name, entry) == (Wrapped(c, entry) ==> c.ours(c.exe));
    assert Visitor(Attaching(again))(name, once.entry, later) == AttachEntry(again, name, once.entry, later);
  }

  lemma ExtendsChain(a: Table, b: Table, c: Table)
    requires Extends(a, b) && Extends(b, c)
    ensures Extends(a, c)
  {
  }

  lemma {:induction false} ServersExtend(c: Client, scope: Option<string>, ms: seq<Member>, table: Table)
    ensures Extends(table, SweepServers(Visitor(Attaching(c)), scope, ms, table).table)
  {
    if ms != [] {
      var one := Visitor(Attaching(c))(ms[0].key, ms[0].json, table).table;
      AttachEntryExtends(c, ms[0].key, ms[0].json, table);
      ServersExtend(c, scope, ms[1..], one);
      ExtendsChain(table, one, SweepServers(Visitor(Attaching(c)), scope, ms[1..], one).table);
    }
  }

  lemma {:induction false} ProjectsExtend(c: Client, ms: seq<Member>, table: Table)
    ensures Extends(table, SweepProjects(Visitor(Attaching(c)), ms, table).table)
  {
    if ms != [] {
      var one := SweepHolder(Visitor(Attaching(c)), Some(ms[0].key), ms[0].json, table).table;
      HolderExtends(c, Some(ms[0].key), ms[0].json, table);
      ProjectsExtend(c, ms[1..], one);
      ExtendsChain(table, one, SweepProjects(Visitor(Attaching(c)), ms[1..], one).table);
    }
  }

  lemma HolderExtends(c: Client, scope: Option<string>, v: Json, table: Table)
    ensures Extends(table, SweepHolder(Visitor(Attaching(c)), scope, v, table).table)
  {
    if ObjectAt(v, SERVERS).Some? {
      ServersExtend(c, scope, ObjectAt(v, SERVERS).value, table);
    }
  }

  /** Attaching a whole document changes no route that was there before. */
  lemma AttachKeepsRoutes(c: Client, doc: Json, table: Table)
    ensures Extends(table, SweepDocument(Visitor(Attaching(c)), doc, table).table)
  {
    var top := SweepHolder(Visitor(Attaching(c)), None, doc, table);
    HolderExtends(c, None, doc, table);
    if ObjectAt(top.doc, PROJECTS).Some? {
      var projects := ObjectAt(top.doc, PROJECTS).value;
      ProjectsExtend(c, projects, top.table);
      ExtendsChain(table, top.table, SweepProjects(Visitor(Attaching(c)), projects, top.table).table);
    }
  }

  lemma {:induction false} ServersDetachKeeps(
    ours: string -> bool, scope: Option<string>, ms: seq<Member>, table: Table)
    ensures SweepServers(Visitor(Detaching(ours)), scope, ms, table).table == table
  {
    if ms != [] {
      DetachKeepsTable(ours, ms[0].json, table);
      ServersDetachKeeps(ours, scope, ms[1..], table);
    }
  }

  lemma HolderDetachKeeps(ours: string -> bool, scope: Option<string>, v: Json, table: Table)
    ensures SweepHolder(Visitor(Detaching(ours)), scope, v, table).table == table
  {
    if ObjectAt(v, SERVERS).Some? {
      ServersDetachKeeps(ours, scope, ObjectAt(v, SERVERS).value, table);
    }
  }

  lemma {:induction false} ProjectsDetachKeep(ours: string -> bool, ms: seq<Member>, table: Table)
    ensures SweepProjects(Visitor(Detaching(ours)), ms, table).table == table
  {
    if ms != [] {
      HolderDetachKeeps(ours, Some(ms[0].key), ms[0].json, table);
      ProjectsDetachKeep(ours, ms[1..], table);
    }
  }

  /** Detaching any document, attached or not, leaves the gateway table alone. */
  lemma DetachKeepsRoutes(ours: string -> bool, doc: Json, table: Table)
    ensures SweepDocument(Visitor(Detaching(ours)), doc, table).table == table
  {
    var top := SweepHolder(Visitor(Detaching(ours)), None, doc, table);
    HolderDetachKeeps(ours, None, doc, table);
    if ObjectAt(top.doc, PROJECTS).Some? {
      ProjectsDetachKeep(ours, ObjectAt(top.doc, PROJECTS).value, table);
    }
  }

  lemma HeadsAndTails(x: Member, xs: seq<Member>, y: Member, ys: seq<Member>)
    ensures [x] + xs == [y] + ys <==> x == y && xs == ys
  {
    if [x] + xs == [y] + ys {
      assert ([x] + xs)[0] == x && ([y] + ys)[0] == y;
      assert ([x] + xs)[1..] == xs && ([y] + ys)[1..] == ys;
    }
  }

  lemma SweepFirst(visit: Visit, scope: Option<string>, m: Member, ms: seq<Member>, table: Table)
    ensures var one := visit(m.key, m.json, table);
            var rest := SweepServers(visit, scope, ms, one.table);
            var all := SweepServers(visit, scope, [m] + ms, table);
            all.members == [Member(m.key, one.entry)] + rest.members && all.table == rest.table
  {
    FirstOfAppend([m], ms);
    EmptyAppend(ms);
  }

  lemma {:induction false} ServersVisitedAgain(
    c: Client, op: Op, scope: Option<string>, ms: seq<Member>, table: Table, later: Table)
    requires SameTest(c, op)
    requires Enough(op, SweepServers(Visitor(Attaching(c)), scope, ms, table).table, later)
    ensures var once := SweepServers(Visitor(Attaching(c)), scope, ms, table);
            var twice := SweepServers(Visitor(op), scope, once.members, later);
            && twice.table == later
            && (twice.members == Wanted(op, ms, once.members) <==> AllServers(Settled(c, op, later), ms))
  {
    if ms != [] {
      var one := Visitor(Attaching(c))(ms[0].key, ms[0].json, table);
      var rest := SweepServers(Visitor(Attaching(c)), scope, ms[1..], one.table);
      ServersExtend(c, scope, ms[1..], one.table);
      EntryVisitedAgain(c, op, ms[0].key, ms[0].json, table, later);
      ServersVisitedAgain(c, op, scope, ms[1..], one.table, later);
      var again := Visitor(op)(ms[0].key, one.entry, later);
      var others := SweepServers(Visitor(op), scope, rest.members, later);
      SweepFirst(Visitor(op), scope, Member(ms[0].key, one.entry), rest.members, later);
      WantedFirst(op, ms, Member(ms[0].key, one.entry), rest.members, Member(ms[0].key, again.entry), others.members);
      AllServersFirst(Settled(c, op, later), ms);
    }
  }

  lemma WantedFirst(op: Op, ms: seq<Member>, d: Member, ds: seq<Member>, a: Member, more: seq<Member>)
    requires ms != []
    ensures [a] + more == Wanted(op, ms, [d] + ds)
            <==> a == Wanted(op, ms[0], d) && more == Wanted(op, ms[1..], ds)
  {
    assert ms == [ms[0]] + ms[1..];
    HeadsAndTails(a, more, Wanted(op, ms[0], d), Wanted(op, ms[1..], ds));
  }

  lemma AllServersFirst(good: Condition, ms: seq<Member>)
    requires ms != []
    ensures AllServers(good, ms) <==> good(ms[0].key, ms[0].json) && AllServers(good, ms[1..])
  {
    forall i | AllServers(good, ms[1..]) && 1 <= i < |ms| ensures good(ms[i].key, ms[i].json) {
      assert ms[i] == ms[1..][i - 1];
    }
  }

  lemma AllProjectsFirst(good: Condition, ms: seq<Member>)
    requires ms != []
    ensures AllProjects(good, ms) <==> AllHolder(good, ms[0].json) && AllProjects(good, ms[1..])
  {
    forall i | AllProjects(good, ms[1..]) && 1 <= i < |ms| ensures AllHolder(good, ms[i].json) {
      assert ms[i] == ms[1..][i - 1];
    }
  }

  lemma HolderVisitedAgain(c: Client, op: Op, scope: Option<string>, v: Json, table: Table, later: Table)
    requires SameTest(c, op)
    requires Enough(op, SweepHolder(Visitor(Attaching(c)), scope, v, table).table, later)
    ensures var once := SweepHolder(Visitor(Attaching(c)), scope, v, table);
            var twice := SweepHolder(Visitor(op), scope, once.doc, later);
            && twice.table == later
            && (twice.doc == Wanted(op, v, once.doc) <==> AllHolder(Settled(c, op, later), v))
  {
    var servers := ObjectAt(v, SERVERS);
    if servers.Some? {
      var once := SweepServers(Visitor(Attaching(c)), scope, servers.value, table).members;
      var twice := SweepServers(Visitor(op), scope, once, later).members;
      ServersVisitedAgain(c, op, scope, servers.value, table, later);
      PutThenGet(v, SERVERS, once, SERVERS);
      PutTwice(v, SERVERS, once, twice);
      PutSame(v, SERVERS);
      PutInjective(v, SERVERS, twice, Wanted(op, servers.value, once));
    }
  }

  lemma {:induction false} ProjectsVisitedAgain(c: Client, op: Op, ms: seq<Member>, table: Table, later: Table)
    requires SameTest(c, op)
    requires Enough(op, SweepProjects(Visitor(Attaching(c)), ms, table).table, later)
    ensures var once := SweepProjects(Visitor(Attaching(c)), ms, table);
            var twice := SweepProjects(Visitor(op), once.members, later);
            && twice.table == later
            && (twice.members == Wanted(op, ms, once.members) <==> AllProjects(Settled(c, op, later), ms))
  {
    if ms != [] {
      var one := SweepHolder(Visitor(Attaching(c)), Some(ms[0].key), ms[0].json, table);
      var rest := SweepProjects(Visitor(Attaching(c)), ms[1..], one.table);
      ProjectsExtend(c, ms[1..], one.table);
      HolderVisitedAgain(c, op, Some(ms[0].key), ms[0].json, table, later);
      ProjectsVisitedAgain(c, op, ms[1..], one.table, later);
      var again := SweepHolder(Visitor(op), Some(ms[0].key), one.doc, later);
      var others := SweepProjects(Visitor(op), rest.members, later);
      FirstOfAppend([Member(ms[0].key, one.doc)], rest.members);
      HeadsAndTails(Member(ms[0].key, again.doc), others.members, Wanted(op, ms[0], Member(ms[0].key, one.doc)),
                    Wanted(op, ms[1..], rest.members));
      AllProjectsFirst(Settled(c, op, later), ms);
    }
  }

  /** Visiting the top-level servers neither sees nor changes the projects. */
  lemma HolderIgnoresProjects(visit: Visit, scope: Option<string>, v: Json, projects: seq<Member>, table: Table)
    ensures var alone := SweepHolder(visit, scope, v, table);
            && ObjectAt(alone.doc, PROJECTS) == ObjectAt(v, PROJECTS)
            && SweepHolder(visit, scope, PutObject(v, PROJECTS, projects), table)
               == Rewritten(PutObject(alone.doc, PROJECTS, projects), alone.table, alone.reports)
  {
    assert SERVERS[0] != PROJECTS[0];
    PutThenGet(v, PROJECTS, projects, SERVERS);
    if ObjectAt(v, SERVERS).Some? {
      var swept := SweepServers(visit, scope, ObjectAt(v, SERVERS).value, table);
      PutThenGet(v, SERVERS, swept.members, PROJECTS);
      PutsCommute(v, SERVERS, PROJECTS, swept.members, projects);
    }
  }

  lemma DocumentVisitedAgain(c: Client, op: Op, doc: Json, table: Table, later: Table)
    requires SameTest(c, op)
    requires Enough(op, SweepDocument(Visitor(Attaching(c)), doc, table).table, later)
    ensures var once := SweepDocument(Visitor(Attaching(c)), doc, table);
            var twice := SweepDocument(Visitor(op), once.doc, later);
            && twice.table == later
            && (twice.doc == Wanted(op, doc, once.doc) <==> AllEntries(Settled(c, op, later), doc))
  {
    var top := SweepHolder(Visitor(Attaching(c)), None, doc, table);
    HolderIgnoresProjects(Visitor(Attaching(c)), None, doc, [], table);
    var projects := ObjectAt(doc, PROJECTS);
    if projects.None? {
      HolderVisitedAgain(c, op, None, doc, table, later);
      HolderIgnoresProjects(Visitor(op), None, top.doc, [], later);
    } else {
      var swept := SweepProjects(Visitor(Attaching(c)), projects.value, top.table);
      ProjectsExtend(c, projects.value, top.table);
      HolderVisitedAgain(c, op, None, doc, table, later);
      ProjectsVisitedAgain(c, op, projects.value, top.table, later);
      var again := SweepHolder(Visitor(op), None, top.doc, later);
      var others := SweepProjects(Visitor(op), swept.members, later);
      HolderIgnoresProjects(Visitor(op), None, top.doc, swept.members, later);
      PutThenGet(again.doc, PROJECTS, swept.members, PROJECTS);
      PutTwice(again.doc, PROJECTS, swept.members, others.members);
      PutSame(doc, PROJECTS);
      PutBoth(again.doc, Wanted(op, doc, top.doc), PROJECTS, others.members, Wanted(op, projects.value, swept.members));
    }
  }

  /** Neither transform touches any other part of a document. */
  lemma OtherKeysUntouched(visit: Visit, doc: Json, table: Table, key: string)
    requires key !in {SERVERS, PROJECTS}
    ensures Get(SweepDocument(visit, doc, table).doc, key) == Get(doc, key)
  {
    var top := SweepHolder(visit, None, doc, table);
    if ObjectAt(doc, SERVERS).Some? {
      var swept := SweepServers(visit, None, ObjectAt(doc, SERVERS).value, table);
      LookupAfterInsert(doc.members, SERVERS, Object(swept.members), key);
    }
    if ObjectAt(top.doc, PROJECTS).Some? {
      var swept := SweepProjects(visit, ObjectAt(top.doc, PROJECTS).value, top.table);
      LookupAfterInsert(top.doc.members, PROJECTS, Object(swept.members), key);
    }
  }

  // ---------------------------------------------------------------- main results

  /**
   Detaching an attached document, with any gateway table that still holds the recorded routes,
   gives back the original document exactly when every entry is restorable.
   */
  lemma DetachUndoesAttachExactlyWhen(c: Client, doc: Json, table: Table, later: Table)
    requires Extends(SweepDocument(Visitor(Attaching(c)), doc, table).table, later)
    ensures var once := SweepDocument(Visitor(Attaching(c)), doc, table);
            SweepDocument(Visitor(Detaching(c.ours)), once.doc, later).doc == doc
            <==> AllEntries(RestorableFrom(c, later), doc)
  {
    DocumentVisitedAgain(c, Detaching(c.ours), doc, table, later);
  }

  /**
   A second attach, from whatever path and port, leaves document and table alone exactly when the
   wraps are recognised.
   */
  lemma AttachAgainExactlyWhen(c: Client, again: Client, doc: Json, table: Table, later: Table)
    requires again.ours == c.ours
    ensures var once := SweepDocument(Visitor(Attaching(c)), doc, table);
            var twice := SweepDocument(Visitor(Attaching(again)), once.doc, later);
            && twice.table == later
            && (twice.doc == once.doc <==> AllEntries(Recognised(c), doc))
  {
    DocumentVisitedAgain(c, Attaching(again), doc, table, later);
  }

  /** An entry that was never ours, is not named like the separator and has no empty args array. */
  function Plain(c: Client): Condition {
    (name, entry) =>
      var command, url := GetStr(entry, "command"), GetStr(entry, "url");
      && name != "--"
      && (command.Some? ==> !c.ours(command.value))
      && (url.Some? ==> GatewayRoute(url.value).None?)
      && Get(entry, "args") != Some(Array([]))
  }

  lemma AllEntriesWeaken(f: Condition, g: Condition, doc: Json)
    requires AllEntries(f, doc) && forall name, entry :: f(name, entry) ==> g(name, entry)
    ensures AllEntries(g, doc)
  {
  }

  /** The everyday case: with a recognised proxy path both laws hold of every plain document. */
  lemma PlainDocuments(c: Client, doc: Json, table: Table, later: Table)
    requires c.ours(c.exe) && AllEntries(Plain(c), doc)
    requires Extends(SweepDocument(Visitor(Attaching(c)), doc, table).table, later)
    ensures var once := SweepDocument(Visitor(Attaching(c)), doc, table);
            && SweepDocument(Visitor(Detaching(c.ours)), once.doc, later).doc == doc
            && SweepDocument(Visitor(Attaching(c)), once.doc, once.table) ==
               once.(reports := SweepDocument(Visitor(Attaching(c)), once.doc, once.table).reports)
  {
    AllEntriesWeaken(Plain(c), RestorableFrom(c, later), doc);
    AllEntriesWeaken(Plain(c), Recognised(c), doc);
    DetachUndoesAttachExactlyWhen(c, doc, table, later);
    AttachAgainExactlyWhen(c, c, doc, table, SweepDocument(Visitor(Attaching(c)), doc, table).table);
  }

  // ---------------------------------------------------------------- documents that are not restored

  /** A document with one server. */
  function OneServer(name: string, entry: Json): Json {
    Object([Member(SERVERS, Object([Member(name, entry)]))])
  }

  lemma OneServerEntry(good: Condition, name: string, entry: Json)
    requires AllEntries(good, OneServer(name, entry))
    ensures good(name, entry)
  {
    var ms := OneServer(name, entry).members;
    assert ms[0].key == SERVERS && KeyIndex(ms, SERVERS) == 0;
    assert [Member(name, entry)][0] == Member(name, entry);
  }

  lemma NotRestored(c: Client, name: string, entry: Json, table: Table)
    requires !Restorable(c, name, entry, AttachedTable(c, name, entry, table))
    ensures var once := SweepDocument(Visitor(Attaching(c)), OneServer(name, entry), table);
            SweepDocument(Visitor(Detaching(c.ours)), once.doc, once.table).doc != OneServer(name, entry)
  {
    var doc, after := OneServer(name, entry), AttachedTable(c, name, entry, table);
    DetachUndoesAttachExactlyWhen(c, doc, table, after);
    if AllEntries(RestorableFrom(c, after), doc) {
      OneServerEntry(RestorableFrom(c, after), name, entry);
    }
  }

  function AttachedTable(c: Client, name: string, entry: Json, table: Table): Table {
    SweepDocument(Visitor(Attaching(c)), OneServer(name, entry), table).table
  }

  const RUN_NPX := Object([Member("command", Str("npx"))])
  const RUN_NPX_NO_ARGS := Object([Member("command", Str("npx")), Member("args", Array([]))])

  lemma NpxEntries()
    ensures GetStr(RUN_NPX, "command") == Some("npx") && Get(RUN_NPX, "args") == None
    ensures GetStr(RUN_NPX_NO_ARGS, "command") == Some("npx") && Get(RUN_NPX_NO_ARGS, "args") == Some(Array([]))
  {
    var one, two := RUN_NPX.members, RUN_NPX_NO_ARGS.members;
    assert one[0].key == "command" && two[0].key == "command" && two[1].key == "args";
    assert |"command"| == 7 && |"args"| == 4;
    assert KeyIndex(one, "command") == 0 && KeyIndex(one, "args") == 1;
    assert KeyIndex(two, "command") == 0 && KeyIndex(two, "args") == 1;
  }

  /** A server named like the separator is not restored, wherever the proxy lives. */
  lemma SeparatorNameIsLost(c: Client, table: Table)
    requires !c.ours("npx")
    ensures var once := SweepDocument(Visitor(Attaching(c)), OneServer("--", RUN_NPX), table);
            SweepDocument(Visitor(Detaching(c.ours)), once.doc, once.table).doc != OneServer("--", RUN_NPX)
  {
    NpxEntries();
    NotRestored(c, "--", RUN_NPX, table);
  }

  /** An empty args array is not restored. */
  lemma EmptyArgsAreLost(c: Client, table: Table)
    requires !c.ours("npx")
    ensures var once := SweepDocument(Visitor(Attaching(c)), OneServer("npx", RUN_NPX_NO_ARGS), table);
            SweepDocument(Visitor(Detaching(c.ours)), once.doc, once.table).doc != OneServer("npx", RUN_NPX_NO_ARGS)
  {
    NpxEntries();
    NotRestored(c, "npx", RUN_NPX_NO_ARGS, table);
  }
}
