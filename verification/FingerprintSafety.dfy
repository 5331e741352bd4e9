/**
 When no run ever hits the UNIQUE index, and that every row survives.

 The argument is inductive: each definition matches at most one row of its scope, and no
 tool has rows both under a server's own key and under its legacy key.
 */
module FingerprintSafety {
  import opened Common
  import opened Fingerprints

  /** What an ideal hash gives: newer versions refine older ones, versions never meet. */
  ghost predicate Coherent(defs: iset<Hashes>) {
    forall a, b :: a in defs && b in defs ==>
      && (a.v3 == b.v3 ==> a.v2 == b.v2)
      && (a.v2 == b.v2 ==> a.v1 == b.v1)
      && a.v1 != b.v2 && a.v1 != b.v3 && a.v2 != b.v3
  }

  /**
   The legacy key of one server is another server's own key only if that server's legacy key is
   the first one's key in turn.
   */
  ghost predicate Rekeyable(legacy: map<string, string>) {
    forall s, t :: s in legacy && t in legacy && s != t && legacy[t] == s ==> legacy[s] == t
  }

  ghost predicate HasRows(rows: seq<Row>, key: string, tool: string) {
    exists i :: 0 <= i < |rows| && InScope(rows[i], key, tool)
  }

  /** The row holds the hash of some definition of the universe. */
  ghost predicate Represented(r: Row, defs: iset<Hashes>) {
    exists w :: w in defs && Matches(r, w)
  }

  ghost predicate IdsOrdered(t: Table) {
    && (forall i, j :: 0 <= i < j < |t.rows| ==> t.rows[i].id < t.rows[j].id)
    && (forall i :: 0 <= i < |t.rows| ==> t.rows[i].id < t.nextId)
  }

  /** A definition matches at most one row of each scope. */
  ghost predicate MatchOnce(rows: seq<Row>, defs: iset<Hashes>) {
    forall i, j, w |
      && 0 <= i < |rows| && 0 <= j < |rows| && w in defs
      && InScope(rows[j], rows[i].serverKey, rows[i].tool)
      && Matches(rows[i], w) && Matches(rows[j], w) :: i == j
  }

  /** No tool sits both under a server's own key and under its legacy key. */
  ghost predicate Disjoint(rows: seq<Row>, legacy: map<string, string>) {
    forall s, i, j |
      && s in legacy && legacy[s] != s && 0 <= i < |rows| && 0 <= j < |rows|
      && rows[i].serverKey == s && rows[j].serverKey == legacy[s] :: rows[i].tool != rows[j].tool
  }

  ghost predicate Safe(t: Table, defs: iset<Hashes>, legacy: map<string, string>) {
    && IdsOrdered(t)
    && (forall i :: 0 <= i < |t.rows| ==> Represented(t.rows[i], defs))
    && MatchOnce(t.rows, defs)
    && Disjoint(t.rows, legacy)
  }

  // ---------------------------------------------------------------- the SELECT

  lemma {:induction false} ScopeMembers(rows: seq<Row>, key: string, tool: string, r: Row)
    ensures r in Scope(rows, key, tool) <==> r in rows && InScope(r, key, tool)
  {
    if rows != [] {
      ScopeMembers(rows[1..], key, tool, r);
      assert rows == [rows[0]] + rows[1..];
    }
  }

  lemma {:induction false} InsertOrderedMembers(x: Row, rows: seq<Row>, r: Row)
    ensures r in InsertOrdered(x, rows) <==> r == x || r in rows
  {
    if rows != [] && !Precedes(x, rows[0]) {
      InsertOrderedMembers(x, rows[1..], r);
      assert rows == [rows[0]] + rows[1..];
    }
  }

  lemma {:induction false} OrderedMembers(rows: seq<Row>, r: Row)
    ensures r in Ordered(rows) <==> r in rows
  {
    if rows != [] {
      OrderedMembers(rows[1..], r);
      InsertOrderedMembers(rows[0], Ordered(rows[1..]), r);
      assert rows == [rows[0]] + rows[1..];
    }
  }

  /** The first row of the ordered scope precedes every other. */
  lemma {:induction false} OrderedFirst(rows: seq<Row>, r: Row)
    requires r in rows
    ensures Ordered(rows) != [] && Precedes(Ordered(rows)[0], r)
  {
    if r in rows[1..] {
      OrderedFirst(rows[1..], r);
    }
  }

  /** The SELECT returns exactly the rows of its scope, the most recent one first. */
  lemma HistoryExact(rows: seq<Row>, key: string, tool: string)
    ensures forall r :: r in History(rows, key, tool) <==> r in rows && InScope(r, key, tool)
    ensures History(rows, key, tool) == [] <==> !HasRows(rows, key, tool)
    ensures forall r :: r in rows && InScope(r, key, tool) ==>
              History(rows, key, tool) != [] && Precedes(History(rows, key, tool)[0], r)
  {
    var h := History(rows, key, tool);
    forall r
      ensures r in h <==> r in rows && InScope(r, key, tool)
    {
      ScopeMembers(rows, key, tool, r);
      OrderedMembers(Scope(rows, key, tool), r);
    }
    forall r | r in rows && InScope(r, key, tool)
      ensures h != [] && Precedes(h[0], r)
    {
      ScopeMembers(rows, key, tool, r);
      OrderedFirst(Scope(rows, key, tool), r);
    }
    assert h != [] ==> h[0] in h;
    if HasRows(rows, key, tool) {
      var i :| 0 <= i < |rows| && InScope(rows[i], key, tool);
      assert rows[i] in h;
    }
  }

  predicate InOrder(rows: seq<Row>) {
    forall i, j :: 0 <= i < j < |rows| ==> Precedes(rows[i], rows[j])
  }

  lemma {:induction false} InsertInOrder(x: Row, rows: seq<Row>)
    requires InOrder(rows)
    ensures InOrder(InsertOrdered(x, rows))
  {
    if rows != [] && !Precedes(x, rows[0]) {
      InsertInOrder(x, rows[1..]);
      var rest := InsertOrdered(x, rows[1..]);
      forall j | 0 <= j < |rest|
        ensures Precedes(rows[0], rest[j])
      {
        InsertOrderedMembers(x, rows[1..], rest[j]);
      }
    }
  }

  lemma {:induction false} InsertOrderedCounts(x: Row, rows: seq<Row>)
    ensures multiset(InsertOrdered(x, rows)) == multiset{x} + multiset(rows)
  {
    if rows != [] && !Precedes(x, rows[0]) {
      InsertOrderedCounts(x, rows[1..]);
      assert rows == [rows[0]] + rows[1..];
    }
  }

  lemma {:induction false} OrderedCounts(rows: seq<Row>)
    ensures InOrder(Ordered(rows)) && multiset(Ordered(rows)) == multiset(rows)
  {
    if rows != [] {
      OrderedCounts(rows[1..]);
      InsertInOrder(rows[0], Ordered(rows[1..]));
      InsertOrderedCounts(rows[0], Ordered(rows[1..]));
      assert rows == [rows[0]] + rows[1..];
    }
  }

  lemma {:induction false} ScopeCounts(rows: seq<Row>, key: string, tool: string, r: Row)
    ensures multiset(Scope(rows, key, tool))[r] == if InScope(r, key, tool) then multiset(rows)[r] else 0
  {
    if rows != [] {
      ScopeCounts(rows[1..], key, tool, r);
      assert rows == [rows[0]] + rows[1..];
    }
  }

  /** The SELECT orders all its rows and returns each as often as it is stored. */
  lemma HistoryOrdered(rows: seq<Row>, key: string, tool: string, r: Row)
    ensures InOrder(History(rows, key, tool))
    ensures multiset(History(rows, key, tool))[r] == if InScope(r, key, tool) then multiset(rows)[r] else 0
  {
    OrderedCounts(Scope(rows, key, tool));
    ScopeCounts(rows, key, tool, r);
  }

  // ---------------------------------------------------------------- the invariant implies the index

  lemma SafeIsUnique(t: Table, defs: iset<Hashes>, legacy: map<string, string>)
    requires Coherent(defs) && Safe(t, defs, legacy)
    ensures Unique(t.rows)
  {
    forall i, j | 0 <= i < j < |t.rows|
      ensures !SameIndexKey(t.rows[i], t.rows[j])
    {
      var a, b := t.rows[i], t.rows[j];
      var w :| w in defs && Matches(a, w);
      var u :| u in defs && Matches(b, u);
      assert SameIndexKey(a, b) ==> InScope(b, a.serverKey, a.tool) && Matches(b, w);
    }
  }

  /** Tables written before the dual-hash transition satisfy the matching half already. */
  lemma OneVersionMatchesOnce(rows: seq<Row>, defs: iset<Hashes>)
    requires Unique(rows)
    requires forall i :: 0 <= i < |rows| ==> rows[i].version <= 1
    ensures MatchOnce(rows, defs)
  {
    forall i, j, w | 0 <= i < |rows| && 0 <= j < |rows| && w in defs
      && InScope(rows[j], rows[i].serverKey, rows[i].tool) && Matches(rows[i], w) && Matches(rows[j], w)
      ensures i == j
    {
      assert SameIndexKey(rows[i], rows[j]) && SameIndexKey(rows[j], rows[i]);
    }
  }

  /** What an upgraded database starts from: version-1 rows, all under keys that are no server's new key. */
  ghost predicate Upgraded(t: Table, defs: iset<Hashes>, legacy: map<string, string>) {
    && IdsOrdered(t) && Unique(t.rows)
    && forall i :: 0 <= i < |t.rows| ==>
         && t.rows[i].version <= 1 && Represented(t.rows[i], defs)
         && (t.rows[i].serverKey in legacy ==> legacy[t.rows[i].serverKey] == t.rows[i].serverKey)
  }

  /** Such a table satisfies the whole invariant, so every law below holds of its runs. */
  lemma UpgradedIsSafe(t: Table, defs: iset<Hashes>, legacy: map<string, string>)
    requires Upgraded(t, defs, legacy)
    ensures Safe(t, defs, legacy)
  {
    OneVersionMatchesOnce(t.rows, defs);
  }

  // ---------------------------------------------------------------- each statement keeps the invariant

  lemma RekeySafe(t: Table, defs: iset<Hashes>, legacy: map<string, string>, s: string)
    requires Coherent(defs) && Rekeyable(legacy) && Safe(t, defs, legacy)
    requires s in legacy && legacy[s] != s
    ensures Safe(t.(rows := Rekeyed(t.rows, legacy[s], s)), defs, legacy)
  {
    var from, rows := legacy[s], t.rows;
    var moved := Rekeyed(rows, from, s);
    forall i | 0 <= i < |moved|
      ensures Represented(moved[i], defs)
    {
      assert Represented(rows[i], defs);
      var w :| w in defs && Matches(rows[i], w);
      assert Matches(moved[i], w);
    }
    forall i, j, w | 0 <= i < |moved| && 0 <= j < |moved| && w in defs
      && InScope(moved[j], moved[i].serverKey, moved[i].tool) && Matches(moved[i], w) && Matches(moved[j], w)
      ensures i == j
    {
      assert Matches(rows[i], w) && Matches(rows[j], w);
      // One of the two under s and the other under from would put the tool in both scopes.
      assert InScope(rows[j], rows[i].serverKey, rows[i].tool);
    }
    assert Disjoint(moved, legacy);
  }

  /** Whatever matches the re-pinned row matched it before. */
  lemma RepinnedMatches(r: Row, defs: iset<Hashes>, o: Hashes, ts: int, w: Hashes)
    requires Coherent(defs) && o in defs && w in defs && Matches(r, o)
    ensures Matches(TouchRow(r, r.version, o.v3, ts), o)
    ensures Matches(TouchRow(r, r.version, o.v3, ts), w) ==> Matches(r, w)
  {
  }

  lemma RepinKeepsMatchOnce(rows: seq<Row>, defs: iset<Hashes>, k: nat, o: Hashes, ts: int)
    requires Coherent(defs) && MatchOnce(rows, defs) && o in defs && k < |rows| && Matches(rows[k], o)
    ensures MatchOnce(rows[k := TouchRow(rows[k], rows[k].version, o.v3, ts)], defs)
  {
    var next := rows[k := TouchRow(rows[k], rows[k].version, o.v3, ts)];
    forall i, j, w | 0 <= i < |next| && 0 <= j < |next| && w in defs
      && InScope(next[j], next[i].serverKey, next[i].tool) && Matches(next[i], w) && Matches(next[j], w)
      ensures i == j
    {
      RepinnedMatches(rows[k], defs, o, ts, w);
      assert Matches(rows[i], w) && Matches(rows[j], w);
      assert InScope(rows[j], rows[i].serverKey, rows[i].tool);
    }
  }

  lemma RepinKeepsRepresented(rows: seq<Row>, defs: iset<Hashes>, k: nat, o: Hashes, ts: int)
    requires Coherent(defs) && o in defs && k < |rows| && Matches(rows[k], o)
    requires forall i :: 0 <= i < |rows| ==> Represented(rows[i], defs)
    ensures var next := rows[k := TouchRow(rows[k], rows[k].version, o.v3, ts)];
            forall i :: 0 <= i < |next| ==> Represented(next[i], defs)
  {
    RepinnedMatches(rows[k], defs, o, ts, o);
  }

  lemma TouchSafe(t: Table, defs: iset<Hashes>, legacy: map<string, string>, k: nat, o: Hashes, ts: int)
    requires Coherent(defs) && Safe(t, defs, legacy) && o in defs
    requires k < |t.rows| && Matches(t.rows[k], o)
    ensures Safe(t.(rows := Touched(t.rows, t.rows[k].id, t.rows[k].version, o.v3, ts)), defs, legacy)
    ensures Touched(t.rows, t.rows[k].id, t.rows[k].version, o.v3, ts) ==
            t.rows[k := TouchRow(t.rows[k], t.rows[k].version, o.v3, ts)]
  {
    var rows, r := t.rows, t.rows[k];
    var next := Touched(rows, r.id, r.version, o.v3, ts);
    assert next == rows[k := TouchRow(r, r.version, o.v3, ts)];
    RepinKeepsRepresented(rows, defs, k, o, ts);
    RepinKeepsMatchOnce(rows, defs, k, o, ts);
  }

  /** A definition that shares o's current hash matches every row that o matches. */
  lemma AgreesWithFresh(r: Row, w: Hashes, o: Hashes, defs: iset<Hashes>)
    requires Coherent(defs) && w in defs && o in defs && w.v3 == o.v3 && Matches(r, w)
    ensures Matches(r, o)
  {
  }

  lemma InsertKeepsMatchOnce(rows: seq<Row>, defs: iset<Hashes>, r: Row, o: Hashes)
    requires Coherent(defs) && MatchOnce(rows, defs) && o in defs && r.version == 3 && r.fingerprint == o.v3
    requires forall i :: 0 <= i < |rows| && InScope(rows[i], r.serverKey, r.tool) ==> !Matches(rows[i], o)
    ensures MatchOnce(rows + [r], defs)
  {
    var next := rows + [r];
    forall i, j, w | 0 <= i < |next| && 0 <= j < |next| && w in defs
      && InScope(next[j], next[i].serverKey, next[i].tool) && Matches(next[i], w) && Matches(next[j], w)
      ensures i == j
    {
      if i < |rows| && j < |rows| {
        assert InScope(rows[j], rows[i].serverKey, rows[i].tool);
      } else if i < |rows| {
        AgreesWithFresh(rows[i], w, o, defs);
      } else if j < |rows| {
        AgreesWithFresh(rows[j], w, o, defs);
      }
    }
  }

  lemma InsertKeepsDisjoint(rows: seq<Row>, legacy: map<string, string>, r: Row)
    requires Rekeyable(legacy) && Disjoint(rows, legacy) && r.serverKey in legacy
    requires legacy[r.serverKey] != r.serverKey ==> !HasRows(rows, legacy[r.serverKey], r.tool)
    ensures Disjoint(rows + [r], legacy)
  {
    var next := rows + [r];
    forall u, i, j | u in legacy && legacy[u] != u && 0 <= i < |next| && 0 <= j < |next|
      && next[i].serverKey == u && next[j].serverKey == legacy[u]
      ensures next[i].tool != next[j].tool
    {
      if i == |rows| && j < |rows| {
        assert !InScope(rows[j], legacy[u], r.tool);
      }
    }
  }

  lemma InsertSafe(
    t: Table, defs: iset<Hashes>, legacy: map<string, string>, session: int, s: string, tool: string, o: Hashes,
    ts: int)
    requires Coherent(defs) && Rekeyable(legacy) && Safe(t, defs, legacy) && o in defs && s in legacy
    requires forall i :: 0 <= i < |t.rows| && InScope(t.rows[i], s, tool) ==> !Matches(t.rows[i], o)
    requires legacy[s] != s ==> !HasRows(t.rows, legacy[s], tool)
    ensures Safe(Table(t.rows + [FreshRow(t, session, s, tool, o, ts)], t.nextId + 1), defs, legacy)
  {
    var r := FreshRow(t, session, s, tool, o, ts);
    InsertKeepsMatchOnce(t.rows, defs, r, o);
    InsertKeepsDisjoint(t.rows, legacy, r);
    assert Matches(r, o);
  }

  // ---------------------------------------------------------------- one call

  /** What a successful call may do to the rows it found: nothing is lost or duplicated. */
  ghost predicate Preserved(before: seq<Row>, after: seq<Row>, from: string, to: string, o: Hashes, outcome: Outcome) {
    && |after| == |before| + (if outcome in {New, Changed} then 1 else 0)
    && forall i :: 0 <= i < |before| ==>
         && after[i].id == before[i].id && after[i].tool == before[i].tool
         && after[i].session == before[i].session && after[i].firstSeen == before[i].firstSeen
         && (after[i].serverKey == before[i].serverKey || (before[i].serverKey == from && after[i].serverKey == to))
         && ((after[i].fingerprint == before[i].fingerprint && after[i].version == before[i].version)
             || (before[i].version < 3 && Matches(before[i], o) && after[i].fingerprint == o.v3
                 && after[i].version == 3))
  }

  /** The first match of a non-empty history is a row of the table, alone in matching. */
  lemma HistoryMatch(t: Table, key: string, tool: string, o: Hashes) returns (k: nat)
    requires FirstMatch(History(t.rows, key, tool), o) < |History(t.rows, key, tool)|
    ensures k < |t.rows| && InScope(t.rows[k], key, tool) && Matches(t.rows[k], o)
    ensures t.rows[k] == History(t.rows, key, tool)[FirstMatch(History(t.rows, key, tool), o)]
  {
    HistoryExact(t.rows, key, tool);
    var h := History(t.rows, key, tool);
    assert h[FirstMatch(h, o)] in h;
    k :| 0 <= k < |t.rows| && t.rows[k] == h[FirstMatch(h, o)];
  }

  lemma NoHistoryMatch(t: Table, key: string, tool: string, o: Hashes)
    requires FirstMatch(History(t.rows, key, tool), o) == |History(t.rows, key, tool)|
    ensures forall i :: 0 <= i < |t.rows| && InScope(t.rows[i], key, tool) ==> !Matches(t.rows[i], o)
  {
    HistoryExact(t.rows, key, tool);
    var h := History(t.rows, key, tool);
    forall i | 0 <= i < |t.rows| && InScope(t.rows[i], key, tool)
      ensures !Matches(t.rows[i], o)
    {
      assert t.rows[i] in h;
      var j :| 0 <= j < |h| && h[j] == t.rows[i];
    }
  }

  lemma InsertOutcome(
    t: Table, defs: iset<Hashes>, legacy: map<string, string>, session: int, s: string, tool: string, o: Hashes,
    ts: int)
    requires Coherent(defs) && Rekeyable(legacy) && Safe(t, defs, legacy) && o in defs && s in legacy
    requires legacy[s] != s ==> !HasRows(t.rows, legacy[s], tool)
    requires FirstMatch(History(t.rows, s, tool), o) == |History(t.rows, s, tool)|
    ensures var r := Insert(t, session, s, tool, o, ts);
            && r.Some? && Safe(r.value, defs, legacy)
            && Preserved(t.rows, r.value.rows, legacy[s], s, o, New)
            && Preserved(t.rows, r.value.rows, legacy[s], s, o, Changed)
  {
    NoHistoryMatch(t, s, tool, o);
    InsertSafe(t, defs, legacy, session, s, tool, o, ts);
    SafeIsUnique(Table(t.rows + [FreshRow(t, session, s, tool, o, ts)], t.nextId + 1), defs, legacy);
  }

  lemma TouchOutcome(
    t: Table, defs: iset<Hashes>, legacy: map<string, string>, s: string, tool: string, o: Hashes, ts: int)
    requires Coherent(defs) && Safe(t, defs, legacy) && o in defs && s in legacy
    requires FirstMatch(History(t.rows, s, tool), o) < |History(t.rows, s, tool)|
    ensures var h := History(t.rows, s, tool);
            var r := Touch(t, h[FirstMatch(h, o)], o, ts);
            && r.Some? && Safe(r.value, defs, legacy)
            && Preserved(t.rows, r.value.rows, legacy[s], s, o, Unchanged)
            && Preserved(t.rows, r.value.rows, legacy[s], s, o, Reverted)
  {
    var i := HistoryMatch(t, s, tool, o);
    TouchSafe(t, defs, legacy, i, o, ts);
    SafeIsUnique(t.(rows := Touched(t.rows, t.rows[i].id, t.rows[i].version, o.v3, ts)), defs, legacy);
  }

  lemma ClassifySafe(
    t: Table, defs: iset<Hashes>, legacy: map<string, string>, session: int, s: string, tool: string, o: Hashes,
    ts: int)
    requires Coherent(defs) && Rekeyable(legacy) && Safe(t, defs, legacy) && o in defs && s in legacy
    requires legacy[s] != s ==> !HasRows(t.rows, legacy[s], tool)
    ensures var r := Classify(t, History(t.rows, s, tool), session, s, tool, o, ts);
            && r.Some? && Safe(r.value.table, defs, legacy)
            && Preserved(t.rows, r.value.table.rows, legacy[s], s, o, r.value.outcome)
  {
    var h := History(t.rows, s, tool);
    if FirstMatch(h, o) == |h| {
      InsertOutcome(t, defs, legacy, session, s, tool, o, ts);
    } else {
      TouchOutcome(t, defs, legacy, s, tool, o, ts);
    }
  }

  /** Migration keeps the invariant and leaves the legacy scope of the tool empty. */
  lemma MigratedSafe(t: Table, defs: iset<Hashes>, legacy: map<string, string>, s: string, tool: string)
    requires Coherent(defs) && Rekeyable(legacy) && Safe(t, defs, legacy) && s in legacy
    ensures var m := Migrated(t, s, legacy[s], tool);
            && m.Some? && Safe(m.value, defs, legacy)
            && (legacy[s] != s ==> !HasRows(m.value.rows, legacy[s], tool))
            && (m.value == t || m.value == t.(rows := Rekeyed(t.rows, legacy[s], s)))
  {
    HistoryExact(t.rows, s, tool);
    HistoryExact(t.rows, legacy[s], tool);
    if s != legacy[s] {
      var moved := t.(rows := Rekeyed(t.rows, legacy[s], s));
      RekeySafe(t, defs, legacy, s);
      SafeIsUnique(moved, defs, legacy);
      assert !HasRows(moved.rows, legacy[s], tool);
      assert forall i, j :: 0 <= i < |t.rows| && 0 <= j < |t.rows| && InScope(t.rows[i], s, tool) ==>
          !InScope(t.rows[j], legacy[s], tool);
    }
  }

  lemma RekeyThenPreserved(
    before: seq<Row>, moved: seq<Row>, after: seq<Row>, from: string, to: string, o: Hashes, outcome: Outcome)
    requires moved == before || moved == Rekeyed(before, from, to)
    requires Preserved(moved, after, from, to, o, outcome)
    ensures Preserved(before, after, from, to, o, outcome)
  {
    assert |moved| == |before|;
    forall i | 0 <= i < |before|
      ensures moved[i] == before[i] || (before[i].serverKey == from && moved[i] == before[i].(serverKey := to))
    {
    }
  }

  /**
   One recording succeeds, keeps the invariant, and keeps every row: rows only move from
   the server's legacy key to its own, and only a row of an
   older algorithm that the observation matches has its fingerprint replaced.
   */
  lemma RecordSafe(
    t: Table, defs: iset<Hashes>, legacy: map<string, string>, session: int, s: string, tool: string, o: Hashes,
    ts: int)
    requires Coherent(defs) && Rekeyable(legacy) && Safe(t, defs, legacy) && o in defs && s in legacy
    ensures var r := Record(t, session, s, legacy[s], tool, o, ts);
            && r.Some? && Safe(r.value.table, defs, legacy)
            && Preserved(t.rows, r.value.table.rows, legacy[s], s, o, r.value.outcome)
  {
    MigratedSafe(t, defs, legacy, s, tool);
    var m := Migrated(t, s, legacy[s], tool).value;
    ClassifySafe(m, defs, legacy, session, s, tool, o, ts);
    var r := Record(t, session, s, legacy[s], tool, o, ts).value;
    RekeyThenPreserved(t.rows, m.rows, r.table.rows, legacy[s], s, o, r.outcome);
  }

  // ---------------------------------------------------------------- whole runs

  datatype Call = Call(session: int, serverId: string, tool: string, hashes: Hashes, ts: int)

  ghost predicate ValidCalls(calls: seq<Call>, defs: iset<Hashes>, legacy: map<string, string>) {
    forall i :: 0 <= i < |calls| ==> calls[i].serverId in legacy && calls[i].hashes in defs
  }

  /** The table after a run; a call that errors leaves it as it was, as a rollback does. */
  function After(t: Table, legacy: map<string, string>, calls: seq<Call>): Table {
    if calls == [] then t
    else
      var before := After(t, legacy, calls[..|calls| - 1]);
      var r := Step(before, legacy, calls[|calls| - 1]);
      if r.Some? then r.value.table else before
  }

  function Step(t: Table, legacy: map<string, string>, c: Call): Option<Recorded> {
    if c.serverId in legacy
    then Record(t, c.session, c.serverId, legacy[c.serverId], c.tool, c.hashes, c.ts)
    else None
  }

  /** What call `i` of the run returned. */
  function Returned(t: Table, legacy: map<string, string>, calls: seq<Call>, i: nat): Option<Recorded>
    requires i < |calls|
  {
    Step(After(t, legacy, calls[..i]), legacy, calls[i])
  }

  /** Every row of `before` is still there, in its place, for the same tool. */
  ghost predicate Keeps(before: seq<Row>, after: seq<Row>) {
    && |before| <= |after|
    && forall i :: 0 <= i < |before| ==> after[i].id == before[i].id && after[i].tool == before[i].tool
  }

  lemma StepSafe(t: Table, defs: iset<Hashes>, legacy: map<string, string>, c: Call)
    requires Coherent(defs) && Rekeyable(legacy) && Safe(t, defs, legacy)
    requires c.serverId in legacy && c.hashes in defs
    ensures var r := Step(t, legacy, c);
            r.Some? && Safe(r.value.table, defs, legacy) && Keeps(t.rows, r.value.table.rows)
  {
    RecordSafe(t, defs, legacy, c.session, c.serverId, c.tool, c.hashes, c.ts);
  }

  /** At every point of every run the invariant holds and the first rows are all still there. */
  lemma {:induction false} PrefixSafe(t: Table, defs: iset<Hashes>, legacy: map<string, string>, calls: seq<Call>)
    requires Coherent(defs) && Rekeyable(legacy) && Safe(t, defs, legacy) && ValidCalls(calls, defs, legacy)
    ensures Safe(After(t, legacy, calls), defs, legacy) && Keeps(t.rows, After(t, legacy, calls).rows)
  {
    if calls != [] {
      var n := |calls| - 1;
      PrefixSafe(t, defs, legacy, calls[..n]);
      StepSafe(After(t, legacy, calls[..n]), defs, legacy, calls[n]);
    }
  }

  /** In every run every call succeeds, no statement hits the index, and no row is lost. */
  lemma RunSafe(t: Table, defs: iset<Hashes>, legacy: map<string, string>, calls: seq<Call>)
    requires Coherent(defs) && Rekeyable(legacy) && Safe(t, defs, legacy) && ValidCalls(calls, defs, legacy)
    ensures forall i :: 0 <= i < |calls| ==> Returned(t, legacy, calls, i).Some?
    ensures Unique(After(t, legacy, calls).rows) && Keeps(t.rows, After(t, legacy, calls).rows)
  {
    forall i | 0 <= i < |calls|
      ensures Returned(t, legacy, calls, i).Some?
    {
      PrefixSafe(t, defs, legacy, calls[..i]);
      StepSafe(After(t, legacy, calls[..i]), defs, legacy, calls[i]);
    }
    PrefixSafe(t, defs, legacy, calls);
    SafeIsUnique(After(t, legacy, calls), defs, legacy);
  }

  // ---------------------------------------------------------------- when the index is hit

  /** Server t has server s's key as its legacy key, and s another one than t's. */
  predicate Entangled(legacy: map<string, string>, s: string, t: string) {
    s in legacy && t in legacy && s != t && legacy[t] == s && legacy[s] != t
  }

  function EntangledCalls(s: string, t: string, o: Hashes): seq<Call> {
    [Call(1, t, "a", o, 1), Call(1, s, "a", o, 2), Call(1, s, "b", o, 3), Call(1, t, "b", o, 4)]
  }

  function EntangledRows(s: string, t: string, o: Hashes): seq<Row> {
    [Row(0, 1, t, "a", o.v3, 3, 1, Some(1)), Row(1, 1, s, "a", o.v3, 3, 2, Some(2)),
        Row(2, 1, s, "b", o.v3, 3, 3, Some(3))]
  }

  lemma EntangledStep(legacy: map<string, string>, s: string, t: string, o: Hashes, n: nat)
    requires Entangled(legacy, s, t) && n < 3
    ensures var rows := EntangledRows(s, t, o);
            Step(Table(rows[..n], n), legacy, EntangledCalls(s, t, o)[n])
                == Some(Recorded(New, Table(rows[..n + 1], n + 1)))
  {
    var rows, c := EntangledRows(s, t, o), EntangledCalls(s, t, o)[n];
    HistoryExact(rows[..n], c.serverId, c.tool);
    HistoryExact(rows[..n], legacy[c.serverId], c.tool);
    assert rows[..n + 1] == rows[..n] + [rows[n]];
  }

  lemma {:induction false} EntangledAfter(legacy: map<string, string>, s: string, t: string, o: Hashes, n: nat)
    requires Entangled(legacy, s, t) && n <= 3
    ensures After(Table([], 0), legacy, EntangledCalls(s, t, o)[..n]) == Table(EntangledRows(s, t, o)[..n], n)
  {
    if n > 0 {
      EntangledAfter(legacy, s, t, o, n - 1);
      EntangledStep(legacy, s, t, o, n - 1);
      assert EntangledCalls(s, t, o)[..n][..n - 1] == EntangledCalls(s, t, o)[..n - 1];
    }
  }

  /** The re-key for the second tool moves the first tool's row onto the row t already has. */
  lemma EntangledRekeyFails(s: string, t: string, o: Hashes)
    requires s != t
    ensures Record(Table(EntangledRows(s, t, o), 3), 1, t, s, "b", o, 4).None?
  {
    var rows := EntangledRows(s, t, o);
    HistoryExact(rows, t, "b");
    HistoryExact(rows, s, "b");
    assert InScope(rows[2], s, "b");
    assert !HasRows(rows, t, "b");
    var moved := Rekeyed(rows, s, t);
    assert SameIndexKey(moved[0], moved[1]);
  }

  /** For entangled servers, three calls succeed and the fourth hits the index. */
  lemma EntangledCollides(legacy: map<string, string>, s: string, t: string, o: Hashes)
    requires Entangled(legacy, s, t)
    ensures forall i :: 0 <= i < 3 ==> Returned(Table([], 0), legacy, EntangledCalls(s, t, o), i).Some?
    ensures Returned(Table([], 0), legacy, EntangledCalls(s, t, o), 3).None?
  {
    forall i | 0 <= i < 3
      ensures Returned(Table([], 0), legacy, EntangledCalls(s, t, o), i).Some?
    {
      EntangledAfter(legacy, s, t, o, i);
      EntangledStep(legacy, s, t, o, i);
    }
    EntangledAfter(legacy, s, t, o, 3);
    EntangledRekeyFails(s, t, o);
    assert EntangledRows(s, t, o)[..3] == EntangledRows(s, t, o);
  }

  /** Every call of every run on a new table succeeds. */
  ghost predicate NeverCollides(defs: iset<Hashes>, legacy: map<string, string>) {
    forall calls, i: int :: ValidCalls(calls, defs, legacy) && 0 <= i < |calls| ==>
        Returned(Table([], 0), legacy, calls, i).Some?
  }

  /** No run ever hits the index exactly when no two servers' keys are entangled. */
  lemma NeverCollidesExactlyWhen(defs: iset<Hashes>, legacy: map<string, string>, o: Hashes)
    requires Coherent(defs) && o in defs
    ensures NeverCollides(defs, legacy) <==> Rekeyable(legacy)
  {
    if Rekeyable(legacy) {
      forall calls, i: int | ValidCalls(calls, defs, legacy) && 0 <= i < |calls|
        ensures Returned(Table([], 0), legacy, calls, i).Some?
      {
        RunSafe(Table([], 0), defs, legacy, calls);
      }
    } else {
      var s, t :| s in legacy && t in legacy && s != t && legacy[t] == s && legacy[s] != t;
      assert Entangled(legacy, s, t);
      EntangledCollides(legacy, s, t, o);
      assert ValidCalls(EntangledCalls(s, t, o), defs, legacy);
    }
  }
}
