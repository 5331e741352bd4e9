/**
 What an upgraded database is compared with: the first time a tool is recorded under a server's
 own key, the rows under its legacy key decide, each on the hash of its own version.
 */
module FingerprintBaseline {
  import opened Common
  import opened Sequences
  import opened Fingerprints
  import opened FingerprintSafety
  import opened FingerprintRekey
  import opened FingerprintHistory

  /** The outcome of comparing a definition with stored rows, the most recent one first. */
  ghost function Compared(rows: seq<Row>, o: Hashes): Outcome {
    if rows == [] then New
    else if Matches(rows[0], o) then Unchanged
    else if exists k :: 0 <= k < |rows| && Matches(rows[k], o) then Reverted
    else Changed
  }

  lemma ClassifyCompares(t: Table, h: seq<Row>, session: int, key: string, tool: string, o: Hashes, ts: int)
    requires Classify(t, h, session, key, tool, o, ts).Some?
    ensures Classify(t, h, session, key, tool, o, ts).value.outcome == Compared(h, o)
  {
  }

  // ---------------------------------------------------------------- the SELECT and the move

  lemma {:induction false} SameScopeRows(before: seq<Row>, after: seq<Row>, key: string, tool: string)
    requires SameScope(before, after, key, tool)
    ensures Scope(before, key, tool) == Scope(after, key, tool)
  {
    if after != [] {
      SameScopeRows(if before == [] then [] else before[1..], after[1..], key, tool);
    }
  }

  /** What moving the rows of one key does to one of them. */
  function Mover(from: string, to: string): Row -> Row {
    (r: Row) => Move(r, from, to)
  }

  lemma {:induction false} ScopeOfMoved(rows: seq<Row>, from: string, to: string, tool: string)
    requires !HasRows(rows, to, tool)
    ensures Scope(Rekeyed(rows, from, to), to, tool) == Mapped(Mover(from, to), Scope(rows, from, tool))
  {
    if rows != [] {
      assert !InScope(rows[0], to, tool);
      assert forall i :: 0 <= i < |rows| - 1 ==> rows[1..][i] == rows[i + 1];
      ScopeOfMoved(rows[1..], from, to, tool);
      assert Rekeyed(rows, from, to)[1..] == Rekeyed(rows[1..], from, to);
      if InScope(rows[0], from, tool) {
        MappedAppend(Mover(from, to), [rows[0]], Scope(rows[1..], from, tool));
      }
    }
  }

  lemma {:induction false} InsertOrderedMoved(r: Row, rows: seq<Row>, from: string, to: string)
    ensures InsertOrdered(Move(r, from, to), Mapped(Mover(from, to), rows))
            == Mapped(Mover(from, to), InsertOrdered(r, rows))
  {
    if rows != [] && !Precedes(r, rows[0]) {
      InsertOrderedMoved(r, rows[1..], from, to);
      assert Mapped(Mover(from, to), rows)[1..] == Mapped(Mover(from, to), rows[1..]);
      MappedAppend(Mover(from, to), [rows[0]], InsertOrdered(r, rows[1..]));
    } else {
      MappedAppend(Mover(from, to), [r], rows);
    }
  }

  lemma {:induction false} OrderedMoved(rows: seq<Row>, from: string, to: string)
    ensures Ordered(Mapped(Mover(from, to), rows)) == Mapped(Mover(from, to), Ordered(rows))
  {
    if rows != [] {
      OrderedMoved(rows[1..], from, to);
      assert Mapped(Mover(from, to), rows)[1..] == Mapped(Mover(from, to), rows[1..]);
      InsertOrderedMoved(rows[0], Ordered(rows[1..]), from, to);
    }
  }

  /** Moved rows are compared as they were. */
  lemma ComparedMoved(rows: seq<Row>, from: string, to: string, o: Hashes)
    ensures Compared(Mapped(Mover(from, to), rows), o) == Compared(rows, o)
  {
    var moved := Mapped(Mover(from, to), rows);
    assert forall k :: 0 <= k < |rows| ==> (Matches(moved[k], o) <==> Matches(rows[k], o));
  }

  /** The rows a first recording is compared with: the server's own, failing these the legacy ones. */
  function Base(rows: seq<Row>, legacy: map<string, string>, s: string, tool: string): seq<Row>
    requires s in legacy
  {
    if History(rows, s, tool) != [] then History(rows, s, tool) else History(rows, legacy[s], tool)
  }

  /** The scope of the tool once every legacy row has been moved. */
  function EagerHistory(rows: seq<Row>, legacy: map<string, string>, s: string, tool: string): seq<Row>
    requires s in legacy
  {
    History(Rekeyed(rows, legacy[s], s), s, tool)
  }

  lemma RekeyedToItself(rows: seq<Row>, key: string)
    ensures Rekeyed(rows, key, key) == rows
  {
  }

  lemma EagerCompares(t: Table, defs: iset<Hashes>, legacy: map<string, string>, s: string, tool: string, o: Hashes)
    requires Safe(t, defs, legacy) && s in legacy
    ensures Compared(EagerHistory(t.rows, legacy, s, tool), o) == Compared(Base(t.rows, legacy, s, tool), o)
  {
    var from := legacy[s];
    HistoryExact(t.rows, s, tool);
    HistoryExact(t.rows, from, tool);
    if from == s {
      RekeyedToItself(t.rows, s);
    } else if HasRows(t.rows, s, tool) {
      assert !HasRows(t.rows, from, tool);
      ScopeMoved(t.rows, from, s, tool);
    } else {
      ScopeOfMoved(t.rows, from, s, tool);
      OrderedMoved(Scope(t.rows, from, tool), from, s);
      ComparedMoved(History(t.rows, from, tool), from, s, o);
    }
  }

  // ---------------------------------------------------------------- one call

  lemma EagerStep(t: Table, defs: iset<Hashes>, legacy: map<string, string>, c: Call)
    requires Coherent(defs) && Rekeyable(legacy) && Safe(t, defs, legacy)
    requires c.serverId in legacy && c.hashes in defs
    ensures Safe(Eager(t, legacy[c.serverId], c.serverId), defs, legacy)
    ensures Step(t, legacy, c).Some?
    ensures Step(t, legacy, c).value.outcome == Compared(EagerHistory(t.rows, legacy, c.serverId, c.tool), c.hashes)
  {
    var s, from := c.serverId, legacy[c.serverId];
    var e := Eager(t, from, s);
    if from == s {
      RekeyedToItself(t.rows, s);
      StepSafe(t, defs, legacy, c);
    } else {
      RekeySafe(t, defs, legacy, s);
      RekeyedTwice(t.rows, from, s);
      StepMoved(t, defs, legacy, c);
      HistoryExact(e.rows, from, c.tool);
    }
    assert Migrated(e, s, from, c.tool) == Some(e);
    ClassifyCompares(e, History(e.rows, s, c.tool), c.session, s, c.tool, c.hashes, c.ts);
  }

  /**
   One recording into any table of the invariant: the definition is compared with the rows
   under the server's own key, failing these with those under its legacy key.
   */
  lemma RecordCompares(t: Table, defs: iset<Hashes>, legacy: map<string, string>, c: Call)
    requires Coherent(defs) && Rekeyable(legacy) && Safe(t, defs, legacy)
    requires c.serverId in legacy && c.hashes in defs
    ensures var r := Step(t, legacy, c);
            r.Some? && r.value.outcome == Compared(Base(t.rows, legacy, c.serverId, c.tool), c.hashes)
  {
    EagerStep(t, defs, legacy, c);
    EagerCompares(t, defs, legacy, c.serverId, c.tool, c.hashes);
  }

  // ---------------------------------------------------------------- whole runs

  /** No other server has this one's legacy key. */
  ghost predicate SoleHeir(legacy: map<string, string>, s: string)
    requires s in legacy
  {
    forall u :: u in legacy && legacy[u] == legacy[s] ==> u == s
  }

  /** The server's rows, old and new, are out of every other server's reach. */
  ghost predicate Apart(legacy: map<string, string>, s: string)
    requires s in legacy
  {
    SoleHeir(legacy, s) && Alone(legacy, s) && (legacy[s] in legacy ==> legacy[s] == s)
  }

  /** Call i is the first that records its tool for its server. */
  ghost predicate FirstOfTool(calls: seq<Call>, i: int)
    requires 0 <= i < |calls|
  {
    forall k :: 0 <= k < i ==> calls[k].serverId != calls[i].serverId || calls[k].tool != calls[i].tool
  }

  lemma MovedSameScope(before: seq<Row>, after: seq<Row>, from: string, to: string, tool: string)
    requires SameScope(before, after, from, tool) && SameScope(before, after, to, tool)
    ensures SameScope(Rekeyed(before, from, to), Rekeyed(after, from, to), to, tool)
  {
    var b, a := Rekeyed(before, from, to), Rekeyed(after, from, to);
    forall i | 0 <= i < |a|
      ensures InScope(a[i], to, tool) <==> InScope(after[i], to, tool) || InScope(after[i], from, tool)
    {
    }
    forall i | 0 <= i < |b|
      ensures InScope(b[i], to, tool) <==> InScope(before[i], to, tool) || InScope(before[i], from, tool)
    {
    }
  }

  lemma OwnCallKeepsScope(t: Table, defs: iset<Hashes>, legacy: map<string, string>, c: Call, tool: string)
    requires Coherent(defs) && Rekeyable(legacy) && Safe(t, defs, legacy)
    requires c.serverId in legacy && c.hashes in defs && c.tool != tool
    ensures var s, from := c.serverId, legacy[c.serverId];
            && Step(t, legacy, c).Some?
            && SameScope(Eager(t, from, s).rows, Eager(Step(t, legacy, c).value.table, from, s).rows, s, tool)
  {
    var s, from := c.serverId, legacy[c.serverId];
    if from == s {
      OtherScopeUntouched(t, defs, legacy, c, s, tool);
      RekeyedToItself(t.rows, s);
      RekeyedToItself(Step(t, legacy, c).value.table.rows, s);
    } else {
      RekeySafe(t, defs, legacy, s);
      RekeyedTwice(t.rows, from, s);
      StepMoved(t, defs, legacy, c);
      OtherScopeUntouched(Eager(t, from, s), defs, legacy, c, s, tool);
    }
  }

  lemma OtherCallKeepsScope(t: Table, defs: iset<Hashes>, legacy: map<string, string>, c: Call, s: string, tool: string)
    requires Coherent(defs) && Rekeyable(legacy) && Safe(t, defs, legacy)
    requires c.serverId in legacy && c.hashes in defs && c.serverId != s && s in legacy && Apart(legacy, s)
    ensures Step(t, legacy, c).Some?
    ensures SameScope(Eager(t, legacy[s], s).rows, Eager(Step(t, legacy, c).value.table, legacy[s], s).rows, s, tool)
  {
    OtherScopeUntouched(t, defs, legacy, c, s, tool);
    OtherScopeUntouched(t, defs, legacy, c, legacy[s], tool);
    MovedSameScope(t.rows, Step(t, legacy, c).value.table.rows, legacy[s], s, tool);
  }

  /** Until the tool is recorded, the rows it will be compared with stay as they are, moved or not. */
  lemma {:induction false} BaseStays(
    t: Table, defs: iset<Hashes>, legacy: map<string, string>, calls: seq<Call>, s: string, tool: string)
    requires Coherent(defs) && Rekeyable(legacy) && Safe(t, defs, legacy) && ValidCalls(calls, defs, legacy)
    requires s in legacy && Apart(legacy, s)
    requires forall k :: 0 <= k < |calls| ==> calls[k].serverId != s || calls[k].tool != tool
    ensures EagerHistory(After(t, legacy, calls).rows, legacy, s, tool) == EagerHistory(t.rows, legacy, s, tool)
  {
    if calls != [] {
      var n := |calls| - 1;
      var before, c := After(t, legacy, calls[..n]), calls[n];
      BaseStays(t, defs, legacy, calls[..n], s, tool);
      PrefixSafe(t, defs, legacy, calls[..n]);
      if c.serverId == s {
        OwnCallKeepsScope(before, defs, legacy, c, tool);
      } else {
        OtherCallKeepsScope(before, defs, legacy, c, s, tool);
      }
      var after := Step(before, legacy, c).value.table;
      SameScopeRows(Rekeyed(before.rows, legacy[s], s), Rekeyed(after.rows, legacy[s], s), s, tool);
    }
  }

  /**
   In every run of any table of the invariant, the first recording of a tool is compared with
   the rows the run started with, whatever was recorded and moved in between.
   */
  lemma FirstCompares(t: Table, defs: iset<Hashes>, legacy: map<string, string>, calls: seq<Call>, i: nat)
    requires Coherent(defs) && Rekeyable(legacy) && Safe(t, defs, legacy) && ValidCalls(calls, defs, legacy)
    requires i < |calls| && FirstOfTool(calls, i) && Apart(legacy, calls[i].serverId)
    ensures var c, r := calls[i], Returned(t, legacy, calls, i);
            r.Some? && r.value.outcome == Compared(Base(t.rows, legacy, c.serverId, c.tool), c.hashes)
  {
    var c := calls[i];
    PrefixSafe(t, defs, legacy, calls[..i]);
    EagerStep(After(t, legacy, calls[..i]), defs, legacy, c);
    BaseStays(t, defs, legacy, calls[..i], c.serverId, c.tool);
    EagerCompares(t, defs, legacy, c.serverId, c.tool, c.hashes);
  }

  // ---------------------------------------------------------------- upgraded databases

  /** The first recording of a tool with a legacy row: never New, and Unchanged exactly when the latest row matches. */
  ghost predicate BaselineUsed(t: Table, legacy: map<string, string>, calls: seq<Call>, i: nat)
    requires i < |calls| && calls[i].serverId in legacy
  {
    var c, r := calls[i], Returned(t, legacy, calls, i);
    var rows := History(t.rows, legacy[c.serverId], c.tool);
    && r.Some? && rows != [] && r.value.outcome != New
    && (r.value.outcome == Unchanged <==> Matches(rows[0], c.hashes))
    && (r.value.outcome == Changed <==> forall k :: 0 <= k < |rows| ==> !Matches(rows[k], c.hashes))
  }

  /**
   A database from before the structured keys: rows of any version, within the invariant, and
   all under keys that are no server's new key.
   */
  ghost predicate FromBefore(t: Table, defs: iset<Hashes>, legacy: map<string, string>) {
    && Safe(t, defs, legacy)
    && forall i :: 0 <= i < |t.rows| && t.rows[i].serverKey in legacy ==>
         legacy[t.rows[i].serverKey] == t.rows[i].serverKey
  }

  lemma UpgradedIsFromBefore(t: Table, defs: iset<Hashes>, legacy: map<string, string>)
    requires Upgraded(t, defs, legacy)
    ensures FromBefore(t, defs, legacy)
  {
    UpgradedIsSafe(t, defs, legacy);
  }

  /** Rows under a key that is no server's new key: nobody but the one heir reaches them. */
  lemma HeirIsApart(t: Table, defs: iset<Hashes>, legacy: map<string, string>, s: string, tool: string)
    requires Rekeyable(legacy) && FromBefore(t, defs, legacy) && s in legacy && SoleHeir(legacy, s)
    requires HasRows(t.rows, legacy[s], tool)
    ensures Apart(legacy, s)
  {
    var i :| 0 <= i < |t.rows| && InScope(t.rows[i], legacy[s], tool);
    assert t.rows[i].serverKey == legacy[s];
  }

  lemma LegacyBase(t: Table, defs: iset<Hashes>, legacy: map<string, string>, s: string, tool: string)
    requires FromBefore(t, defs, legacy) && s in legacy && HasRows(t.rows, legacy[s], tool)
    ensures Base(t.rows, legacy, s, tool) == History(t.rows, legacy[s], tool) && Base(t.rows, legacy, s, tool) != []
  {
    HistoryExact(t.rows, s, tool);
    HistoryExact(t.rows, legacy[s], tool);
    if i :| 0 <= i < |t.rows| && InScope(t.rows[i], s, tool) {
      assert legacy[t.rows[i].serverKey] == t.rows[i].serverKey;
    }
  }

  lemma FirstAfterUpgrade(t: Table, defs: iset<Hashes>, legacy: map<string, string>, calls: seq<Call>, i: nat)
    requires Coherent(defs) && Rekeyable(legacy) && FromBefore(t, defs, legacy) && ValidCalls(calls, defs, legacy)
    requires i < |calls| && FirstOfTool(calls, i) && SoleHeir(legacy, calls[i].serverId)
    requires HasRows(t.rows, legacy[calls[i].serverId], calls[i].tool)
    ensures BaselineUsed(t, legacy, calls, i)
  {
    var c := calls[i];
    HeirIsApart(t, defs, legacy, c.serverId, c.tool);
    LegacyBase(t, defs, legacy, c.serverId, c.tool);
    FirstCompares(t, defs, legacy, calls, i);
  }

  /** The database of an upgrade that has seen one tool under this key. */
  function OneLegacyRow(key: string, o: Hashes): Table {
    Table([Row(0, 1, key, "a", o.v1, 1, 1, None)], 1)
  }

  lemma HistoryOfOne(r: Row)
    ensures History([r], r.serverKey, r.tool) == [r]
  {
    assert [r][1..] == [];
    assert Scope([], r.serverKey, r.tool) == [];
    assert Scope([r], r.serverKey, r.tool) == [r];
    assert Ordered([]) == [];
    assert InsertOrdered(r, []) == [r];
  }

  /** A server that shares the legacy key takes the rows along, and the other one starts anew. */
  lemma SharedRowsGo(legacy: map<string, string>, s: string, u: string, o: Hashes)
    requires s in legacy && u in legacy && s != u && legacy[s] == legacy[u] && legacy[s] !in legacy
    ensures var r := Returned(OneLegacyRow(legacy[s], o), legacy, [Call(1, u, "a", o, 2), Call(1, s, "a", o, 3)], 1);
            r.Some? ==> r.value.outcome == New
  {
    var t, calls := OneLegacyRow(legacy[s], o), [Call(1, u, "a", o, 2), Call(1, s, "a", o, 3)];
    var moved := t.rows[0].(serverKey := u);
    HistoryExact(t.rows, u, "a");
    HistoryExact(t.rows, legacy[u], "a");
    assert InScope(t.rows[0], legacy[u], "a");
    assert Rekeyed(t.rows, legacy[u], u) == [moved];
    HistoryOfOne(moved);
    var after := Table([moved.(lastSeen := Some(2), fingerprint := o.v3, version := 3)], 1);
    assert Touched([moved], 0, 1, o.v3, 2) == after.rows;
    assert Step(t, legacy, calls[0]) == Some(Recorded(Unchanged, after));
    assert calls[..1] == [calls[0]] && calls[..1][..0] == [];
    assert After(t, legacy, calls[..1]) == after;
    HistoryExact(after.rows, s, "a");
    HistoryExact(after.rows, legacy[s], "a");
  }

  /**
   In every run on every database from before the structured keys, the first recording
   of each of the server's tools uses the legacy rows.
   */
  ghost predicate AlwaysBaselined(defs: iset<Hashes>, legacy: map<string, string>, s: string)
    requires s in legacy
  {
    forall t: Table, calls: seq<Call>, i: int ::
      && FromBefore(t, defs, legacy) && ValidCalls(calls, defs, legacy) && 0 <= i < |calls| && calls[i].serverId == s
      && FirstOfTool(calls, i) && HasRows(t.rows, legacy[s], calls[i].tool) ==>
        BaselineUsed(t, legacy, calls, i)
  }

  /** A baseline survives the upgrade in every run exactly when no other server has the same legacy key. */
  lemma AlwaysBaselinedExactlyWhen(defs: iset<Hashes>, legacy: map<string, string>, s: string, o: Hashes)
    requires Coherent(defs) && Rekeyable(legacy) && s in legacy && o in defs
    ensures AlwaysBaselined(defs, legacy, s) <==> SoleHeir(legacy, s)
  {
    if SoleHeir(legacy, s) {
      forall t: Table, calls: seq<Call>, i: int |
        && FromBefore(t, defs, legacy) && ValidCalls(calls, defs, legacy) && 0 <= i < |calls| && calls[i].serverId == s
        && FirstOfTool(calls, i) && HasRows(t.rows, legacy[s], calls[i].tool)
        ensures BaselineUsed(t, legacy, calls, i)
      {
        FirstAfterUpgrade(t, defs, legacy, calls, i);
      }
    } else {
      var u :| u in legacy && legacy[u] == legacy[s] && u != s;
      var t, calls := OneLegacyRow(legacy[s], o), [Call(1, u, "a", o, 2), Call(1, s, "a", o, 3)];
      SharedRowsGo(legacy, s, u, o);
      assert Matches(t.rows[0], o) && InScope(t.rows[0], legacy[s], "a");
      UpgradedIsFromBefore(t, defs, legacy);
      assert ValidCalls(calls, defs, legacy) && FirstOfTool(calls, 1);
      assert !BaselineUsed(t, legacy, calls, 1);
    }
  }
}
