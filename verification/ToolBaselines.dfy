/**
 Recording a tool definition against rows that stem from definitions seen before, under whichever
 hash version each was stored.
 */
module ToolBaselines {
  import opened Common
  import opened Json
  import opened Canonical
  import opened Fingerprints
  import opened FingerprintSafety
  import opened FingerprintHistory
  import opened FingerprintBaseline
  import opened ToolHashes

  // ---------------------------------------------------------------- what a version pins

  /** The two definitions have equal values there, up to key order; a missing one counts as null. */
  ghost predicate Agree(a: Json, b: Json, key: string) {
    Equivalent(if Get(a, key).Some? then Get(a, key).value else Null,
               if Get(b, key).Some? then Get(b, key).value else Null)
  }

  /** Version 1 pins three fields, version 2 the annotations too, version 3 also the output schema. */
  ghost predicate SameUnder(version: int, a: Json, b: Json) {
    && Agree(a, b, "name") && Agree(a, b, "description") && Agree(a, b, "inputSchema")
    && (version >= 2 ==> Agree(a, b, "annotations"))
    && (version >= 3 ==> Agree(a, b, "outputSchema"))
  }

  lemma OneMoreField(a: Json, b: Json, n: nat, key: string)
    requires n < |FIELDS| && FIELDS[n] == key
    ensures FieldsAgree(a, b, n + 1) <==> FieldsAgree(a, b, n) && Agree(a, b, key)
  {
    assert Agree(a, b, key) <==> Equivalent(FieldOrNull(a, FIELDS[n]), FieldOrNull(b, FIELDS[n]));
  }

  lemma FirstThree(a: Json, b: Json)
    ensures FieldsAgree(a, b, 3) <==> Agree(a, b, "name") && Agree(a, b, "description") && Agree(a, b, "inputSchema")
  {
    OneMoreField(a, b, 0, "name");
    OneMoreField(a, b, 1, "description");
    OneMoreField(a, b, 2, "inputSchema");
  }

  lemma SameUnderExactly(version: int, a: Json, b: Json)
    requires 1 <= version <= 3
    ensures FieldsAgree(a, b, version + 2) <==> SameUnder(version, a, b)
  {
    FirstThree(a, b);
    if version == 2 {
      OneMoreField(a, b, 3, "annotations");
    }
    if version == 3 {
      OneMoreField(a, b, 3, "annotations");
      OneMoreField(a, b, 4, "outputSchema");
    }
  }

  // ---------------------------------------------------------------- where rows stem from

  /** A definition, and when it was last sighted. */
  datatype Origin = Origin(tool: Json, time: int)

  /** The row holds the fingerprint of the definition under the row's own version, and its last sighting. */
  ghost predicate StemsFrom(hash: string -> string, r: Row, o: Origin) {
    && WellFormed(o.tool)
    && (|| (r.version <= 1 && r.fingerprint == Versions(hash, o.tool).v1)
        || (r.version == 2 && r.fingerprint == Versions(hash, o.tool).v2)
        || (r.version >= 3 && r.fingerprint == Versions(hash, o.tool).v3))
    && (r.lastSeen == Some(o.time) || (r.lastSeen == None && r.firstSeen == o.time))
  }

  /** A row of this tool of this server, under its new key or its legacy one. */
  predicate OfTool(r: Row, legacy: map<string, string>, s: string, tool: string)
    requires s in legacy
  {
    r.tool == tool && (r.serverKey == s || r.serverKey == legacy[s])
  }

  /** The origin of each row of the tool. */
  ghost predicate Sourced(
    hash: string -> string, rows: seq<Row>, origins: seq<Origin>, legacy: map<string, string>, s: string, tool: string)
    requires s in legacy
  {
    && |origins| == |rows|
    && forall i :: 0 <= i < |rows| && OfTool(rows[i], legacy, s, tool) ==> StemsFrom(hash, rows[i], origins[i])
  }

  /** Row k is the one sighted last; of those sighted then, the one stored last. */
  predicate LastSighted(
    rows: seq<Row>, origins: seq<Origin>, legacy: map<string, string>, s: string, tool: string, k: int)
    requires s in legacy && |origins| == |rows|
  {
    && 0 <= k < |rows| && OfTool(rows[k], legacy, s, tool)
    && forall j :: 0 <= j < |rows| && j != k && OfTool(rows[j], legacy, s, tool) ==>
         origins[j].time < origins[k].time || (origins[j].time == origins[k].time && j < k)
  }

  /** Row j stems from a definition that cannot be told from this one under the row's version. */
  ghost predicate Knows(
    rows: seq<Row>, origins: seq<Origin>, legacy: map<string, string>, s: string, tool: string, j: int, b: Json)
    requires s in legacy && |origins| == |rows|
  {
    0 <= j < |rows| && OfTool(rows[j], legacy, s, tool) && SameUnder(rows[j].version, origins[j].tool, b)
  }

  /** The outcome by the definitions themselves. */
  ghost predicate DecidedBy(
    rows: seq<Row>, origins: seq<Origin>, legacy: map<string, string>, s: string, tool: string, b: Json,
    outcome: Outcome)
    requires s in legacy && |origins| == |rows|
  {
    && (outcome == New <==> forall j :: 0 <= j < |rows| ==> !OfTool(rows[j], legacy, s, tool))
    && (outcome in {Unchanged, Reverted} <==> exists j :: Knows(rows, origins, legacy, s, tool, j, b))
    && forall k :: LastSighted(rows, origins, legacy, s, tool, k) ==>
         (outcome == Unchanged <==> SameUnder(rows[k].version, origins[k].tool, b))
  }

  lemma MatchesOrigin(hash: string -> string, r: Row, o: Origin, b: Json)
    requires Injective(hash) && StemsFrom(hash, r, o) && WellFormed(b)
    ensures Matches(r, Versions(hash, b)) <==> SameUnder(r.version, o.tool, b)
  {
    VersionsSee(hash, o.tool, b);
    SameUnderExactly(if r.version <= 1 then 1 else if r.version == 2 then 2 else 3, o.tool, b);
  }

  /** The rows compared with are those of the tool. */
  lemma BaseMembers(
    t: Table, defs: iset<Hashes>, legacy: map<string, string>, s: string, tool: string)
    requires Safe(t, defs, legacy) && s in legacy
    ensures var base := Base(t.rows, legacy, s, tool);
            && (forall r :: r in base <==> r in t.rows && OfTool(r, legacy, s, tool))
            && (forall r :: r in base ==> Precedes(base[0], r))
  {
    HistoryExact(t.rows, s, tool);
    HistoryExact(t.rows, legacy[s], tool);
    if HasRows(t.rows, s, tool) && legacy[s] != s {
      forall r | r in t.rows && OfTool(r, legacy, s, tool)
        ensures InScope(r, s, tool)
      {
        var i :| 0 <= i < |t.rows| && InScope(t.rows[i], s, tool);
        var j :| 0 <= j < |t.rows| && t.rows[j] == r;
      }
    }
  }

  lemma HeadIsLastSighted(
    hash: string -> string, t: Table, defs: iset<Hashes>, origins: seq<Origin>, legacy: map<string, string>, s: string,
    tool: string, k: int)
    requires Safe(t, defs, legacy) && s in legacy && Sourced(hash, t.rows, origins, legacy, s, tool)
    requires LastSighted(t.rows, origins, legacy, s, tool, k)
    ensures Base(t.rows, legacy, s, tool) != [] && Base(t.rows, legacy, s, tool)[0] == t.rows[k]
  {
    BaseMembers(t, defs, legacy, s, tool);
    var base := Base(t.rows, legacy, s, tool);
    assert t.rows[k] in base;
    assert base[0] in base;
    var m :| 0 <= m < |t.rows| && t.rows[m] == base[0];
  }

  lemma MatchIsKnown(
    hash: string -> string, t: Table, defs: iset<Hashes>, origins: seq<Origin>, legacy: map<string, string>, s: string,
    tool: string, b: Json)
    requires Injective(hash) && WellFormed(b)
    requires Safe(t, defs, legacy) && s in legacy && Sourced(hash, t.rows, origins, legacy, s, tool)
    ensures (exists r :: r in Base(t.rows, legacy, s, tool) && Matches(r, Versions(hash, b)))
            <==> exists j :: Knows(t.rows, origins, legacy, s, tool, j, b)
  {
    var base, o := Base(t.rows, legacy, s, tool), Versions(hash, b);
    BaseMembers(t, defs, legacy, s, tool);
    if r :| r in base && Matches(r, o) {
      var j :| 0 <= j < |t.rows| && t.rows[j] == r;
      MatchesOrigin(hash, t.rows[j], origins[j], b);
      assert Knows(t.rows, origins, legacy, s, tool, j, b);
    }
    if j :| Knows(t.rows, origins, legacy, s, tool, j, b) {
      MatchesOrigin(hash, t.rows[j], origins[j], b);
      assert t.rows[j] in base && Matches(t.rows[j], o);
    }
  }

  lemma ComparedByMembers(rows: seq<Row>, o: Hashes)
    ensures Compared(rows, o) == New <==> rows == []
    ensures Compared(rows, o) in {Unchanged, Reverted} <==> exists r :: r in rows && Matches(r, o)
    ensures rows != [] ==> (Compared(rows, o) == Unchanged <==> Matches(rows[0], o))
  {
    if r :| r in rows && Matches(r, o) {
      var k :| 0 <= k < |rows| && rows[k] == r;
    }
    if k :| 0 <= k < |rows| && Matches(rows[k], o) {
      assert rows[k] in rows;
    }
  }

  lemma ComparedDecides(
    hash: string -> string, t: Table, defs: iset<Hashes>, origins: seq<Origin>, legacy: map<string, string>, s: string,
    tool: string, b: Json)
    requires Injective(hash) && WellFormed(b)
    requires Safe(t, defs, legacy) && s in legacy && Sourced(hash, t.rows, origins, legacy, s, tool)
    ensures DecidedBy(t.rows, origins, legacy, s, tool, b,
                      Compared(Base(t.rows, legacy, s, tool), Versions(hash, b)))
  {
    var base, o := Base(t.rows, legacy, s, tool), Versions(hash, b);
    ComparedByMembers(base, o);
    MatchIsKnown(hash, t, defs, origins, legacy, s, tool, b);
    assert base == [] <==> forall j :: 0 <= j < |t.rows| ==> !OfTool(t.rows[j], legacy, s, tool) by {
      BaseMembers(t, defs, legacy, s, tool);
      assert base != [] ==> base[0] in base;
      assert forall j :: 0 <= j < |t.rows| && OfTool(t.rows[j], legacy, s, tool) ==> t.rows[j] in base;
    }
    forall k | LastSighted(t.rows, origins, legacy, s, tool, k)
      ensures base != [] && (Matches(base[0], o) <==> SameUnder(t.rows[k].version, origins[k].tool, b))
    {
      HeadIsLastSighted(hash, t, defs, origins, legacy, s, tool, k);
      MatchesOrigin(hash, t.rows[k], origins[k], b);
    }
  }

  lemma PrecedingIsLater(
    hash: string -> string, t: Table, origins: seq<Origin>, legacy: map<string, string>, s: string, tool: string,
    j: nat, k: nat)
    requires IdsOrdered(t) && s in legacy && Sourced(hash, t.rows, origins, legacy, s, tool)
    requires j < |t.rows| && k < |t.rows| && j != k && Precedes(t.rows[k], t.rows[j])
    requires OfTool(t.rows[j], legacy, s, tool) && OfTool(t.rows[k], legacy, s, tool)
    ensures origins[j].time < origins[k].time || (origins[j].time == origins[k].time && j < k)
  {
    assert StemsFrom(hash, t.rows[j], origins[j]) && StemsFrom(hash, t.rows[k], origins[k]);
  }

  /** Some row is the one sighted last. */
  lemma SomeLastSighted(
    hash: string -> string, t: Table, defs: iset<Hashes>, origins: seq<Origin>, legacy: map<string, string>, s: string,
    tool: string)
    requires Safe(t, defs, legacy) && s in legacy && Sourced(hash, t.rows, origins, legacy, s, tool)
    requires exists j :: 0 <= j < |t.rows| && OfTool(t.rows[j], legacy, s, tool)
    ensures exists k :: LastSighted(t.rows, origins, legacy, s, tool, k)
  {
    var k := FirstOfBase(t, defs, legacy, s, tool);
    forall j | 0 <= j < |t.rows| && j != k && OfTool(t.rows[j], legacy, s, tool)
      ensures origins[j].time < origins[k].time || (origins[j].time == origins[k].time && j < k)
    {
      PrecedingIsLater(hash, t, origins, legacy, s, tool, j, k);
    }
    assert LastSighted(t.rows, origins, legacy, s, tool, k);
  }

  lemma FirstOfBase(t: Table, defs: iset<Hashes>, legacy: map<string, string>, s: string, tool: string)
    returns (k: nat)
    requires Safe(t, defs, legacy) && s in legacy
    requires exists j :: 0 <= j < |t.rows| && OfTool(t.rows[j], legacy, s, tool)
    ensures k < |t.rows| && OfTool(t.rows[k], legacy, s, tool)
    ensures forall j :: 0 <= j < |t.rows| && OfTool(t.rows[j], legacy, s, tool) ==> Precedes(t.rows[k], t.rows[j])
  {
    var base := Base(t.rows, legacy, s, tool);
    BaseMembers(t, defs, legacy, s, tool);
    var i :| 0 <= i < |t.rows| && OfTool(t.rows[i], legacy, s, tool);
    assert t.rows[i] in base;
    assert base[0] in base;
    k :| 0 <= k < |t.rows| && t.rows[k] == base[0];
    forall j | 0 <= j < |t.rows| && OfTool(t.rows[j], legacy, s, tool)
      ensures Precedes(t.rows[k], t.rows[j])
    {
      assert t.rows[j] in base;
    }
  }

  // ---------------------------------------------------------------- a recording

  function CallFor(hash: string -> string, session: int, s: string, tool: string, b: Json, ts: int): Call {
    Call(session, s, tool, Versions(hash, b), ts)
  }

  /**
   Recording a definition into a table whose rows of the tool stem from definitions seen before,
   each under any of the hash versions: the definitions themselves decide. It is Unchanged exactly
   when it cannot be told, under the row's version, from the one sighted last; Reverted exactly
   when only from an older one; New exactly when there is none.
   */
  lemma DefinitionsDecide(
    hash: string -> string, t: Table, origins: seq<Origin>, legacy: map<string, string>,
    session: int, s: string, tool: string, b: Json, ts: int)
    requires Injective(hash) && WellFormed(b)
    requires Safe(t, Definitions(hash), legacy) && Rekeyable(legacy) && s in legacy
    requires Sourced(hash, t.rows, origins, legacy, s, tool)
    ensures var r := Step(t, legacy, CallFor(hash, session, s, tool, b, ts));
            r.Some? && DecidedBy(t.rows, origins, legacy, s, tool, b, r.value.outcome)
  {
    HashesCoherent(hash);
    RecordCompares(t, Definitions(hash), legacy, CallFor(hash, session, s, tool, b, ts));
    ComparedDecides(hash, t, Definitions(hash), origins, legacy, s, tool, b);
  }

  /** The only row of a tool, stored from `a` under version n: Unchanged exactly when the first n + 2 fields agree. */
  lemma OneStoredDefinition(
    hash: string -> string, t: Table, legacy: map<string, string>, k: nat, a: Json,
    session: int, s: string, tool: string, b: Json, ts: int)
    requires Injective(hash) && WellFormed(a) && WellFormed(b)
    requires Safe(t, Definitions(hash), legacy) && Rekeyable(legacy) && s in legacy
    requires k < |t.rows| && 1 <= t.rows[k].version <= 3
    requires t.rows[k].fingerprint
             == [Versions(hash, a).v1, Versions(hash, a).v2, Versions(hash, a).v3][t.rows[k].version - 1]
    requires forall j :: 0 <= j < |t.rows| ==> (OfTool(t.rows[j], legacy, s, tool) <==> j == k)
    ensures var r := Step(t, legacy, CallFor(hash, session, s, tool, b, ts));
            && r.Some?
            && r.value.outcome == if FieldsAgree(a, b, t.rows[k].version + 2) then Unchanged else Changed
  {
    var origins := OriginOfOne(hash, t.rows, legacy, s, tool, k, a);
    DefinitionsDecide(hash, t, origins, legacy, session, s, tool, b, ts);
    OneRowDecides(t.rows, origins, legacy, s, tool, k, b,
                  Step(t, legacy, CallFor(hash, session, s, tool, b, ts)).value.outcome);
    SameUnderExactly(t.rows[k].version, a, b);
  }

  lemma OriginOfOne(
    hash: string -> string, rows: seq<Row>, legacy: map<string, string>, s: string, tool: string, k: nat, a: Json)
    returns (origins: seq<Origin>)
    requires WellFormed(a) && s in legacy && k < |rows| && 1 <= rows[k].version <= 3
    requires rows[k].fingerprint
             == [Versions(hash, a).v1, Versions(hash, a).v2, Versions(hash, a).v3][rows[k].version - 1]
    requires forall j :: 0 <= j < |rows| ==> (OfTool(rows[j], legacy, s, tool) <==> j == k)
    ensures Sourced(hash, rows, origins, legacy, s, tool) && origins[k].tool == a
  {
    var time := if rows[k].lastSeen.Some? then rows[k].lastSeen.value else rows[k].firstSeen;
    origins := seq(|rows|, i => Origin(a, time));
    assert StemsFrom(hash, rows[k], origins[k]);
  }

  lemma OneRowDecides(
    rows: seq<Row>, origins: seq<Origin>, legacy: map<string, string>, s: string, tool: string, k: nat, b: Json,
    outcome: Outcome)
    requires s in legacy && |origins| == |rows| && k < |rows|
    requires forall j :: 0 <= j < |rows| ==> (OfTool(rows[j], legacy, s, tool) <==> j == k)
    requires DecidedBy(rows, origins, legacy, s, tool, b, outcome)
    ensures outcome == if SameUnder(rows[k].version, origins[k].tool, b) then Unchanged else Changed
  {
    assert LastSighted(rows, origins, legacy, s, tool, k);
    assert Knows(rows, origins, legacy, s, tool, k, b) <==> SameUnder(rows[k].version, origins[k].tool, b);
    if j :| Knows(rows, origins, legacy, s, tool, j, b) {
      assert j == k;
    }
  }

  /** The same of the first recording of a tool in any run, whatever was recorded and moved before it. */
  lemma FirstDefinitionDecides(
    hash: string -> string, t: Table, origins: seq<Origin>, legacy: map<string, string>, calls: seq<Call>, i: nat,
    b: Json)
    requires Injective(hash) && WellFormed(b)
    requires Safe(t, Definitions(hash), legacy) && Rekeyable(legacy) && ValidCalls(calls, Definitions(hash), legacy)
    requires i < |calls| && FirstOfTool(calls, i) && Apart(legacy, calls[i].serverId)
    requires calls[i].hashes == Versions(hash, b)
    requires Sourced(hash, t.rows, origins, legacy, calls[i].serverId, calls[i].tool)
    ensures var r := Returned(t, legacy, calls, i);
            r.Some? && DecidedBy(t.rows, origins, legacy, calls[i].serverId, calls[i].tool, b, r.value.outcome)
  {
    HashesCoherent(hash);
    FirstCompares(t, Definitions(hash), legacy, calls, i);
    ComparedDecides(hash, t, Definitions(hash), origins, legacy, calls[i].serverId, calls[i].tool, b);
  }

  // ---------------------------------------------------------------- what is written

  predicate AnyAt(rows: seq<Row>, key: string, tool: string) {
    exists i :: 0 <= i < |rows| && rows[i].serverKey == key && rows[i].tool == tool
  }

  /** All rows of the legacy key go to the server's own, if the tool has rows there only. */
  predicate Relocated(rows: seq<Row>, moved: seq<Row>, from: string, s: string, tool: string) {
    if !AnyAt(rows, s, tool) && AnyAt(rows, from, tool)
    then |moved| == |rows| && forall i :: 0 <= i < |rows| ==>
           moved[i] == if rows[i].serverKey == from then rows[i].(serverKey := s) else rows[i]
    else moved == rows
  }

  /** A new row for the definition, under the current version. */
  predicate Appended(t: Table, moved: seq<Row>, c: Call, after: Table) {
    after == Table(moved + [Row(t.nextId, c.session, c.serverId, c.tool, c.hashes.v3, 3, c.ts, Some(c.ts))],
                   t.nextId + 1)
  }

  /** Row k pins the definition under the current version, sighted now; nothing else changes. */
  predicate Repinned(t: Table, moved: seq<Row>, k: int, c: Call, after: Table) {
    0 <= k < |moved|
    && after == Table(moved[k := moved[k].(fingerprint := c.hashes.v3, version := 3, lastSeen := Some(c.ts))], t.nextId)
  }

  lemma MigratedIsRelocated(t: Table, s: string, from: string, tool: string)
    requires Migrated(t, s, from, tool).Some?
    ensures Relocated(t.rows, Migrated(t, s, from, tool).value.rows, from, s, tool)
    ensures Migrated(t, s, from, tool).value.nextId == t.nextId
  {
    HistoryExact(t.rows, s, tool);
    HistoryExact(t.rows, from, tool);
    assert AnyAt(t.rows, s, tool) <==> HasRows(t.rows, s, tool) by {
      assert forall i :: 0 <= i < |t.rows| ==>
          (InScope(t.rows[i], s, tool) <==> t.rows[i].serverKey == s && t.rows[i].tool == tool);
    }
    assert AnyAt(t.rows, from, tool) <==> HasRows(t.rows, from, tool) by {
      assert forall i :: 0 <= i < |t.rows| ==>
          (InScope(t.rows[i], from, tool) <==> t.rows[i].serverKey == from && t.rows[i].tool == tool);
    }
  }

  lemma ClassifyWrites(t: Table, c: Call)
    requires IdsOrdered(t) && forall i :: 0 <= i < |t.rows| ==> t.rows[i].version <= 3
    requires Classify(t, History(t.rows, c.serverId, c.tool), c.session, c.serverId, c.tool, c.hashes, c.ts).Some?
    ensures var h := History(t.rows, c.serverId, c.tool);
            var r := Classify(t, h, c.session, c.serverId, c.tool, c.hashes, c.ts).value;
            if r.outcome in {New, Changed} then Appended(t, t.rows, c, r.table)
            else exists k :: Repinned(t, t.rows, k, c, r.table) && InScope(t.rows[k], c.serverId, c.tool)
  {
    var h := History(t.rows, c.serverId, c.tool);
    if FirstMatch(h, c.hashes) < |h| {
      var k := HistoryMatch(t, c.serverId, c.tool, c.hashes);
      TouchedOne(t, k, c.hashes, c.ts);
      assert Repinned(t, t.rows, k, c, Touch(t, t.rows[k], c.hashes, c.ts).value);
    }
  }

  /**
   What a recording leaves in the table: the legacy rows at their new key, and then one more row for
   a new or changed definition, or the one row of the tool that knew the definition brought up to
   the current version.
   */
  lemma RecordWrites(t: Table, defs: iset<Hashes>, legacy: map<string, string>, c: Call) returns (moved: seq<Row>)
    requires Coherent(defs) && Rekeyable(legacy) && Safe(t, defs, legacy)
    requires c.serverId in legacy && c.hashes in defs && forall i :: 0 <= i < |t.rows| ==> t.rows[i].version <= 3
    ensures Relocated(t.rows, moved, legacy[c.serverId], c.serverId, c.tool)
    ensures var r := Step(t, legacy, c);
            && r.Some?
            && if r.value.outcome in {New, Changed} then Appended(t, moved, c, r.value.table)
               else exists k :: Repinned(t, moved, k, c, r.value.table) && InScope(moved[k], c.serverId, c.tool)
  {
    var s := c.serverId;
    StepSafe(t, defs, legacy, c);
    MigratedSafe(t, defs, legacy, s, c.tool);
    MigratedIsRelocated(t, s, legacy[s], c.tool);
    var m := Migrated(t, s, legacy[s], c.tool).value;
    moved := m.rows;
    ClassifyWrites(m, c);
  }
}
