/**
 The rug-pull fingerprint table of the storage crate.

 A row pins one definition of one tool of one server, hashed under one of three
 algorithm versions. Recording an observation may move a whole server's rows from its
 old key to its new one, may rewrite one row, or may append one; every one of these
 statements is subject to the index UNIQUE (server_key, tool_name, fingerprint), and a
 violation rolls the transaction back.
 */
module Fingerprints {
  import opened Common

  /** One observed tool definition, hashed under every algorithm version. */
  datatype Hashes = Hashes(v1: string, v2: string, v3: string)

  datatype Row = Row(
    id: nat, session: int, serverKey: string, tool: string, fingerprint: string,
    version: int, firstSeen: int, lastSeen: Option<int>)

  /** `nextId` is the AUTOINCREMENT counter: it is never reused. */
  datatype Table = Table(rows: seq<Row>, nextId: nat)

  datatype Outcome = New | Unchanged | Reverted | Changed

  datatype Recorded = Recorded(outcome: Outcome, table: Table)

  // ---------------------------------------------------------------- statements

  predicate InScope(r: Row, key: string, tool: string) {
    r.serverKey == key && r.tool == tool
  }

  predicate SameIndexKey(a: Row, b: Row) {
    a.serverKey == b.serverKey && a.tool == b.tool && a.fingerprint == b.fingerprint
  }

  /** The UNIQUE index on (server_key, tool_name, fingerprint). */
  predicate Unique(rows: seq<Row>) {
    forall i, j :: 0 <= i < j < |rows| ==> !SameIndexKey(rows[i], rows[j])
  }

  /** A statement's new contents, or an error when they would break the index. */
  function Checked(t: Table): Option<Table> {
    if Unique(t.rows) then Some(t) else None
  }

  function Recency(r: Row): int {
    if r.lastSeen.Some? then r.lastSeen.value else r.firstSeen
  }

  /** ORDER BY COALESCE(last_seen, first_seen) DESC, id DESC. */
  predicate Precedes(a: Row, b: Row) {
    Recency(a) > Recency(b) || (Recency(a) == Recency(b) && a.id >= b.id)
  }

  function Scope(rows: seq<Row>, key: string, tool: string): seq<Row> {
    if rows == [] then []
    else
      var rest := Scope(rows[1..], key, tool);
      if InScope(rows[0], key, tool) then [rows[0]] + rest else rest
  }

  function InsertOrdered(r: Row, rows: seq<Row>): seq<Row> {
    if rows == [] || Precedes(r, rows[0]) then [r] + rows
    else [rows[0]] + InsertOrdered(r, rows[1..])
  }

  function Ordered(rows: seq<Row>): seq<Row> {
    if rows == [] then [] else InsertOrdered(rows[0], Ordered(rows[1..]))
  }

  /** The SELECT of one scope, most recent observation first. */
  function History(rows: seq<Row>, key: string, tool: string): seq<Row> {
    Ordered(Scope(rows, key, tool))
  }

  function HashFor(o: Hashes, version: int): string {
    if version <= 1 then o.v1 else if version == 2 then o.v2 else o.v3
  }

  /** A stored row is compared on the hash of its own algorithm version. */
  predicate Matches(r: Row, o: Hashes) {
    r.fingerprint == HashFor(o, r.version)
  }

  function Rekeyed(rows: seq<Row>, from: string, to: string): seq<Row> {
    seq(|rows|, i requires 0 <= i < |rows| =>
      if rows[i].serverKey == from then rows[i].(serverKey := to) else rows[i])
  }

  function TouchRow(r: Row, version: int, v3: string, ts: int): Row {
    if version < 3 then r.(lastSeen := Some(ts), fingerprint := v3, version := 3)
    else r.(lastSeen := Some(ts))
  }

  function Touched(rows: seq<Row>, id: nat, version: int, v3: string, ts: int): seq<Row> {
    seq(|rows|, i requires 0 <= i < |rows| =>
      if rows[i].id == id then TouchRow(rows[i], version, v3, ts) else rows[i])
  }

  function Touch(t: Table, r: Row, o: Hashes, ts: int): Option<Table> {
    Checked(t.(rows := Touched(t.rows, r.id, r.version, o.v3, ts)))
  }

  function FreshRow(t: Table, session: int, key: string, tool: string, o: Hashes, ts: int): Row {
    Row(t.nextId, session, key, tool, o.v3, 3, ts, Some(ts))
  }

  function Insert(t: Table, session: int, key: string, tool: string, o: Hashes, ts: int): Option<Table> {
    Checked(Table(t.rows + [FreshRow(t, session, key, tool, o, ts)], t.nextId + 1))
  }

  /** Index of the first row of `h` that `o` matches, or |h|. */
  function FirstMatch(h: seq<Row>, o: Hashes): (k: nat)
    ensures k <= |h|
    ensures k < |h| ==> Matches(h[k], o)
    ensures forall i :: 0 <= i < k ==> !Matches(h[i], o)
  {
    if h == [] || Matches(h[0], o) then 0 else 1 + FirstMatch(h[1..], o)
  }

  function Outcomes(o: Outcome, t: Option<Table>): Option<Recorded> {
    if t.Some? then Some(Recorded(o, t.value)) else None
  }

  function Classify(
    t: Table, h: seq<Row>, session: int, key: string, tool: string, o: Hashes, ts: int): Option<Recorded> {
    if h == [] then Outcomes(New, Insert(t, session, key, tool, o, ts))
    else
      var k := FirstMatch(h, o);
      if k == |h| then Outcomes(Changed, Insert(t, session, key, tool, o, ts))
      else Outcomes(if k == 0 then Unchanged else Reverted, Touch(t, h[k], o, ts))
  }

  /** The table a record call compares against: the legacy rows are moved first when needed. */
  function Migrated(t: Table, serverId: string, legacyKey: string, tool: string): Option<Table> {
    if History(t.rows, serverId, tool) == [] && serverId != legacyKey && History(t.rows, legacyKey, tool) != []
    then Checked(t.(rows := Rekeyed(t.rows, legacyKey, serverId)))
    else Some(t)
  }

  /** One whole transaction; None is an error, after which the table is as before. */
  function Record(
    t: Table, session: int, serverId: string, legacyKey: string, tool: string, o: Hashes, ts: int): Option<Recorded> {
    var m := Migrated(t, serverId, legacyKey, tool);
    if m.None? then None
    else Classify(m.value, History(m.value.rows, serverId, tool), session, serverId, tool, o, ts)
  }

  // ---------------------------------------------------------------- the store object

  class Store {
    var table: Table

    constructor ()
      ensures table == Table([], 0)
    {
      table := Table([], 0);
    }

    method InsertFingerprint(session: int, key: string, tool: string, o: Hashes, ts: int) returns (ok: bool)
      modifies this
      ensures ok == Insert(old(table), session, key, tool, o, ts).Some?
      ensures table == if ok then Insert(old(table), session, key, tool, o, ts).value else old(table)
    {
      var next := Table(table.rows + [Row(table.nextId, session, key, tool, o.v3, 3, ts, Some(ts))], table.nextId + 1);
      ok := Unique(next.rows);
      if ok {
        table := next;
      }
    }

    method TouchFingerprint(r: Row, o: Hashes, ts: int) returns (ok: bool)
      modifies this
      ensures ok == Touch(old(table), r, o, ts).Some?
      ensures table == if ok then Touch(old(table), r, o, ts).value else old(table)
    {
      var rows := table.rows;
      var i := 0;
      while i < |table.rows|
        invariant 0 <= i <= |table.rows| == |rows|
        invariant table == old(table)
        invariant forall j :: 0 <= j < i ==> rows[j] == Touched(table.rows, r.id, r.version, o.v3, ts)[j]
        invariant forall j :: i <= j < |rows| ==> rows[j] == table.rows[j]
      {
        if rows[i].id == r.id {
          if r.version < 3 {
            rows := rows[i := rows[i].(lastSeen := Some(ts), fingerprint := o.v3, version := 3)];
          } else {
            rows := rows[i := rows[i].(lastSeen := Some(ts))];
          }
        }
        i := i + 1;
      }
      assert rows == Touched(table.rows, r.id, r.version, o.v3, ts);
      ok := Unique(rows);
      if ok {
        table := table.(rows := rows);
      }
    }

    method ClassifyFingerprint(h: seq<Row>, session: int, key: string, tool: string, o: Hashes, ts: int)
      returns (r: Option<Outcome>)
      modifies this
      ensures var spec := Classify(old(table), h, session, key, tool, o, ts);
              if spec.Some? then r == Some(spec.value.outcome) && table == spec.value.table
              else r == None && table == old(table)
    {
      if h == [] {
        var ok := InsertFingerprint(session, key, tool, o, ts);
        return if ok then Some(New) else None;
      }
      if Matches(h[0], o) {
        var ok := TouchFingerprint(h[0], o, ts);
        return if ok then Some(Unchanged) else None;
      }
      var k := 0;
      while k < |h| && !Matches(h[k], o)
        invariant 0 <= k <= |h|
        invariant forall i :: 0 <= i < k ==> !Matches(h[i], o)
      {
        k := k + 1;
      }
      if k < |h| {
        assert FirstMatch(h, o) == k;
        var ok := TouchFingerprint(h[k], o, ts);
        return if ok then Some(Reverted) else None;
      }
      var ok := InsertFingerprint(session, key, tool, o, ts);
      return if ok then Some(Changed) else None;
    }

    /** BEGIN IMMEDIATE, re-key, compare, write, COMMIT; on any error ROLLBACK. */
    method RecordFingerprint(session: int, serverId: string, legacyKey: string, tool: string, o: Hashes, ts: int)
      returns (r: Option<Outcome>)
      modifies this
      ensures var spec := Record(old(table), session, serverId, legacyKey, tool, o, ts);
              if spec.Some? then r == Some(spec.value.outcome) && table == spec.value.table
              else r == None && table == old(table)
    {
      var begin := table;
      var h := History(table.rows, serverId, tool);
      if h == [] && serverId != legacyKey && History(table.rows, legacyKey, tool) != [] {
        var moved := Rekeyed(table.rows, legacyKey, serverId);
        if !Unique(moved) {
          return None;
        }
        table := table.(rows := moved);
        h := History(table.rows, serverId, tool);
      }
      r := ClassifyFingerprint(h, session, serverId, tool, o, ts);
      if r.None? {
        table := begin;
      }
    }
  }
}
