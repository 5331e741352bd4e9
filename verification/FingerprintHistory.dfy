/**
 What the four outcomes mean in terms of the plain list of past observations of one tool
 of one server, whatever else the store records in between.
 */
module FingerprintHistory {
  import opened Common
  import opened Fingerprints
  import opened FingerprintSafety
  import opened Sequences

  /** One past observation of the tool: its current-algorithm hash, and when. */
  datatype Obs = Obs(def: string, ts: int)

  ghost predicate Seen(h: seq<Obs>, d: string) {
    exists i :: 0 <= i < |h| && h[i].def == d
  }

  ghost function LastBefore(h: seq<Obs>, d: string, n: nat): (k: nat)
    requires n <= |h| && exists i :: 0 <= i < n && h[i].def == d
    ensures k < n && h[k].def == d && forall j :: k < j < n ==> h[j].def != d
  {
    if h[n - 1].def == d then n - 1 else LastBefore(h, d, n - 1)
  }

  ghost function FirstFrom(h: seq<Obs>, d: string, n: nat): (k: nat)
    requires exists i :: n <= i < |h| && h[i].def == d
    ensures n <= k < |h| && h[k].def == d && forall j :: n <= j < k ==> h[j].def != d
    decreases |h| - n
  {
    if h[n].def == d then n else FirstFrom(h, d, n + 1)
  }

  ghost function LastIndex(h: seq<Obs>, d: string): (k: nat)
    requires Seen(h, d)
    ensures k < |h| && h[k].def == d && forall j :: k < j < |h| ==> h[j].def != d
  {
    LastBefore(h, d, |h|)
  }

  ghost function FirstIndex(h: seq<Obs>, d: string): (k: nat)
    requires Seen(h, d)
    ensures k < |h| && h[k].def == d && forall j :: 0 <= j < k ==> h[j].def != d
  {
    FirstFrom(h, d, 0)
  }

  ghost function LastTime(h: seq<Obs>, d: string): int
    requires Seen(h, d)
  {
    h[LastIndex(h, d)].ts
  }

  /** The rule the store promises: compare with the previous observation, then with older ones. */
  ghost function PlainOutcome(h: seq<Obs>, d: string): Outcome {
    if h == [] then New
    else if h[|h| - 1].def == d then Unchanged
    else if Seen(h, d) then Reverted
    else Changed
  }

  /** `d` was seen at the latest time; among those seen then, it was first sighted last. */
  ghost predicate Latest(h: seq<Obs>, d: string) {
    && Seen(h, d)
    && forall e :: Seen(h, e) && e != d ==>
         LastTime(h, e) < LastTime(h, d)
         || (LastTime(h, e) == LastTime(h, d) && FirstIndex(h, e) < FirstIndex(h, d))
  }

  /** The rule the store follows for arbitrary timestamps. */
  ghost function TimedOutcome(h: seq<Obs>, d: string): Outcome {
    if h == [] then New
    else if Latest(h, d) then Unchanged
    else if Seen(h, d) then Reverted
    else Changed
  }

  ghost predicate StrictlyIncreasing(h: seq<Obs>) {
    forall i, j :: 0 <= i < j < |h| ==> h[i].ts < h[j].ts
  }

  /** With strictly increasing times the store's rule is the promised one. */
  lemma StrictTimesArePlain(h: seq<Obs>, d: string)
    requires StrictlyIncreasing(h)
    ensures TimedOutcome(h, d) == PlainOutcome(h, d)
  {
    if h != [] {
      var last := h[|h| - 1].def;
      assert h[|h| - 1].def == last;
      assert Seen(h, last) && LastIndex(h, last) == |h| - 1;
      assert Latest(h, last);
    }
  }

  /**
   For arbitrary times the two rules agree exactly when "as the previous one" and "the latest" are
   the same of `d`.
   */
  lemma AgreesExactlyWhen(h: seq<Obs>, d: string)
    ensures TimedOutcome(h, d) == PlainOutcome(h, d) <==> h == [] || (h[|h| - 1].def == d <==> Latest(h, d))
  {
    assert h != [] ==> Seen(h, h[|h| - 1].def);
  }

  /** Of two definitions last observed at one time, the one first observed later is the latest. */
  lemma TiedLatest(a: string, b: string, t1: int, t2: int)
    requires a != b
    ensures var h := [Obs(a, t1), Obs(b, t2), Obs(a, t2)];
            Latest(h, b) && !Latest(h, a)
  {
    var h := [Obs(a, t1), Obs(b, t2), Obs(a, t2)];
    assert h[0].def == a && h[1].def == b && h[2].def == a;
    assert Seen(h, a) && Seen(h, b);
    assert FirstIndex(h, a) == 0 && FirstIndex(h, b) == 1;
  }

  ghost predicate LastAt(h: seq<Obs>, k: int) {
    0 <= k < |h| && forall j :: k < j < |h| ==> h[j].def != h[k].def
  }

  ghost predicate FirstAt(h: seq<Obs>, k: int) {
    0 <= k < |h| && forall j :: 0 <= j < k ==> h[j].def != h[k].def
  }

  /** The definition last observed at k is older than one first observed at f and last at time ts. */
  ghost predicate Yields(h: seq<Obs>, k: int, f: int, ts: int)
    requires 0 <= k < |h| && 0 <= f < |h|
  {
    h[k].ts < ts || (h[k].ts == ts && exists j :: 0 <= j < f && h[j].def == h[k].def)
  }

  /** The latest definition in terms of positions: every other one's last observation yields to it. */
  lemma LatestAt(h: seq<Obs>, d: string, f: int, l: int)
    requires FirstAt(h, f) && LastAt(h, l) && h[f].def == d && h[l].def == d
    ensures Latest(h, d) <==> forall k :: LastAt(h, k) && h[k].def != d ==> Yields(h, k, f, h[l].ts)
  {
    assert Seen(h, d) && FirstIndex(h, d) == f && LastIndex(h, d) == l;
    if Latest(h, d) {
      forall k | LastAt(h, k) && h[k].def != d ensures Yields(h, k, f, h[l].ts) {
        var e := h[k].def;
        assert Seen(h, e) && LastIndex(h, e) == k;
        assert h[FirstIndex(h, e)].def == e;
      }
    }
    if forall k :: LastAt(h, k) && h[k].def != d ==> Yields(h, k, f, h[l].ts) {
      forall e | Seen(h, e) && e != d
        ensures LastTime(h, e) < LastTime(h, d)
                || (LastTime(h, e) == LastTime(h, d) && FirstIndex(h, e) < FirstIndex(h, d))
      {
        assert LastAt(h, LastIndex(h, e));
      }
    }
  }

  // ---------------------------------------------------------------- rows and observations

  /** Every row of the scope holds the current hash of a definition seen, and when it was last seen. */
  ghost predicate RowsSeen(rows: seq<Row>, key: string, tool: string, h: seq<Obs>) {
    forall i :: 0 <= i < |rows| && InScope(rows[i], key, tool) ==>
      && rows[i].version == 3
      && Seen(h, rows[i].fingerprint)
      && Recency(rows[i]) == LastTime(h, rows[i].fingerprint)
  }

  ghost predicate Stored(rows: seq<Row>, key: string, tool: string, d: string) {
    exists i :: 0 <= i < |rows| && InScope(rows[i], key, tool) && rows[i].fingerprint == d
  }

  ghost predicate SightingOrder(rows: seq<Row>, key: string, tool: string, h: seq<Obs>)
    requires RowsSeen(rows, key, tool, h)
  {
    forall i, j :: 0 <= i < j < |rows| && InScope(rows[i], key, tool) && InScope(rows[j], key, tool) ==>
      FirstIndex(h, rows[i].fingerprint) < FirstIndex(h, rows[j].fingerprint)
  }

  /** The scope's rows are exactly the distinct definitions, in order of first sighting. */
  ghost predicate Tracks(rows: seq<Row>, key: string, tool: string, h: seq<Obs>) {
    && RowsSeen(rows, key, tool, h)
    && (forall d :: Seen(h, d) ==> Stored(rows, key, tool, d))
    && SightingOrder(rows, key, tool, h)
  }

  lemma SeenAfter(h: seq<Obs>, o: Obs)
    ensures forall d :: Seen(h + [o], d) <==> Seen(h, d) || d == o.def
    ensures forall d :: Seen(h, d) ==> FirstIndex(h + [o], d) == FirstIndex(h, d)
    ensures Seen(h + [o], o.def) && LastTime(h + [o], o.def) == o.ts
    ensures forall d :: Seen(h, d) && d != o.def ==> LastTime(h + [o], d) == LastTime(h, d)
    ensures !Seen(h, o.def) ==> FirstIndex(h + [o], o.def) == |h|
  {
    var n := h + [o];
    assert n[|h|].def == o.def;
    assert n[..|n| - 1] == h;
    forall d | Seen(h, d)
      ensures Seen(n, d)
    {
      assert n[LastIndex(h, d)].def == d;
    }
  }

  /** A row that precedes every other row of its scope holds the latest definition. */
  lemma PrecedingIsLatest(t: Table, key: string, tool: string, h: seq<Obs>, k: nat)
    requires IdsOrdered(t) && Tracks(t.rows, key, tool, h)
    requires k < |t.rows| && InScope(t.rows[k], key, tool)
    requires forall j :: 0 <= j < |t.rows| && InScope(t.rows[j], key, tool) ==> Precedes(t.rows[k], t.rows[j])
    ensures Latest(h, t.rows[k].fingerprint)
  {
    var d := t.rows[k].fingerprint;
    forall e | Seen(h, e) && e != d
      ensures LastTime(h, e) < LastTime(h, d)
              || (LastTime(h, e) == LastTime(h, d) && FirstIndex(h, e) < FirstIndex(h, d))
    {
      assert Stored(t.rows, key, tool, e);
      var j :| 0 <= j < |t.rows| && InScope(t.rows[j], key, tool) && t.rows[j].fingerprint == e;
      assert Precedes(t.rows[k], t.rows[j]);
    }
  }

  /** The first row of the SELECT holds the latest definition. */
  lemma HeadIsLatest(t: Table, key: string, tool: string, h: seq<Obs>)
    requires IdsOrdered(t) && Tracks(t.rows, key, tool, h) && History(t.rows, key, tool) != []
    ensures Latest(h, History(t.rows, key, tool)[0].fingerprint)
  {
    HistoryExact(t.rows, key, tool);
    var r := History(t.rows, key, tool)[0];
    assert r in History(t.rows, key, tool);
    var k :| 0 <= k < |t.rows| && t.rows[k] == r;
    forall j | 0 <= j < |t.rows| && InScope(t.rows[j], key, tool)
      ensures Precedes(r, t.rows[j])
    {
      assert t.rows[j] in t.rows;
    }
    PrecedingIsLatest(t, key, tool, h, k);
  }

  /** In a tracked scope a row matches exactly when it holds the current hash. */
  lemma TrackedMatches(t: Table, key: string, tool: string, h: seq<Obs>, o: Hashes)
    requires Tracks(t.rows, key, tool, h)
    ensures forall r :: r in History(t.rows, key, tool) ==>
              (Matches(r, o) <==> r.fingerprint == o.v3) && Seen(h, r.fingerprint)
    ensures Seen(h, o.v3) ==> exists r :: r in History(t.rows, key, tool) && r.fingerprint == o.v3
  {
    HistoryExact(t.rows, key, tool);
    var rows := History(t.rows, key, tool);
    forall r | r in rows
      ensures (Matches(r, o) <==> r.fingerprint == o.v3) && Seen(h, r.fingerprint)
    {
      var i :| 0 <= i < |t.rows| && t.rows[i] == r;
    }
    if Seen(h, o.v3) {
      assert Stored(t.rows, key, tool, o.v3);
      var i :| 0 <= i < |t.rows| && InScope(t.rows[i], key, tool) && t.rows[i].fingerprint == o.v3;
      assert t.rows[i] in rows;
    }
  }

  /** The latest definition is unique. */
  lemma LatestUnique(h: seq<Obs>, a: string, b: string)
    requires Latest(h, a) && Latest(h, b)
    ensures a == b
  {
  }

  /** The outcome of classifying `o` against a tracked scope. */
  lemma TrackedOutcome(t: Table, key: string, tool: string, h: seq<Obs>, o: Hashes)
    requires IdsOrdered(t) && Tracks(t.rows, key, tool, h)
    ensures var rows := History(t.rows, key, tool);
            var k := FirstMatch(rows, o);
            && (rows == [] <==> h == [])
            && (k == |rows| <==> !Seen(h, o.v3))
            && (rows != [] && k == 0 <==> Latest(h, o.v3))
  {
    var rows := History(t.rows, key, tool);
    TrackedMatches(t, key, tool, h, o);
    assert rows != [] ==> rows[0] in rows;
    if h != [] {
      TrackedMatches(t, key, tool, h, Hashes("", "", h[0].def));
      assert Seen(h, h[0].def);
    }
    var k := FirstMatch(rows, o);
    assert k < |rows| ==> rows[k] in rows;
    if Seen(h, o.v3) {
      var r :| r in rows && r.fingerprint == o.v3;
      var i :| 0 <= i < |rows| && rows[i] == r;
    }
    if rows != [] {
      HeadIsLatest(t, key, tool, h);
      if Latest(h, o.v3) {
        LatestUnique(h, o.v3, rows[0].fingerprint);
      }
    }
  }

  lemma InsertedStored(rows: seq<Row>, r: Row, key: string, tool: string, h: seq<Obs>, d: string)
    requires InScope(r, key, tool) && (Stored(rows, key, tool, d) || d == r.fingerprint)
    ensures Stored(rows + [r], key, tool, d)
  {
    var next := rows + [r];
    if d == r.fingerprint {
      assert next[|rows|] == r;
    } else {
      var i :| 0 <= i < |rows| && InScope(rows[i], key, tool) && rows[i].fingerprint == d;
      assert next[i] == rows[i];
    }
  }

  lemma InsertedSeen(rows: seq<Row>, r: Row, key: string, tool: string, h: seq<Obs>, o: Obs)
    requires RowsSeen(rows, key, tool, h) && !Seen(h, o.def)
    requires r.version == 3 && r.fingerprint == o.def && Recency(r) == o.ts
    ensures RowsSeen(rows + [r], key, tool, h + [o])
  {
    SeenAfter(h, o);
  }

  lemma TrackInsert(t: Table, session: int, key: string, tool: string, o: Hashes, ts: int, h: seq<Obs>)
    requires Tracks(t.rows, key, tool, h) && !Seen(h, o.v3)
    ensures Tracks(t.rows + [FreshRow(t, session, key, tool, o, ts)], key, tool, h + [Obs(o.v3, ts)])
  {
    SeenAfter(h, Obs(o.v3, ts));
    var r, h' := FreshRow(t, session, key, tool, o, ts), h + [Obs(o.v3, ts)];
    var next := t.rows + [r];
    InsertedSeen(t.rows, r, key, tool, h, Obs(o.v3, ts));
    forall d | Seen(h', d)
      ensures Stored(next, key, tool, d)
    {
      InsertedStored(t.rows, r, key, tool, h, d);
    }
  }

  lemma TouchedStored(rows: seq<Row>, k: nat, r: Row, key: string, tool: string, d: string)
    requires k < |rows| && InScope(rows[k], key, tool) && InScope(r, key, tool) && r.fingerprint == rows[k].fingerprint
    requires Stored(rows, key, tool, d)
    ensures Stored(rows[k := r], key, tool, d)
  {
    var i :| 0 <= i < |rows| && InScope(rows[i], key, tool) && rows[i].fingerprint == d;
    assert InScope(rows[k := r][i], key, tool);
  }

  lemma TouchedSeen(rows: seq<Row>, k: nat, key: string, tool: string, o: Hashes, ts: int, h: seq<Obs>)
    requires RowsSeen(rows, key, tool, h) && SightingOrder(rows, key, tool, h)
    requires k < |rows| && InScope(rows[k], key, tool) && rows[k].fingerprint == o.v3
    ensures RowsSeen(rows[k := TouchRow(rows[k], rows[k].version, o.v3, ts)], key, tool, h + [Obs(o.v3, ts)])
  {
    SeenAfter(h, Obs(o.v3, ts));
    var next, h' := rows[k := TouchRow(rows[k], rows[k].version, o.v3, ts)], h + [Obs(o.v3, ts)];
    forall i | 0 <= i < |next| && InScope(next[i], key, tool)
      ensures next[i].version == 3 && Seen(h', next[i].fingerprint)
              && Recency(next[i]) == LastTime(h', next[i].fingerprint)
    {
      assert InScope(rows[i], key, tool) && rows[i].fingerprint == next[i].fingerprint;
      assert i != k ==> FirstIndex(h, rows[i].fingerprint) != FirstIndex(h, rows[k].fingerprint);
    }
  }

  lemma TouchedOrder(rows: seq<Row>, k: nat, r: Row, key: string, tool: string, h: seq<Obs>, o: Obs)
    requires RowsSeen(rows, key, tool, h) && SightingOrder(rows, key, tool, h)
    requires k < |rows| && InScope(rows[k], key, tool) && InScope(r, key, tool) && r.fingerprint == rows[k].fingerprint
    requires RowsSeen(rows[k := r], key, tool, h + [o])
    ensures SightingOrder(rows[k := r], key, tool, h + [o])
  {
    SeenAfter(h, o);
    var next := rows[k := r];
    forall i, j | 0 <= i < j < |next| && InScope(next[i], key, tool) && InScope(next[j], key, tool)
      ensures FirstIndex(h + [o], next[i].fingerprint) < FirstIndex(h + [o], next[j].fingerprint)
    {
      assert InScope(rows[i], key, tool) && InScope(rows[j], key, tool);
      assert next[i].fingerprint == rows[i].fingerprint && next[j].fingerprint == rows[j].fingerprint;
    }
  }

  lemma TrackTouch(rows: seq<Row>, k: nat, key: string, tool: string, o: Hashes, ts: int, h: seq<Obs>)
    requires Tracks(rows, key, tool, h) && k < |rows| && InScope(rows[k], key, tool) && rows[k].fingerprint == o.v3
    ensures Tracks(rows[k := TouchRow(rows[k], rows[k].version, o.v3, ts)], key, tool, h + [Obs(o.v3, ts)])
  {
    var r := TouchRow(rows[k], rows[k].version, o.v3, ts);
    var h' := h + [Obs(o.v3, ts)];
    TouchedSeen(rows, k, key, tool, o, ts, h);
    TouchedOrder(rows, k, r, key, tool, h, Obs(o.v3, ts));
    forall d | Seen(h', d)
      ensures Stored(rows[k := r], key, tool, d)
    {
      SeenAfter(h, Obs(o.v3, ts));
      assert Seen(h, rows[k].fingerprint);
      TouchedStored(rows, k, r, key, tool, d);
    }
  }

  /** Rows of one scope are untouched, and no row enters it. */
  ghost predicate SameScope(before: seq<Row>, after: seq<Row>, key: string, tool: string) {
    && |before| <= |after|
    && (forall i :: 0 <= i < |before| && (InScope(before[i], key, tool) || InScope(after[i], key, tool)) ==>
        after[i] == before[i])
    && (forall i :: |before| <= i < |after| ==> !InScope(after[i], key, tool))
  }

  lemma TrackOther(before: seq<Row>, after: seq<Row>, key: string, tool: string, h: seq<Obs>)
    requires Tracks(before, key, tool, h) && SameScope(before, after, key, tool)
    ensures Tracks(after, key, tool, h)
    ensures !HasRows(before, key, tool) ==> !HasRows(after, key, tool)
  {
    forall d | Seen(h, d)
      ensures Stored(after, key, tool, d)
    {
      assert Stored(before, key, tool, d);
      var i :| 0 <= i < |before| && InScope(before[i], key, tool) && before[i].fingerprint == d;
      assert after[i] == before[i];
    }
  }

  /** Rewriting by id rewrites one row. */
  lemma TouchedOne(t: Table, k: nat, o: Hashes, ts: int)
    requires IdsOrdered(t) && k < |t.rows|
    ensures Touched(t.rows, t.rows[k].id, t.rows[k].version, o.v3, ts) ==
            t.rows[k := TouchRow(t.rows[k], t.rows[k].version, o.v3, ts)]
  {
  }

  lemma ClassifyOther(t: Table, session: int, s: string, ctool: string, o: Hashes, ts: int, key: string, tool: string)
    requires IdsOrdered(t) && (s != key || ctool != tool)
    requires Classify(t, History(t.rows, s, ctool), session, s, ctool, o, ts).Some?
    ensures SameScope(t.rows, Classify(t, History(t.rows, s, ctool), session, s, ctool, o, ts).value.table.rows, key,
            tool)
  {
    var h := History(t.rows, s, ctool);
    if h != [] && FirstMatch(h, o) < |h| {
      var k := HistoryMatch(t, s, ctool, o);
      TouchedOne(t, k, o, ts);
    }
  }

  lemma MovedOther(rows: seq<Row>, from: string, to: string, key: string, tool: string)
    requires from != key || !HasRows(rows, key, tool)
    requires to == key ==> !HasRows(rows, from, tool)
    ensures SameScope(rows, Rekeyed(rows, from, to), key, tool)
  {
  }

  /** A call leaves a scope alone unless it records into it or moves rows of it. */
  lemma OtherScopeUntouched(
    t: Table, defs: iset<Hashes>, legacy: map<string, string>, c: Call, key: string, tool: string)
    requires Coherent(defs) && Rekeyable(legacy) && Safe(t, defs, legacy)
    requires c.serverId in legacy && c.hashes in defs
    requires c.serverId != key || c.tool != tool
    requires legacy[c.serverId] != key || legacy[c.serverId] == c.serverId || !HasRows(t.rows, key, tool)
    requires c.serverId == key && legacy[key] != key ==> !HasRows(t.rows, legacy[key], tool)
    ensures Step(t, legacy, c).Some? && SameScope(t.rows, Step(t, legacy, c).value.table.rows, key, tool)
  {
    var s := c.serverId;
    StepSafe(t, defs, legacy, c);
    MigratedSafe(t, defs, legacy, s, c.tool);
    var m := Migrated(t, s, legacy[s], c.tool).value;
    if m != t {
      MovedOther(t.rows, legacy[s], s, key, tool);
    }
    assert SameScope(t.rows, m.rows, key, tool);
    ClassifyOther(m, c.session, s, c.tool, c.hashes, c.ts, key, tool);
  }

  /** Recording into a tracked scope: the timed rule, and the scope stays tracked. */
  lemma ClassifyTracked(t: Table, session: int, s: string, tool: string, o: Hashes, ts: int, h: seq<Obs>)
    requires IdsOrdered(t) && Tracks(t.rows, s, tool, h)
    requires Classify(t, History(t.rows, s, tool), session, s, tool, o, ts).Some?
    ensures var r := Classify(t, History(t.rows, s, tool), session, s, tool, o, ts).value;
            r.outcome == TimedOutcome(h, o.v3) && Tracks(r.table.rows, s, tool, h + [Obs(o.v3, ts)])
  {
    var rows := History(t.rows, s, tool);
    TrackedOutcome(t, s, tool, h, o);
    if FirstMatch(rows, o) == |rows| {
      TrackInsert(t, session, s, tool, o, ts, h);
    } else {
      var k := HistoryMatch(t, s, tool, o);
      TouchedOne(t, k, o, ts);
      TrackTouch(t.rows, k, s, tool, o, ts, h);
    }
  }

  /** One call into the tracked scope, with no legacy rows to move. */
  lemma TrackedCall(t: Table, defs: iset<Hashes>, legacy: map<string, string>, c: Call, h: seq<Obs>)
    requires Coherent(defs) && Rekeyable(legacy) && Safe(t, defs, legacy)
    requires c.serverId in legacy && c.hashes in defs
    requires Tracks(t.rows, c.serverId, c.tool, h)
    requires legacy[c.serverId] != c.serverId ==> !HasRows(t.rows, legacy[c.serverId], c.tool)
    ensures var r := Step(t, legacy, c);
            && r.Some? && r.value.outcome == TimedOutcome(h, c.hashes.v3)
            && Tracks(r.value.table.rows, c.serverId, c.tool, h + [Obs(c.hashes.v3, c.ts)])
  {
    StepSafe(t, defs, legacy, c);
    HistoryExact(t.rows, legacy[c.serverId], c.tool);
    assert Migrated(t, c.serverId, legacy[c.serverId], c.tool) == Some(t);
    ClassifyTracked(t, c.session, c.serverId, c.tool, c.hashes, c.ts, h);
  }

  // ---------------------------------------------------------------- whole runs

  /** What the run has observed of one tool of one server. */
  function Observed(calls: seq<Call>, key: string, tool: string): seq<Obs> {
    if calls == [] then []
    else
      var c := calls[|calls| - 1];
      Observed(calls[..|calls| - 1], key, tool)
      + (if c.serverId == key && c.tool == tool then [Obs(c.hashes.v3, c.ts)] else [])
  }

  /** The table a run starts from already tracks these observations of the tool, all under the server's own key. */
  ghost predicate Baseline(t: Table, legacy: map<string, string>, key: string, tool: string, h: seq<Obs>)
    requires key in legacy
  {
    Tracks(t.rows, key, tool, h) && (legacy[key] != key ==> !HasRows(t.rows, legacy[key], tool))
  }

  /** A tool without rows has the empty baseline. */
  lemma NoRowsBaseline(t: Table, legacy: map<string, string>, key: string, tool: string)
    requires key in legacy
    ensures Baseline(t, legacy, key, tool, []) <==> !HasRows(t.rows, key, tool) && !HasRows(t.rows, legacy[key], tool)
  {
    assert forall d :: !Seen([], d);
  }

  /** No other server has this one's key as its legacy key. */
  ghost predicate Alone(legacy: map<string, string>, key: string) {
    forall t :: t in legacy && legacy[t] == key ==> t == key
  }

  lemma StepTracks(
    t: Table, defs: iset<Hashes>, legacy: map<string, string>, c: Call, key: string, tool: string, h: seq<Obs>)
    requires Coherent(defs) && Rekeyable(legacy) && Safe(t, defs, legacy)
    requires c.serverId in legacy && c.hashes in defs && key in legacy && Alone(legacy, key)
    requires Tracks(t.rows, key, tool, h)
    requires legacy[key] != key ==> !HasRows(t.rows, legacy[key], tool)
    ensures Step(t, legacy, c).Some?
    ensures Tracks(Step(t, legacy, c).value.table.rows, key, tool,
                   h + (if c.serverId == key && c.tool == tool then [Obs(c.hashes.v3, c.ts)] else []))
  {
    if c.serverId == key && c.tool == tool {
      TrackedCall(t, defs, legacy, c, h);
    } else {
      OtherScopeUntouched(t, defs, legacy, c, key, tool);
      TrackOther(t.rows, Step(t, legacy, c).value.table.rows, key, tool, h);
      assert h + [] == h;
    }
  }

  /** No call ever writes under the legacy key of such a server. */
  lemma StepKeepsLegacyEmpty(
    t: Table, defs: iset<Hashes>, legacy: map<string, string>, c: Call, key: string, tool: string)
    requires Coherent(defs) && Rekeyable(legacy) && Safe(t, defs, legacy)
    requires c.serverId in legacy && c.hashes in defs && key in legacy && Alone(legacy, key) && legacy[key] != key
    requires !HasRows(t.rows, legacy[key], tool)
    ensures Step(t, legacy, c).Some? && !HasRows(Step(t, legacy, c).value.table.rows, legacy[key], tool)
  {
    OtherScopeUntouched(t, defs, legacy, c, legacy[key], tool);
    var after := Step(t, legacy, c).value.table.rows;
    assert forall i :: 0 <= i < |t.rows| ==> !InScope(t.rows[i], legacy[key], tool);
    assert forall i :: 0 <= i < |after| ==> !InScope(after[i], legacy[key], tool);
  }

  /**
   From any baseline and over every run, the rows of the tool are exactly the distinct
   definitions observed, the baseline's included.
   */
  lemma {:induction false} RunTracks(
    t: Table, defs: iset<Hashes>, legacy: map<string, string>, calls: seq<Call>, key: string, tool: string, h: seq<Obs>)
    requires Coherent(defs) && Rekeyable(legacy) && Safe(t, defs, legacy) && ValidCalls(calls, defs, legacy)
    requires key in legacy && Alone(legacy, key) && Baseline(t, legacy, key, tool, h)
    ensures Baseline(After(t, legacy, calls), legacy, key, tool, h + Observed(calls, key, tool))
  {
    if calls == [] {
      EmptyAppend(h);
    } else {
      var n := |calls| - 1;
      var before, c, seen := After(t, legacy, calls[..n]), calls[n], Observed(calls[..n], key, tool);
      RunTracks(t, defs, legacy, calls[..n], key, tool, h);
      PrefixSafe(t, defs, legacy, calls[..n]);
      StepTracks(before, defs, legacy, c, key, tool, h + seen);
      AppendAssociates(h, seen, if c.serverId == key && c.tool == tool then [Obs(c.hashes.v3, c.ts)] else []);
      if legacy[key] != key {
        StepKeepsLegacyEmpty(before, defs, legacy, c, key, tool);
      }
    }
  }

  /** What was observed of call i's tool before it: the baseline, then the run's own observations. */
  ghost function Before(h: seq<Obs>, calls: seq<Call>, i: nat): seq<Obs>
    requires i < |calls|
  {
    h + Observed(calls[..i], calls[i].serverId, calls[i].tool)
  }

  /**
   In every run from any baseline, each call's outcome is the timed rule applied to what was
   observed before it, whatever other servers and tools are recorded in between.
   */
  lemma RunOutcomes(t: Table, defs: iset<Hashes>, legacy: map<string, string>, calls: seq<Call>, i: nat, h: seq<Obs>)
    requires Coherent(defs) && Rekeyable(legacy) && Safe(t, defs, legacy) && ValidCalls(calls, defs, legacy)
    requires i < |calls| && Alone(legacy, calls[i].serverId)
    requires Baseline(t, legacy, calls[i].serverId, calls[i].tool, h)
    ensures var r := Returned(t, legacy, calls, i);
            r.Some? && r.value.outcome == TimedOutcome(Before(h, calls, i), calls[i].hashes.v3)
  {
    var c := calls[i];
    RunTracks(t, defs, legacy, calls[..i], c.serverId, c.tool, h);
    PrefixSafe(t, defs, legacy, calls[..i]);
    TrackedCall(After(t, legacy, calls[..i]), defs, legacy, c, Before(h, calls, i));
  }

  /**
   Exactly when a recorded outcome is the promised one, for arbitrary times: the definition is
   as the previous one if and only if it is the latest. Increasing times are enough.
   */
  lemma PromiseKeptExactlyWhen(
    t: Table, defs: iset<Hashes>, legacy: map<string, string>, calls: seq<Call>, i: nat, h: seq<Obs>)
    requires Coherent(defs) && Rekeyable(legacy) && Safe(t, defs, legacy) && ValidCalls(calls, defs, legacy)
    requires i < |calls| && Alone(legacy, calls[i].serverId)
    requires Baseline(t, legacy, calls[i].serverId, calls[i].tool, h)
    ensures var d := calls[i].hashes.v3;
            var b := Before(h, calls, i);
            var r := Returned(t, legacy, calls, i);
            && r.Some?
            && (r.value.outcome == PlainOutcome(b, d) <==> b == [] || (b[|b| - 1].def == d <==> Latest(b, d)))
            && (StrictlyIncreasing(b) ==> r.value.outcome == PlainOutcome(b, d))
  {
    var b := Before(h, calls, i);
    RunOutcomes(t, defs, legacy, calls, i, h);
    AgreesExactlyWhen(b, calls[i].hashes.v3);
    if StrictlyIncreasing(b) {
      StrictTimesArePlain(b, calls[i].hashes.v3);
    }
  }

  lemma EmptyBefore(calls: seq<Call>, i: nat)
    requires i < |calls|
    ensures Before([], calls, i) == Observed(calls[..i], calls[i].serverId, calls[i].tool)
  {
  }

  lemma ObservedNext(calls: seq<Call>, c: Call, key: string, tool: string)
    ensures Observed(calls + [c], key, tool)
            == Observed(calls, key, tool)
                + (if c.serverId == key && c.tool == tool then [Obs(c.hashes.v3, c.ts)] else [])
  {
    assert (calls + [c])[..|calls|] == calls;
  }

  // ---------------------------------------------------------------- servers that share rows

  ghost predicate TimedAt(legacy: map<string, string>, calls: seq<Call>, i: nat)
    requires i < |calls|
  {
    var r := Returned(Table([], 0), legacy, calls, i);
    r.Some? && r.value.outcome
        == TimedOutcome(Observed(calls[..i], calls[i].serverId, calls[i].tool), calls[i].hashes.v3)
  }

  /** Every outcome of this server in every run on a new table is the timed rule. */
  ghost predicate AlwaysTimed(defs: iset<Hashes>, legacy: map<string, string>, key: string) {
    forall calls: seq<Call>, i: int ::
      ValidCalls(calls, defs, legacy) && 0 <= i < |calls| && calls[i].serverId == key ==> TimedAt(legacy, calls, i)
  }

  /** Two servers that are each other's legacy key: the second finds the first one's row. */
  lemma MutualShare(legacy: map<string, string>, s: string, t: string, o: Hashes)
    requires s in legacy && t in legacy && s != t && legacy[s] == t
    ensures !TimedAt(legacy, [Call(1, t, "a", o, 1), Call(1, s, "a", o, 2)], 1)
  {
    var calls := [Call(1, t, "a", o, 1), Call(1, s, "a", o, 2)];
    var r := Row(0, 1, t, "a", o.v3, 3, 1, Some(1));
    var m := r.(serverKey := s);
    HistoryExact([], t, "a");
    HistoryExact([], legacy[t], "a");
    HistoryExact([r], s, "a");
    HistoryExact([r], t, "a");
    HistoryExact([m], s, "a");
    assert calls[..1] == [calls[0]] && calls[..1][..0] == [];
    assert [] + [r] == [r];
    assert After(Table([], 0), legacy, calls[..1]) == Table([r], 1);
    assert InScope([r][0], t, "a") && InScope([m][0], s, "a");
    assert Rekeyed([r], t, s) == [m];
    assert Observed(calls[..1], s, "a") == [];
  }

  /** Without collisions, a server's outcomes are its own exactly when no other server's legacy rows are its own. */
  lemma AlwaysTimedExactlyWhen(defs: iset<Hashes>, legacy: map<string, string>, key: string, o: Hashes)
    requires Coherent(defs) && Rekeyable(legacy) && key in legacy && o in defs
    ensures AlwaysTimed(defs, legacy, key) <==> Alone(legacy, key)
  {
    if Alone(legacy, key) {
      forall calls: seq<Call>, i: int | ValidCalls(calls, defs, legacy) && 0 <= i < |calls| && calls[i].serverId == key
        ensures TimedAt(legacy, calls, i)
      {
        NoRowsBaseline(Table([], 0), legacy, key, calls[i].tool);
        RunOutcomes(Table([], 0), defs, legacy, calls, i, []);
        EmptyBefore(calls, i);
      }
    } else {
      var t :| t in legacy && legacy[t] == key && t != key;
      MutualShare(legacy, key, t, o);
      assert ValidCalls([Call(1, t, "a", o, 1), Call(1, key, "a", o, 2)], defs, legacy);
    }
  }
}
