/**
 Lazy re-keying refines eager re-keying: for one server over one legacy key,
 every outcome of every run is what it would have been had all the legacy rows been
 stored under the structured key from the start.
 */
module FingerprintRekey {
  import opened Common
  import opened Fingerprints
  import opened FingerprintSafety

  /** The table as it would be with every legacy row already moved. */
  function Eager(t: Table, from: string, to: string): Table {
    t.(rows := Rekeyed(t.rows, from, to))
  }

  function Move(r: Row, from: string, to: string): Row {
    if r.serverKey == from then r.(serverKey := to) else r
  }

  lemma {:induction false} ScopeMoved(rows: seq<Row>, from: string, to: string, tool: string)
    requires from != to && !HasRows(rows, from, tool)
    ensures Scope(Rekeyed(rows, from, to), to, tool) == Scope(rows, to, tool)
  {
    if rows != [] {
      assert InScope(rows[0], from, tool) ==> HasRows(rows, from, tool);
      forall i | 0 <= i < |rows[1..]|
        ensures !InScope(rows[1..][i], from, tool)
      {
        assert rows[1..][i] == rows[i + 1];
      }
      ScopeMoved(rows[1..], from, to, tool);
      assert Rekeyed(rows, from, to)[1..] == Rekeyed(rows[1..], from, to);
    }
  }

  /** Rewriting a row by id commutes with moving rows between keys. */
  lemma TouchMoved(rows: seq<Row>, from: string, to: string, id: nat, version: int, v3: string, ts: int)
    ensures Rekeyed(Touched(rows, id, version, v3, ts), from, to)
            == Touched(Rekeyed(rows, from, to), id, version, v3, ts)
  {
  }

  lemma InsertMoved(rows: seq<Row>, r: Row, from: string, to: string)
    requires r.serverKey != from
    ensures Rekeyed(rows + [r], from, to) == Rekeyed(rows, from, to) + [r]
  {
  }

  lemma ClassifySucceeds(
    t: Table, defs: iset<Hashes>, legacy: map<string, string>, session: int, s: string, tool: string, o: Hashes,
    ts: int)
    requires Coherent(defs) && Rekeyable(legacy) && Safe(t, defs, legacy) && o in defs
    requires s in legacy && legacy[s] != s && !HasRows(t.rows, legacy[s], tool)
    ensures Classify(t, History(t.rows, s, tool), session, s, tool, o, ts).Some?
  {
    ClassifySafe(t, defs, legacy, session, s, tool, o, ts);
  }

  /** On one history, classifying against either table gives one outcome and keeps them in step. */
  lemma ClassifyMoved(t: Table, h: seq<Row>, from: string, session: int, s: string, tool: string, o: Hashes, ts: int)
    requires from != s
    requires Classify(t, h, session, s, tool, o, ts).Some?
    requires Classify(Eager(t, from, s), h, session, s, tool, o, ts).Some?
    ensures var lazy := Classify(t, h, session, s, tool, o, ts).value;
            var eager := Classify(Eager(t, from, s), h, session, s, tool, o, ts).value;
            lazy.outcome == eager.outcome && eager.table == Eager(lazy.table, from, s)
  {
    var k := FirstMatch(h, o);
    if h != [] && k < |h| {
      TouchMoved(t.rows, from, s, h[k].id, h[k].version, o.v3, ts);
    } else {
      InsertMoved(t.rows, FreshRow(t, session, s, tool, o, ts), from, s);
    }
  }

  lemma RekeyedTwice(rows: seq<Row>, from: string, to: string)
    requires from != to
    ensures Rekeyed(Rekeyed(rows, from, to), from, to) == Rekeyed(rows, from, to)
    ensures forall tool :: !HasRows(Rekeyed(rows, from, to), from, tool)
  {
  }

  /** One call: same outcome, and the two tables stay in step. */
  lemma StepMoved(t: Table, defs: iset<Hashes>, legacy: map<string, string>, c: Call)
    requires Coherent(defs) && Rekeyable(legacy) && Safe(t, defs, legacy)
    requires c.serverId in legacy && legacy[c.serverId] != c.serverId && c.hashes in defs
    ensures var s := c.serverId;
            var lazy, eager := Step(t, legacy, c), Step(Eager(t, legacy[s], s), legacy, c);
            && lazy.Some? && eager.Some?
            && lazy.value.outcome == eager.value.outcome
            && eager.value.table == Eager(lazy.value.table, legacy[s], s)
  {
    var s, from := c.serverId, legacy[c.serverId];
    var e := Eager(t, from, s);
    RekeySafe(t, defs, legacy, s);
    RekeyedTwice(t.rows, from, s);
    MigratedSafe(t, defs, legacy, s, c.tool);
    HistoryExact(e.rows, from, c.tool);
    var m := Migrated(t, s, from, c.tool).value;
    assert Migrated(e, s, from, c.tool) == Some(e);
    assert Eager(m, from, s) == e;
    ScopeMoved(m.rows, from, s, c.tool);
    ClassifySucceeds(m, defs, legacy, c.session, s, c.tool, c.hashes, c.ts);
    ClassifySucceeds(e, defs, legacy, c.session, s, c.tool, c.hashes, c.ts);
    ClassifyMoved(m, History(m.rows, s, c.tool), from, c.session, s, c.tool, c.hashes, c.ts);
  }

  lemma {:induction false} AfterMoved(
    t: Table, defs: iset<Hashes>, legacy: map<string, string>, calls: seq<Call>, s: string)
    requires Coherent(defs) && Rekeyable(legacy) && Safe(t, defs, legacy) && ValidCalls(calls, defs, legacy)
    requires s in legacy && legacy[s] != s && forall i :: 0 <= i < |calls| ==> calls[i].serverId == s
    ensures After(Eager(t, legacy[s], s), legacy, calls) == Eager(After(t, legacy, calls), legacy[s], s)
  {
    if calls != [] {
      var n := |calls| - 1;
      AfterMoved(t, defs, legacy, calls[..n], s);
      PrefixSafe(t, defs, legacy, calls[..n]);
      StepMoved(After(t, legacy, calls[..n]), defs, legacy, calls[n]);
    }
  }

  /**
   Every outcome of every run is the eager one, and the two tables differ only in which
   key the still unmoved rows carry: same length, same ids, same order.
   */
  lemma LazyRekeyRefines(t: Table, defs: iset<Hashes>, legacy: map<string, string>, calls: seq<Call>, s: string)
    requires Coherent(defs) && Rekeyable(legacy) && Safe(t, defs, legacy) && ValidCalls(calls, defs, legacy)
    requires s in legacy && legacy[s] != s && forall i :: 0 <= i < |calls| ==> calls[i].serverId == s
    ensures forall i :: 0 <= i < |calls| ==>
              var lazy := Returned(t, legacy, calls, i);
              var eager := Returned(Eager(t, legacy[s], s), legacy, calls, i);
              lazy.Some? && eager.Some? && lazy.value.outcome == eager.value.outcome
    ensures var lazy, eager := After(t, legacy, calls).rows, After(Eager(t, legacy[s], s), legacy, calls).rows;
            |lazy| == |eager| && forall i :: 0 <= i < |lazy| ==> eager[i] == Move(lazy[i], legacy[s], s)
  {
    forall i | 0 <= i < |calls|
      ensures var lazy := Returned(t, legacy, calls, i);
              var eager := Returned(Eager(t, legacy[s], s), legacy, calls, i);
              lazy.Some? && eager.Some? && lazy.value.outcome == eager.value.outcome
    {
      AfterMoved(t, defs, legacy, calls[..i], s);
      PrefixSafe(t, defs, legacy, calls[..i]);
      StepMoved(After(t, legacy, calls[..i]), defs, legacy, calls[i]);
    }
    AfterMoved(t, defs, legacy, calls, s);
  }
}
