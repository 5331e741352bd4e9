/**
 The data lifecycle of the storage crate: deleting one session, every session that started
 before a cutoff, or the oldest sessions until the live data fits a target.

 Every statement deletes the rows of some set of sessions from one table, so the meaning of
 a whole operation is the set of sessions it deletes.
 */
module Prune {
  import opened Common
  import Fingerprints

  /**
   A row of any table but the fingerprints: the session it belongs to, its time and its
   other columns. In the sessions table `session` is the id and `at` the start time.
   */
  datatype Row = Row(session: int, at: int, columns: string)

  datatype Db = Db(
    sessions: seq<Row>, messages: seq<Row>, security: seq<Row>, injects: seq<Row>,
    fingerprints: seq<Fingerprints.Row>)

  /** Rows removed, or that would be removed, per table. */
  datatype Stats = Stats(sessions: nat, messages: nat, security: nat, injects: nat)

  function Plus(a: Stats, b: Stats): Stats {
    Stats(a.sessions + b.sessions, a.messages + b.messages, a.security + b.security, a.injects + b.injects)
  }

  /** The primary key of the sessions table. */
  predicate Valid(db: Db) {
    Distinct(db.sessions)
  }

  predicate Distinct(rows: seq<Row>) {
    forall i, j :: 0 <= i < j < |rows| ==> rows[i].session != rows[j].session
  }

  // ---------------------------------------------------------------- statements

  /** What DELETE FROM a table WHERE the session is in `dead` leaves. */
  function Kept(rows: seq<Row>, dead: set<int>): seq<Row> {
    if rows == [] then []
    else if rows[0].session in dead then Kept(rows[1..], dead)
    else [rows[0]] + Kept(rows[1..], dead)
  }

  /** SELECT COUNT(*) with the same condition. */
  function Count(rows: seq<Row>, dead: set<int>): nat {
    if rows == [] then 0 else (if rows[0].session in dead then 1 else 0) + Count(rows[1..], dead)
  }

  /** The rows of one session, in table order. */
  function RowsOf(rows: seq<Row>, session: int): seq<Row> {
    if rows == [] then []
    else if rows[0].session == session then [rows[0]] + RowsOf(rows[1..], session)
    else RowsOf(rows[1..], session)
  }

  /** SELECT id FROM sessions WHERE started_at_ms < cutoff. */
  function Before(sessions: seq<Row>, cutoff: int): set<int> {
    set s | s in sessions && s.at < cutoff :: s.session
  }

  function Ids(sessions: seq<Row>): set<int> {
    set s | s in sessions :: s.session
  }

  /** ORDER BY started_at_ms ASC, id ASC. */
  predicate Earlier(a: Row, b: Row) {
    a.at < b.at || (a.at == b.at && a.session < b.session)
  }

  predicate IsOldest(sessions: seq<Row>, o: Row) {
    o in sessions && forall s :: s in sessions ==> !Earlier(s, o)
  }

  // ---------------------------------------------------------------- meaning of an operation

  /** The database once the sessions of `dead` are gone. */
  function Purged(db: Db, dead: set<int>): Db {
    Db(Kept(db.sessions, dead), Kept(db.messages, dead), Kept(db.security, dead), Kept(db.injects, dead),
        db.fingerprints)
  }

  function Lost(db: Db, dead: set<int>): Stats {
    Stats(Count(db.sessions, dead), Count(db.messages, dead), Count(db.security, dead), Count(db.injects, dead))
  }

  function Sizes(db: Db): Stats {
    Stats(|db.sessions|, |db.messages|, |db.security|, |db.injects|)
  }

  /** A set of sessions no survivor started before. */
  ghost predicate IsPrefix(db: Db, dead: set<int>) {
    && dead <= Ids(db.sessions)
    && forall a, b :: a in db.sessions && b in db.sessions && b.session in dead && Earlier(a, b) ==> a.session in dead
  }

  /** No shorter prefix of the order would have reached the target. */
  ghost predicate NoneSooner(used: Db -> nat, db: Db, target: nat, dead: set<int>) {
    && IsPrefix(db, dead)
    && forall fewer :: fewer < dead && IsPrefix(db, fewer) ==> used(Purged(db, fewer)) > target
  }

  /** The sessions pruning to a size has to delete. */
  ghost predicate OldestUntil(used: Db -> nat, db: Db, target: nat, dead: set<int>) {
    && NoneSooner(used, db, target, dead)
    && (used(Purged(db, dead)) <= target || Purged(db, dead).sessions == [])
  }

  // ---------------------------------------------------------------- laws

  lemma {:induction false} KeptIn(rows: seq<Row>, dead: set<int>)
    ensures forall r :: r in Kept(rows, dead) <==> r in rows && r.session !in dead
    ensures |Kept(rows, dead)| + Count(rows, dead) == |rows|
  {
    if rows != [] {
      KeptIn(rows[1..], dead);
      assert forall r :: r in rows <==> r == rows[0] || r in rows[1..];
    }
  }

  lemma {:induction false} KeptTwice(rows: seq<Row>, a: set<int>, b: set<int>)
    ensures Kept(Kept(rows, a), b) == Kept(rows, a + b)
  {
    if rows != [] {
      KeptTwice(rows[1..], a, b);
      var rest := Kept(rows[1..], a);
      if rows[0].session !in a {
        assert ([rows[0]] + rest)[1..] == rest;
      }
    }
  }

  lemma {:induction false} KeptNone(rows: seq<Row>)
    ensures Kept(rows, {}) == rows && Count(rows, {}) == 0
  {
    if rows != [] {
      KeptNone(rows[1..]);
      assert rows == [rows[0]] + rows[1..];
    }
  }

  lemma {:induction false} RowsOfKept(rows: seq<Row>, dead: set<int>, session: int)
    ensures RowsOf(Kept(rows, dead), session) == if session in dead then [] else RowsOf(rows, session)
  {
    if rows != [] {
      RowsOfKept(rows[1..], dead, session);
      var rest := Kept(rows[1..], dead);
      if rows[0].session !in dead {
        assert ([rows[0]] + rest)[1..] == rest;
      }
    }
  }

  lemma {:induction false} KeptDistinct(rows: seq<Row>, dead: set<int>)
    requires Distinct(rows)
    ensures Distinct(Kept(rows, dead))
  {
    if rows != [] {
      KeptDistinct(rows[1..], dead);
      KeptIn(rows[1..], dead);
      var rest := Kept(rows[1..], dead);
      forall r | r in rest ensures r.session != rows[0].session {
        var i :| 0 <= i < |rows[1..]| && rows[1..][i] == r;
        assert rows[i + 1] == r;
      }
    }
  }

  lemma NothingPurged(db: Db)
    ensures Purged(db, {}) == db && Lost(db, {}) == Stats(0, 0, 0, 0)
    ensures IsPrefix(db, {})
  {
    KeptNone(db.sessions);
    KeptNone(db.messages);
    KeptNone(db.security);
    KeptNone(db.injects);
  }

  /** Two deletions in a row are one deletion. */
  lemma PurgedAgain(db: Db, a: set<int>, b: set<int>)
    ensures Purged(Purged(db, a), b) == Purged(db, a + b)
  {
    KeptTwice(db.sessions, a, b);
    KeptTwice(db.messages, a, b);
    KeptTwice(db.security, a, b);
    KeptTwice(db.injects, a, b);
  }

  /** Each table loses as many rows as are counted. */
  lemma LostIsMissing(db: Db, dead: set<int>)
    ensures Plus(Sizes(Purged(db, dead)), Lost(db, dead)) == Sizes(db)
  {
    KeptIn(db.sessions, dead);
    KeptIn(db.messages, dead);
    KeptIn(db.security, dead);
    KeptIn(db.injects, dead);
  }

  lemma PlusCancels(kept: Stats, middle: Stats, all: Stats, first: Stats, second: Stats, both: Stats)
    requires Plus(middle, first) == all && Plus(kept, second) == middle && Plus(kept, both) == all
    ensures Plus(first, second) == both
  {
  }

  /** The counts of two deletions in a row add up to those of the one deletion. */
  lemma LostAgain(db: Db, a: set<int>, b: set<int>)
    ensures Plus(Lost(db, a), Lost(Purged(db, a), b)) == Lost(db, a + b)
  {
    PurgedAgain(db, a, b);
    LostIsMissing(db, a);
    LostIsMissing(Purged(db, a), b);
    LostIsMissing(db, a + b);
    PlusCancels(Sizes(Purged(db, a + b)), Sizes(Purged(db, a)), Sizes(db), Lost(db, a), Lost(Purged(db, a), b),
        Lost(db, a + b));
  }

  lemma PurgedShrinks(db: Db, id: int)
    requires id in Ids(db.sessions)
    ensures |Purged(db, {id}).sessions| < |db.sessions|
  {
    KeptIn(db.sessions, {id});
    var s :| s in db.sessions && s.session == id;
    if Count(db.sessions, {id}) == 0 {
      KeptAll(db.sessions, {id});
    }
  }

  lemma {:induction false} KeptAll(rows: seq<Row>, dead: set<int>)
    requires Count(rows, dead) == 0
    ensures Kept(rows, dead) == rows
  {
    if rows != [] {
      KeptAll(rows[1..], dead);
      assert rows == [rows[0]] + rows[1..];
    }
  }

  lemma PurgedValid(db: Db, dead: set<int>)
    requires Valid(db)
    ensures Valid(Purged(db, dead))
  {
    KeptDistinct(db.sessions, dead);
  }

  lemma SameSession(db: Db, a: Row, b: Row)
    requires Valid(db) && a in db.sessions && b in db.sessions && a.session == b.session
    ensures a == b
  {
    var i :| 0 <= i < |db.sessions| && db.sessions[i] == a;
    var j :| 0 <= j < |db.sessions| && db.sessions[j] == b;
  }

  /** The oldest survivor extends the prefix already deleted to the next longer one. */
  lemma NextPrefix(db: Db, dead: set<int>, o: Row)
    requires Valid(db) && IsPrefix(db, dead) && IsOldest(Purged(db, dead).sessions, o)
    ensures IsPrefix(db, dead + {o.session}) && o.session !in dead
    ensures forall fewer :: fewer < dead + {o.session} && IsPrefix(db, fewer) ==> fewer <= dead
  {
    KeptIn(db.sessions, dead);
    forall a, b | a in db.sessions && b in db.sessions && b.session in dead + {o.session} && Earlier(a, b)
      ensures a.session in dead + {o.session}
    {
      if b.session == o.session {
        SameSession(db, b, o);
      }
    }
    forall fewer | fewer < dead + {o.session} && IsPrefix(db, fewer)
      ensures fewer <= dead
    {
      forall id | o.session in fewer && id in dead ensures id in fewer {
        var d :| d in db.sessions && d.session == id;
        assert Earlier(d, o) || Earlier(o, d);
      }
    }
  }

  /** One more round of the loop. */
  lemma OneSooner(used: Db -> nat, db: Db, target: nat, dead: set<int>, id: int)
    requires Valid(db) && NoneSooner(used, db, target, dead) && used(Purged(db, dead)) > target
    requires exists o :: IsOldest(Purged(db, dead).sessions, o) && o.session == id
    ensures NoneSooner(used, db, target, dead + {id})
    ensures id !in dead && id in Ids(Purged(db, dead).sessions)
  {
    var o :| IsOldest(Purged(db, dead).sessions, o) && o.session == id;
    NextPrefix(db, dead, o);
    forall fewer | fewer < dead + {id} && IsPrefix(db, fewer)
      ensures used(Purged(db, fewer)) > target
    {
      assert fewer == dead || fewer < dead;
    }
  }

  /** Of two prefixes of the order one contains the other. */
  lemma PrefixesNest(db: Db, a: set<int>, b: set<int>)
    requires Valid(db) && IsPrefix(db, a) && IsPrefix(db, b)
    ensures a <= b || b <= a
  {
    if x :| x in a && x !in b {
      forall id | id in b ensures id in a {
        var s :| s in db.sessions && s.session == x;
        var t :| t in db.sessions && t.session == id;
        assert Earlier(s, t) || Earlier(t, s);
      }
    }
  }

  /** Pruning to a size has exactly one possible result. */
  lemma OldestUntilUnique(used: Db -> nat, db: Db, target: nat, a: set<int>, b: set<int>)
    requires Valid(db) && OldestUntil(used, db, target, a) && OldestUntil(used, db, target, b)
    ensures a == b
  {
    PrefixesNest(db, a, b);
    if a < b {
      ProperPrefixLeavesSome(db, a, b);
      assert false;
    } else if b < a {
      ProperPrefixLeavesSome(db, b, a);
      assert false;
    }
  }

  /**
   Who has to go before whom: of a deleted session and a survivor the deleted one started earlier,
   or then with a lower id.
   */
  lemma OldestGoFirst(used: Db -> nat, db: Db, target: nat, dead: set<int>, gone: Row, left: Row)
    requires Valid(db) && OldestUntil(used, db, target, dead)
    requires gone in db.sessions && gone.session in dead && left in Purged(db, dead).sessions
    ensures gone.at < left.at || (gone.at == left.at && gone.session < left.session)
  {
    KeptIn(db.sessions, dead);
    assert left in db.sessions && left.session !in dead;
    assert !Earlier(left, gone);
  }

  lemma ProperPrefixLeavesSome(db: Db, a: set<int>, b: set<int>)
    requires a < b && IsPrefix(db, b)
    ensures Purged(db, a).sessions != []
  {
    KeptIn(db.sessions, a);
    var id :| id in b && id !in a;
    var s :| s in db.sessions && s.session == id;
    assert s in Purged(db, a).sessions;
  }

  /**
   Whatever set of sessions an operation deletes: each table loses exactly the rows of those
   sessions, as many as reported, every other session keeps all its rows in order, and the
   fingerprints stay.
   */
  lemma SurvivorsKeepTheirRows(db: Db, dead: set<int>, session: int)
    ensures var after := Purged(db, dead);
      && after.fingerprints == db.fingerprints
      && RowsOf(after.sessions, session) == (if session in dead then [] else RowsOf(db.sessions, session))
      && RowsOf(after.messages, session) == (if session in dead then [] else RowsOf(db.messages, session))
      && RowsOf(after.security, session) == (if session in dead then [] else RowsOf(db.security, session))
      && RowsOf(after.injects, session) == (if session in dead then [] else RowsOf(db.injects, session))
      && Plus(Sizes(after), Lost(db, dead)) == Sizes(db)
  {
    RowsOfKept(db.sessions, dead, session);
    RowsOfKept(db.messages, dead, session);
    RowsOfKept(db.security, dead, session);
    RowsOfKept(db.injects, dead, session);
    LostIsMissing(db, dead);
  }

  /** Age pruning deletes a prefix of the order too, and leaves exactly the sessions from the cutoff on. */
  lemma AgePrunesAPrefix(db: Db, cutoff: int)
    requires Valid(db)
    ensures IsPrefix(db, Before(db.sessions, cutoff))
    ensures forall s :: s in Purged(db, Before(db.sessions, cutoff)).sessions <==> s in db.sessions && s.at >= cutoff
  {
    var dead := Before(db.sessions, cutoff);
    KeptIn(db.sessions, dead);
    forall s | s in db.sessions && s.session in dead ensures s.at < cutoff {
      var t :| t in db.sessions && t.at < cutoff && t.session == s.session;
      SameSession(db, s, t);
    }
  }

  // ---------------------------------------------------------------- the store object

  class Store {
    var db: Db

    /** Children first, then the session. */
    method DeleteSessionRows(id: int) returns (stats: Stats)
      modifies this
      ensures db == Purged(old(db), {id}) && stats == Lost(old(db), {id})
    {
      var messages := Count(db.messages, {id});
      db := db.(messages := Kept(db.messages, {id}));
      var security := Count(db.security, {id});
      db := db.(security := Kept(db.security, {id}));
      var injects := Count(db.injects, {id});
      db := db.(injects := Kept(db.injects, {id}));
      var sessions := Count(db.sessions, {id});
      db := db.(sessions := Kept(db.sessions, {id}));
      return Stats(sessions, messages, security, injects);
    }

    method DeleteSession(id: int) returns (r: Option<Stats>)
      modifies this
      ensures if id in Ids(old(db.sessions)) then r == Some(Lost(old(db), {id})) && db == Purged(old(db), {id})
              else r == None && db == old(db)
    {
      if !exists s :: s in db.sessions && s.session == id {
        return None;
      }
      var stats := DeleteSessionRows(id);
      return Some(stats);
    }

    method PruneSessionsBefore(cutoff: int) returns (stats: Stats)
      modifies this
      ensures db == Purged(old(db), Before(old(db.sessions), cutoff))
      ensures stats == Lost(old(db), Before(old(db.sessions), cutoff))
    {
      var messages := Count(db.messages, Before(db.sessions, cutoff));
      db := db.(messages := Kept(db.messages, Before(db.sessions, cutoff)));
      var security := Count(db.security, Before(db.sessions, cutoff));
      db := db.(security := Kept(db.security, Before(db.sessions, cutoff)));
      var injects := Count(db.injects, Before(db.sessions, cutoff));
      db := db.(injects := Kept(db.injects, Before(db.sessions, cutoff)));
      var sessions := Count(db.sessions, Before(db.sessions, cutoff));
      db := db.(sessions := Kept(db.sessions, Before(db.sessions, cutoff)));
      return Stats(sessions, messages, security, injects);
    }

    /** The dry run, which deletes nothing, reports what the real run does. */
    method PreviewSessionsBefore(cutoff: int) returns (stats: Stats)
      ensures stats == Lost(db, Before(db.sessions, cutoff))
    {
      var dead := Before(db.sessions, cutoff);
      return Stats(Count(db.sessions, dead), Count(db.messages, dead), Count(db.security, dead),
          Count(db.injects, dead));
    }

    method OldestSession() returns (r: Option<int>)
      ensures r.None? <==> db.sessions == []
      ensures r.Some? ==> exists o :: IsOldest(db.sessions, o) && o.session == r.value
    {
      if db.sessions == [] {
        return None;
      }
      var first := db.sessions[0];
      var i := 1;
      while i < |db.sessions|
        invariant 1 <= i <= |db.sessions|
        invariant IsOldest(db.sessions[..i], first)
      {
        if Earlier(db.sessions[i], first) {
          first := db.sessions[i];
        }
        i := i + 1;
        assert db.sessions[..i] == db.sessions[..i - 1] + [db.sessions[i - 1]];
      }
      assert db.sessions[..i] == db.sessions;
      return Some(first.session);
    }

    /** Oldest first, one session at a time, until the live data fits. */
    method PruneToMaxSize(used: Db -> nat, target: nat) returns (acc: Stats)
      requires Valid(db)
      modifies this
      ensures exists dead :: OldestUntil(used, old(db), target, dead)
                             && db == Purged(old(db), dead) && acc == Lost(old(db), dead)
    {
      acc := Stats(0, 0, 0, 0);
      ghost var start, dead := db, {};
      NothingPurged(db);
      while used(db) > target
        invariant Valid(db) && Valid(start)
        invariant start == old(db) && db == Purged(start, dead) && acc == Lost(start, dead)
        invariant NoneSooner(used, start, target, dead)
        decreases |db.sessions|
      {
        var oldest := OldestSession();
        if oldest.None? {
          break;
        }
        OneSooner(used, start, target, dead, oldest.value);
        PurgedAgain(start, dead, {oldest.value});
        LostAgain(start, dead, {oldest.value});
        PurgedShrinks(db, oldest.value);
        PurgedValid(db, {oldest.value});
        var s := DeleteSession(oldest.value);
        if s.None? {
          break;
        }
        acc := Plus(acc, s.value);
        dead := dead + {oldest.value};
      }
    }
  }
}
