/**
 The stdout both pumps share. A pump takes the lock, writes one unit in as many pieces as
 the operating system likes, and releases the lock; the pumps interleave freely otherwise.
 */
module Stdout {
  import opened Common
  import opened Sequences
  import opened Lines
  import opened FramingLaws

  datatype Who = Server | Client

  /** One unit written under the lock, and by which pump. */
  datatype Entry = Entry(who: Who, unit: Bytes)

  /**
   `queue` holds what each pump has yet to write; `left` is the rest of the unit whose
   writer holds the lock; `log` lists the units written out in full.
   */
  datatype State = State(out: Bytes, holder: Option<Entry>, left: Bytes, queue: map<Who, seq<Bytes>>, log: seq<Entry>)

  predicate Started(s: State, server: seq<Bytes>, client: seq<Bytes>) {
    s == State([], None, [], map[Server := server, Client := client], [])
  }

  predicate Acquire(s: State, t: State, who: Who) {
    && s.holder.None? && who in s.queue && s.queue[who] != []
    && t == s.(holder := Some(Entry(who, s.queue[who][0])), left := s.queue[who][0],
        queue := s.queue[who := s.queue[who][1..]])
  }

  /** Any non-empty piece of what is left. */
  predicate Write(s: State, t: State, n: nat) {
    && s.holder.Some? && 0 < n <= |s.left|
    && t == s.(out := s.out + s.left[..n], left := s.left[n..])
  }

  predicate Release(s: State, t: State) {
    && s.holder.Some? && s.left == []
    && t == s.(holder := None, log := s.log + [s.holder.value])
  }

  ghost predicate Step(s: State, t: State) {
    || (exists who :: Acquire(s, t, who))
    || (exists n :: Write(s, t, n))
    || Release(s, t)
  }

  /** Every state of the run follows from the one before it. */
  ghost predicate IsRun(run: seq<State>, server: seq<Bytes>, client: seq<Bytes>) {
    && run != [] && Started(run[0], server, client)
    && forall i :: 0 <= i < |run| - 1 ==> Step(run[i], run[i + 1])
  }

  // ---------------------------------------------------------------- the invariant

  function Written(log: seq<Entry>): Bytes {
    if log == [] then [] else Written(log[..|log| - 1]) + log[|log| - 1].unit
  }

  /** The units of one pump, in the order they were written. */
  function By(who: Who, log: seq<Entry>): seq<Bytes> {
    if log == [] then []
    else By(who, log[..|log| - 1]) + (if log[|log| - 1].who == who then [log[|log| - 1].unit] else [])
  }

  function Held(s: State, who: Who): seq<Bytes> {
    if s.holder.Some? && s.holder.value.who == who then [s.holder.value.unit] else []
  }

  ghost predicate Accounted(s: State, who: Who, all: seq<Bytes>) {
    who in s.queue && By(who, s.log) + Held(s, who) + s.queue[who] == all
  }

  ghost predicate Inv(s: State, server: seq<Bytes>, client: seq<Bytes>) {
    && Accounted(s, Server, server) && Accounted(s, Client, client)
    && (s.holder.None? ==> s.out == Written(s.log))
    && (s.holder.Some? ==> s.out + s.left == Written(s.log) + s.holder.value.unit)
  }

  lemma LogNext(log: seq<Entry>, e: Entry)
    ensures Written(log + [e]) == Written(log) + e.unit
    ensures forall who :: By(who, log + [e]) == By(who, log) + (if e.who == who then [e.unit] else [])
  {
    assert (log + [e])[..|log|] == log;
  }

  lemma AcquireAccounts(s: State, t: State, taker: Who, who: Who, all: seq<Bytes>)
    requires Acquire(s, t, taker) && Accounted(s, who, all)
    ensures Accounted(t, who, all)
  {
    if who == taker {
      var q := s.queue[who];
      assert q == [q[0]] + q[1..];
      EmptyAppend(By(who, s.log));
      AppendAssociates(By(who, s.log), [q[0]], q[1..]);
    }
  }

  lemma ReleaseAccounts(s: State, t: State, who: Who, all: seq<Bytes>)
    requires Release(s, t) && Accounted(s, who, all)
    ensures Accounted(t, who, all)
  {
    LogNext(s.log, s.holder.value);
    EmptyAppend(By(who, t.log));
  }

  lemma StepInv(s: State, t: State, server: seq<Bytes>, client: seq<Bytes>)
    requires Inv(s, server, client) && Step(s, t)
    ensures Inv(t, server, client)
  {
    if who :| Acquire(s, t, who) {
      AcquireAccounts(s, t, who, Server, server);
      AcquireAccounts(s, t, who, Client, client);
    } else if n: nat :| Write(s, t, n) {
      assert s.left == s.left[..n] + s.left[n..];
      AppendAssociates(s.out, s.left[..n], s.left[n..]);
    } else {
      ReleaseAccounts(s, t, Server, server);
      ReleaseAccounts(s, t, Client, client);
      LogNext(s.log, s.holder.value);
      EmptyAppend(s.out);
    }
  }

  lemma {:induction false} RunInv(run: seq<State>, server: seq<Bytes>, client: seq<Bytes>, i: nat)
    requires IsRun(run, server, client) && i < |run|
    ensures Inv(run[i], server, client)
  {
    if i == 0 {
      EmptyAppend(server);
      EmptyAppend(client);
    } else {
      RunInv(run, server, client, i - 1);
      assert Step(run[i - 1], run[i - 1 + 1]);
      StepInv(run[i - 1], run[i], server, client);
    }
  }

  // ---------------------------------------------------------------- whole lines

  predicate IsLine(unit: Bytes) {
    unit != [] && unit[|unit| - 1] == LF && NoLf(unit[..|unit| - 1])
  }

  predicate AllLines(units: seq<Bytes>) {
    forall i :: 0 <= i < |units| ==> IsLine(units[i])
  }

  /** A line without its newline. */
  function Body(unit: Bytes): Bytes {
    if unit == [] then [] else unit[..|unit| - 1]
  }

  function Bodies(log: seq<Entry>): seq<Bytes> {
    seq(|log|, i requires 0 <= i < |log| => Body(log[i].unit))
  }

  lemma {:induction false} ByMembers(log: seq<Entry>, i: nat)
    requires i < |log|
    ensures log[i].unit in By(log[i].who, log)
  {
    var n := |log| - 1;
    if i < n {
      ByMembers(log[..n], i);
      assert log[..n][i] == log[i];
    }
  }

  lemma OneLine(unit: Bytes)
    requires IsLine(unit)
    ensures LinesOf(unit) == [Body(unit)] && TailOf(unit) == []
  {
    assert unit == Body(unit) + [LF] + [];
    LineFirst(Body(unit), []);
    NoLines([]);
  }

  lemma BodiesLast(log: seq<Entry>)
    requires log != []
    ensures Bodies(log) == Bodies(log[..|log| - 1]) + [Body(log[|log| - 1].unit)]
  {
  }

  lemma {:induction false} WrittenLines(log: seq<Entry>)
    requires forall i :: 0 <= i < |log| ==> IsLine(log[i].unit)
    ensures LinesOf(Written(log)) == Bodies(log) && TailOf(Written(log)) == []
  {
    if log == [] {
      NoLines([]);
    } else {
      var n := |log| - 1;
      var u := log[n].unit;
      WrittenLines(log[..n]);
      LinesAppend(Written(log[..n]), u);
      EmptyAppend(u);
      OneLine(u);
      BodiesLast(log);
    }
  }

  lemma UnitIsLine(log: seq<Entry>, k: nat, all: seq<Bytes>)
    requires k < |log| && By(log[k].who, log) <= all && AllLines(all)
    ensures IsLine(log[k].unit)
  {
    ByMembers(log, k);
    var part := By(log[k].who, log);
    var j :| 0 <= j < |part| && part[j] == log[k].unit;
    assert all[j] == part[j];
  }

  /** Stdout is whole lines: the units written so far. */
  predicate WholeLines(s: State) {
    LinesOf(s.out) == Bodies(s.log) && TailOf(s.out) == []
  }

  /**
   In every interleaving, whenever the lock is free stdout is a sequence of whole lines;
   those lines are the units written so far, and each pump's are the first of its own, in
   its own order.
   */
  lemma FrameAtomic(run: seq<State>, server: seq<Bytes>, client: seq<Bytes>, i: nat)
    requires IsRun(run, server, client) && i < |run| && run[i].holder.None?
    requires AllLines(server) && AllLines(client)
    ensures WholeLines(run[i])
    ensures By(Server, run[i].log) <= server && By(Client, run[i].log) <= client
  {
    var s := run[i];
    WrittenFirst(run, server, client, i);
    RunInv(run, server, client, i);
    forall k | 0 <= k < |s.log|
      ensures IsLine(s.log[k].unit)
    {
      UnitIsLine(s.log, k, if s.log[k].who == Server then server else client);
    }
    WrittenLines(s.log);
  }

  /** Each pump's units on stdout are the first of its own, in order, whatever they are. */
  lemma WrittenFirst(run: seq<State>, server: seq<Bytes>, client: seq<Bytes>, i: nat)
    requires IsRun(run, server, client) && i < |run| && run[i].holder.None?
    ensures By(Server, run[i].log) <= server && By(Client, run[i].log) <= client
  {
    RunInv(run, server, client, i);
    EmptyAppend(By(Server, run[i].log));
    EmptyAppend(By(Client, run[i].log));
  }

  /** When both pumps are done, stdout is an order-preserving merge of all their lines. */
  lemma FinallyMerged(run: seq<State>, server: seq<Bytes>, client: seq<Bytes>, i: nat)
    requires IsRun(run, server, client) && i < |run| && run[i].holder.None?
    requires run[i].queue == map[Server := [], Client := []]
    ensures run[i].out == Written(run[i].log)
    ensures By(Server, run[i].log) == server && By(Client, run[i].log) == client
  {
    var s := run[i];
    RunInv(run, server, client, i);
    assert s.queue[Server] == [] && s.queue[Client] == [];
    EmptyAppend(By(Server, s.log));
    EmptyAppend(By(Client, s.log));
  }

  // ---------------------------------------------------------------- when it is atomic

  function Units(who: Who, server: seq<Bytes>, client: seq<Bytes>): seq<Bytes> {
    if who == Server then server else client
  }

  /** The log when one pump has written its first n units and the other nothing. */
  function LogOf(who: Who, units: seq<Bytes>, n: nat): seq<Entry>
    requires n <= |units|
  {
    seq(n, i requires 0 <= i < n => Entry(who, units[i]))
  }

  /** One pump has written its first n units, alone. */
  function Drained(who: Who, server: seq<Bytes>, client: seq<Bytes>, n: nat): State
    requires n <= |Units(who, server, client)|
  {
    var units := Units(who, server, client);
    State(Flatten(units[..n]), None, [], map[Server := server, Client := client][who := units[n..]],
        LogOf(who, units, n))
  }

  lemma RunNext(run: seq<State>, server: seq<Bytes>, client: seq<Bytes>, t: State)
    requires IsRun(run, server, client) && Step(run[|run| - 1], t)
    ensures IsRun(run + [t], server, client)
  {
    var more := run + [t];
    forall i | 0 <= i < |more| - 1
      ensures Step(more[i], more[i + 1])
    {
      assert more[i] == run[i];
    }
  }

  lemma FlattenNext(units: seq<Bytes>, n: nat)
    requires n < |units|
    ensures Flatten(units[..n + 1]) == Flatten(units[..n]) + units[n]
  {
    assert units[..n + 1] == units[..n] + [units[n]];
    FlattenAppend(units[..n], [units[n]]);
    FlattenOne(units[n]);
  }

  /** Taking the lock, writing a unit at once if there is anything to write, and releasing the lock. */
  lemma DrainOne(who: Who, server: seq<Bytes>, client: seq<Bytes>, n: nat, run: seq<State>) returns (more: seq<State>)
    requires n < |Units(who, server, client)|
    requires IsRun(run, server, client) && run[|run| - 1] == Drained(who, server, client, n)
    ensures IsRun(more, server, client) && more[|more| - 1] == Drained(who, server, client, n + 1)
  {
    var units := Units(who, server, client);
    var s, u := run[|run| - 1], units[n];
    var taken := s.(holder := Some(Entry(who, u)), left := u, queue := s.queue[who := units[n + 1..]]);
    var written := taken.(out := s.out + u, left := []);
    assert units[n..][0] == u && units[n..][1..] == units[n + 1..];
    assert Acquire(s, taken, who);
    RunNext(run, server, client, taken);
    more := run + [taken];
    EmptyAppend(s.out);
    if u != [] {
      assert u[..|u|] == u && u[|u|..] == [];
      assert Write(taken, written, |u|);
      RunNext(more, server, client, written);
      more := more + [written];
    }
    var t := written.(holder := None, log := s.log + [Entry(who, u)]);
    assert Release(written, t);
    RunNext(more, server, client, t);
    more := more + [t];
    FlattenNext(units, n);
    assert LogOf(who, units, n + 1) == LogOf(who, units, n) + [Entry(who, u)];
    assert t.queue == map[Server := server, Client := client][who := units[n + 1..]];
  }

  lemma {:induction false} Drain(who: Who, server: seq<Bytes>, client: seq<Bytes>, n: nat) returns (run: seq<State>)
    requires n <= |Units(who, server, client)|
    ensures IsRun(run, server, client) && run[|run| - 1] == Drained(who, server, client, n)
  {
    if n == 0 {
      var q := map[Server := server, Client := client];
      var units := Units(who, server, client);
      assert units[0..] == units && q[who := units] == q;
      run := [Drained(who, server, client, 0)];
    } else {
      var before := Drain(who, server, client, n - 1);
      run := DrainOne(who, server, client, n - 1, before);
    }
  }

  /** In every interleaving stdout is whole lines whenever the lock is free. */
  ghost predicate AlwaysWhole(server: seq<Bytes>, client: seq<Bytes>) {
    forall run: seq<State>, i: int :: IsRun(run, server, client) && 0 <= i < |run| && run[i].holder.None? ==>
        WholeLines(run[i])
  }

  /** A unit that turns whole lines into whole lines is a line. */
  lemma UnitWasLine(out: Bytes, log: seq<Entry>, e: Entry)
    requires TailOf(out) == [] && LinesOf(out) == Bodies(log)
    requires TailOf(out + e.unit) == [] && LinesOf(out + e.unit) == Bodies(log + [e])
    ensures IsLine(e.unit)
  {
    LinesAppend(out, e.unit);
    EmptyAppend(e.unit);
    BodiesLast(log + [e]);
    assert (log + [e])[..|log|] == log;
    AppendCancels(LinesOf(out), LinesOf(e.unit), [Body(e.unit)]);
    OnlyLine(e.unit);
  }

  lemma OnlyLine(u: Bytes)
    requires LinesOf(u) == [Body(u)] && TailOf(u) == []
    ensures IsLine(u)
  {
    LinesAndTail(u);
    LinesHaveNoLf(u);
    assert LinesOf(u)[0] == Body(u);
    EmptyAppend(u);
    UnlinesOne(Body(u));
  }

  lemma UnlinesOne(l: Bytes)
    ensures Unlines([l]) == l + [LF] && Unlines([l]) + [] == l + [LF]
  {
  }

  lemma DrainedLines(who: Who, server: seq<Bytes>, client: seq<Bytes>, n: nat)
    requires AlwaysWhole(server, client) && n < |Units(who, server, client)|
    ensures IsLine(Units(who, server, client)[n])
  {
    var units := Units(who, server, client);
    var a := Drain(who, server, client, n);
    var b := Drain(who, server, client, n + 1);
    assert WholeLines(a[|a| - 1]) && WholeLines(b[|b| - 1]);
    FlattenNext(units, n);
    assert LogOf(who, units, n + 1) == LogOf(who, units, n) + [Entry(who, units[n])];
    UnitWasLine(Flatten(units[..n]), LogOf(who, units, n), Entry(who, units[n]));
  }

  /** Exactly when no interleaving ever leaves stdout within a line: every unit of both pumps is a line. */
  lemma AlwaysWholeExactlyWhen(server: seq<Bytes>, client: seq<Bytes>)
    ensures AlwaysWhole(server, client) <==> AllLines(server) && AllLines(client)
  {
    if AllLines(server) && AllLines(client) {
      forall run: seq<State>, i: int | IsRun(run, server, client) && 0 <= i < |run| && run[i].holder.None?
        ensures WholeLines(run[i])
      {
        FrameAtomic(run, server, client, i);
      }
    }
    if AlwaysWhole(server, client) {
      forall n | 0 <= n < |server| ensures IsLine(server[n]) {
        DrainedLines(Server, server, client, n);
      }
      forall n | 0 <= n < |client| ensures IsLine(client[n]) {
        DrainedLines(Client, server, client, n);
      }
    }
  }
}
