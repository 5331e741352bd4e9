/**
 Rug-pull detection from end to end: the tool definitions of the tools/list responses a
 server gives, hashed, recorded and compared.
 */
module RugPull {
  import opened Common
  import opened Json
  import opened Sequences
  import opened Fingerprints
  import opened FingerprintSafety
  import opened FingerprintHistory
  import opened ToolHashes

  /** A tool definition of one response: the server, the session and the time of the response. */
  datatype Sighting = Sighting(session: int, serverId: string, name: string, tool: Json, ts: int)

  /** The event a changed or reverted definition raises. */
  datatype Flag = Flag(tool: string, ts: int, outcome: Outcome)

  // ---------------------------------------------------------------- reading a response

  /** `result.tools` of a response, if it is an array. */
  function ToolsIn(response: Json): seq<Json> {
    var result := Get(response, "result");
    if result.None? then []
    else
      var tools := Get(result.value, "tools");
      if tools.Some? && tools.value.Array? then tools.value.items else []
  }

  /** A tool without a name is skipped. */
  function SightingOf(session: int, serverId: string, tool: Json, ts: int): seq<Sighting> {
    var name := GetStr(tool, "name");
    if name.Some? then [Sighting(session, serverId, name.value, tool, ts)] else []
  }

  /** The tools of one response, in order, all sighted at the time of the response. */
  function SightingsIn(session: int, serverId: string, tools: seq<Json>, ts: int): seq<Sighting> {
    if tools == [] then []
    else
      var n := |tools| - 1;
      SightingsIn(session, serverId, tools[..n], ts) + SightingOf(session, serverId, tools[n], ts)
  }

  function Caller(hash: string -> string): Sighting -> Call {
    (s: Sighting) => Call(s.session, s.serverId, s.name, Versions(hash, s.tool), s.ts)
  }

  /** What is recorded for a run of sightings. */
  function Calls(hash: string -> string, sightings: seq<Sighting>): (calls: seq<Call>)
    ensures |calls| == |sightings|
  {
    Mapped(Caller(hash), sightings)
  }

  lemma CallsNext(hash: string -> string, session: int, serverId: string, tools: seq<Json>, ts: int, i: nat)
    requires i < |tools|
    ensures Calls(hash, SightingsIn(session, serverId, tools[..i + 1], ts))
            == Calls(hash, SightingsIn(session, serverId, tools[..i], ts))
                + Calls(hash, SightingOf(session, serverId, tools[i], ts))
  {
    assert tools[..i + 1][..i] == tools[..i];
    MappedAppend(Caller(hash), SightingsIn(session, serverId, tools[..i], ts),
        SightingOf(session, serverId, tools[i], ts));
  }

  /** The event of one call. */
  function FlagOf(t: Table, legacy: map<string, string>, c: Call): seq<Flag> {
    var r := Step(t, legacy, c);
    if r.Some? && r.value.outcome in {Changed, Reverted} then [Flag(c.tool, c.ts, r.value.outcome)] else []
  }

  /** The events of a run of calls. */
  function Flags(t: Table, legacy: map<string, string>, calls: seq<Call>): seq<Flag> {
    if calls == [] then []
    else
      var n := |calls| - 1;
      Flags(t, legacy, calls[..n]) + FlagOf(After(t, legacy, calls[..n]), legacy, calls[n])
  }

  /** The table and the events after one more call, or none. */
  lemma OneMore(t: Table, legacy: map<string, string>, calls: seq<Call>, more: seq<Call>)
    requires |more| <= 1
    ensures After(t, legacy, calls + more) == After(After(t, legacy, calls), legacy, more)
    ensures Flags(t, legacy, calls + more) == Flags(t, legacy, calls) + Flags(After(t, legacy, calls), legacy, more)
  {
    EmptyAppend(calls);
    if more == [] {
      EmptyAppend(Flags(t, legacy, calls));
    } else {
      assert (calls + more)[..|calls|] == calls;
      assert more[..0] == [];
      EmptyAppend(FlagOf(After(t, legacy, calls), legacy, more[0]));
    }
  }

  /** One tool: recorded if it has a name, and flagged if it changed. */
  method RecordTool(
    store: Store, session: int, serverId: string, legacyKey: string, tool: Json, hash: string -> string, ts: int,
    ghost legacy: map<string, string>)
    returns (flags: seq<Flag>)
    requires serverId in legacy && legacy[serverId] == legacyKey
    modifies store
    ensures var calls := Calls(hash, SightingOf(session, serverId, tool, ts));
            store.table == After(old(store.table), legacy, calls) && flags == Flags(old(store.table), legacy, calls)
  {
    flags := [];
    var name := GetStr(tool, "name");
    if name.Some? {
      var o := Versions(hash, tool);
      assert [Call(session, serverId, name.value, o, ts)][..0] == [];
      var r := store.RecordFingerprint(session, serverId, legacyKey, name.value, o, ts);
      if r == Some(Changed) || r == Some(Reverted) {
        flags := [Flag(name.value, ts, r.value)];
      }
    }
  }

  /** Records every named tool of one response; an error on one tool does not stop the others. */
  method RecordFingerprints(
    store: Store, session: int, serverId: string, legacyKey: string, value: Option<Json>, hash: string -> string,
    ts: int, ghost legacy: map<string, string>)
    returns (flags: seq<Flag>)
    requires serverId in legacy && legacy[serverId] == legacyKey
    modifies store
    ensures var calls := if value.None? then []
            else Calls(hash, SightingsIn(session, serverId, ToolsIn(value.value), ts));
            store.table == After(old(store.table), legacy, calls) && flags == Flags(old(store.table), legacy, calls)
  {
    flags := [];
    if value.None? {
      return;
    }
    ghost var start := store.table;
    var tools := ToolsIn(value.value);
    var i := 0;
    while i < |tools|
      invariant 0 <= i <= |tools|
      invariant store.table == After(start, legacy, Calls(hash, SightingsIn(session, serverId, tools[..i], ts)))
      invariant flags == Flags(start, legacy, Calls(hash, SightingsIn(session, serverId, tools[..i], ts)))
    {
      CallsNext(hash, session, serverId, tools, ts, i);
      OneMore(start, legacy, Calls(hash, SightingsIn(session, serverId, tools[..i], ts)),
          Calls(hash, SightingOf(session, serverId, tools[i], ts)));
      var more := RecordTool(store, session, serverId, legacyKey, tools[i], hash, ts, legacy);
      flags := flags + more;
      i := i + 1;
    }
    assert tools[..i] == tools;
  }

  // ---------------------------------------------------------------- runs

  lemma CallsPrefix(hash: string -> string, sightings: seq<Sighting>, i: nat)
    requires i < |sightings|
    ensures Calls(hash, sightings)[..i] == Calls(hash, sightings[..i])
    ensures Calls(hash, sightings)[i] == Caller(hash)(sightings[i])
  {
  }

  /** The sightings of one tool of one server. */
  function Past(sightings: seq<Sighting>, serverId: string, name: string): seq<Sighting> {
    if sightings == [] then []
    else
      var n := |sightings| - 1;
      Past(sightings[..n], serverId, name)
      + (if sightings[n].serverId == serverId && sightings[n].name == name then [sightings[n]] else [])
  }

  /** Two definitions that differ at most in the order of object keys and in fields that are not pinned. */
  ghost predicate SameDefinition(a: Json, b: Json) {
    FieldsAgree(a, b, |FIELDS|)
  }

  ghost predicate AllWellFormed(sightings: seq<Sighting>, legacy: map<string, string>) {
    forall i :: 0 <= i < |sightings| ==> sightings[i].serverId in legacy && WellFormed(sightings[i].tool)
  }

  predicate TimesIncrease(past: seq<Sighting>) {
    forall i, j :: 0 <= i < j < |past| ==> past[i].ts < past[j].ts
  }

  /** What the store's history keeps of a sighting. */
  function Observer(hash: string -> string): Sighting -> Obs {
    (s: Sighting) => Obs(Versions(hash, s.tool).v3, s.ts)
  }

  lemma OneMoreObserved(hash: string -> string, sightings: seq<Sighting>, s: Sighting, serverId: string, name: string)
    ensures Observed(Calls(hash, sightings + [s]), serverId, name)
            == Observed(Calls(hash, sightings), serverId, name)
               + Mapped(Observer(hash), if s.serverId == serverId && s.name == name then [s] else [])
  {
    MappedAppend(Caller(hash), sightings, [s]);
    ObservedNext(Calls(hash, sightings), Caller(hash)(s), serverId, name);
  }

  lemma {:induction false} ObservedPast(
    hash: string -> string, sightings: seq<Sighting>, serverId: string, name: string)
    ensures Observed(Calls(hash, sightings), serverId, name) == Mapped(Observer(hash), Past(sightings, serverId, name))
    decreases |sightings|
  {
    if sightings != [] {
      var n := |sightings| - 1;
      var s := sightings[n];
      assert sightings == sightings[..n] + [s];
      ObservedPast(hash, sightings[..n], serverId, name);
      OneMoreObserved(hash, sightings[..n], s, serverId, name);
      MappedAppend(Observer(hash), Past(sightings[..n], serverId, name),
                   if s.serverId == serverId && s.name == name then [s] else []);
    }
  }

  lemma {:induction false} PastWellFormed(
    sightings: seq<Sighting>, serverId: string, name: string, legacy: map<string, string>)
    requires AllWellFormed(sightings, legacy)
    ensures AllWellFormed(Past(sightings, serverId, name), legacy)
    decreases |sightings|
  {
    if sightings != [] {
      var n := |sightings| - 1;
      assert AllWellFormed(sightings[..n], legacy);
      PastWellFormed(sightings[..n], serverId, name, legacy);
    }
  }

  /** A definition has been recorded before exactly when an equal one has been seen. */
  lemma SeenIsSame(hash: string -> string, past: seq<Sighting>, tool: Json, legacy: map<string, string>)
    requires Injective(hash) && WellFormed(tool) && AllWellFormed(past, legacy)
    ensures var h := Mapped(Observer(hash), past);
            && (forall k :: 0 <= k < |h| ==> (h[k].def == Versions(hash, tool).v3
                <==> SameDefinition(past[k].tool, tool)))
            && (Seen(h, Versions(hash, tool).v3) <==> exists k :: 0 <= k < |past| && SameDefinition(past[k].tool, tool))
  {
    var h := Mapped(Observer(hash), past);
    forall k | 0 <= k < |h|
      ensures h[k].def == Versions(hash, tool).v3 <==> SameDefinition(past[k].tool, tool)
    {
      VersionsSee(hash, past[k].tool, tool);
    }
  }

  lemma RunIsSafe(hash: string -> string, sightings: seq<Sighting>, legacy: map<string, string>)
    requires Injective(hash) && AllWellFormed(sightings, legacy)
    ensures var defs := Definitions(hash);
            Coherent(defs) && ValidCalls(Calls(hash, sightings), defs, legacy) && Safe(Table([], 0), defs, legacy)
  {
    HashesCoherent(hash);
  }

  /** The promised outcome of a sighting, from the definitions seen before. */
  ghost function Promised(past: seq<Sighting>, tool: Json): Outcome {
    if past == [] then New
    else if SameDefinition(past[|past| - 1].tool, tool) then Unchanged
    else if exists k :: 0 <= k < |past| && SameDefinition(past[k].tool, tool) then Reverted
    else Changed
  }

  lemma PlainIsPromised(hash: string -> string, past: seq<Sighting>, tool: Json, legacy: map<string, string>)
    requires Injective(hash) && WellFormed(tool) && AllWellFormed(past, legacy)
    ensures PlainOutcome(Mapped(Observer(hash), past), Versions(hash, tool).v3) == Promised(past, tool)
  {
    SeenIsSame(hash, past, tool, legacy);
  }

  ghost predicate LastOf(past: seq<Sighting>, k: int) {
    0 <= k < |past| && forall j :: k < j < |past| ==> !SameDefinition(past[j].tool, past[k].tool)
  }

  ghost predicate FirstOf(past: seq<Sighting>, k: int) {
    0 <= k < |past| && forall j :: 0 <= j < k ==> !SameDefinition(past[j].tool, past[k].tool)
  }

  /** The definition last sighted at k was last sighted before time ts, or then and first sighted before position f. */
  ghost predicate Older(past: seq<Sighting>, k: int, f: int, ts: int)
    requires 0 <= k < |past| && 0 <= f < |past|
  {
    past[k].ts < ts || (past[k].ts == ts && exists j :: 0 <= j < f && SameDefinition(past[j].tool, past[k].tool))
  }

  /** Every other definition is older than the one first sighted at f and last at l. */
  ghost predicate NewestAt(past: seq<Sighting>, tool: Json, f: int, l: int) {
    && FirstOf(past, f) && LastOf(past, l)
    && SameDefinition(past[f].tool, tool) && SameDefinition(past[l].tool, tool)
    && forall k :: LastOf(past, k) && !SameDefinition(past[k].tool, tool) ==> Older(past, k, f, past[l].ts)
  }

  /** The definition sighted at the latest time; among those sighted then, the one first sighted last. */
  ghost predicate Newest(past: seq<Sighting>, tool: Json) {
    exists f: int, l: int :: NewestAt(past, tool, f, l)
  }

  /** What the store decides, for arbitrary times, from the definitions sighted before. */
  ghost function Decided(past: seq<Sighting>, tool: Json): Outcome {
    if past == [] then New
    else if Newest(past, tool) then Unchanged
    else if exists k :: 0 <= k < |past| && SameDefinition(past[k].tool, tool) then Reverted
    else Changed
  }

  /** The observations distinguish definitions exactly as the sightings do. */
  ghost predicate Mirrors(h: seq<Obs>, d: string, past: seq<Sighting>, tool: Json) {
    && |h| == |past|
    && (forall k :: 0 <= k < |h| ==> h[k].ts == past[k].ts)
    && (forall k :: 0 <= k < |h| ==> (h[k].def == d <==> SameDefinition(past[k].tool, tool)))
    && (forall j, k :: 0 <= j < |h| && 0 <= k < |h| ==> (h[j].def == h[k].def
        <==> SameDefinition(past[j].tool, past[k].tool)))
  }

  lemma HistoryMirrors(hash: string -> string, past: seq<Sighting>, tool: Json, legacy: map<string, string>)
    requires Injective(hash) && WellFormed(tool) && AllWellFormed(past, legacy)
    ensures Mirrors(Mapped(Observer(hash), past), Versions(hash, tool).v3, past, tool)
  {
    SeenIsSame(hash, past, tool, legacy);
    forall k | 0 <= k < |past| {
      SeenIsSame(hash, past, past[k].tool, legacy);
    }
  }

  lemma SamePositions(h: seq<Obs>, d: string, past: seq<Sighting>, tool: Json)
    requires Mirrors(h, d, past, tool)
    ensures forall k :: LastAt(h, k) <==> LastOf(past, k)
    ensures forall k :: FirstAt(h, k) <==> FirstOf(past, k)
    ensures forall k, f, ts :: 0 <= k < |h| && 0 <= f < |h| ==> (Yields(h, k, f, ts) <==> Older(past, k, f, ts))
  {
  }

  lemma NewestIsLatest(h: seq<Obs>, d: string, past: seq<Sighting>, tool: Json)
    requires Mirrors(h, d, past, tool)
    ensures Newest(past, tool) <==> Latest(h, d)
  {
    SamePositions(h, d, past, tool);
    if f, l :| NewestAt(past, tool, f, l) {
      LatestAt(h, d, f, l);
    }
    if Latest(h, d) {
      var f, l := FirstIndex(h, d), LastIndex(h, d);
      assert FirstAt(h, f) && LastAt(h, l);
      LatestAt(h, d, f, l);
      assert NewestAt(past, tool, f, l);
    }
  }

  lemma TimedIsDecided(hash: string -> string, past: seq<Sighting>, tool: Json, legacy: map<string, string>)
    requires Injective(hash) && WellFormed(tool) && AllWellFormed(past, legacy)
    ensures TimedOutcome(Mapped(Observer(hash), past), Versions(hash, tool).v3) == Decided(past, tool)
  {
    SeenIsSame(hash, past, tool, legacy);
    HistoryMirrors(hash, past, tool, legacy);
    NewestIsLatest(Mapped(Observer(hash), past), Versions(hash, tool).v3, past, tool);
  }

  lemma StrictTimes(hash: string -> string, past: seq<Sighting>)
    requires TimesIncrease(past)
    ensures StrictlyIncreasing(Mapped(Observer(hash), past))
  {
    var h := Mapped(Observer(hash), past);
    forall i, j | 0 <= i < j < |h|
      ensures h[i].ts < h[j].ts
    {
      assert past[i].ts < past[j].ts;
    }
  }

  /** The outcome in terms of the hashes observed before. */
  lemma RecordedOutcome(hash: string -> string, legacy: map<string, string>, sightings: seq<Sighting>, i: nat)
    requires Injective(hash) && Rekeyable(legacy) && AllWellFormed(sightings, legacy)
    requires i < |sightings| && Alone(legacy, sightings[i].serverId)
    ensures var s := sightings[i];
            var r := Returned(Table([], 0), legacy, Calls(hash, sightings), i);
            var h := Mapped(Observer(hash), Past(sightings[..i], s.serverId, s.name));
            r.Some? && r.value.outcome == TimedOutcome(h, Versions(hash, s.tool).v3)
  {
    var s := sightings[i];
    RunIsSafe(hash, sightings, legacy);
    CallsPrefix(hash, sightings, i);
    ObservedPast(hash, sightings[..i], s.serverId, s.name);
    NoRowsBaseline(Table([], 0), legacy, s.serverId, s.name);
    RunOutcomes(Table([], 0), Definitions(hash), legacy, Calls(hash, sightings), i, []);
    EmptyBefore(Calls(hash, sightings), i);
  }

  /**
   In every run that starts with an empty table, with an ideal hash and at whatever times: the
   outcome is decided by comparing the definitions themselves, up to key order, with the ones
   this server gave before.
   */
  lemma DefinitionsCompared(hash: string -> string, legacy: map<string, string>, sightings: seq<Sighting>, i: nat)
    requires Injective(hash) && Rekeyable(legacy) && AllWellFormed(sightings, legacy)
    requires i < |sightings| && Alone(legacy, sightings[i].serverId)
    ensures var s := sightings[i];
            var r := Returned(Table([], 0), legacy, Calls(hash, sightings), i);
            r.Some? && r.value.outcome == Decided(Past(sightings[..i], s.serverId, s.name), s.tool)
  {
    var s := sightings[i];
    RecordedOutcome(hash, legacy, sightings, i);
    PastDecides(hash, legacy, sightings[..i], s);
  }

  lemma PastDecides(hash: string -> string, legacy: map<string, string>, before: seq<Sighting>, s: Sighting)
    requires Injective(hash) && WellFormed(s.tool) && AllWellFormed(before, legacy)
    ensures var past := Past(before, s.serverId, s.name);
            TimedOutcome(Mapped(Observer(hash), past), Versions(hash, s.tool).v3) == Decided(past, s.tool)
  {
    PastWellFormed(before, s.serverId, s.name, legacy);
    TimedIsDecided(hash, Past(before, s.serverId, s.name), s.tool, legacy);
  }

  /** The definition is as the one before if and only if it is the newest. */
  ghost predicate InStep(past: seq<Sighting>, tool: Json) {
    past == [] || (SameDefinition(past[|past| - 1].tool, tool) <==> Newest(past, tool))
  }

  lemma NewestWasSeen(past: seq<Sighting>, tool: Json)
    requires Newest(past, tool)
    ensures exists k :: 0 <= k < |past| && SameDefinition(past[k].tool, tool)
  {
    var f, l :| NewestAt(past, tool, f, l);
  }

  /** When what the store decides is what is promised. */
  lemma DecidedAsPromised(past: seq<Sighting>, tool: Json)
    ensures Decided(past, tool) == Promised(past, tool) <==> InStep(past, tool)
  {
    if Newest(past, tool) {
      NewestWasSeen(past, tool);
    }
  }

  /** Increasing times are enough. */
  lemma IncreasingIsInStep(hash: string -> string, past: seq<Sighting>, tool: Json, legacy: map<string, string>)
    requires Injective(hash) && WellFormed(tool) && AllWellFormed(past, legacy) && TimesIncrease(past)
    ensures InStep(past, tool)
  {
    StrictTimes(hash, past);
    StrictTimesArePlain(Mapped(Observer(hash), past), Versions(hash, tool).v3);
    PlainIsPromised(hash, past, tool, legacy);
    TimedIsDecided(hash, past, tool, legacy);
    DecidedAsPromised(past, tool);
  }

  /** Of all definitions only those like the newest are newest. */
  lemma NewestAreSame(hash: string -> string, past: seq<Sighting>, a: Json, b: Json, legacy: map<string, string>)
    requires Injective(hash) && WellFormed(a) && WellFormed(b) && AllWellFormed(past, legacy) && Newest(past, a)
    ensures Newest(past, b) <==> SameDefinition(a, b)
  {
    var h, va, vb := Mapped(Observer(hash), past), Versions(hash, a).v3, Versions(hash, b).v3;
    VersionsSee(hash, a, b);
    HistoryMirrors(hash, past, a, legacy);
    NewestIsLatest(h, va, past, a);
    HistoryMirrors(hash, past, b, legacy);
    NewestIsLatest(h, vb, past, b);
    if Latest(h, vb) {
      LatestUnique(h, va, vb);
    }
  }

  /** The promise is kept for every next definition exactly when the last one sighted is the newest. */
  lemma InStepExactlyWhen(hash: string -> string, past: seq<Sighting>, legacy: map<string, string>)
    requires Injective(hash) && AllWellFormed(past, legacy) && past != []
    ensures (forall tool :: WellFormed(tool) ==> InStep(past, tool)) <==> Newest(past, past[|past| - 1].tool)
  {
    var last := past[|past| - 1].tool;
    Reflexive(hash, last, last);
    if Newest(past, last) {
      forall tool | WellFormed(tool)
        ensures InStep(past, tool)
      {
        NewestAreSame(hash, past, last, tool, legacy);
      }
    } else {
      assert WellFormed(last) && !InStep(past, last);
    }
  }

  /** The event a run raises for sighting i. */
  function Raised(hash: string -> string, legacy: map<string, string>, sightings: seq<Sighting>, i: nat): seq<Flag>
    requires i < |sightings|
  {
    var calls := Calls(hash, sightings);
    FlagOf(After(Table([], 0), legacy, calls[..i]), legacy, calls[i])
  }

  /**
   Exactly when a sighting raises an event, at whatever times; and exactly when that is as
   promised: a definition like the one before raises none and any other one does.
   */
  lemma FlaggedExactlyWhen(hash: string -> string, legacy: map<string, string>, sightings: seq<Sighting>, i: nat)
    requires Injective(hash) && Rekeyable(legacy) && AllWellFormed(sightings, legacy)
    requires i < |sightings| && Alone(legacy, sightings[i].serverId)
    ensures var s := sightings[i];
            var past := Past(sightings[..i], s.serverId, s.name);
            var raised, promised := Raised(hash, legacy, sightings, i) != [],
                Promised(past, s.tool) in {Changed, Reverted};
            && (raised <==> past != [] && !Newest(past, s.tool))
            && (promised <==> past != [] && !SameDefinition(past[|past| - 1].tool, s.tool))
            && (raised == promised <==> InStep(past, s.tool))
            && (TimesIncrease(past) ==> raised == promised)
  {
    var s := sightings[i];
    var past := Past(sightings[..i], s.serverId, s.name);
    DefinitionsCompared(hash, legacy, sightings, i);
    RaisedOutcome(hash, legacy, sightings, i);
    OutcomeFlags(past, s.tool);
    if TimesIncrease(past) {
      PastWellFormed(sightings[..i], s.serverId, s.name, legacy);
      IncreasingIsInStep(hash, past, s.tool, legacy);
    }
  }

  lemma RaisedOutcome(hash: string -> string, legacy: map<string, string>, sightings: seq<Sighting>, i: nat)
    requires i < |sightings|
    ensures var r := Returned(Table([], 0), legacy, Calls(hash, sightings), i);
            Raised(hash, legacy, sightings, i) != [] <==> r.Some? && r.value.outcome in {Changed, Reverted}
  {
  }

  lemma OutcomeFlags(past: seq<Sighting>, tool: Json)
    ensures Decided(past, tool) in {Changed, Reverted} <==> past != [] && !Newest(past, tool)
    ensures Promised(past, tool) in {Changed, Reverted} <==> past != [] && !SameDefinition(past[|past| - 1].tool, tool)
  {
  }

  // ---------------------------------------------------------------- one response, one time

  /** What is sighted when a server lists a alone, then b and a in one response, then x. */
  function ThreeResponses(server: string, a: Json, b: Json, x: Json, t1: int, t2: int, t3: int): seq<Sighting> {
    SightingsIn(1, server, [a], t1) + SightingsIn(1, server, [b, a], t2) + SightingsIn(1, server, [x], t3)
  }

  lemma ListedTools(session: int, server: string, name: string, a: Json, b: Json, ts: int)
    requires GetStr(a, "name") == Some(name) && GetStr(b, "name") == Some(name)
    ensures SightingsIn(session, server, [a], ts) == [Sighting(session, server, name, a, ts)]
    ensures SightingsIn(session, server, [b, a], ts)
            == [Sighting(session, server, name, b, ts), Sighting(session, server, name, a, ts)]
  {
    assert [a][..0] == [] && [b][..0] == [] && [b, a][..1] == [b];
    assert SightingsIn(session, server, [b], ts) == [Sighting(session, server, name, b, ts)];
  }

  lemma FourSightings(server: string, name: string, a: Json, b: Json, x: Json, t1: int, t2: int, t3: int)
    requires GetStr(a, "name") == Some(name) && GetStr(b, "name") == Some(name) && GetStr(x, "name") == Some(name)
    ensures ThreeResponses(server, a, b, x, t1, t2, t3)
            == [Sighting(1, server, name, a, t1), Sighting(1, server, name, b, t2), Sighting(1, server, name, a, t2),
                Sighting(1, server, name, x, t3)]
  {
    assert SightingsIn(1, server, [a], t1) == [Sighting(1, server, name, a, t1)] by {
      ListedTools(1, server, name, a, b, t1);
    }
    assert SightingsIn(1, server, [b, a], t2)
        == [Sighting(1, server, name, b, t2), Sighting(1, server, name, a, t2)] by {
      ListedTools(1, server, name, a, b, t2);
    }
    assert SightingsIn(1, server, [x], t3) == [Sighting(1, server, name, x, t3)] by {
      ListedTools(1, server, name, x, b, t3);
    }
  }

  lemma {:induction false} AllPast(sightings: seq<Sighting>, server: string, name: string)
    requires forall i :: 0 <= i < |sightings| ==> sightings[i].serverId == server && sightings[i].name == name
    ensures Past(sightings, server, name) == sightings
  {
    if sightings != [] {
      var n := |sightings| - 1;
      AllPast(sightings[..n], server, name);
      assert sightings == sightings[..n] + [sightings[n]];
    }
  }

  lemma Reflexive(hash: string -> string, a: Json, b: Json)
    requires Injective(hash) && WellFormed(a) && WellFormed(b)
    ensures SameDefinition(a, a) && (SameDefinition(a, b) <==> SameDefinition(b, a))
  {
    VersionsSee(hash, a, a);
    VersionsSee(hash, a, b);
    VersionsSee(hash, b, a);
  }

  ghost predicate Different(a: Json, b: Json) {
    SameDefinition(a, a) && SameDefinition(b, b) && !SameDefinition(a, b) && !SameDefinition(b, a)
  }

  /** The sightings a, then b and a at one time. */
  predicate Tied(past: seq<Sighting>, a: Json, b: Json) {
    |past| == 3 && past[0].tool == a && past[1].tool == b && past[2].tool == a && past[1].ts == past[2].ts
  }

  lemma MappedThree(f: Sighting -> Obs, past: seq<Sighting>)
    requires |past| == 3
    ensures Mapped(f, past) == [f(past[0]), f(past[1]), f(past[2])]
  {
  }

  lemma ObservedAt(hash: string -> string, s: Sighting)
    ensures Observer(hash)(s) == Obs(Versions(hash, s.tool).v3, s.ts)
  {
  }

  /** b counts as the newest definition, although a came after it. */
  lemma TiedNewest(hash: string -> string, legacy: map<string, string>, past: seq<Sighting>, a: Json, b: Json)
    requires Injective(hash) && AllWellFormed(past, legacy) && WellFormed(a) && WellFormed(b)
    requires Tied(past, a, b) && !SameDefinition(a, b)
    ensures Newest(past, b) && !Newest(past, a)
  {
    var h, va, vb := Mapped(Observer(hash), past), Versions(hash, a).v3, Versions(hash, b).v3;
    VersionsSee(hash, a, b);
    MappedThree(Observer(hash), past);
    ObservedAt(hash, past[0]);
    ObservedAt(hash, past[1]);
    ObservedAt(hash, past[2]);
    TiedLatest(va, vb, past[0].ts, past[1].ts);
    HistoryMirrors(hash, past, a, legacy);
    NewestIsLatest(h, va, past, a);
    HistoryMirrors(hash, past, b, legacy);
    NewestIsLatest(h, vb, past, b);
  }

  lemma TiedPromises(past: seq<Sighting>, a: Json, b: Json)
    requires Tied(past, a, b) && Different(a, b)
    ensures Promised(past, b) == Reverted && Promised(past, a) == Unchanged
  {
    assert SameDefinition(past[1].tool, b);
  }

  /** The fourth sighting: going back to b is missed, staying with a is flagged. */
  lemma TiesMislead(
    hash: string -> string, legacy: map<string, string>, all: seq<Sighting>, name: string, a: Json, b: Json)
    requires Injective(hash) && Rekeyable(legacy) && AllWellFormed(all, legacy)
    requires |all| == 4 && Tied(all[..3], a, b) && !SameDefinition(a, b)
    requires forall i :: 0 <= i < 4 ==> all[i].serverId == all[3].serverId && all[i].name == name
    requires Alone(legacy, all[3].serverId)
    ensures all[3].tool == b ==> Raised(hash, legacy, all, 3) == [] && Promised(all[..3], b) == Reverted
    ensures all[3].tool == a ==> Raised(hash, legacy, all, 3) != [] && Promised(all[..3], a) == Unchanged
  {
    assert all[..3][0].tool == a && all[..3][1].tool == b;
    Reflexive(hash, a, b);
    Reflexive(hash, b, a);
    AllPast(all[..3], all[3].serverId, name);
    TiedNewest(hash, legacy, all[..3], a, b);
    TiedPromises(all[..3], a, b);
    FlaggedExactlyWhen(hash, legacy, all, 3);
  }

  lemma TiedResponses(
    legacy: map<string, string>, server: string, name: string, a: Json, b: Json, x: Json, t1: int, t2: int, t3: int)
    requires GetStr(a, "name") == Some(name) && GetStr(b, "name") == Some(name) && (x == a || x == b)
    requires server in legacy && WellFormed(a) && WellFormed(b)
    ensures var all := ThreeResponses(server, a, b, x, t1, t2, t3);
            && |all| == 4 && Tied(all[..3], a, b) && all[3].tool == x && AllWellFormed(all, legacy)
            && forall i :: 0 <= i < 4 ==> all[i].serverId == server && all[i].name == name
  {
    FourSightings(server, name, a, b, x, t1, t2, t3);
  }

  /**
   One time for a whole response, and any two definitions of one tool: a server that then goes
   back to b has changed the definition, and no event is raised.
   */
  lemma MissedAlarm(
    hash: string -> string, legacy: map<string, string>, server: string, name: string, a: Json, b: Json,
    t1: int, t2: int, t3: int)
    requires Injective(hash) && Rekeyable(legacy) && server in legacy && Alone(legacy, server)
    requires GetStr(a, "name") == Some(name) && GetStr(b, "name") == Some(name)
    requires WellFormed(a) && WellFormed(b) && !SameDefinition(a, b)
    ensures var all := ThreeResponses(server, a, b, b, t1, t2, t3);
            |all| == 4 && Promised(all[..3], b) == Reverted && Raised(hash, legacy, all, 3) == []
  {
    TiedResponses(legacy, server, name, a, b, b, t1, t2, t3);
    TiesMislead(hash, legacy, ThreeResponses(server, a, b, b, t1, t2, t3), name, a, b);
  }

  /** In the same situation, a server that keeps a has changed nothing, and an event is raised. */
  lemma FalseAlarm(
    hash: string -> string, legacy: map<string, string>, server: string, name: string, a: Json, b: Json,
    t1: int, t2: int, t3: int)
    requires Injective(hash) && Rekeyable(legacy) && server in legacy && Alone(legacy, server)
    requires GetStr(a, "name") == Some(name) && GetStr(b, "name") == Some(name)
    requires WellFormed(a) && WellFormed(b) && !SameDefinition(a, b)
    ensures var all := ThreeResponses(server, a, b, a, t1, t2, t3);
            |all| == 4 && Promised(all[..3], a) == Unchanged && Raised(hash, legacy, all, 3) != []
  {
    TiedResponses(legacy, server, name, a, b, a, t1, t2, t3);
    TiesMislead(hash, legacy, ThreeResponses(server, a, b, a, t1, t2, t3), name, a, b);
  }
}
