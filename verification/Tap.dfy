/**
 The storage loop's correlation of tapped frames: which server frames answer a tools/list
 request, and which protocol version the session is recorded with.
 */
module Tap {
  import opened Common
  import opened Json

  datatype Direction = C2s | S2c

  /** The fields of a frame the loop looks at. */
  datatype Parsed = Parsed(
    verb: Option<string>, id: Option<string>, isError: bool, proposed: Option<string>, selected: Option<string>)

  /** One message drained from the channel; `written` says whether a protocol write for it would succeed. */
  datatype Msg =
    | Frame(direction: Direction, ts: int, parsed: Parsed, written: bool)
    | Hint(version: string, written: bool)
    | Event

  datatype Pending = Pending(ts: int, proposed: Option<string>)

  datatype Source = Nothing | Header | Initialize

  /** The protocol columns of the session row. */
  datatype Protocol = Protocol(version: string, proposed: Option<string>, source: Source)

  datatype State = State(tools: map<string, int>, init: map<string, Pending>, source: Source, stored: Option<Protocol>)

  const START := State(map[], map[], Nothing, None)

  const CAP := 1024

  // ---------------------------------------------------------------- reading a frame

  function GetIn(v: Option<Json>, outer: string, inner: string): Option<string> {
    if v.None? then None
    else
      var o := Get(v.value, outer);
      if o.None? then None else GetStr(o.value, inner)
  }

  /** What is read off a frame; `value` is None for a frame that is not JSON. */
  function Parse(value: Option<Json>, direction: Direction): Parsed {
    if value.None? then Parsed(None, None, false, None, None)
    else Parsed(
      GetStr(value.value, "method"), IdText(value.value), direction == S2c && Get(value.value, "error").Some?,
      GetIn(value, "params", "protocolVersion"), GetIn(value, "result", "protocolVersion"))
  }

  /** A client frame with a method and this id. */
  predicate Request(m: Msg, id: string) {
    m.Frame? && m.direction == C2s && m.parsed.verb.Some? && m.parsed.id == Some(id)
  }

  predicate RequestOf(m: Msg, verb: string, id: string) {
    Request(m, id) && m.parsed.verb == Some(verb)
  }

  /** A server frame without a method on this id: only such a frame answers a request. */
  predicate Answer(m: Msg, id: string) {
    m.Frame? && m.direction == S2c && m.parsed.verb.None? && m.parsed.id == Some(id)
  }

  predicate IsError(m: Msg) {
    m.Frame? && m.parsed.isError
  }

  function Proposed(m: Msg): Option<string> {
    if m.Frame? then m.parsed.proposed else None
  }

  function Selected(m: Msg): Option<string> {
    if m.Frame? then m.parsed.selected else None
  }

  const TOOLS_LIST := "tools/list"
  const INITIALIZE := "initialize"

  // ---------------------------------------------------------------- one message

  /** The map has room for this id, or the oldest entry has to go. */
  predicate Full<V>(m: map<string, V>, id: string) {
    id !in m && |m| >= CAP
  }

  /** Noting `id`: nothing else changes, except that a full map loses one oldest entry. */
  ghost predicate Noted<V>(m: map<string, V>, id: string, v: V, age: V -> int, n: map<string, V>) {
    if Full(m, id) then
      exists oldest :: oldest in m && (forall k :: k in m ==> age(m[oldest]) <= age(m[k]))
          && n == (m - {oldest})[id := v]
    else n == m[id := v]
  }

  function ToolAge(): int -> int {
    (ts: int) => ts
  }

  function InitAge(): Pending -> int {
    (p: Pending) => p.ts
  }

  /** Requests are tracked under their id; another request on the id retires it. */
  ghost predicate Tracked(s: State, m: Msg, t: State) {
    if m.Frame? && m.direction == C2s && m.parsed.verb.Some? && m.parsed.id.Some? then
      var id := m.parsed.id;
      && t.source == s.source && t.stored == s.stored
      && (if m.parsed.verb == Some(TOOLS_LIST) then Noted(s.tools, id.value, m.ts, ToolAge(), t.tools)
          else t.tools == s.tools - {id.value})
      && (if m.parsed.verb == Some(INITIALIZE) then
            Noted(s.init, id.value, Pending(m.ts, Proposed(m)), InitAge(), t.init)
          else t.init == s.init - {id.value})
    else t == s
  }

  predicate Negotiates(s: State, m: Msg, id: string) {
    id in s.init && !IsError(m) && s.source != Initialize && Selected(m).Some? && m.written
  }

  /** An answer consumes what was pending on its id. */
  function Answered(s: State, m: Msg, id: string): State
    requires Answer(m, id)
  {
    State(s.tools - {id}, s.init - {id},
          if Negotiates(s, m, id) then Initialize else s.source,
          if Negotiates(s, m, id) then Some(Protocol(Selected(m).value, s.init[id].proposed, Initialize)) else s.stored)
  }

  function Hinted(s: State, m: Msg): State
    requires m.Hint?
  {
    if s.source == Nothing && m.written
    then s.(source := Header, stored := Some(Protocol(m.version, None, Header)))
    else s
  }

  ghost predicate Step(s: State, m: Msg, t: State, fingerprinted: bool) {
    match m
    case Hint(_, _) => t == Hinted(s, m) && !fingerprinted
    case Event => t == s && !fingerprinted
    case Frame(_, _, _, _) =>
      if m.parsed.id.Some? && Answer(m, m.parsed.id.value)
      then t == Answered(s, m, m.parsed.id.value) && fingerprinted == (m.parsed.id.value in s.tools && !IsError(m))
      else Tracked(s, m, t) && !fingerprinted
  }

  // ---------------------------------------------------------------- the loop

  class StorageLoop {
    var tools: map<string, int>
    var init: map<string, Pending>
    var source: Source
    var stored: Option<Protocol>

    constructor ()
      ensures Now() == START
    {
      tools, init, source, stored := map[], map[], Nothing, None;
    }

    ghost function Now(): State
      reads this
    {
      State(tools, init, source, stored)
    }

    method NoteTools(id: string, ts: int)
      modifies `tools
      ensures Noted(old(tools), id, ts, ToolAge(), tools)
    {
      if id !in tools && |tools| >= CAP {
        var oldest := OldestOf(tools, ToolAge());
        tools := (tools - {oldest})[id := ts];
      } else {
        tools := tools[id := ts];
      }
    }

    method NoteInit(id: string, p: Pending)
      modifies `init
      ensures Noted(old(init), id, p, InitAge(), init)
    {
      if id !in init && |init| >= CAP {
        var oldest := OldestOf(init, InitAge());
        init := (init - {oldest})[id := p];
      } else {
        init := init[id := p];
      }
    }

    method SetProtocol(p: Protocol, written: bool)
      modifies `source, `stored
      ensures if written then source == p.source && stored == Some(p)
              else source == old(source) && stored == old(stored)
    {
      if written {
        stored := Some(p);
        source := p.source;
      }
    }

    /** One drained message; the result says whether the frame's tools are fingerprinted. */
    method HandleFrame(direction: Direction, ts: int, value: Option<Json>, written: bool) returns (fingerprinted: bool)
      modifies this
      ensures Step(old(Now()), Frame(direction, ts, Parse(value, direction), written), Now(), fingerprinted)
    {
      fingerprinted := Handle(Frame(direction, ts, Parse(value, direction), written));
    }

    method Handle(m: Msg) returns (fingerprinted: bool)
      modifies this
      ensures Step(old(Now()), m, Now(), fingerprinted)
    {
      fingerprinted := false;
      match m {
        case Hint(version, written) =>
          if source == Nothing {
            SetProtocol(Protocol(version, None, Header), written);
          }
        case Event =>
        case Frame(direction, ts, parsed, written) =>
          var verb, id := parsed.verb, parsed.id;
          if direction == C2s && verb.Some? && id.Some? {
            if verb == Some(TOOLS_LIST) {
              NoteTools(id.value, ts);
            } else {
              tools := tools - {id.value};
            }
            if verb == Some(INITIALIZE) {
              NoteInit(id.value, Pending(ts, Proposed(m)));
            } else {
              init := init - {id.value};
            }
          }
          if direction == S2c && verb.None? && id.Some? {
            fingerprinted := id.value in tools && !IsError(m);
            tools := tools - {id.value};
            if id.value in init {
              var proposed := init[id.value].proposed;
              init := init - {id.value};
              if !IsError(m) && source != Initialize && Selected(m).Some? {
                SetProtocol(Protocol(Selected(m).value, proposed, Initialize), written);
              }
            } else {
              assert init - {id.value} == init;
            }
          }
      }
    }
  }

  lemma {:induction false} OldestExists<V>(m: map<string, V>, age: V -> int, keys: set<string>)
    requires keys <= m.Keys && keys != {}
    ensures exists k :: k in keys && forall j :: j in keys ==> age(m[k]) <= age(m[j])
    decreases |keys|
  {
    var k :| k in keys;
    var rest := keys - {k};
    assert forall j :: j in keys ==> j == k || j in rest;
    if rest == {} {
      assert forall j :: j in keys ==> age(m[k]) <= age(m[j]);
    } else {
      OldestExists(m, age, rest);
      var r :| r in rest && forall j :: j in rest ==> age(m[r]) <= age(m[j]);
      var best := if age(m[k]) <= age(m[r]) then k else r;
      assert best in keys && forall j :: j in keys ==> age(m[best]) <= age(m[j]);
    }
  }

  /** Any entry of least age; a hash map's order decides between ties. */
  method OldestOf<V>(m: map<string, V>, age: V -> int) returns (oldest: string)
    requires m != map[]
    ensures oldest in m && forall k :: k in m ==> age(m[oldest]) <= age(m[k])
  {
    OldestExists(m, age, m.Keys);
    oldest :| oldest in m && forall k :: k in m ==> age(m[oldest]) <= age(m[k]);
  }
}
