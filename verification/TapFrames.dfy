/**
 The storage loop from the frames themselves: which JSON objects ask and answer, what is read
 off them, and what a handshake or a listing of tools on the wire ends in.
 */
module TapFrames {
  import opened Common
  import opened Json
  import opened JsonMembers
  import opened JsonText
  import opened Sequences
  import opened Tap
  import opened TapLaws
  import opened TapEviction
  import opened TapProtocol

  // ---------------------------------------------------------------- ids

  /** Two ids that the loop takes for one: equal ones, and a string that spells the other. */
  predicate Alike(a: Json, b: Json) {
    && !a.Null? && !b.Null?
    && (a == b || (!b.Str? && a == Str(Serialize(b))) || (!a.Str? && b == Str(Serialize(a))))
  }

  /** An id as the loop knows it. */
  function Spelled(id: Json): string {
    if id.Str? then id.chars else Serialize(id)
  }

  /** Numbers, say, are alike only if they are equal; a number and the string that spells it are alike too. */
  lemma AlikeExactly(a: Json, b: Json)
    requires WellFormed(a) && WellFormed(b) && !a.Null? && !b.Null?
    ensures Alike(a, b) <==> Spelled(a) == Spelled(b)
  {
    if !a.Str? && !b.Str? && Serialize(a) == Serialize(b) {
      EmptyAppend(Serialize(a));
      EmptyAppend(Serialize(b));
      TextDetermines(a, "", b, "");
    }
  }

  lemma IdIsSpelled(v: Json, id: Json)
    requires WellFormed(v) && Has(v, "id", id)
    ensures IdText(v) == if id.Null? then None else Some(Spelled(id))
  {
    GetIsHas(v, "id", id);
  }

  /** The object names an id that is taken for this one. */
  ghost predicate Identifies(v: Json, id: Json) {
    exists own :: Has(v, "id", own) && Alike(own, id)
  }

  lemma IdentifiesExactly(v: Json, id: Json)
    requires WellFormed(v) && WellFormed(id) && !id.Null?
    ensures IdText(v) == Some(Spelled(id)) <==> Identifies(v, id)
  {
    if own :| Has(v, "id", own) && Alike(own, id) {
      MemberWellFormed(v, "id", own);
      AlikeExactly(own, id);
      IdIsSpelled(v, own);
    }
    if IdText(v) == Some(Spelled(id)) {
      var own := Get(v, "id").value;
      GetIsHas(v, "id", own);
      MemberWellFormed(v, "id", own);
      IdIsSpelled(v, own);
      AlikeExactly(own, id);
    }
  }

  // ---------------------------------------------------------------- what is drained

  /** A line from either side, as JSON if it is any; a version header; or anything else that is drained. */
  datatype Heard =
    | Line(direction: Direction, ts: int, value: Option<Json>, written: bool)
    | Header(version: string, written: bool)
    | Else

  predicate Sound(h: Heard) {
    h.Line? && h.value.Some? ==> WellFormed(h.value.value)
  }

  function Drained(): Heard -> Msg {
    (h: Heard) => match h
      case Line(direction, ts, value, written) => Frame(direction, ts, Parse(value, direction), written)
      case Header(version, written) => Hint(version, written)
      case Else => Event
  }

  /** A JSON line from this side. */
  predicate From(h: Heard, direction: Direction) {
    h.Line? && h.direction == direction && h.value.Some?
  }

  /** A client's request with this method on this id. */
  ghost predicate Asks(h: Heard, verb: string, id: Json) {
    From(h, C2s) && Has(h.value.value, "method", Str(verb)) && Identifies(h.value.value, id)
  }

  /** A server's object on this id that calls no method. */
  ghost predicate Responds(h: Heard, id: Json) {
    && From(h, S2c) && Identifies(h.value.value, id)
    && forall verb :: !Has(h.value.value, "method", Str(verb))
  }

  ghost predicate Fails(h: Heard) {
    h.Line? && h.value.Some? && exists e :: Has(h.value.value, "error", e)
  }

  /** The text at `outer`.protocolVersion. */
  ghost predicate Version(h: Heard, outer: string, version: string) {
    h.Line? && h.value.Some? &&
    exists o :: Has(h.value.value, outer, o) && Has(o, "protocolVersion", Str(version))
  }

  lemma AsksExactly(h: Heard, verb: string, id: Json)
    requires Sound(h) && WellFormed(id) && !id.Null?
    ensures RequestOf(Drained()(h), verb, Spelled(id)) <==> Asks(h, verb, id)
  {
    if h.Line? && h.value.Some? {
      GetStrIsHas(h.value.value, "method", verb);
      IdentifiesExactly(h.value.value, id);
    }
  }

  lemma AsksAnyExactly(h: Heard, id: Json)
    requires Sound(h) && WellFormed(id) && !id.Null?
    ensures Request(Drained()(h), Spelled(id)) <==> exists verb :: Asks(h, verb, id)
  {
    forall verb: string
      ensures RequestOf(Drained()(h), verb, Spelled(id)) <==> Asks(h, verb, id)
    {
      AsksExactly(h, verb, id);
    }
    if Request(Drained()(h), Spelled(id)) {
      assert RequestOf(Drained()(h), Drained()(h).parsed.verb.value, Spelled(id));
    }
  }

  lemma RespondsExactly(h: Heard, id: Json)
    requires Sound(h) && WellFormed(id) && !id.Null?
    ensures Answer(Drained()(h), Spelled(id)) <==> Responds(h, id)
  {
    if h.Line? && h.value.Some? {
      var v := h.value.value;
      IdentifiesExactly(v, id);
      forall verb: string
        ensures GetStr(v, "method") == Some(verb) <==> Has(v, "method", Str(verb))
      {
        GetStrIsHas(v, "method", verb);
      }
      if GetStr(v, "method").Some? {
        assert Has(v, "method", Str(GetStr(v, "method").value));
      }
    }
  }

  lemma FailsExactly(h: Heard, id: Json)
    requires Sound(h) && Answer(Drained()(h), Spelled(id))
    ensures IsError(Drained()(h)) <==> Fails(h)
  {
    var v := h.value.value;
    if e :| Has(v, "error", e) {
      GetIsHas(v, "error", e);
    }
    if Get(v, "error").Some? {
      GetIsHas(v, "error", Get(v, "error").value);
    }
  }

  lemma VersionAt(v: Json, outer: string, version: string)
    requires WellFormed(v)
    ensures GetIn(Some(v), outer, "protocolVersion") == Some(version) <==>
            exists o :: Has(v, outer, o) && Has(o, "protocolVersion", Str(version))
  {
    if Get(v, outer).Some? {
      var o := Get(v, outer).value;
      GetIsHas(v, outer, o);
      MemberWellFormed(v, outer, o);
      GetStrIsHas(o, "protocolVersion", version);
    }
    if o :| Has(v, outer, o) && Has(o, "protocolVersion", Str(version)) {
      GetIsHas(v, outer, o);
    }
  }

  /** What a request proposes and what an answer selects. */
  lemma VersionsExactly(h: Heard, version: string)
    requires Sound(h)
    ensures Proposed(Drained()(h)) == Some(version) <==> Version(h, "params", version)
    ensures Selected(Drained()(h)) == Some(version) <==> Version(h, "result", version)
  {
    if h.Line? && h.value.Some? {
      VersionAt(h.value.value, "params", version);
      VersionAt(h.value.value, "result", version);
    }
  }

  // ---------------------------------------------------------------- whole traces of lines

  ghost predicate AllSound(hs: seq<Heard>) {
    forall i :: 0 <= i < |hs| ==> Sound(hs[i])
  }

  function Trace(hs: seq<Heard>): (msgs: seq<Msg>)
    ensures |msgs| == |hs|
  {
    Mapped(Drained(), hs)
  }

  /** Before line n, line j is the latest request on this id, it is for this method, and no response has come since. */
  ghost predicate Since(hs: seq<Heard>, verb: string, n: nat, id: Json, j: int)
    requires n <= |hs|
  {
    && 0 <= j < n && Asks(hs[j], verb, id)
    && forall k :: j < k < n ==> !Responds(hs[k], id) && forall other :: !Asks(hs[k], other, id)
  }

  lemma SinceExactly(hs: seq<Heard>, verb: string, n: nat, id: Json, j: int)
    requires AllSound(hs) && n <= |hs| && WellFormed(id) && !id.Null?
    ensures LatestAt(Trace(hs), verb, n, Spelled(id), j) <==> Since(hs, verb, n, id, j)
  {
    if 0 <= j < n {
      AsksExactly(hs[j], verb, id);
    }
    forall k | 0 <= k < n
      ensures Request(Trace(hs)[k], Spelled(id)) <==> exists other :: Asks(hs[k], other, id)
      ensures Answer(Trace(hs)[k], Spelled(id)) <==> Responds(hs[k], id)
    {
      AsksAnyExactly(hs[k], id);
      RespondsExactly(hs[k], id);
    }
  }

  /** Line n answers without error what line j asked with this method on this id. */
  ghost predicate Settled(hs: seq<Heard>, verb: string, n: nat, id: Json, j: int)
    requires n < |hs|
  {
    WellFormed(id) && !id.Null? && Responds(hs[n], id) && !Fails(hs[n]) && Since(hs, verb, n, id, j)
  }

  /** The line's own id, when it answers anything. */
  lemma OwnId(h: Heard, s: string) returns (id: Json)
    requires Sound(h) && Answer(Drained()(h), s)
    ensures WellFormed(id) && !id.Null? && Spelled(id) == s
  {
    id := Get(h.value.value, "id").value;
    GetIsHas(h.value.value, "id", id);
    MemberWellFormed(h.value.value, "id", id);
    IdIsSpelled(h.value.value, id);
  }

  lemma SettledExactly(hs: seq<Heard>, verb: string, n: nat, id: Json, j: int)
    requires AllSound(hs) && n < |hs| && WellFormed(id) && !id.Null?
    ensures Settled(hs, verb, n, id, j)
            <==> GoodAnswer(Trace(hs)[n], Spelled(id)) && LatestAt(Trace(hs), verb, n, Spelled(id), j)
  {
    RespondsExactly(hs[n], id);
    SinceExactly(hs, verb, n, id, j);
    if Answer(Trace(hs)[n], Spelled(id)) {
      FailsExactly(hs[n], id);
    }
  }

  /**
   Which lines have their tools fingerprinted: the error-free responses to a `tools/list` request
   on an id taken for the same, unanswered since and not asked again.
   */
  lemma ListingsAreFingerprinted(hs: seq<Heard>, states: seq<State>, fps: seq<bool>, n: nat)
    requires AllSound(hs) && IsRun(Trace(hs), states, fps) && n < |hs| && FewAwaited(Trace(hs), TOOLS_LIST, n)
    ensures fps[n] <==> exists id, j :: Settled(hs, "tools/list", n, id, j)
  {
    var msgs := Trace(hs);
    FingerprintedFromTrace(msgs, states, fps, n);
    if fps[n] {
      var s :| GoodAnswer(msgs[n], s) && Awaited(msgs, TOOLS_LIST, n, s);
      var j :| LatestAt(msgs, TOOLS_LIST, n, s, j);
      var id := OwnId(hs[n], s);
      SettledExactly(hs, "tools/list", n, id, j);
    }
    if id, j :| Settled(hs, "tools/list", n, id, j) {
      SettledExactly(hs, "tools/list", n, id, j);
      assert Awaited(msgs, TOOLS_LIST, n, Spelled(id));
    }
  }

  /** Line i gives the version the initialize request of line j has asked for, and it can be written down. */
  ghost predicate Negotiated(hs: seq<Heard>, i: nat, j: int)
    requires i < |hs|
  {
    exists id, version ::
      Settled(hs, "initialize", i, id, j) && Version(hs[i], "result", version) && hs[i].written
  }

  lemma NegotiatedExactly(hs: seq<Heard>, i: nat, j: int)
    requires AllSound(hs) && i < |hs|
    ensures Settles(Trace(hs), i, j) <==> Negotiated(hs, i, j)
  {
    var m := Trace(hs)[i];
    if Settles(Trace(hs), i, j) {
      var id := OwnId(hs[i], m.parsed.id.value);
      SettledExactly(hs, "initialize", i, id, j);
      VersionsExactly(hs[i], Selected(m).value);
    }
    if id, version :| Settled(hs, "initialize", i, id, j) && Version(hs[i], "result", version) && hs[i].written {
      SettledExactly(hs, "initialize", i, id, j);
      VersionsExactly(hs[i], version);
    }
  }

  /** What is stored of a handshake: the version of the answer, and the one the request proposed, if any. */
  ghost predicate Records(stored: Option<Protocol>, request: Heard, answer: Heard) {
    && stored.Some? && stored.value.source == Initialize
    && Version(answer, "result", stored.value.version)
    && forall p :: stored.value.proposed == Some(p) <==> Version(request, "params", p)
  }

  lemma AgreedRecords(request: Heard, answer: Heard)
    requires Sound(request) && Sound(answer) && Selected(Drained()(answer)).Some?
    ensures Records(Agreed(Drained()(answer), Drained()(request)), request, answer)
  {
    VersionsExactly(answer, Selected(Drained()(answer)).value);
    forall p: string
      ensures Proposed(Drained()(request)) == Some(p) <==> Version(request, "params", p)
    {
      VersionsExactly(request, p);
    }
  }

  /** The first handshake on the wire is what is stored, whatever headers and later handshakes say. */
  lemma HandshakeIsStored(hs: seq<Heard>, states: seq<State>, fps: seq<bool>, n: nat, i: nat, j: nat)
    requires AllSound(hs) && IsRun(Trace(hs), states, fps) && i < n <= |hs| && FewAwaited(Trace(hs), INITIALIZE, n)
    requires Negotiated(hs, i, j) && forall e: int, k: int :: 0 <= e < i ==> !Negotiated(hs, e, k)
    ensures j < i && Records(states[n].stored, hs[j], hs[i])
  {
    var msgs := Trace(hs);
    ProtocolFromTrace(msgs, states, fps, n);
    NegotiatedExactly(hs, i, j);
    forall e: int, k: int | 0 <= e < i
      ensures !FromTrace(msgs)(e, k)
    {
      NegotiatedExactly(hs, e, k);
    }
    assert NoneSettles(FromTrace(msgs), i);
    assert FromTrace(msgs)(i, j);
    AgreedRecords(hs[j], hs[i]);
  }

  /** Without a handshake the first header is stored, and without one nothing is. */
  lemma HeaderIsStored(hs: seq<Heard>, states: seq<State>, fps: seq<bool>, n: nat)
    requires AllSound(hs) && IsRun(Trace(hs), states, fps) && n <= |hs| && FewAwaited(Trace(hs), INITIALIZE, n)
    requires forall e: int, k: int :: 0 <= e < n ==> !Negotiated(hs, e, k)
    ensures (forall i :: 0 <= i < n ==> !(hs[i].Header? && hs[i].written)) ==> states[n].stored == None
    ensures forall i :: 0 <= i < n && hs[i].Header? && hs[i].written
                        && (forall e :: 0 <= e < i ==> !(hs[e].Header? && hs[e].written)) ==>
              states[n].stored == Some(Protocol(hs[i].version, None, Source.Header))
  {
    var msgs := Trace(hs);
    ProtocolFromTrace(msgs, states, fps, n);
    forall e: int, k: int | 0 <= e < n
      ensures !FromTrace(msgs)(e, k)
    {
      NegotiatedExactly(hs, e, k);
    }
    assert NoneSettles(FromTrace(msgs), n);
    assert forall i :: 0 <= i < n ==> (Hints(msgs[i]) <==> hs[i].Header? && hs[i].written);
    forall i | 0 <= i < n && hs[i].Header? && hs[i].written
               && (forall e :: 0 <= e < i ==> !(hs[e].Header? && hs[e].written))
      ensures states[n].stored == Some(Protocol(hs[i].version, None, Source.Header))
    {
      assert NoneHints(msgs, i);
    }
  }

  // ---------------------------------------------------------------- short traces

  lemma {:induction false} FewIds(msgs: seq<Msg>, n: nat) returns (ids: set<string>)
    requires n <= |msgs|
    ensures |ids| <= n
    ensures forall i :: 0 <= i < n && msgs[i].Frame? && msgs[i].parsed.id.Some? ==> msgs[i].parsed.id.value in ids
  {
    if n == 0 {
      ids := {};
    } else {
      ids := FewIds(msgs, n - 1);
      if msgs[n - 1].Frame? && msgs[n - 1].parsed.id.Some? {
        ids := ids + {msgs[n - 1].parsed.id.value};
      }
    }
  }

  /** Of 1024 lines no id is ever evicted. */
  lemma ShortTraces(msgs: seq<Msg>, verb: string, n: nat)
    requires n <= |msgs| && n <= 1024
    ensures FewAwaited(msgs, verb, n)
  {
    forall i | 0 <= i <= n
      ensures |AwaitedIds(msgs, verb, i)| <= 1024
    {
      var ids := FewIds(msgs, i);
      SubsetSize(AwaitedIds(msgs, verb, i), ids);
    }
  }
}
