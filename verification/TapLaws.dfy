/** The storage loop's decisions, as facts about the trace of frames it has drained. */
module TapLaws {
  import opened Common
  import opened Tap

  /** `states` and `fingerprinted` record what draining `msgs` did. */
  ghost predicate IsRun(msgs: seq<Msg>, states: seq<State>, fingerprinted: seq<bool>) {
    && |states| == |msgs| + 1 && |fingerprinted| == |msgs| && states[0] == START
    && forall i :: 0 <= i < |msgs| ==> StepAt(msgs, states, fingerprinted, i)
  }

  ghost predicate StepAt(msgs: seq<Msg>, states: seq<State>, fingerprinted: seq<bool>, i: nat)
    requires i < |msgs| && |states| == |msgs| + 1 && |fingerprinted| == |msgs|
  {
    Step(states[i], msgs[i], states[i + 1], fingerprinted[i])
  }

  // ---------------------------------------------------------------- bounds

  ghost predicate Bounded(s: State) {
    && |s.tools| <= 1024 && |s.init| <= 1024
    && forall id :: id in s.tools ==> id !in s.init
  }

  lemma RemovedSize<V>(m: map<string, V>, id: string)
    ensures |m - {id}| == if id in m then |m| - 1 else |m|
  {
    assert (m - {id}).Keys == m.Keys - {id};
    assert |m.Keys| == |m| && |(m - {id}).Keys| == |m - {id}|;
  }

  lemma AddedSize<V>(m: map<string, V>, id: string, v: V)
    ensures |m[id := v]| == if id in m then |m| else |m| + 1
  {
    assert m[id := v].Keys == m.Keys + {id};
    assert |m.Keys| == |m| && |m[id := v].Keys| == |m[id := v]|;
  }

  lemma NotedBounds<V>(m: map<string, V>, id: string, v: V, age: V -> int, n: map<string, V>)
    requires Noted(m, id, v, age, n) && |m| <= CAP
    ensures |n| <= CAP && id in n && n[id] == v
    ensures forall k :: k in n && k != id ==> k in m && n[k] == m[k]
    ensures !Full(m, id) ==> forall k :: k in m ==> k in n
  {
    if Full(m, id) {
      var oldest :| oldest in m && n == (m - {oldest})[id := v];
      RemovedSize(m, oldest);
      AddedSize(m - {oldest}, id, v);
    } else {
      AddedSize(m, id, v);
    }
  }

  lemma StepBounded(s: State, m: Msg, t: State, fp: bool)
    requires Bounded(s) && Step(s, m, t, fp)
    ensures Bounded(t)
  {
    if m.Frame? && m.parsed.id.Some? {
      var id := m.parsed.id.value;
      RemovedSize(s.tools, id);
      RemovedSize(s.init, id);
      if m.direction == C2s && m.parsed.verb.Some? {
        if m.parsed.verb == Some(TOOLS_LIST) {
          NotedBounds(s.tools, id, m.ts, ToolAge(), t.tools);
        }
        if m.parsed.verb == Some(INITIALIZE) {
          NotedBounds(s.init, id, Pending(m.ts, Proposed(m)), InitAge(), t.init);
        }
        assert |TOOLS_LIST| == |INITIALIZE| && TOOLS_LIST[0] == 't' && INITIALIZE[0] == 'i';
      }
    }
  }

  /** In every run both maps stay within 1024 ids and never share one. */
  lemma {:induction false} RunBounded(msgs: seq<Msg>, states: seq<State>, fps: seq<bool>, n: nat)
    requires IsRun(msgs, states, fps) && n <= |msgs|
    ensures Bounded(states[n])
  {
    if n > 0 {
      RunBounded(msgs, states, fps, n - 1);
      assert StepAt(msgs, states, fps, n - 1);
      StepBounded(states[n - 1], msgs[n - 1], states[n - 1 + 1], fps[n - 1]);
    }
  }

  // ---------------------------------------------------------------- which answers are awaited

  /**
   Before message `n`, message `j` is the latest client request on `id`, it is of this
   method, and no server frame without a method has come on the id since.
   */
  ghost predicate LatestAt(msgs: seq<Msg>, verb: string, n: nat, id: string, j: int)
    requires n <= |msgs|
  {
    && 0 <= j < n && RequestOf(msgs[j], verb, id)
    && forall k :: j < k < n ==> !Request(msgs[k], id) && !Answer(msgs[k], id)
  }

  ghost predicate Awaited(msgs: seq<Msg>, verb: string, n: nat, id: string)
    requires n <= |msgs|
  {
    exists j :: LatestAt(msgs, verb, n, id, j)
  }

  lemma LatestUnique(msgs: seq<Msg>, verb: string, n: nat, id: string, i: int, j: int)
    requires n <= |msgs| && LatestAt(msgs, verb, n, id, i) && LatestAt(msgs, verb, n, id, j)
    ensures i == j
  {
  }

  lemma AwaitedNext(msgs: seq<Msg>, verb: string, n: nat, id: string)
    requires n < |msgs|
    ensures Awaited(msgs, verb, n + 1, id) <==>
            RequestOf(msgs[n], verb, id)
                || (Awaited(msgs, verb, n, id) && !Request(msgs[n], id) && !Answer(msgs[n], id))
  {
    if RequestOf(msgs[n], verb, id) {
      assert LatestAt(msgs, verb, n + 1, id, n);
    } else if Awaited(msgs, verb, n + 1, id) {
      var j :| LatestAt(msgs, verb, n + 1, id, j);
      assert LatestAt(msgs, verb, n, id, j);
    }
    if Awaited(msgs, verb, n, id) && !Request(msgs[n], id) && !Answer(msgs[n], id) {
      var j :| LatestAt(msgs, verb, n, id, j);
      assert LatestAt(msgs, verb, n + 1, id, j);
    }
  }

  /** Noting this message would push an older id out of a full map. */
  ghost predicate EvictsTools(s: State, m: Msg) {
    exists id :: RequestOf(m, TOOLS_LIST, id) && Full(s.tools, id)
  }

  ghost predicate EvictsInit(s: State, m: Msg) {
    exists id :: RequestOf(m, INITIALIZE, id) && Full(s.init, id)
  }

  /** What one message does to the tracked tools/list ids. */
  lemma StepTools(s: State, m: Msg, t: State, fp: bool, id: string)
    requires Bounded(s) && Step(s, m, t, fp)
    ensures id in t.tools ==> RequestOf(m, TOOLS_LIST, id) || (id in s.tools && !Request(m, id) && !Answer(m, id))
    ensures RequestOf(m, TOOLS_LIST, id) ==> id in t.tools && t.tools[id] == m.ts
    ensures id in t.tools && !RequestOf(m, TOOLS_LIST, id) ==> t.tools[id] == s.tools[id]
    ensures !EvictsTools(s, m) && id in s.tools && !Request(m, id) && !Answer(m, id) ==> id in t.tools
  {
    if m.Frame? && m.parsed.id.Some? && RequestOf(m, TOOLS_LIST, m.parsed.id.value) {
      NotedBounds(s.tools, m.parsed.id.value, m.ts, ToolAge(), t.tools);
    } else if m.Frame? && m.parsed.id.Some? {
      assert t.tools == s.tools || t.tools == s.tools - {m.parsed.id.value};
    }
  }

  lemma StepInit(s: State, m: Msg, t: State, fp: bool, id: string)
    requires Bounded(s) && Step(s, m, t, fp)
    ensures id in t.init ==> RequestOf(m, INITIALIZE, id) || (id in s.init && !Request(m, id) && !Answer(m, id))
    ensures RequestOf(m, INITIALIZE, id) ==> id in t.init && t.init[id] == Pending(m.ts, Proposed(m))
    ensures id in t.init && !RequestOf(m, INITIALIZE, id) ==> t.init[id] == s.init[id]
    ensures !EvictsInit(s, m) && id in s.init && !Request(m, id) && !Answer(m, id) ==> id in t.init
  {
    if m.Frame? && m.direction == C2s && m.parsed.verb == Some(INITIALIZE) && m.parsed.id.Some? {
      NotedBounds(s.init, m.parsed.id.value, Pending(m.ts, Proposed(m)), InitAge(), t.init);
      assert RequestOf(m, INITIALIZE, m.parsed.id.value);
    }
  }

  lemma RunStepTools(msgs: seq<Msg>, states: seq<State>, fps: seq<bool>, n: nat, id: string)
    requires IsRun(msgs, states, fps) && n < |msgs|
    ensures id in states[n + 1].tools ==>
              RequestOf(msgs[n], TOOLS_LIST, id)
                  || (id in states[n].tools && !Request(msgs[n], id) && !Answer(msgs[n], id))
    ensures RequestOf(msgs[n], TOOLS_LIST, id) ==> id in states[n + 1].tools && states[n + 1].tools[id] == msgs[n].ts
    ensures id in states[n + 1].tools && !RequestOf(msgs[n], TOOLS_LIST, id) ==>
            states[n + 1].tools[id] == states[n].tools[id]
    ensures !EvictsTools(states[n], msgs[n]) && id in states[n].tools && !Request(msgs[n], id)
            && !Answer(msgs[n], id) ==>
              id in states[n + 1].tools
  {
    RunBounded(msgs, states, fps, n);
    assert StepAt(msgs, states, fps, n);
    StepTools(states[n], msgs[n], states[n + 1], fps[n], id);
  }

  lemma RunStepInit(msgs: seq<Msg>, states: seq<State>, fps: seq<bool>, n: nat, id: string)
    requires IsRun(msgs, states, fps) && n < |msgs|
    ensures id in states[n + 1].init ==>
              RequestOf(msgs[n], INITIALIZE, id)
                  || (id in states[n].init && !Request(msgs[n], id) && !Answer(msgs[n], id))
    ensures RequestOf(msgs[n], INITIALIZE, id) ==>
              id in states[n + 1].init && states[n + 1].init[id] == Pending(msgs[n].ts, Proposed(msgs[n]))
    ensures id in states[n + 1].init && !RequestOf(msgs[n], INITIALIZE, id) ==>
            states[n + 1].init[id] == states[n].init[id]
    ensures !EvictsInit(states[n], msgs[n]) && id in states[n].init && !Request(msgs[n], id) && !Answer(msgs[n], id) ==>
              id in states[n + 1].init
  {
    RunBounded(msgs, states, fps, n);
    assert StepAt(msgs, states, fps, n);
    StepInit(states[n], msgs[n], states[n + 1], fps[n], id);
  }

  ghost predicate NoToolsEviction(msgs: seq<Msg>, states: seq<State>, n: nat)
    requires n <= |msgs| && |states| == |msgs| + 1
  {
    forall i :: 0 <= i < n ==> !EvictsTools(states[i], msgs[i])
  }

  ghost predicate NoInitEviction(msgs: seq<Msg>, states: seq<State>, n: nat)
    requires n <= |msgs| && |states| == |msgs| + 1
  {
    forall i :: 0 <= i < n ==> !EvictsInit(states[i], msgs[i])
  }

  /** The tracked ids are awaited ones, and without eviction they are all of them. */
  lemma {:induction false} ToolsAreAwaited(msgs: seq<Msg>, states: seq<State>, fps: seq<bool>, n: nat, id: string)
    requires IsRun(msgs, states, fps) && n <= |msgs|
    ensures id in states[n].tools ==> Awaited(msgs, TOOLS_LIST, n, id)
    ensures NoToolsEviction(msgs, states, n) && Awaited(msgs, TOOLS_LIST, n, id) ==> id in states[n].tools
  {
    if n > 0 {
      ToolsAreAwaited(msgs, states, fps, n - 1, id);
      RunStepTools(msgs, states, fps, n - 1, id);
      AwaitedNext(msgs, TOOLS_LIST, n - 1, id);
    }
  }

  /** A frame that is a non-error answer on `id`. */
  predicate GoodAnswer(m: Msg, id: string) {
    Answer(m, id) && !IsError(m)
  }

  ghost predicate AnswersToolsList(msgs: seq<Msg>, n: nat)
    requires n < |msgs|
  {
    exists id :: GoodAnswer(msgs[n], id) && Awaited(msgs, TOOLS_LIST, n, id)
  }

  /**
   Exactly when a frame's tools are fingerprinted: it is a non-error server frame without a
   method whose id's latest client request was tools/list, unanswered since. Eviction can
   only suppress fingerprinting, never cause it.
   */
  lemma FingerprintedExactlyWhen(msgs: seq<Msg>, states: seq<State>, fps: seq<bool>, n: nat)
    requires IsRun(msgs, states, fps) && n < |msgs|
    ensures fps[n] ==> AnswersToolsList(msgs, n)
    ensures NoToolsEviction(msgs, states, n) ==> (fps[n] <==> AnswersToolsList(msgs, n))
  {
    assert StepAt(msgs, states, fps, n);
    if msgs[n].Frame? && msgs[n].parsed.id.Some? {
      var id := msgs[n].parsed.id.value;
      ToolsAreAwaited(msgs, states, fps, n, id);
      if fps[n] {
        assert GoodAnswer(msgs[n], id) && Awaited(msgs, TOOLS_LIST, n, id);
      }
    }
  }

  // ---------------------------------------------------------------- the initialize requests

  /** The latest request on `id` is an unanswered initialize that proposed this version. */
  ghost predicate AwaitsProposal(msgs: seq<Msg>, n: nat, id: string, proposed: Option<string>)
    requires n <= |msgs|
  {
    exists j :: LatestAt(msgs, INITIALIZE, n, id, j) && Proposed(msgs[j]) == proposed
  }

  lemma ProposalNext(msgs: seq<Msg>, n: nat, id: string, proposed: Option<string>)
    requires n < |msgs|
    ensures RequestOf(msgs[n], INITIALIZE, id) ==> AwaitsProposal(msgs, n + 1, id, Proposed(msgs[n]))
    ensures AwaitsProposal(msgs, n, id, proposed) && !Request(msgs[n], id) && !Answer(msgs[n], id) ==>
              AwaitsProposal(msgs, n + 1, id, proposed)
  {
    if RequestOf(msgs[n], INITIALIZE, id) {
      assert LatestAt(msgs, INITIALIZE, n + 1, id, n);
    }
    if AwaitsProposal(msgs, n, id, proposed) && !Request(msgs[n], id) && !Answer(msgs[n], id) {
      var j :| LatestAt(msgs, INITIALIZE, n, id, j) && Proposed(msgs[j]) == proposed;
      assert LatestAt(msgs, INITIALIZE, n + 1, id, j);
    }
  }

  /** A tracked initialize id is awaited, and carries what its latest request proposed. */
  lemma {:induction false} InitIsAwaited(msgs: seq<Msg>, states: seq<State>, fps: seq<bool>, n: nat, id: string)
    requires IsRun(msgs, states, fps) && n <= |msgs|
    ensures id in states[n].init ==> AwaitsProposal(msgs, n, id, states[n].init[id].proposed)
    ensures NoInitEviction(msgs, states, n) && Awaited(msgs, INITIALIZE, n, id) ==> id in states[n].init
  {
    if n > 0 {
      InitIsAwaited(msgs, states, fps, n - 1, id);
      RunStepInit(msgs, states, fps, n - 1, id);
      AwaitedNext(msgs, INITIALIZE, n - 1, id);
      if id in states[n].init {
        ProposalNext(msgs, n - 1, id, states[n].init[id].proposed);
      }
    }
  }

  /** Once recorded from an initialize handshake, the version never changes, evictions or not. */
  lemma {:induction false} InitializeIsFinal(msgs: seq<Msg>, states: seq<State>, fps: seq<bool>, i: nat, n: nat)
    requires IsRun(msgs, states, fps) && i <= n <= |msgs| && states[i].source == Initialize
    ensures states[n].source == Initialize && states[n].stored == states[i].stored
  {
    if i < n {
      InitializeIsFinal(msgs, states, fps, i, n - 1);
      assert StepAt(msgs, states, fps, n - 1);
    }
  }
}
