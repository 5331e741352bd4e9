/** What the bound of the pending maps costs: when an id is evicted, and what an eviction suppresses. */
module TapEviction {
  import opened Common
  import opened Sequences
  import opened Tap
  import opened TapLaws

  /** The methods whose requests are tracked. */
  predicate TrackedVerb(verb: string) {
    verb == TOOLS_LIST || verb == INITIALIZE
  }

  function Ids(s: State, verb: string): set<string>
    requires TrackedVerb(verb)
  {
    if verb == TOOLS_LIST then s.tools.Keys else s.init.Keys
  }

  function AgeOf(s: State, verb: string, id: string): int
    requires TrackedVerb(verb) && id in Ids(s, verb)
  {
    if verb == TOOLS_LIST then s.tools[id] else s.init[id].ts
  }

  ghost predicate NoEviction(msgs: seq<Msg>, states: seq<State>, verb: string, n: nat)
    requires TrackedVerb(verb) && n <= |msgs| && |states| == |msgs| + 1
  {
    if verb == TOOLS_LIST then NoToolsEviction(msgs, states, n) else NoInitEviction(msgs, states, n)
  }

  /** Noting message i would push an older id of this method out. */
  ghost predicate Evicts(s: State, verb: string, m: Msg)
    requires TrackedVerb(verb)
  {
    exists id :: RequestOf(m, verb, id) && id !in Ids(s, verb) && |Ids(s, verb)| >= CAP
  }

  lemma EvictsEither(s: State, m: Msg)
    ensures Evicts(s, TOOLS_LIST, m) <==> EvictsTools(s, m)
    ensures Evicts(s, INITIALIZE, m) <==> EvictsInit(s, m)
  {
    assert |s.tools.Keys| == |s.tools| && |s.init.Keys| == |s.init|;
    assert TOOLS_LIST[0] != INITIALIZE[0];
  }

  /** What one message does to the tracked ids, whichever method. */
  lemma StepIds(msgs: seq<Msg>, states: seq<State>, fps: seq<bool>, verb: string, n: nat, id: string)
    requires TrackedVerb(verb) && IsRun(msgs, states, fps) && n < |msgs|
    ensures id in Ids(states[n + 1], verb) ==>
              RequestOf(msgs[n], verb, id)
                  || (id in Ids(states[n], verb) && !Request(msgs[n], id) && !Answer(msgs[n], id))
    ensures RequestOf(msgs[n], verb, id) ==>
              id in Ids(states[n + 1], verb) && AgeOf(states[n + 1], verb, id) == msgs[n].ts
    ensures id in Ids(states[n + 1], verb) && !RequestOf(msgs[n], verb, id) ==>
              AgeOf(states[n + 1], verb, id) == AgeOf(states[n], verb, id)
  {
    if verb == TOOLS_LIST {
      RunStepTools(msgs, states, fps, n, id);
    } else {
      RunStepInit(msgs, states, fps, n, id);
    }
  }

  /** Whichever method: tracked ids are awaited, and all of them without eviction. */
  lemma IdsAreAwaited(msgs: seq<Msg>, states: seq<State>, fps: seq<bool>, verb: string, n: nat, id: string)
    requires TrackedVerb(verb) && IsRun(msgs, states, fps) && n <= |msgs|
    ensures id in Ids(states[n], verb) ==> Awaited(msgs, verb, n, id)
    ensures NoEviction(msgs, states, verb, n) && Awaited(msgs, verb, n, id) ==> id in Ids(states[n], verb)
  {
    assert TOOLS_LIST[0] != INITIALIZE[0];
    if verb == TOOLS_LIST {
      ToolsAreAwaited(msgs, states, fps, n, id);
    } else {
      InitIsAwaited(msgs, states, fps, n, id);
      if id in states[n].init {
        var j :| LatestAt(msgs, INITIALIZE, n, id, j);
      }
    }
  }

  // ---------------------------------------------------------------- from the trace alone

  /** The ids awaited before message n. */
  ghost function AwaitedIds(msgs: seq<Msg>, verb: string, n: nat): set<string>
    requires n <= |msgs|
  {
    set i | 0 <= i < n && msgs[i].Frame? && msgs[i].parsed.id.Some?
        && Awaited(msgs, verb, n, msgs[i].parsed.id.value) ::
      msgs[i].parsed.id.value
  }

  lemma AwaitedIdsExactly(msgs: seq<Msg>, verb: string, n: nat, id: string)
    requires n <= |msgs|
    ensures id in AwaitedIds(msgs, verb, n) <==> Awaited(msgs, verb, n, id)
  {
    if Awaited(msgs, verb, n, id) {
      var j :| LatestAt(msgs, verb, n, id, j);
      assert msgs[j].parsed.id == Some(id);
    }
  }

  /** Never more than 1024 requests of this method were outstanding. */
  ghost predicate FewAwaited(msgs: seq<Msg>, verb: string, n: nat)
    requires n <= |msgs|
  {
    forall i :: 0 <= i <= n ==> |AwaitedIds(msgs, verb, i)| <= CAP
  }

  /** An eviction means that more than 1024 ids are awaited. */
  lemma EvictionNeedsMany(msgs: seq<Msg>, states: seq<State>, fps: seq<bool>, verb: string, n: nat)
    requires TrackedVerb(verb) && IsRun(msgs, states, fps) && n < |msgs| && Evicts(states[n], verb, msgs[n])
    ensures |AwaitedIds(msgs, verb, n + 1)| > CAP
  {
    var id :| RequestOf(msgs[n], verb, id) && id !in Ids(states[n], verb);
    var all := Ids(states[n], verb) + {id};
    forall k | k in all
      ensures k in AwaitedIds(msgs, verb, n + 1)
    {
      IdsAreAwaited(msgs, states, fps, verb, n, k);
      AwaitedNext(msgs, verb, n, k);
      AwaitedIdsExactly(msgs, verb, n + 1, k);
    }
    SubsetSize(all, AwaitedIds(msgs, verb, n + 1));
  }

  lemma IdsBounded(msgs: seq<Msg>, states: seq<State>, fps: seq<bool>, verb: string, n: nat)
    requires TrackedVerb(verb) && IsRun(msgs, states, fps) && n <= |msgs|
    ensures |Ids(states[n], verb)| <= CAP
  {
    RunBounded(msgs, states, fps, n);
    assert |states[n].tools.Keys| == |states[n].tools| && |states[n].init.Keys| == |states[n].init|;
  }

  lemma EvictionAt(msgs: seq<Msg>, states: seq<State>, verb: string, n: nat)
    requires TrackedVerb(verb) && n <= |msgs| && |states| == |msgs| + 1
    ensures NoEviction(msgs, states, verb, n) <==> forall i :: 0 <= i < n ==> !Evicts(states[i], verb, msgs[i])
  {
    forall i | 0 <= i < n {
      EvictsEither(states[i], msgs[i]);
    }
  }

  lemma NoEvictionBefore(msgs: seq<Msg>, states: seq<State>, verb: string, i: nat, n: nat)
    requires TrackedVerb(verb) && i <= n <= |msgs| && |states| == |msgs| + 1 && NoEviction(msgs, states, verb, n)
    ensures NoEviction(msgs, states, verb, i)
  {
  }

  /** Nothing is evicted exactly when never more than 1024 ids are awaited: a fact about the trace alone. */
  lemma NoEvictionExactlyWhen(msgs: seq<Msg>, states: seq<State>, fps: seq<bool>, verb: string, n: nat)
    requires TrackedVerb(verb) && IsRun(msgs, states, fps) && n <= |msgs|
    ensures NoEviction(msgs, states, verb, n) <==> FewAwaited(msgs, verb, n)
  {
    EvictionAt(msgs, states, verb, n);
    if FewAwaited(msgs, verb, n) {
      forall i | 0 <= i < n
        ensures !Evicts(states[i], verb, msgs[i])
      {
        if Evicts(states[i], verb, msgs[i]) {
          EvictionNeedsMany(msgs, states, fps, verb, i);
        }
      }
    }
    if NoEviction(msgs, states, verb, n) {
      forall i | 0 <= i <= n
        ensures |AwaitedIds(msgs, verb, i)| <= CAP
      {
        NoEvictionBefore(msgs, states, verb, i, n);
        forall id | id in AwaitedIds(msgs, verb, i)
          ensures id in Ids(states[i], verb)
        {
          AwaitedIdsExactly(msgs, verb, i, id);
          IdsAreAwaited(msgs, states, fps, verb, i, id);
        }
        SubsetSize(AwaitedIds(msgs, verb, i), Ids(states[i], verb));
        IdsBounded(msgs, states, fps, verb, i);
      }
    }
  }

  /** Which frames are fingerprinted, from the trace alone, while at most 1024 tools/list requests are outstanding. */
  lemma FingerprintedFromTrace(msgs: seq<Msg>, states: seq<State>, fps: seq<bool>, n: nat)
    requires IsRun(msgs, states, fps) && n < |msgs| && FewAwaited(msgs, TOOLS_LIST, n)
    ensures fps[n] <==> AnswersToolsList(msgs, n)
  {
    NoEvictionExactlyWhen(msgs, states, fps, TOOLS_LIST, n);
    FingerprintedExactlyWhen(msgs, states, fps, n);
  }

  // ---------------------------------------------------------------- with evictions

  /** Message k makes room for another id by dropping this one. */
  ghost predicate Dropped(msgs: seq<Msg>, states: seq<State>, verb: string, k: int, id: string)
    requires TrackedVerb(verb) && |states| == |msgs| + 1 && 0 <= k < |msgs|
  {
    && id in Ids(states[k], verb) && id !in Ids(states[k + 1], verb)
    && !Request(msgs[k], id) && !Answer(msgs[k], id)
  }

  /** One of the oldest entries goes, and `id` comes. */
  ghost predicate Replaced<V>(m: map<string, V>, out: string, id: string, age: V -> int, n: map<string, V>) {
    && out in m && id !in m && |m| >= CAP && n.Keys == m.Keys - {out} + {id}
    && forall k :: k in m ==> age(m[out]) <= age(m[k])
  }

  lemma NotedDrops<V>(m: map<string, V>, id: string, v: V, age: V -> int, n: map<string, V>, out: string)
    requires Noted(m, id, v, age, n) && out in m && out !in n
    ensures Replaced(m, out, id, age, n)
  {
    assert Full(m, id);
    var oldest :| oldest in m && (forall k :: k in m ==> age(m[oldest]) <= age(m[k])) && n == (m - {oldest})[id := v];
    assert out == oldest;
  }

  /** Only a full map drops an id, and only for a new request of its own method; the id is one of the oldest. */
  lemma DroppedIsOldest(msgs: seq<Msg>, states: seq<State>, fps: seq<bool>, verb: string, k: nat, id: string)
    returns (noted: string)
    requires TrackedVerb(verb) && IsRun(msgs, states, fps) && k < |msgs| && Dropped(msgs, states, verb, k, id)
    ensures Evicts(states[k], verb, msgs[k]) && RequestOf(msgs[k], verb, noted) && noted !in Ids(states[k], verb)
    ensures Ids(states[k + 1], verb) == Ids(states[k], verb) - {id} + {noted}
    ensures forall other :: other in Ids(states[k], verb) ==>
              AgeOf(states[k], verb, id) <= AgeOf(states[k], verb, other)
    ensures |Ids(states[k + 1], verb)| == CAP
  {
    assert StepAt(msgs, states, fps, k);
    StepIds(msgs, states, fps, verb, k, id);
    IdsBounded(msgs, states, fps, verb, k);
    var m, s, t := msgs[k], states[k], states[k + 1];
    assert |s.tools.Keys| == |s.tools| && |s.init.Keys| == |s.init|;
    assert TOOLS_LIST[0] != INITIALIZE[0];
    noted := m.parsed.id.value;
    if verb == TOOLS_LIST {
      NotedDrops(s.tools, noted, m.ts, ToolAge(), t.tools, id);
    } else {
      NotedDrops(s.init, noted, Pending(m.ts, Proposed(m)), InitAge(), t.init, id);
    }
  }

  /** The id is awaited since message j, and was not dropped after it. */
  ghost predicate KeptSince(msgs: seq<Msg>, states: seq<State>, verb: string, n: nat, id: string, j: int)
    requires TrackedVerb(verb) && |states| == |msgs| + 1 && n <= |msgs|
  {
    LatestAt(msgs, verb, n, id, j) && forall k :: j < k < n ==> !Dropped(msgs, states, verb, k, id)
  }

  /** Whatever is evicted, an id is tracked exactly when it is awaited and was not dropped itself since its request. */
  lemma {:induction false} TrackedExactlyWhen(
    msgs: seq<Msg>, states: seq<State>, fps: seq<bool>, verb: string, n: nat, id: string)
    requires TrackedVerb(verb) && IsRun(msgs, states, fps) && n <= |msgs|
    ensures id in Ids(states[n], verb) <==> exists j :: KeptSince(msgs, states, verb, n, id, j)
  {
    if n > 0 {
      TrackedExactlyWhen(msgs, states, fps, verb, n - 1, id);
      StepIds(msgs, states, fps, verb, n - 1, id);
      if id in Ids(states[n], verb) {
        if RequestOf(msgs[n - 1], verb, id) {
          assert KeptSince(msgs, states, verb, n, id, n - 1);
        } else {
          var j :| KeptSince(msgs, states, verb, n - 1, id, j);
          assert KeptSince(msgs, states, verb, n, id, j);
        }
      }
      if j :| KeptSince(msgs, states, verb, n, id, j) {
        KeptBefore(msgs, states, fps, verb, n, id, j);
      }
    }
  }

  lemma KeptBefore(msgs: seq<Msg>, states: seq<State>, fps: seq<bool>, verb: string, n: nat, id: string, j: int)
    requires TrackedVerb(verb) && IsRun(msgs, states, fps) && 0 < n <= |msgs| && KeptSince(msgs, states, verb, n, id, j)
    ensures j == n - 1 || (KeptSince(msgs, states, verb, n - 1, id, j) && !Dropped(msgs, states, verb, n - 1, id))
  {
  }

  /** Without evictions nothing is dropped: every awaited id is kept. */
  lemma KeptWithoutEviction(
    msgs: seq<Msg>, states: seq<State>, fps: seq<bool>, verb: string, n: nat, id: string, j: int)
    requires TrackedVerb(verb) && IsRun(msgs, states, fps) && n <= |msgs|
    requires NoEviction(msgs, states, verb, n) && LatestAt(msgs, verb, n, id, j)
    ensures KeptSince(msgs, states, verb, n, id, j)
  {
    IdsAreAwaited(msgs, states, fps, verb, n, id);
    TrackedExactlyWhen(msgs, states, fps, verb, n, id);
    var i :| KeptSince(msgs, states, verb, n, id, i);
    LatestUnique(msgs, verb, n, id, i, j);
  }

  /**
   With evictions: a frame is fingerprinted exactly when it is a non-error answer on an id whose
   tools/list request is unanswered and was not itself dropped since.
   */
  lemma FingerprintedDespiteEviction(msgs: seq<Msg>, states: seq<State>, fps: seq<bool>, n: nat)
    requires IsRun(msgs, states, fps) && n < |msgs|
    ensures fps[n] <==> exists id, j :: GoodAnswer(msgs[n], id) && KeptSince(msgs, states, TOOLS_LIST, n, id, j)
  {
    assert StepAt(msgs, states, fps, n);
    if msgs[n].Frame? && msgs[n].parsed.id.Some? {
      TrackedExactlyWhen(msgs, states, fps, TOOLS_LIST, n, msgs[n].parsed.id.value);
    }
  }
}
