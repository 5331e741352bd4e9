/**
 Which requests survive the bound of the pending maps, when their times strictly increase:
 the 1024 most recent ones, a fact about the trace alone.
 */
module TapRecency {
  import opened Common
  import opened Sequences
  import opened Tap
  import opened TapLaws
  import opened TapEviction

  /** Requests of this method come at strictly increasing times. */
  ghost predicate Increasing(msgs: seq<Msg>, verb: string, n: nat)
    requires n <= |msgs|
  {
    forall i, j, id, other :: 0 <= i < j < n && RequestOf(msgs[i], verb, id) && RequestOf(msgs[j], verb, other) ==>
      msgs[i].ts < msgs[j].ts
  }

  /** Before message k, the awaited ids whose latest request came after message j. */
  ghost function Younger(msgs: seq<Msg>, verb: string, k: nat, j: int): set<string>
    requires k <= |msgs|
  {
    set id | id in AwaitedIds(msgs, verb, k) && exists i :: j < i && LatestAt(msgs, verb, k, id, i)
  }

  lemma YoungerExactly(msgs: seq<Msg>, verb: string, k: nat, j: int, id: string)
    requires k <= |msgs|
    ensures id in Younger(msgs, verb, k, j) <==> exists i :: j < i && LatestAt(msgs, verb, k, id, i)
  {
    AwaitedIdsExactly(msgs, verb, k, id);
  }

  /** The id is awaited since message j, and never had 1024 younger ones beside it. */
  ghost predicate Recent(msgs: seq<Msg>, verb: string, n: nat, id: string, j: int)
    requires n <= |msgs|
  {
    LatestAt(msgs, verb, n, id, j) && forall k :: j < k <= n ==> |Younger(msgs, verb, k, j)| < CAP
  }

  lemma LatestBefore(msgs: seq<Msg>, verb: string, n: nat, id: string, j: int, k: int)
    requires n <= |msgs| && LatestAt(msgs, verb, n, id, j) && j < k <= n
    ensures LatestAt(msgs, verb, k, id, j)
  {
  }

  /** A tracked id carries the time of its latest request. */
  lemma {:induction false} AgeIsLatest(
    msgs: seq<Msg>, states: seq<State>, fps: seq<bool>, verb: string, n: nat, id: string, j: int)
    requires TrackedVerb(verb) && IsRun(msgs, states, fps) && n <= |msgs|
    requires LatestAt(msgs, verb, n, id, j) && id in Ids(states[n], verb)
    ensures AgeOf(states[n], verb, id) == msgs[j].ts
  {
    StepIds(msgs, states, fps, verb, n - 1, id);
    if j < n - 1 {
      AgeIsLatest(msgs, states, fps, verb, n - 1, id, j);
    }
  }

  /** An id that is tracked now was tracked all the time since its latest request. */
  lemma {:induction false} TrackedSince(
    msgs: seq<Msg>, states: seq<State>, fps: seq<bool>, verb: string, n: nat, id: string, j: int, k: int)
    requires TrackedVerb(verb) && IsRun(msgs, states, fps) && n <= |msgs|
    requires LatestAt(msgs, verb, n, id, j) && id in Ids(states[n], verb) && j < k <= n
    ensures LatestAt(msgs, verb, k, id, j) && id in Ids(states[k], verb)
  {
    if k < n {
      StepIds(msgs, states, fps, verb, n - 1, id);
      TrackedSince(msgs, states, fps, verb, n - 1, id, j, k);
    }
  }

  /** Oldest first: a dropped id is older than every other id tracked beside it. */
  lemma DroppedIsOlder(
    msgs: seq<Msg>, states: seq<State>, fps: seq<bool>, verb: string, k: nat, id: string, j: int, other: string, i: int)
    requires TrackedVerb(verb) && IsRun(msgs, states, fps) && k < |msgs| && Increasing(msgs, verb, k)
    requires Dropped(msgs, states, verb, k, id) && LatestAt(msgs, verb, k, id, j)
    requires other != id && other in Ids(states[k], verb) && LatestAt(msgs, verb, k, other, i)
    ensures j < i
  {
    var _ := DroppedIsOldest(msgs, states, fps, verb, k, id);
    AgeIsLatest(msgs, states, fps, verb, k, id, j);
    AgeIsLatest(msgs, states, fps, verb, k, other, i);
  }

  /** While an id is tracked, so is every younger one. */
  lemma {:induction false} YoungerTracked(
    msgs: seq<Msg>, states: seq<State>, fps: seq<bool>, verb: string, n: nat, id: string, j: int, other: string, i: int)
    requires TrackedVerb(verb) && IsRun(msgs, states, fps) && n <= |msgs| && Increasing(msgs, verb, n)
    requires LatestAt(msgs, verb, n, id, j) && id in Ids(states[n], verb)
    requires LatestAt(msgs, verb, n, other, i) && j < i
    ensures other in Ids(states[n], verb)
  {
    StepIds(msgs, states, fps, verb, n - 1, other);
    if i < n - 1 {
      StepIds(msgs, states, fps, verb, n - 1, id);
      YoungerTracked(msgs, states, fps, verb, n - 1, id, j, other, i);
      if other !in Ids(states[n], verb) {
        DroppedIsOlder(msgs, states, fps, verb, n - 1, other, i, id, j);
        assert false;
      }
    }
  }

  /** A tracked id has fewer than 1024 younger ones beside it. */
  lemma TrackedHasFewYounger(
    msgs: seq<Msg>, states: seq<State>, fps: seq<bool>, verb: string, n: nat, id: string, j: int)
    requires TrackedVerb(verb) && IsRun(msgs, states, fps) && n <= |msgs| && Increasing(msgs, verb, n)
    requires LatestAt(msgs, verb, n, id, j) && id in Ids(states[n], verb)
    ensures |Younger(msgs, verb, n, j)| < CAP
  {
    var younger := Younger(msgs, verb, n, j);
    forall other | other in younger
      ensures other in Ids(states[n], verb) && other != id
    {
      var i :| j < i && LatestAt(msgs, verb, n, other, i);
      YoungerTracked(msgs, states, fps, verb, n, id, j, other, i);
    }
    SubsetSize(younger + {id}, Ids(states[n], verb));
    IdsBounded(msgs, states, fps, verb, n);
  }

  /** When an id is dropped, the 1024 ids tracked after it are all younger. */
  lemma DroppedHasManyYounger(
    msgs: seq<Msg>, states: seq<State>, fps: seq<bool>, verb: string, k: nat, id: string, j: int)
    requires TrackedVerb(verb) && IsRun(msgs, states, fps) && k < |msgs| && Increasing(msgs, verb, k)
    requires Dropped(msgs, states, verb, k, id) && LatestAt(msgs, verb, k, id, j)
    ensures |Younger(msgs, verb, k + 1, j)| >= CAP
  {
    var noted := DroppedIsOldest(msgs, states, fps, verb, k, id);
    var after := Ids(states[k + 1], verb);
    forall other | other in after
      ensures other in Younger(msgs, verb, k + 1, j)
    {
      IdsAreAwaited(msgs, states, fps, verb, k + 1, other);
      var i :| LatestAt(msgs, verb, k + 1, other, i);
      if other != noted {
        StepIds(msgs, states, fps, verb, k, other);
        DroppedIsOlder(msgs, states, fps, verb, k, id, j, other, i);
      }
      YoungerExactly(msgs, verb, k + 1, j, other);
    }
    SubsetSize(after, Younger(msgs, verb, k + 1, j));
  }

  /** An id was kept since message j exactly when it never had 1024 younger ones. */
  lemma KeptExactlyWhenRecent(
    msgs: seq<Msg>, states: seq<State>, fps: seq<bool>, verb: string, n: nat, id: string, j: int)
    requires TrackedVerb(verb) && IsRun(msgs, states, fps) && n <= |msgs| && Increasing(msgs, verb, n)
    ensures KeptSince(msgs, states, verb, n, id, j) <==> Recent(msgs, verb, n, id, j)
  {
    if KeptSince(msgs, states, verb, n, id, j) {
      TrackedExactlyWhen(msgs, states, fps, verb, n, id);
      forall k | j < k <= n
        ensures |Younger(msgs, verb, k, j)| < CAP
      {
        TrackedSince(msgs, states, fps, verb, n, id, j, k);
        TrackedHasFewYounger(msgs, states, fps, verb, k, id, j);
      }
    }
    if Recent(msgs, verb, n, id, j) {
      forall k | j < k < n
        ensures !Dropped(msgs, states, verb, k, id)
      {
        if Dropped(msgs, states, verb, k, id) {
          DroppedHasManyYounger(msgs, states, fps, verb, k, id, j);
          assert false;
        }
      }
    }
  }

  /**
   Which ids are tracked, from the trace alone: those awaited with never 1024 younger
   awaited ids beside them.
   */
  lemma TrackedFromTrace(msgs: seq<Msg>, states: seq<State>, fps: seq<bool>, verb: string, n: nat, id: string)
    requires TrackedVerb(verb) && IsRun(msgs, states, fps) && n <= |msgs| && Increasing(msgs, verb, n)
    ensures id in Ids(states[n], verb) <==> exists j :: Recent(msgs, verb, n, id, j)
  {
    TrackedExactlyWhen(msgs, states, fps, verb, n, id);
    forall j: int
      ensures KeptSince(msgs, states, verb, n, id, j) <==> Recent(msgs, verb, n, id, j)
    {
      KeptExactlyWhenRecent(msgs, states, fps, verb, n, id, j);
    }
  }

  /** Which frames are fingerprinted, from the trace alone, evictions or not. */
  lemma FingerprintedIfRecent(msgs: seq<Msg>, states: seq<State>, fps: seq<bool>, n: nat)
    requires IsRun(msgs, states, fps) && n < |msgs| && Increasing(msgs, TOOLS_LIST, n)
    ensures fps[n] <==> exists id, j :: GoodAnswer(msgs[n], id) && Recent(msgs, TOOLS_LIST, n, id, j)
  {
    FingerprintedDespiteEviction(msgs, states, fps, n);
    forall id, j: int
      ensures KeptSince(msgs, states, TOOLS_LIST, n, id, j) <==> Recent(msgs, TOOLS_LIST, n, id, j)
    {
      KeptExactlyWhenRecent(msgs, states, fps, TOOLS_LIST, n, id, j);
    }
  }
}
