/**
 Which protocol version a session is recorded with: the first settling answer decides; failing
 one, the first header hint; failing both, nothing.
 */
module TapProtocol {
  import opened Common
  import opened Tap
  import opened TapLaws
  import opened TapEviction
  import opened TapRecency

  /** Says of two messages whether the one settles the version for the request that is the other. */
  type Settler = (int, int) -> bool

  /** Message `i` answers the initialize request `j` with a version, and its write succeeds. */
  ghost predicate Settles(msgs: seq<Msg>, i: nat, j: int)
    requires i < |msgs|
  {
    && msgs[i].Frame? && msgs[i].parsed.id.Some? && GoodAnswer(msgs[i], msgs[i].parsed.id.value)
    && Selected(msgs[i]).Some? && msgs[i].written
    && LatestAt(msgs, INITIALIZE, i, msgs[i].parsed.id.value, j)
  }

  /** The settling answers, as far as the trace goes. */
  ghost function FromTrace(msgs: seq<Msg>): Settler {
    (i: int, j: int) => 0 <= i < |msgs| && Settles(msgs, i, j)
  }

  /** The settling answers to requests that were not dropped from the pending map before. */
  ghost function FromRun(msgs: seq<Msg>, states: seq<State>): Settler
    requires |states| == |msgs| + 1
  {
    (i: int, j: int) => 0 <= i < |msgs| && Settles(msgs, i, j)
      && KeptSince(msgs, states, INITIALIZE, i, msgs[i].parsed.id.value, j)
  }

  /** The settling answers to requests that never had 1024 younger ones unanswered beside them. */
  ghost function FromRecent(msgs: seq<Msg>): Settler {
    (i: int, j: int) => 0 <= i < |msgs| && Settles(msgs, i, j)
      && Recent(msgs, INITIALIZE, i, msgs[i].parsed.id.value, j)
  }

  ghost predicate SomeSettles(settler: Settler, n: nat) {
    exists j :: settler(n, j)
  }

  /** The server's choice, paired with what the request proposed. */
  function Agreed(answer: Msg, request: Msg): Option<Protocol> {
    if Selected(answer).Some? then Some(Protocol(Selected(answer).value, Proposed(request), Initialize)) else None
  }

  predicate Hints(m: Msg) {
    m.Hint? && m.written
  }

  ghost predicate NoneSettles(settler: Settler, n: nat) {
    forall i, j :: 0 <= i < n ==> !settler(i, j)
  }

  ghost predicate NoneHints(msgs: seq<Msg>, n: nat)
    requires n <= |msgs|
  {
    forall i :: 0 <= i < n ==> !Hints(msgs[i])
  }

  ghost predicate SettledBy(msgs: seq<Msg>, settler: Settler, i: nat, stored: Option<Protocol>)
    requires i < |msgs|
  {
    forall j :: 0 <= j < i && settler(i, j) ==> stored == Agreed(msgs[i], msgs[j])
  }

  ghost predicate HintedBy(m: Msg, stored: Option<Protocol>) {
    Hints(m) ==> stored == Some(Protocol(m.version, None, Header))
  }

  /**
   The first settling answer, with its own request's proposal, decides; failing one, the first
   hint; failing both, nothing.
   */
  ghost predicate StoredRightly(msgs: seq<Msg>, settler: Settler, n: nat, stored: Option<Protocol>)
    requires n <= |msgs|
  {
    && (forall i :: 0 <= i < n && NoneSettles(settler, i) ==> SettledBy(msgs, settler, i, stored))
    && (NoneSettles(settler, n) ==> forall i :: 0 <= i < n && NoneHints(msgs, i) ==> HintedBy(msgs[i], stored))
    && (NoneSettles(settler, n) && NoneHints(msgs, n) ==> stored == None)
  }

  ghost predicate SourceRight(msgs: seq<Msg>, settler: Settler, n: nat, s: State)
    requires n <= |msgs|
  {
    && (s.source == Initialize <==> !NoneSettles(settler, n))
    && (s.source == Nothing <==> NoneSettles(settler, n) && NoneHints(msgs, n))
  }

  lemma NoneNext(msgs: seq<Msg>, settler: Settler, n: nat)
    requires n < |msgs|
    ensures NoneHints(msgs, n + 1) <==> NoneHints(msgs, n) && !Hints(msgs[n])
    ensures NoneSettles(settler, n + 1) <==> NoneSettles(settler, n) && !SomeSettles(settler, n)
  {
  }

  /** What one message does to the stored protocol. */
  ghost predicate StoreEffect(msgs: seq<Msg>, settler: Settler, n: nat, s: State, t: State)
    requires n < |msgs|
  {
    if s.source != Initialize && SomeSettles(settler, n)
    then t.source == Initialize && SettledBy(msgs, settler, n, t.stored)
    else if s.source == Nothing && Hints(msgs[n]) then t.source == Header && HintedBy(msgs[n], t.stored)
    else t.source == s.source && t.stored == s.stored
  }

  lemma SourceNext(msgs: seq<Msg>, settler: Settler, n: nat, s: State, t: State)
    requires n < |msgs| && SourceRight(msgs, settler, n, s) && StoreEffect(msgs, settler, n, s, t)
    requires Hints(msgs[n]) ==> !SomeSettles(settler, n)
    ensures SourceRight(msgs, settler, n + 1, t)
  {
    NoneNext(msgs, settler, n);
  }

  /** A later message leaves an earlier decision alone. */
  lemma FirstSettlerStays(msgs: seq<Msg>, settler: Settler, n: nat, s: State, t: State, i: nat)
    requires n < |msgs| && SourceRight(msgs, settler, n, s) && StoreEffect(msgs, settler, n, s, t)
    requires i < n && SettledBy(msgs, settler, i, s.stored)
    ensures SettledBy(msgs, settler, i, t.stored)
  {
    if SomeSettles(settler, i) {
      var j :| settler(i, j);
      assert !NoneSettles(settler, n);
    }
  }

  lemma FirstHintStays(msgs: seq<Msg>, settler: Settler, n: nat, s: State, t: State, i: nat)
    requires n < |msgs| && SourceRight(msgs, settler, n, s) && StoreEffect(msgs, settler, n, s, t)
             && !SomeSettles(settler, n)
    requires i < n && HintedBy(msgs[i], s.stored)
    ensures HintedBy(msgs[i], t.stored)
  {
    if Hints(msgs[i]) {
      assert !NoneHints(msgs, n);
    }
  }

  lemma HintsNext(msgs: seq<Msg>, settler: Settler, n: nat, s: State, t: State)
    requires n < |msgs| && SourceRight(msgs, settler, n, s) && StoredRightly(msgs, settler, n, s.stored)
             && StoreEffect(msgs, settler, n, s, t)
    ensures NoneSettles(settler, n + 1) ==> forall i :: 0 <= i < n + 1 && NoneHints(msgs, i) ==>
            HintedBy(msgs[i], t.stored)
  {
    NoneNext(msgs, settler, n);
    if NoneSettles(settler, n + 1) {
      forall i | 0 <= i < n + 1 && NoneHints(msgs, i)
        ensures HintedBy(msgs[i], t.stored)
      {
        if i < n {
          FirstHintStays(msgs, settler, n, s, t, i);
        }
      }
    }
  }

  lemma SettlerNow(msgs: seq<Msg>, settler: Settler, n: nat, s: State, t: State)
    requires n < |msgs| && SourceRight(msgs, settler, n, s) && StoreEffect(msgs, settler, n, s, t)
             && NoneSettles(settler, n)
    ensures SettledBy(msgs, settler, n, t.stored)
  {
    if !SomeSettles(settler, n) {
      assert forall j :: !settler(n, j);
    }
  }

  lemma SettlerKept(msgs: seq<Msg>, settler: Settler, n: nat, s: State, t: State, i: nat)
    requires n < |msgs| && SourceRight(msgs, settler, n, s) && StoredRightly(msgs, settler, n, s.stored)
             && StoreEffect(msgs, settler, n, s, t)
    requires i <= n && NoneSettles(settler, i)
    ensures SettledBy(msgs, settler, i, t.stored)
  {
    if i < n {
      FirstSettlerStays(msgs, settler, n, s, t, i);
    } else {
      SettlerNow(msgs, settler, n, s, t);
    }
  }

  lemma SettlersNext(msgs: seq<Msg>, settler: Settler, n: nat, s: State, t: State)
    requires n < |msgs| && SourceRight(msgs, settler, n, s) && StoredRightly(msgs, settler, n, s.stored)
             && StoreEffect(msgs, settler, n, s, t)
    ensures forall i :: 0 <= i < n + 1 && NoneSettles(settler, i) ==> SettledBy(msgs, settler, i, t.stored)
  {
    forall i | 0 <= i < n + 1 && NoneSettles(settler, i)
      ensures SettledBy(msgs, settler, i, t.stored)
    {
      SettlerKept(msgs, settler, n, s, t, i);
    }
  }

  lemma StoredNext(msgs: seq<Msg>, settler: Settler, n: nat, s: State, t: State)
    requires n < |msgs| && SourceRight(msgs, settler, n, s) && StoredRightly(msgs, settler, n, s.stored)
             && StoreEffect(msgs, settler, n, s, t)
    ensures StoredRightly(msgs, settler, n + 1, t.stored)
  {
    SettlersNext(msgs, settler, n, s, t);
    HintsNext(msgs, settler, n, s, t);
    NoneNext(msgs, settler, n);
  }

  // ---------------------------------------------------------------- the runs of the loop

  /** A pending initialize carries what its latest request proposed. */
  lemma PendingProposal(msgs: seq<Msg>, states: seq<State>, fps: seq<bool>, n: nat, id: string, j: int)
    requires IsRun(msgs, states, fps) && n <= |msgs| && id in states[n].init && LatestAt(msgs, INITIALIZE, n, id, j)
    ensures Proposed(msgs[j]) == states[n].init[id].proposed
  {
    InitIsAwaited(msgs, states, fps, n, id);
    var i :| LatestAt(msgs, INITIALIZE, n, id, i) && Proposed(msgs[i]) == states[n].init[id].proposed;
    LatestUnique(msgs, INITIALIZE, n, id, i, j);
  }

  /** A negotiating step is a settling answer, with that request's proposal. */
  lemma NegotiatesSettles(msgs: seq<Msg>, states: seq<State>, fps: seq<bool>, n: nat, id: string)
    requires IsRun(msgs, states, fps) && n < |msgs| && states[n].source != Initialize
    requires msgs[n].Frame? && msgs[n].parsed.id == Some(id) && Answer(msgs[n], id)
    ensures Negotiates(states[n], msgs[n], id) <==> SomeSettles(FromRun(msgs, states), n)
    ensures Negotiates(states[n], msgs[n], id) ==> SettledBy(msgs, FromRun(msgs, states), n, states[n + 1].stored)
  {
    assert TOOLS_LIST[0] != INITIALIZE[0];
    TrackedExactlyWhen(msgs, states, fps, INITIALIZE, n, id);
    if Negotiates(states[n], msgs[n], id) {
      var j :| KeptSince(msgs, states, INITIALIZE, n, id, j);
      assert FromRun(msgs, states)(n, j);
      assert StepAt(msgs, states, fps, n);
      forall k | 0 <= k < n && FromRun(msgs, states)(n, k)
        ensures states[n + 1].stored == Agreed(msgs[n], msgs[k])
      {
        PendingProposal(msgs, states, fps, n, id, k);
      }
    }
  }

  /** Only an answer can settle. */
  lemma SettlesIsAnswer(msgs: seq<Msg>, states: seq<State>, n: nat)
    requires |states| == |msgs| + 1 && n < |msgs|
    ensures SomeSettles(FromRun(msgs, states), n) ==>
              msgs[n].Frame? && msgs[n].parsed.id.Some? && Answer(msgs[n], msgs[n].parsed.id.value)
  {
  }

  lemma StepStored(msgs: seq<Msg>, states: seq<State>, fps: seq<bool>, n: nat)
    requires IsRun(msgs, states, fps) && n < |msgs|
    ensures StoreEffect(msgs, FromRun(msgs, states), n, states[n], states[n + 1])
  {
    assert StepAt(msgs, states, fps, n);
    SettlesIsAnswer(msgs, states, n);
    if msgs[n].Frame? && msgs[n].parsed.id.Some? && Answer(msgs[n], msgs[n].parsed.id.value) {
      if states[n].source != Initialize {
        NegotiatesSettles(msgs, states, fps, n, msgs[n].parsed.id.value);
      }
    }
  }

  /** What every run has stored: what the settling answers to requests still pending, and the hints, decide. */
  lemma {:induction false} ProtocolStored(msgs: seq<Msg>, states: seq<State>, fps: seq<bool>, n: nat)
    requires IsRun(msgs, states, fps) && n <= |msgs|
    ensures SourceRight(msgs, FromRun(msgs, states), n, states[n])
    ensures StoredRightly(msgs, FromRun(msgs, states), n, states[n].stored)
  {
    if n > 0 {
      ProtocolStored(msgs, states, fps, n - 1);
      StepStored(msgs, states, fps, n - 1);
      SettlesIsAnswer(msgs, states, n - 1);
      var settler := FromRun(msgs, states);
      SourceNext(msgs, settler, n - 1, states[n - 1], states[n - 1 + 1]);
      StoredNext(msgs, settler, n - 1, states[n - 1], states[n - 1 + 1]);
    }
  }

  // ---------------------------------------------------------------- from the trace alone

  /** Two settlers that agree on the first n messages decide alike. */
  lemma SettlersAgree(msgs: seq<Msg>, a: Settler, b: Settler, n: nat, s: State)
    requires n <= |msgs| && forall i, j :: 0 <= i < n ==> (a(i, j) <==> b(i, j))
    requires SourceRight(msgs, a, n, s) && StoredRightly(msgs, a, n, s.stored)
    ensures SourceRight(msgs, b, n, s) && StoredRightly(msgs, b, n, s.stored)
  {
    assert forall i :: 0 <= i <= n ==> (NoneSettles(a, i) <==> NoneSettles(b, i));
  }

  /** Without evictions every settling answer counts. */
  lemma ProtocolWithoutEviction(msgs: seq<Msg>, states: seq<State>, fps: seq<bool>, n: nat)
    requires IsRun(msgs, states, fps) && n <= |msgs| && NoInitEviction(msgs, states, n)
    ensures SourceRight(msgs, FromTrace(msgs), n, states[n])
    ensures StoredRightly(msgs, FromTrace(msgs), n, states[n].stored)
  {
    assert TOOLS_LIST[0] != INITIALIZE[0];
    ProtocolStored(msgs, states, fps, n);
    forall i: int, j: int | 0 <= i < n && Settles(msgs, i, j)
      ensures KeptSince(msgs, states, INITIALIZE, i, msgs[i].parsed.id.value, j)
    {
      NoEvictionBefore(msgs, states, INITIALIZE, i, n);
      KeptWithoutEviction(msgs, states, fps, INITIALIZE, i, msgs[i].parsed.id.value, j);
    }
    SettlersAgree(msgs, FromRun(msgs, states), FromTrace(msgs), n, states[n]);
  }

  /** While at most 1024 initialize requests are outstanding, every settling answer counts. */
  lemma ProtocolFromTrace(msgs: seq<Msg>, states: seq<State>, fps: seq<bool>, n: nat)
    requires IsRun(msgs, states, fps) && n <= |msgs| && FewAwaited(msgs, INITIALIZE, n)
    ensures SourceRight(msgs, FromTrace(msgs), n, states[n])
    ensures StoredRightly(msgs, FromTrace(msgs), n, states[n].stored)
  {
    assert TOOLS_LIST[0] != INITIALIZE[0];
    NoEvictionExactlyWhen(msgs, states, fps, INITIALIZE, n);
    ProtocolWithoutEviction(msgs, states, fps, n);
  }

  /** With initialize requests at increasing times, the trace alone says which answers count, evictions or not. */
  lemma ProtocolFromRecent(msgs: seq<Msg>, states: seq<State>, fps: seq<bool>, n: nat)
    requires IsRun(msgs, states, fps) && n <= |msgs| && Increasing(msgs, INITIALIZE, n)
    ensures SourceRight(msgs, FromRecent(msgs), n, states[n])
    ensures StoredRightly(msgs, FromRecent(msgs), n, states[n].stored)
  {
    ProtocolStored(msgs, states, fps, n);
    forall i: int, j: int | 0 <= i < n && Settles(msgs, i, j)
      ensures KeptSince(msgs, states, INITIALIZE, i, msgs[i].parsed.id.value, j)
         <==> Recent(msgs, INITIALIZE, i, msgs[i].parsed.id.value, j)
    {
      KeptExactlyWhenRecent(msgs, states, fps, INITIALIZE, i, msgs[i].parsed.id.value, j);
    }
    SettlersAgree(msgs, FromRun(msgs, states), FromRecent(msgs), n, states[n]);
  }
}
