/**
 The fault injector: counted, probabilistic rules over one xorshift64* generator that both
 pumps share.

 A probability is a real and a draw a whole number over 2^53, as a draw is exactly in the
 source. Which rule fires is defined by looking at every rule on its own: its draw comes from
 the generator advanced once for each eligible uncertain rule before it.
 */
module Inject {
  import opened Common
  import opened Sequences
  import Policy
  import PolicyFrames
  import Routes

  // ---------------------------------------------------------------- xorshift64*

  function Right12(x: bv64): bv64 { x ^ (x >> 12) }
  function Left25(x: bv64): bv64 { x ^ (x << 25) }
  function Right27(x: bv64): bv64 { x ^ (x >> 27) }

  /** xorshift needs a non-zero state. */
  function Seeded(seed: bv64): bv64 {
    if seed == 0 then 0x9E37_79B9_7F4A_7C15 else seed
  }

  function NextState(x: bv64): bv64 {
    Right27(Left25(Right12(x)))
  }

  /** The top 53 bits of the scrambled state. */
  function Top53(state: bv64): bv53 {
    ((state * 0x2545_F491_4F6C_DD1D) >> 11) as bv53
  }

  /** A draw in units of 2^-53. */
  function Draw(state: bv64): (d: int)
    ensures 0 <= d < 0x20_0000_0000_0000
  {
    Top53(state) as int
  }

  lemma ShiftsKeepNonZero(x: bv64)
    requires x != 0
    ensures Right12(x) != 0 && Left25(x) != 0 && Right27(x) != 0
  {
  }

  lemma NextNonZero(x: bv64)
    requires x != 0
    ensures NextState(x) != 0
  {
    ShiftsKeepNonZero(x);
    ShiftsKeepNonZero(Right12(x));
    ShiftsKeepNonZero(Left25(Right12(x)));
  }

  /** The state after `n` steps. */
  function Advance(x: bv64, n: nat): bv64 {
    if n == 0 then x else NextState(Advance(x, n - 1))
  }

  lemma {:induction false} AdvanceNonZero(x: bv64, n: nat)
    requires x != 0
    ensures Advance(x, n) != 0
  {
    if n > 0 {
      AdvanceNonZero(x, n - 1);
      NextNonZero(Advance(x, n - 1));
    }
  }

  // ---------------------------------------------------------------- rules

  datatype InjectDirection = C2s | S2c

  datatype Fault = Delay(ms: nat) | Error(code: int, message: string) | Drop | Truncate(bytes: nat)

  datatype Rule = Rule(
    name: string, direction: InjectDirection, filter: Option<string>, probability: real, maxTriggers: Option<nat>,
    fault: Fault)

  /** One frame: where it travels, and its method if it has one. */
  datatype Frame = Frame(direction: InjectDirection, verb: Option<string>)

  datatype InjectHit = InjectHit(name: string, fault: Fault)

  /** The counters, one a rule, and the generator. */
  datatype State = State(counts: seq<nat>, rng: bv64)

  /** What loading a file guarantees about its rules. */
  predicate Loaded(rules: seq<Rule>) {
    forall i :: 0 <= i < |rules| ==>
      0.0 <= rules[i].probability <= 1.0 && rules[i].name == "rules[" + Routes.Decimal(i) + "]"
  }

  predicate Fits(rules: seq<Rule>, s: State) {
    |s.counts| == |rules|
  }

  predicate VerbMatches(rule: Rule, verb: Option<string>) {
    rule.filter.Some? ==> verb.Some? && Policy.MatchesRule(rule.filter.value, verb.value)
  }

  predicate Eligible(rule: Rule, count: nat, frame: Frame) {
    && rule.direction == frame.direction
    && VerbMatches(rule, frame.verb)
    && (rule.maxTriggers.Some? ==> count < rule.maxTriggers.value)
  }

  predicate Certain(rule: Rule) {
    rule.probability >= 1.0
  }

  /** A draw as a number in [0, 1): divided by 2^53. */
  function Fraction(draw: int): real {
    draw as real / 9007199254740992.0
  }

  /** Whether a roll against this rule's probability succeeds. */
  predicate Succeeds(rule: Rule, state: bv64) {
    Fraction(Draw(state)) < rule.probability
  }

  predicate MustRoll(rule: Rule, count: nat, frame: Frame) {
    Eligible(rule, count, frame) && !Certain(rule)
  }

  /** How many of the first `n` rules have to roll for this frame. */
  function Rolls(rules: seq<Rule>, counts: seq<nat>, frame: Frame, n: nat): nat
    requires n <= |rules| == |counts|
  {
    if n == 0 then 0
    else
      Rolls(rules, counts, frame, n - 1) +
      if MustRoll(rules[n - 1], counts[n - 1], frame) then 1 else 0
  }

  /** Rule i would fire if no rule before it did. */
  predicate Fires(rules: seq<Rule>, s: State, frame: Frame, i: nat)
    requires Fits(rules, s) && i < |rules|
  {
    Eligible(rules[i], s.counts[i], frame) &&
    (Certain(rules[i]) || Succeeds(rules[i], Advance(s.rng, Rolls(rules, s.counts, frame, i + 1))))
  }

  function FirstFiring(rules: seq<Rule>, s: State, frame: Frame, from: nat): (k: nat)
    requires Fits(rules, s) && from <= |rules|
    ensures from <= k <= |rules|
    ensures k < |rules| ==> Fires(rules, s, frame, k)
    ensures forall i :: from <= i < k ==> !Fires(rules, s, frame, i)
    decreases |rules| - from
  {
    if from == |rules| || Fires(rules, s, frame, from) then from else FirstFiring(rules, s, frame, from + 1)
  }

  /** Position of the rule that fires, or |rules|. */
  function Hit(rules: seq<Rule>, s: State, frame: Frame): (k: nat)
    requires Fits(rules, s)
    ensures k <= |rules|
    ensures k < |rules| ==> Fires(rules, s, frame, k)
    ensures forall i :: 0 <= i < k ==> !Fires(rules, s, frame, i)
  {
    FirstFiring(rules, s, frame, 0)
  }

  predicate NoneFires(rules: seq<Rule>, s: State, frame: Frame, n: nat)
    requires Fits(rules, s) && n <= |rules|
  {
    forall i :: 0 <= i < n ==> !Fires(rules, s, frame, i)
  }

  lemma HitIs(rules: seq<Rule>, s: State, frame: Frame, k: nat)
    requires Fits(rules, s) && k <= |rules| && NoneFires(rules, s, frame, k)
    requires k < |rules| ==> Fires(rules, s, frame, k)
    ensures Hit(rules, s, frame) == k
  {
  }

  /** Where the generator is once rule i has had its chance, and what decides whether it fires. */
  lemma RollsNext(rules: seq<Rule>, s: State, frame: Frame, i: nat)
    requires Fits(rules, s) && i < |rules|
    ensures var before := Advance(s.rng, Rolls(rules, s.counts, frame, i));
            var now := Advance(s.rng, Rolls(rules, s.counts, frame, i + 1));
            && now == (if MustRoll(rules[i], s.counts[i], frame) then NextState(before) else before)
            && Fires(rules, s, frame, i)
               == (Eligible(rules[i], s.counts[i], frame) && (Certain(rules[i]) || Succeeds(rules[i], now)))
  {
  }

  /** The state after a frame: one more hit of the rule that fired, one step for each roll made. */
  function After(rules: seq<Rule>, s: State, frame: Frame): (r: State)
    requires Fits(rules, s)
    ensures Fits(rules, r)
  {
    var k := Hit(rules, s, frame);
    if k == |rules| then State(s.counts, Advance(s.rng, Rolls(rules, s.counts, frame, k)))
    else State(s.counts[k := s.counts[k] + 1], Advance(s.rng, Rolls(rules, s.counts, frame, k + 1)))
  }

  // ---------------------------------------------------------------- the injector

  class Injector {
    const rules: seq<Rule>
    var counts: seq<nat>
    var rng: bv64

    ghost function Now(): State
      reads this
    {
      State(counts, rng)
    }

    ghost predicate Valid()
      reads this
    {
      Fits(rules, Now())
    }

    constructor (rules: seq<Rule>, seed: bv64)
      ensures Valid() && this.rules == rules
      ensures Now() == State(seq(|rules|, i => 0), Seeded(seed))
    {
      this.rules := rules;
      counts := seq(|rules|, i => 0);
      rng := if seed == 0 then 0x9E37_79B9_7F4A_7C15 else seed;
    }

    method NextDraw() returns (draw: int)
      modifies this`rng
      ensures rng == NextState(old(rng)) && draw == Draw(rng)
    {
      var x := rng;
      x := Right12(x);
      x := Left25(x);
      x := Right27(x);
      rng := x;
      return Draw(x);
    }

    /** A certain rule draws nothing. */
    method Roll(rule: Rule) returns (hit: bool)
      modifies this`rng
      ensures rng == if Certain(rule) then old(rng) else NextState(old(rng))
      ensures hit == (Certain(rule) || Succeeds(rule, rng))
    {
      hit := true;
      if rule.probability < 1.0 {
        var draw := NextDraw();
        hit := !(Fraction(draw) >= rule.probability);
      }
    }

    /** Gives one rule its chance at a frame. */
    method Try(i: nat, frame: Frame) returns (fired: bool)
      requires Valid() && i < |rules|
      modifies this
      ensures rng == if MustRoll(rules[i], old(counts[i]), frame) then NextState(old(rng)) else old(rng)
      ensures fired == (Eligible(rules[i], old(counts[i]), frame) && (Certain(rules[i]) || Succeeds(rules[i], rng)))
      ensures counts == if fired then old(counts)[i := old(counts[i]) + 1] else old(counts)
    {
      fired := false;
      if Eligible(rules[i], counts[i], frame) {
        fired := Roll(rules[i]);
      }
      if fired {
        counts := counts[i := counts[i] + 1];
      }
    }

    /** Rules in file order; an exhausted rule is transparent and a missed roll lets a later rule try. */
    method Decide(frame: Frame) returns (hit: Option<InjectHit>)
      requires Valid()
      modifies this
      ensures Valid() && Now() == After(rules, old(Now()), frame)
      ensures var k := Hit(rules, old(Now()), frame);
              hit == if k == |rules| then None else Some(InjectHit(rules[k].name, rules[k].fault))
    {
      ghost var start := Now();
      var i := 0;
      while i < |rules|
        invariant 0 <= i <= |rules| && Valid() && start == old(Now())
        invariant Now() == State(start.counts, Advance(start.rng, Rolls(rules, start.counts, frame, i)))
        invariant NoneFires(rules, start, frame, i)
      {
        RollsNext(rules, start, frame, i);
        var fired := Try(i, frame);
        if fired {
          HitIs(rules, start, frame, i);
          return Some(InjectHit(rules[i].name, rules[i].fault));
        }
        i := i + 1;
      }
      HitIs(rules, start, frame, i);
      return None;
    }
  }

  // ---------------------------------------------------------------- runs

  /** The position of the rule each frame hit, |rules| for none. */
  function Hits(rules: seq<Rule>, s: State, frames: seq<Frame>): seq<nat>
    requires Fits(rules, s)
    decreases |frames|
  {
    if frames == [] then [] else [Hit(rules, s, frames[0])] + Hits(rules, After(rules, s, frames[0]), frames[1..])
  }

  function AfterAll(rules: seq<Rule>, s: State, frames: seq<Frame>): (r: State)
    requires Fits(rules, s)
    ensures Fits(rules, r)
    decreases |frames|
  {
    if frames == [] then s else AfterAll(rules, After(rules, s, frames[0]), frames[1..])
  }

  function Times(hits: seq<nat>, i: nat): nat {
    multiset(hits)[i]
  }

  predicate WithinLimits(rules: seq<Rule>, s: State) {
    Fits(rules, s) &&
    forall i :: 0 <= i < |rules| && rules[i].maxTriggers.Some? ==> s.counts[i] <= rules[i].maxTriggers.value
  }

  /**
   In every run, from both directions in any order: each counter has grown by the times its
   rule fired, no counter passes its limit, and the generator's state is never zero.
   */
  lemma {:induction false} RunCounts(rules: seq<Rule>, s: State, frames: seq<Frame>, i: nat)
    requires WithinLimits(rules, s) && s.rng != 0 && i < |rules|
    ensures var after := AfterAll(rules, s, frames);
            && after.counts[i] == s.counts[i] + Times(Hits(rules, s, frames), i)
            && WithinLimits(rules, after)
            && after.rng != 0
    decreases |frames|
  {
    if frames != [] {
      var k, next := Hit(rules, s, frames[0]), After(rules, s, frames[0]);
      AdvanceNonZero(s.rng, Rolls(rules, s.counts, frames[0], if k == |rules| then k else k + 1));
      RunCounts(rules, next, frames[1..], i);
      TimesFirst(k, Hits(rules, next, frames[1..]), i);
    }
  }

  lemma TimesFirst(k: nat, hits: seq<nat>, i: nat)
    ensures Times([k] + hits, i) == Times(hits, i) + if k == i then 1 else 0
  {
    assert multiset([k] + hits) == multiset{k} + multiset(hits);
  }

  lemma {:induction false} CertainNeverRoll(rules: seq<Rule>, counts: seq<nat>, frame: Frame, n: nat)
    requires n <= |rules| == |counts| && forall i :: 0 <= i < |rules| ==> Certain(rules[i])
    ensures Rolls(rules, counts, frame, n) == 0
  {
    if n > 0 {
      CertainNeverRoll(rules, counts, frame, n - 1);
    }
  }

  /** A file of certain rules never advances the generator. */
  lemma {:induction false} CertainRulesAreReproducible(rules: seq<Rule>, s: State, frames: seq<Frame>)
    requires Fits(rules, s) && forall i :: 0 <= i < |rules| ==> Certain(rules[i])
    ensures AfterAll(rules, s, frames).rng == s.rng
    decreases |frames|
  {
    if frames != [] {
      var k := Hit(rules, s, frames[0]);
      CertainNeverRoll(rules, s.counts, frames[0], if k == |rules| then k else k + 1);
      CertainRulesAreReproducible(rules, After(rules, s, frames[0]), frames[1..]);
    }
  }

  /** The frames a rule's direction and filter accept. */
  function Accepted(rule: Rule, frames: seq<Frame>): nat {
    if frames == [] then 0
    else
      (if rule.direction == frames[0].direction && VerbMatches(rule, frames[0].verb) then 1 else 0)
      + Accepted(rule, frames[1..])
  }

  /** A certain first rule fires on every frame it accepts until its limit is reached. */
  lemma {:induction false} FirstRuleFiresUpToItsLimit(rules: seq<Rule>, s: State, frames: seq<Frame>)
    requires Fits(rules, s) && rules != [] && Certain(rules[0])
    requires rules[0].maxTriggers.Some? ==> s.counts[0] <= rules[0].maxTriggers.value
    ensures var all := s.counts[0] + Accepted(rules[0], frames);
            AfterAll(rules, s, frames).counts[0] ==
            if rules[0].maxTriggers.Some? && rules[0].maxTriggers.value < all then rules[0].maxTriggers.value else all
    decreases |frames|
  {
    if frames != [] {
      assert Fires(rules, s, frames[0], 0) == Eligible(rules[0], s.counts[0], frames[0]);
      FirstRuleFiresUpToItsLimit(rules, After(rules, s, frames[0]), frames[1..]);
    }
  }

  /** The name in a hit identifies the rule. */
  lemma NamesIdentifyRules(rules: seq<Rule>, i: nat, j: nat)
    requires Loaded(rules) && i < |rules| && j < |rules| && rules[i].name == rules[j].name
    ensures i == j
  {
    var a, b := Routes.Decimal(i), Routes.Decimal(j);
    AppendAssociates("rules[", a, "]");
    AppendAssociates("rules[", b, "]");
    AppendCancels("rules[", a + "]", b + "]");
    assert a == (a + "]")[..|a + "]"| - 1] && b == (b + "]")[..|b + "]"| - 1];
    Routes.DecimalInjective(i, j);
  }

  // ---------------------------------------------------------------- one rule, one frame

  /** What a single uncertain rule draws for a frame. */
  function DrawFor(s: State): int {
    Draw(NextState(s.rng))
  }

  /**
   The frame is of the rule's direction, its method is covered by the filter if there is one, and
   there is a trigger left.
   */
  ghost predicate Wanted(rule: Rule, count: nat, frame: Frame) {
    && rule.direction == frame.direction
    && (rule.filter == None || exists verb :: frame.verb == Some(verb) && PolicyFrames.Covers(rule.filter.value, verb))
    && (rule.maxTriggers == None || count < rule.maxTriggers.value)
  }

  lemma WantedExactly(rule: Rule, count: nat, frame: Frame)
    ensures Eligible(rule, count, frame) <==> Wanted(rule, count, frame)
  {
    if rule.filter.Some? && frame.verb.Some? {
      PolicyFrames.CoversExactly(rule.filter.value, frame.verb.value);
    }
  }

  /**
   When the only rule of a file fires: the frame is one it wants, and either its probability is at
   least one, and then nothing is drawn, or the draw is below the probability's share of 2^53. A
   frame it does not want leaves everything as it is.
   */
  lemma OneRuleFiresExactlyWhen(rule: Rule, s: State, frame: Frame)
    requires |s.counts| == 1
    ensures var fires := Hit([rule], s, frame) == 0;
            var wanted, sure := Wanted(rule, s.counts[0], frame), rule.probability >= 1.0;
            && (fires <==> wanted && (sure || DrawFor(s) as real < rule.probability * 9007199254740992.0))
            && After([rule], s, frame) == State([s.counts[0] + if fires then 1 else 0],
                                                if wanted && !sure then NextState(s.rng) else s.rng)
  {
    WantedExactly(rule, s.counts[0], frame);
    assert Rolls([rule], s.counts, frame, 1)
        == Rolls([rule], s.counts, frame, 0) + (if MustRoll(rule, s.counts[0], frame) then 1 else 0);
    assert Advance(s.rng, 1) == NextState(Advance(s.rng, 0));
    FractionBelow(DrawFor(s), rule.probability);
    assert Fires([rule], s, frame, 0) == (Hit([rule], s, frame) == 0);
    assert s.counts[0 := s.counts[0] + 1] == [s.counts[0] + 1];
    assert s.counts == [s.counts[0]];
  }

  lemma FractionBelow(draw: int, p: real)
    ensures Fraction(draw) < p <==> draw as real < p * 9007199254740992.0
  {
  }

  /** The first draws of three generators, as any implementation of xorshift64* gives them. */
  lemma KnownDraws()
    ensures NextState(1) == 0x2000001 && Draw(NextState(1)) == 2529537253518747
    ensures NextState(0x0123_4567_89AB_CDEF) == 0xA69CF1E9AA4D68FC && Draw(0xA69CF1E9AA4D68FC) == 4383273046611662
    ensures Seeded(0) == 0x9E37_79B9_7F4A_7C15 && NextState(Seeded(0)) == 0x3F721DFFE39B342
            && Draw(0x3F721DFFE39B342) == 475497915171881
  {
  }
}
