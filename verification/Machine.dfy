/** Machines that read a sequence of inputs and emit outputs as they go. */
module Machine {
  import opened Sequences

  /** The state a step ends in and what it emitted. */
  datatype Run<S, E> = Run(state: S, out: seq<E>)

  /** One run followed by another that starts in its final state. */
  function Then<S, E>(first: Run<S, E>, second: Run<S, E>): Run<S, E> {
    Run(second.state, first.out + second.out)
  }

  function Fold<S, T, E>(step: (S, T) -> Run<S, E>, s: S, inputs: seq<T>): Run<S, E>
    decreases |inputs|
  {
    if inputs == [] then Run(s, [])
    else Then(step(s, inputs[0]), Fold(step, step(s, inputs[0]).state, inputs[1..]))
  }

  lemma ThenAssociates<S, E>(a: Run<S, E>, b: Run<S, E>, c: Run<S, E>)
    ensures Then(Then(a, b), c) == Then(a, Then(b, c))
  {
    AppendAssociates(a.out, b.out, c.out);
  }

  lemma {:induction false} FoldAppend<S, T, E>(step: (S, T) -> Run<S, E>, s: S, a: seq<T>, b: seq<T>)
    ensures Fold(step, s, a + b) == Then(Fold(step, s, a), Fold(step, Fold(step, s, a).state, b))
    decreases |a|
  {
    if a == [] {
      EmptyAppend(b);
      EmptyAppend(Fold(step, s, b).out);
    } else {
      FoldAppend(step, step(s, a[0]).state, a[1..], b);
      FirstOfAppend(a, b);
      ThenAssociates(step(s, a[0]), Fold(step, step(s, a[0]).state, a[1..]), Fold(step, Fold(step, s, a).state, b));
    }
  }

  lemma FoldOne<S, T, E>(step: (S, T) -> Run<S, E>, s: S, x: T)
    ensures Fold(step, s, [x]) == step(s, x)
  {
    EmptyAppend(step(s, x).out);
  }

  /** What a run emits on part of its input is where the whole output starts. */
  lemma FoldPrefix<S, T, E>(step: (S, T) -> Run<S, E>, s: S, a: seq<T>, b: seq<T>)
    ensures Fold(step, s, a).out <= Fold(step, s, a + b).out
  {
    FoldAppend(step, s, a, b);
  }

  /** Appending one input appends one step. */
  lemma FoldSnoc<S, T, E>(step: (S, T) -> Run<S, E>, s: S, a: seq<T>, x: T)
    ensures Fold(step, s, a + [x]) == Then(Fold(step, s, a), step(Fold(step, s, a).state, x))
  {
    FoldAppend(step, s, a, [x]);
    FoldOne(step, Fold(step, s, a).state, x);
  }
}
