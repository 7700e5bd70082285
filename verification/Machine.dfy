/** Runs of a state machine: a schedule is any sequence of steps, and a step that is not enabled changes nothing. */
module Machine {

  function Run<S, E>(next: (S, E) -> S, s: S, schedule: seq<E>): S
    decreases |schedule|
  {
    if schedule == [] then s
    else next(Run(next, s, schedule[..|schedule| - 1]), schedule[|schedule| - 1])
  }

  lemma RunOne<S, E>(next: (S, E) -> S, s: S, schedule: seq<E>, step: E)
    ensures Run(next, s, schedule + [step]) == next(Run(next, s, schedule), step)
  {
    assert (schedule + [step])[..|schedule|] == schedule;
  }

  /** One step more, when the state it is made in and the one it leads to are known. */
  lemma Then<S, E>(next: (S, E) -> S, s0: S, schedule: seq<E>, s: S, step: E, s': S) returns (longer: seq<E>)
    requires Run(next, s0, schedule) == s && next(s, step) == s'
    ensures longer == schedule + [step] && Run(next, s0, longer) == s'
  {
    longer := schedule + [step];
    RunOne(next, s0, schedule, step);
  }

  lemma RunTwo<S, E>(next: (S, E) -> S, s: S, a: E, b: E)
    ensures Run(next, s, [a]) == next(s, a)
    ensures Run(next, s, [a, b]) == next(next(s, a), b)
  {
    RunOne(next, s, [], a);
    RunOne(next, s, [a], b);
    assert [] + [a] == [a] && [a] + [b] == [a, b];
  }

  lemma RunThree<S, E>(next: (S, E) -> S, s: S, a: E, b: E, c: E)
    ensures Run(next, s, [a, b, c]) == next(next(next(s, a), b), c)
  {
    RunTwo(next, s, a, b);
    RunOne(next, s, [a, b], c);
    assert [a, b] + [c] == [a, b, c];
    hide Run;
  }

  lemma RunFour<S, E>(next: (S, E) -> S, s: S, a: E, b: E, c: E, d: E)
    ensures Run(next, s, [a, b, c, d]) == next(next(next(next(s, a), b), c), d)
  {
    RunThree(next, s, a, b, c);
    RunOne(next, s, [a, b, c], d);
    assert [a, b, c] + [d] == [a, b, c, d];
    hide Run;
  }

  lemma {:induction false} RunJoin<S, E>(next: (S, E) -> S, s: S, a: seq<E>, b: seq<E>)
    ensures Run(next, s, a + b) == Run(next, Run(next, s, a), b)
    decreases |b|
  {
    if b == [] {
      assert a + b == a;
    } else {
      var front := b[..|b| - 1];
      RunJoin(next, s, a, front);
      assert (a + b)[..|a + b| - 1] == a + front;
    }
  }
}
