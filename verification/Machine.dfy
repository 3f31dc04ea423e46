/** Runs of a step function that can fail, over inputs that arrive in pieces. */
module Machine {
  import opened Wrappers

  datatype Outcome<S, E> = Failed | Stepped(state: S, events: seq<E>)

  /** Events up to the end or the first failure, and the state if there was none. */
  datatype Run<S, E> = Ran(events: seq<E>, state: Option<S>)

  function Extend<S, E>(before: Run<S, E>, o: Outcome<S, E>): Run<S, E> {
    match o
    case Failed => Ran(before.events, None)
    case Stepped(s, events) => Ran(before.events + events, Some(s))
  }

  function RunAll<S, I, E>(f: (S, I) -> Outcome<S, E>, s: S, inputs: seq<I>): Run<S, E> {
    if inputs == [] then Ran([], Some(s)) else
      var before := RunAll(f, s, inputs[..|inputs| - 1]);
      if before.state.None? then before else Extend(before, f(before.state.value, inputs[|inputs| - 1]))
  }

  lemma RunNext<S, I, E>(f: (S, I) -> Outcome<S, E>, s: S, inputs: seq<I>, n: nat)
    requires n < |inputs| && RunAll(f, s, inputs[..n]).state.Some?
    ensures RunAll(f, s, inputs[..n + 1])
         == Extend(RunAll(f, s, inputs[..n]), f(RunAll(f, s, inputs[..n]).state.value, inputs[n]))
  {
    assert inputs[..n + 1][..n] == inputs[..n];
  }

  /** A failure ends the run. */
  lemma {:induction false} RunStops<S, I, E>(f: (S, I) -> Outcome<S, E>, s: S, inputs: seq<I>, m: nat, n: nat)
    requires m <= n <= |inputs| && RunAll(f, s, inputs[..m]).state.None?
    ensures RunAll(f, s, inputs[..n]) == RunAll(f, s, inputs[..m])
  {
    if m < n {
      RunStops(f, s, inputs, m, n - 1);
      assert inputs[..n][..n - 1] == inputs[..n - 1];
    }
  }

  function Then<S, I, E>(f: (S, I) -> Outcome<S, E>, r: Run<S, E>, more: seq<I>): Run<S, E> {
    if r.state.None? then r else
      var rest := RunAll(f, r.state.value, more);
      Ran(r.events + rest.events, rest.state)
  }

  /** Running two pieces one after the other is running their concatenation. */
  lemma {:induction false} RunConcat<S, I, E>(f: (S, I) -> Outcome<S, E>, s: S, a: seq<I>, b: seq<I>)
    ensures RunAll(f, s, a + b) == Then(f, RunAll(f, s, a), b)
  {
    if b == [] {
      assert a + b == a;
    } else {
      RunConcat(f, s, a, b[..|b| - 1]);
      assert (a + b)[..|a + b| - 1] == a + b[..|b| - 1];
    }
  }
}
