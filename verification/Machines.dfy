/** Machines that take one input at a time and report. */
module Machines {

  /** All inputs one after the other, and all reports in order. */
  function Run<S, I, O>(step: (S, I) -> (S, seq<O>), s: S, input: seq<I>): (S, seq<O>)
    decreases |input|
  {
    if input == [] then (s, [])
    else
      var (s1, o1) := step(s, input[0]);
      var (s2, o2) := Run(step, s1, input[1..]);
      (s2, o1 + o2)
  }

  /** Two runs one after the other are one. */
  lemma {:induction false} RunJoin<S, I, O>(step: (S, I) -> (S, seq<O>), s: S, a: seq<I>, b: seq<I>)
    ensures var (s1, o1) := Run(step, s, a); var (s2, o2) := Run(step, s1, b);
            Run(step, s, a + b) == (s2, o1 + o2)
    decreases |a|
  {
    if a == [] {
      assert a + b == b;
      assert [] + Run(step, s, b).1 == Run(step, s, b).1;
    } else {
      assert (a + b)[1..] == a[1..] + b;
      var (s1, o1) := step(s, a[0]);
      RunJoin(step, s1, a[1..], b);
      var (s2, o2) := Run(step, s1, a[1..]);
      var (s3, o3) := Run(step, s2, b);
      assert o1 + (o2 + o3) == (o1 + o2) + o3;
    }
  }
}
