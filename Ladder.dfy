/** The indentation ladder: the column count for each logical depth. */
module Ladder {
  import opened FibonacciNumbers

  /**
   * `getFibonacciSpacesForDepth(depth)` as a value: 0 columns at depth 0 and
   * twice F(depth + 1) otherwise, so the ladder reads 0, 2, 4, 6, 10, 16, 26, ...
   * Every rung is even and at least twice its depth.
   */
  function Spaces(depth: nat): (w: nat)
    ensures w % 2 == 0
    ensures w >= 2 * depth
  {
    if depth == 0 then 0 else FibAtLeastIndex(depth); 2 * Fib(depth + 1)
  }

  /** `getFibonacciSpacesForDepth` statement by statement, calling the iterative `fibonacci`. */
  method GetSpacesForDepth(depth: nat) returns (w: nat)
    ensures w == Spaces(depth)
  {
    if depth == 0 {
      return 0;
    }
    var multiplier := 2;
    var fibIndex := depth + 1;
    var f := Fibonacci(fibIndex);
    return f * multiplier;
  }

  /** The first rungs of the ladder. */
  lemma FirstRungs()
    ensures Spaces(0) == 0 && Spaces(1) == 2 && Spaces(2) == 4
    ensures Spaces(3) == 6 && Spaces(4) == 10 && Spaces(5) == 16
  {
  }

  /** Each rung is strictly wider than the one below it, including the step from depth 0 to depth 1. */
  lemma SpacesStep(depth: nat)
    ensures Spaces(depth) < Spaces(depth + 1)
  {
    if depth >= 1 {
      FibIncreasing(depth + 1);
    }
  }

  /** The ladder is strictly increasing: a deeper depth always has more columns. */
  lemma {:induction false} SpacesIncreasing(d: nat, e: nat)
    requires d < e
    ensures Spaces(d) < Spaces(e)
  {
    SpacesStep(e - 1);
    if d < e - 1 {
      SpacesIncreasing(d, e - 1);
    }
  }

  /** Comparing widths on the ladder is the same as comparing depths, in both directions. */
  lemma SpacesOrder(d: nat, e: nat)
    ensures Spaces(d) < Spaces(e) <==> d < e
    ensures Spaces(d) == Spaces(e) <==> d == e
  {
    if d < e {
      SpacesIncreasing(d, e);
    } else if e < d {
      SpacesIncreasing(e, d);
    }
  }
}
