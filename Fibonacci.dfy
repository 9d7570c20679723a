/** The Fibonacci numbers behind the indentation ladder, and the two-accumulator loop that computes them. */
module FibonacciNumbers {

  /** F(0) = 0, F(1) = 1 and F(n) = F(n - 1) + F(n - 2): the sequence 0, 1, 1, 2, 3, 5, 8, ... */
  function Fib(n: nat): (f: nat)
  {
    if n <= 1 then n else Fib(n - 1) + Fib(n - 2)
  }

  /** `fibonacci(n)`: n itself for n <= 1, otherwise a loop over i = 2 .. n that keeps the last two values. */
  method Fibonacci(n: nat) returns (r: nat)
    ensures r == Fib(n)
  {
    if n <= 1 {
      return n;
    }
    var a, b := 0, 1;
    for i := 2 to n + 1
      // before step i, a and b hold F(i - 2) and F(i - 1); after it, F(i - 1) and F(i)
      invariant a == Fib(i - 2) && b == Fib(i - 1)
    {
      var temp := a + b;
      a := b;
      b := temp;
    }
    return b;
  }

  /** Every Fibonacci number from index 1 on is positive. */
  lemma {:induction false} FibPositive(n: nat)
    requires n >= 1
    ensures Fib(n) >= 1
  {
    if n >= 3 {
      FibPositive(n - 1);
    }
  }

  /** From index 2 on the sequence strictly increases (F(1) = F(2) is the one repeat). */
  lemma FibIncreasing(n: nat)
    requires n >= 2
    ensures Fib(n) < Fib(n + 1)
  {
    FibPositive(n - 1);
  }

  /** F(n + 1) >= n for n >= 1: the sequence grows at least linearly. */
  lemma {:induction false} FibAtLeastIndex(n: nat)
    requires n >= 1
    ensures Fib(n + 1) >= n
  {
    if n >= 3 {
      FibAtLeastIndex(n - 1);
      FibAtLeastIndex(n - 2);
    }
  }
}
