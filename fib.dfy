/** The Fibonacci recurrence that the memoizing and profiling wrappers are applied to. */
module Fibonacci {

  /** `fib` on a natural number: both base cases return 1 and every other value is the sum
      of the two before it. Python's `n is 0` identity test on small integers is equality here. */
  function Fib(n: nat): (r: nat)
    ensures r >= 1
  {
    if n == 0 || n == 1 then 1 else Fib(n - 1) + Fib(n - 2)
  }
}
