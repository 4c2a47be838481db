/** The nearest-Fibonacci search: walk consecutive Fibonacci numbers until one
    reaches the input, then return whichever of the last two is closer, the
    larger on a tie. */
module Fib {

  /** The Fibonacci numbers 0, 1, 1, 2, 3, 5, ... */
  ghost function Fibonacci(k: nat): nat
  {
    if k < 2 then k else Fibonacci(k - 1) + Fibonacci(k - 2)
  }

  /** From index 1 on the sequence is non-decreasing. */
  lemma {:induction false} FibonacciMonotone(i: nat, j: nat)
    requires 1 <= i <= j
    ensures Fibonacci(i) <= Fibonacci(j)
    decreases j - i
  {
    if i < j {
      FibonacciMonotone(i, j - 1);
      if j >= 2 {
        assert Fibonacci(j) == Fibonacci(j - 1) + Fibonacci(j - 2);
      }
    }
  }

  /** |m - n|, computed as in the source by negating a negative difference. */
  function Difference(n: int, m: int): (d: int)
    ensures d >= 0
    ensures d == m - n || d == n - m
  {
    var diff := m - n;
    if diff < 0 then -diff else diff
  }

  lemma DifferenceSymmetric(n: int, m: int)
    ensures Difference(n, m) == Difference(m, n)
  {
  }

  /** Inputs whose search stays inside a 32-bit int: the last Fibonacci number
      visited is below twice the input. */
  const MaxInput: int := 0x3FFF_FFFF

  method Fib(userInput: int) returns (r: int)
    requires userInput <= MaxInput
    ensures userInput <= 1 ==> r == userInput
    ensures userInput > 1 ==> exists k: nat :: k >= 1 && r == Fibonacci(k)
    ensures userInput > 1 ==> forall k: nat :: k >= 1 ==>
      Difference(r, userInput) <= Difference(Fibonacci(k), userInput)
    ensures userInput > 1 ==> forall k: nat :: k >= 1 && Difference(Fibonacci(k), userInput) == Difference(r, userInput) ==>
      Fibonacci(k) <= r
  {
    var fibInt := 1;
    var previousFibInt := 1;
    if userInput <= 1 {
      return userInput;
    }
    ghost var n: nat := 1;
    while fibInt < userInput
      invariant n >= 1 && previousFibInt == Fibonacci(n) && fibInt == Fibonacci(n + 1)
      invariant 1 <= previousFibInt < userInput
      invariant fibInt < 2 * userInput
      decreases userInput - fibInt
    {
      var temp := fibInt;
      fibInt := fibInt + previousFibInt;
      previousFibInt := temp;
      n := n + 1;
    }
    // previousFibInt < userInput <= fibInt, and every other Fibonacci number
    // lies at or below the first or at or above the second.
    forall k: nat | k >= 1
      ensures Fibonacci(k) <= previousFibInt || Fibonacci(k) >= fibInt
    {
      if k <= n {
        FibonacciMonotone(k, n);
      } else {
        FibonacciMonotone(n + 1, k);
      }
    }
    if Difference(fibInt, userInput) > Difference(previousFibInt, userInput) {
      r := previousFibInt;
    } else if Difference(fibInt, userInput) < Difference(previousFibInt, userInput) {
      r := fibInt;
    } else {
      r := fibInt;
    }
  }
}
