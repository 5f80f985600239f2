/** Sums over sequences, and the effect on them of changing one element. */
module Sums {

  function SumBy<T>(f: T -> int, xs: seq<T>): int {
    if xs == [] then 0 else f(xs[0]) + SumBy(f, xs[1..])
  }

  lemma {:induction false} SumByUpdate<T>(f: T -> int, xs: seq<T>, i: nat, x: T)
    requires i < |xs|
    ensures SumBy(f, xs[i := x]) == SumBy(f, xs) - f(xs[i]) + f(x)
  {
    if i == 0 {
      assert xs[i := x][1..] == xs[1..];
    } else {
      assert xs[i := x][1..] == xs[1..][i - 1 := x];
      SumByUpdate(f, xs[1..], i - 1, x);
    }
  }

  lemma {:induction false} SumByZero<T>(f: T -> int, xs: seq<T>)
    requires forall x <- xs :: f(x) >= 0
    ensures SumBy(f, xs) >= 0
    ensures SumBy(f, xs) == 0 <==> forall x <- xs :: f(x) == 0
  {
    if xs != [] {
      SumByZero(f, xs[1..]);
      assert forall x <- xs :: x == xs[0] || x in xs[1..];
    }
  }

  // ----- Sums over the numbers below n -----

  function Total(f: nat -> nat, n: nat): nat {
    if n == 0 then 0 else Total(f, n - 1) + f(n - 1)
  }

  function Union<T>(f: nat -> multiset<T>, n: nat): multiset<T> {
    if n == 0 then multiset{} else Union(f, n - 1) + f(n - 1)
  }

  /** One summand more. */
  lemma {:induction false} TotalStep(f: nat -> nat, g: nat -> nat, s: nat, v: nat, n: nat)
    requires forall w: nat :: g(w) == f(w) + if w == s then v else 0
    ensures Total(g, n) == Total(f, n) + if s < n then v else 0
  {
    if n > 0 {
      TotalStep(f, g, s, v, n - 1);
    }
  }

  lemma {:induction false} UnionStep<T>(f: nat -> multiset<T>, g: nat -> multiset<T>, s: nat, v: multiset<T>, n: nat)
    requires forall w: nat :: g(w) == if w == s then f(w) + v else f(w)
    ensures Union(g, n) == if s < n then Union(f, n) + v else Union(f, n)
  {
    if n > 0 {
      UnionStep(f, g, s, v, n - 1);
    }
  }

  lemma {:induction false} TotalZero(f: nat -> nat, n: nat)
    requires forall w: nat :: f(w) == 0
    ensures Total(f, n) == 0
  {
    if n > 0 {
      TotalZero(f, n - 1);
    }
  }

  lemma {:induction false} UnionEmpty<T>(f: nat -> multiset<T>, n: nat)
    requires forall w: nat :: f(w) == multiset{}
    ensures Union(f, n) == multiset{}
  {
    if n > 0 {
      UnionEmpty(f, n - 1);
    }
  }

  /** Of n summands none above 1, the sum is n exactly when all are 1. */
  lemma {:induction false} TotalOnes(f: nat -> nat, n: nat)
    requires forall w: nat :: w < n ==> f(w) <= 1
    ensures Total(f, n) <= n
    ensures Total(f, n) == n <==> forall w: nat :: w < n ==> f(w) == 1
  {
    if n > 0 {
      TotalOnes(f, n - 1);
    }
  }
}
