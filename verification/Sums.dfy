/** Finite sums over the first `n` indices. */
module Sums {

  function Sum(n: nat, f: nat -> int): int {
    if n == 0 then 0 else Sum(n - 1, f) + f(n - 1)
  }

  lemma {:induction false} SumSame(n: nat, f: nat -> int, g: nat -> int)
    requires forall k: nat :: k < n ==> f(k) == g(k)
    ensures Sum(n, f) == Sum(n, g)
  {
    if n > 0 {
      SumSame(n - 1, f, g);
    }
  }

  lemma {:induction false} SumPlus(n: nat, f: nat -> int, g: nat -> int, h: nat -> int)
    requires forall k: nat :: k < n ==> h(k) == f(k) + g(k)
    ensures Sum(n, h) == Sum(n, f) + Sum(n, g)
  {
    if n > 0 {
      SumPlus(n - 1, f, g, h);
    }
  }

  lemma {:induction false} SumZero(n: nat, f: nat -> int)
    requires forall k: nat :: k < n ==> f(k) == 0
    ensures Sum(n, f) == 0
  {
    if n > 0 {
      SumZero(n - 1, f);
    }
  }

  /** A column that grows by a term at every index has grown by their sum. */
  lemma {:induction false} Telescopes(n: nat, column: nat -> int, f: nat -> int)
    requires forall k: nat :: k < n ==> column(k + 1) == column(k) + f(k)
    ensures column(n) == column(0) + Sum(n, f)
  {
    if n > 0 {
      Telescopes(n - 1, column, f);
      assert column((n - 1) + 1) == column(n - 1) + f(n - 1);
    }
  }

  /** Two sums that differ at one index. */
  lemma {:induction false} SumChange(n: nat, f: nat -> int, g: nat -> int, at: nat)
    requires at < n && forall k: nat :: k < n && k != at ==> f(k) == g(k)
    ensures Sum(n, g) == Sum(n, f) + (g(at) - f(at))
  {
    if at == n - 1 {
      SumSame(n - 1, f, g);
    } else {
      SumChange(n - 1, f, g, at);
    }
  }

  /** A sum of terms that are never negative is at least each of them. */
  lemma {:induction false} SumBounds(n: nat, f: nat -> int)
    requires forall k: nat :: k < n ==> f(k) >= 0
    ensures Sum(n, f) >= 0
    ensures forall k: nat :: k < n ==> f(k) <= Sum(n, f)
  {
    if n > 0 {
      SumBounds(n - 1, f);
    }
  }
}
