// Definitions shared by the whole project: options and sums over sequences.
module Prelude {

  datatype Option<+T> = None | Some(value: T)

  function Pow2(n: nat): (r: nat)
    ensures r > 0
  {
    if n == 0 then 1 else 2 * Pow2(n - 1)
  }

  lemma Reassociate<T>(xs: seq<T>, ys: seq<T>, zs: seq<T>)
    ensures xs + (ys + zs) == xs + ys + zs
  {}

  lemma LastOfConcat<T>(xs: seq<T>, ys: seq<T>)
    requires ys != []
    ensures ys == ys[..|ys| - 1] + [ys[|ys| - 1]] && xs + ys == xs + ys[..|ys| - 1] + [ys[|ys| - 1]]
  {}

  type byte = x: int | 0 <= x < 256

  lemma MulLess(m: nat, a: int, b: int)
    requires a < b
    ensures m * a + m <= m * b
  {
    assert m * (a + 1) <= m * b;
  }

  // A number written with its quotient and remainder.
  lemma DivModIs(x: nat, m: nat, t: int, r: nat)
    requires x == m * t + r && r < m
    ensures x / m == t && x % m == r
  {
    var q := x / m;
    assert x == m * q + x % m;
    if t < q { MulLess(m, t, q); }
    if q < t { MulLess(m, q, t); }
  }

  // The sum of f over a sequence.
  function Total<T>(f: T -> nat, xs: seq<T>): nat {
    if xs == [] then 0 else Total(f, xs[..|xs| - 1]) + f(xs[|xs| - 1])
  }

  lemma {:induction false} TotalUpdate<T>(f: T -> nat, xs: seq<T>, i: nat, x: T)
    requires i < |xs|
    ensures Total(f, xs[i := x]) + f(xs[i]) == Total(f, xs) + f(x)
  {
    var n := |xs| - 1;
    if i < n {
      TotalUpdate(f, xs[..n], i, x);
      assert xs[i := x][..n] == xs[..n][i := x];
    } else {
      assert xs[i := x][..n] == xs[..n];
    }
  }

  lemma TotalSame<T>(f: T -> nat, xs: seq<T>, ys: seq<T>)
    requires |xs| == |ys|
    requires forall i | 0 <= i < |xs| :: f(xs[i]) == f(ys[i])
    ensures Total(f, xs) == Total(f, ys)
  {
    TotalMatch(f, xs, f, ys);
  }

  lemma {:induction false} TotalAtLeast<T>(f: T -> nat, xs: seq<T>, i: nat)
    requires i < |xs|
    ensures f(xs[i]) <= Total(f, xs)
  {
    if i < |xs| - 1 {
      TotalAtLeast(f, xs[..|xs| - 1], i);
    }
  }

  lemma {:induction false} TotalPair<T>(f: T -> nat, xs: seq<T>, i: nat, j: nat)
    requires i < j < |xs|
    ensures f(xs[i]) + f(xs[j]) <= Total(f, xs)
  {
    if j < |xs| - 1 {
      TotalPair(f, xs[..|xs| - 1], i, j);
    } else {
      TotalAtLeast(f, xs[..|xs| - 1], i);
    }
  }

  lemma {:induction false} TotalAtMost<T>(f: T -> nat, xs: seq<T>, k: nat)
    requires forall i | 0 <= i < |xs| :: f(xs[i]) <= k
    ensures Total(f, xs) <= k * |xs|
  {
    if xs != [] {
      TotalAtMost(f, xs[..|xs| - 1], k);
      assert k * |xs| == k * (|xs| - 1) + k;
    }
  }

  lemma {:induction false} TotalZero<T>(f: T -> nat, xs: seq<T>)
    requires forall i | 0 <= i < |xs| :: f(xs[i]) == 0
    ensures Total(f, xs) == 0
  {
    if xs != [] {
      TotalZero(f, xs[..|xs| - 1]);
    }
  }

  lemma {:induction false} TotalConcat<T>(f: T -> nat, xs: seq<T>, ys: seq<T>)
    ensures Total(f, xs + ys) == Total(f, xs) + Total(f, ys)
  {
    if ys == [] {
      assert xs + ys == xs;
    } else {
      TotalConcat(f, xs, ys[..|ys| - 1]);
      assert (xs + ys)[..|xs + ys| - 1] == xs + ys[..|ys| - 1];
    }
  }

  lemma {:induction false} TotalMatch<S, T>(f: S -> nat, xs: seq<S>, g: T -> nat, ys: seq<T>)
    requires |xs| == |ys| && forall i | 0 <= i < |xs| :: f(xs[i]) == g(ys[i])
    ensures Total(f, xs) == Total(g, ys)
  {
    if xs != [] { TotalMatch(f, xs[..|xs| - 1], g, ys[..|ys| - 1]); }
  }

  lemma {:induction false} TotalWithin<S, T>(f: S -> nat, xs: seq<S>, g: T -> nat, ys: seq<T>)
    requires |xs| == |ys| && forall i | 0 <= i < |xs| :: f(xs[i]) <= g(ys[i])
    ensures Total(f, xs) <= Total(g, ys)
  {
    if xs != [] { TotalWithin(f, xs[..|xs| - 1], g, ys[..|ys| - 1]); }
  }

  lemma {:induction false} TotalLess<T>(f: T -> nat, g: T -> nat, xs: seq<T>)
    requires forall x :: f(x) <= g(x)
    ensures Total(f, xs) <= Total(g, xs)
  {
    if xs != [] { TotalLess(f, g, xs[..|xs| - 1]); }
  }

  lemma {:induction false} SomewhereIn<T>(f: T -> nat, xs: seq<T>) returns (k: nat)
    requires Total(f, xs) > 0
    ensures k < |xs| && f(xs[k]) > 0
  {
    if f(xs[|xs| - 1]) > 0 {
      k := |xs| - 1;
    } else {
      k := SomewhereIn(f, xs[..|xs| - 1]);
    }
  }

  // Positions of a sequence of length n, in order.
  predicate Ascending(at: seq<nat>, n: nat) {
    (forall i | 0 <= i < |at| :: at[i] < n) && forall i, j | 0 <= i < j < |at| :: at[i] < at[j]
  }

  lemma AscendingPush(at: seq<nat>, n: nat)
    requires Ascending(at, n)
    ensures Ascending(at, n + 1) && Ascending(at + [n], n + 1)
  {}

  lemma TotalPush<T>(f: T -> nat, xs: seq<T>, x: T)
    ensures Total(f, xs + [x]) == Total(f, xs) + f(x)
  {
    assert (xs + [x])[..|xs|] == xs;
  }
}
