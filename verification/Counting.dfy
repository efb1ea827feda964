/** Sums over all threads of a machine, and the arithmetic of step bounds. */
module Counting {

  function Total<A>(xs: seq<A>, weight: A -> nat): nat {
    if xs == [] then 0
    else Total(xs[..|xs| - 1], weight) + weight(xs[|xs| - 1])
  }

  lemma {:induction false} TotalUpdate<A>(xs: seq<A>, t: nat, x: A, weight: A -> nat)
    requires t < |xs|
    ensures Total(xs[t := x], weight) == Total(xs, weight) - weight(xs[t]) + weight(x)
  {
    var n := |xs| - 1;
    if t == n {
      assert xs[t := x][..n] == xs[..n];
    } else {
      assert xs[t := x][..n] == xs[..n][t := x];
      TotalUpdate(xs[..n], t, x, weight);
    }
  }

  /** A total is zero exactly when every summand is. */
  lemma {:induction false} TotalZero<A>(xs: seq<A>, weight: A -> nat)
    ensures Total(xs, weight) == 0 <==> forall t :: 0 <= t < |xs| ==> weight(xs[t]) == 0
  {
    if xs != [] {
      var n := |xs| - 1;
      TotalZero(xs[..n], weight);
      assert forall t :: 0 <= t < n ==> xs[..n][t] == xs[t];
    }
  }

  lemma Times(a: int, k: nat)
    ensures (a - 1) * k == a * k - k
  {
  }

  lemma TimesMonotone(a: int, b: int, k: nat)
    requires a <= b
    ensures a * k <= b * k
  {
  }
}
