/** Sums over sequences, used by the termination measures and the counting invariants. */
module Sums {

  function Sum(xs: seq<nat>): nat {
    if xs == [] then 0 else Sum(xs[..|xs| - 1]) + xs[|xs| - 1]
  }

  lemma {:induction false} SumUpdate(xs: seq<nat>, i: nat, v: nat)
    requires i < |xs|
    ensures Sum(xs[i := v]) == Sum(xs) - xs[i] + v
    ensures xs[i] <= Sum(xs)
  {
    var n := |xs| - 1;
    if i < n {
      SumUpdate(xs[..n], i, v);
      assert xs[i := v][..n] == xs[..n][i := v];
    } else {
      assert xs[i := v][..n] == xs[..n];
    }
  }

  lemma {:induction false} SumTwo(xs: seq<nat>, i: nat, j: nat)
    requires i < |xs| && j < |xs| && i != j
    ensures xs[i] + xs[j] <= Sum(xs)
  {
    SumUpdate(xs, i, 0);
    SumUpdate(xs[i := 0], j, 0);
  }

  lemma {:induction false} SumZero(xs: seq<nat>)
    requires forall i :: 0 <= i < |xs| ==> xs[i] == 0
    ensures Sum(xs) == 0
  {
    if xs != [] {
      SumZero(xs[..|xs| - 1]);
    }
  }

  /** The weights of the elements of a sequence, which may depend on their positions. */
  function Weigh<T>(xs: seq<T>, w: (nat, T) -> nat): seq<nat> {
    seq(|xs|, i requires 0 <= i < |xs| => w(i, xs[i]))
  }

  lemma WeighUpdate<T>(xs: seq<T>, w: (nat, T) -> nat, i: nat, x: T)
    requires i < |xs|
    ensures Sum(Weigh(xs[i := x], w)) == Sum(Weigh(xs, w)) - w(i, xs[i]) + w(i, x)
  {
    SumUpdate(Weigh(xs, w), i, w(i, x));
    assert Weigh(xs[i := x], w) == Weigh(xs, w)[i := w(i, x)];
  }
}
