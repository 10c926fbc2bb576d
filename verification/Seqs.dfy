/** Concatenation of sequences of sequences, and subsequences. */
module Seqs {

  function Flatten<T>(xss: seq<seq<T>>): seq<T> {
    if xss == [] then [] else xss[0] + Flatten(xss[1..])
  }

  lemma {:induction false} FlattenConcat<T>(xss: seq<seq<T>>, yss: seq<seq<T>>)
    ensures Flatten(xss + yss) == Flatten(xss) + Flatten(yss)
  {
    if xss == [] {
      assert xss + yss == yss;
    } else {
      FlattenConcat(xss[1..], yss);
      assert (xss + yss)[1..] == xss[1..] + yss;
      Reassociates(xss[0], Flatten(xss[1..]), Flatten(yss));
    }
  }

  /** Flatten around position k. */
  lemma FlattenAt<T>(xss: seq<seq<T>>, k: nat)
    requires k < |xss|
    ensures Flatten(xss) == Flatten(xss[..k]) + xss[k] + Flatten(xss[k + 1..])
  {
    assert xss == xss[..k] + xss[k..];
    FlattenConcat(xss[..k], xss[k..]);
    assert Flatten(xss[k..]) == xss[k] + Flatten(xss[k + 1..]);
  }

  lemma FlattenAtTwo<T>(xss: seq<seq<T>>, k: nat)
    requires k + 1 < |xss|
    ensures Flatten(xss) == Flatten(xss[..k]) + (xss[k] + xss[k + 1]) + Flatten(xss[k + 2..])
  {
    FlattenAt(xss, k);
    assert xss[k + 1..][1..] == xss[k + 2..];
    Associates(Flatten(xss[..k]), xss[k], xss[k + 1], Flatten(xss[k + 2..]));
  }

  lemma Reassociates<T>(a: seq<T>, b: seq<T>, c: seq<T>)
    ensures a + (b + c) == a + b + c
  {
  }

  lemma Associates<T>(a: seq<T>, b: seq<T>, c: seq<T>, d: seq<T>)
    ensures a + b + (c + d) == a + (b + c) + d
  {
  }

  /** Moving the front of one part to the back of the part before it changes nothing. */
  lemma FlattenMove<T>(xss: seq<seq<T>>, k: nat, m: seq<T>, rest: seq<T>)
    requires k + 1 < |xss| && xss[k + 1] == m + rest
    ensures Flatten(xss[k := xss[k] + m][k + 1 := rest]) == Flatten(xss)
  {
    var yss := xss[k := xss[k] + m][k + 1 := rest];
    FlattenAtTwo(xss, k);
    FlattenAtTwo(yss, k);
    assert yss[..k] == xss[..k] && yss[k + 2..] == xss[k + 2..];
    assert yss[k] + yss[k + 1] == xss[k] + xss[k + 1];
  }

  lemma FlattenGrow<T>(xss: seq<seq<T>>, m: seq<T>)
    requires xss != []
    ensures var n := |xss| - 1; Flatten(xss[n := xss[n] + m]) == Flatten(xss) + m
  {
    var n := |xss| - 1;
    var yss := xss[n := xss[n] + m];
    FlattenAt(xss, n);
    FlattenAt(yss, n);
    assert yss[..n] == xss[..n];
  }

  lemma {:induction false} FlattenEmpty<T>(xss: seq<seq<T>>)
    requires forall k :: 0 <= k < |xss| ==> xss[k] == []
    ensures Flatten(xss) == []
  {
    if xss != [] {
      FlattenEmpty(xss[1..]);
    }
  }

  /** `xs` is `ys` with some elements left out. */
  ghost predicate Sublist<T>(xs: seq<T>, ys: seq<T>)
    decreases |ys|
  {
    if xs == [] then true
    else if ys == [] then false
    else
      var n, m := |xs| - 1, |ys| - 1;
      (xs[n] == ys[m] && Sublist(xs[..n], ys[..m])) || Sublist(xs, ys[..m])
  }

  lemma SublistSnoc<T>(xs: seq<T>, ys: seq<T>, m: seq<T>)
    requires Sublist(xs, ys) && |m| <= 1
    ensures Sublist(xs + m, ys + m)
  {
    if m == [] {
      assert xs + m == xs && ys + m == ys;
    } else {
      assert (xs + m)[..|xs|] == xs && (ys + m)[..|ys|] == ys;
    }
  }

  lemma {:induction false} SublistWithout<T>(xs: seq<T>, i: nat, ys: seq<T>)
    requires i < |xs| && Sublist(xs, ys)
    ensures Sublist(xs[..i] + xs[i + 1..], ys)
    decreases |ys|
  {
    var n, m := |xs| - 1, |ys| - 1;
    var zs := xs[..i] + xs[i + 1..];
    if Sublist(xs, ys[..m]) {
      SublistWithout(xs, i, ys[..m]);
    } else if i == n {
      assert zs == xs[..n];
    } else {
      SublistWithout(xs[..n], i, ys[..m]);
      assert zs[..|zs| - 1] == xs[..n][..i] + xs[..n][i + 1..];
    }
  }

  /** The front of a sublist is a sublist. */
  lemma {:induction false} SublistFront<T>(xs: seq<T>, ys: seq<T>, zs: seq<T>)
    requires Sublist(xs + ys, zs)
    ensures Sublist(xs, zs)
    decreases |ys|
  {
    if ys == [] {
      assert xs + ys == xs;
    } else {
      var n := |xs + ys| - 1;
      SublistWithout(xs + ys, n, zs);
      assert (xs + ys)[..n] + (xs + ys)[n + 1..] == xs + ys[..|ys| - 1];
      SublistFront(xs, ys[..|ys| - 1], zs);
    }
  }
}
