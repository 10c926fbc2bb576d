/** The binary heap behind the scheduler's queue: push_heap, pop_heap and make_heap with eventCompare,
    after section 25.4.6 of ISO/IEC 14882:2011.  The front is an earliest event. */
module EventHeap {
  import opened EventTime

  /** `job` stands for evFunction and arg.  `madeAt` and `delay` are what the constructor was given;
      nothing reads them. */
  datatype Event = Event(id: int, job: nat, timeout: Timespec, madeAt: Timespec, delay: int32)

  predicate EventLater(a: Event, b: Event) {
    Later(a.timeout, b.timeout)
  }

  function Parent(i: nat): nat
    requires i > 0
  {
    (i - 1) / 2
  }

  predicate IsHeap(q: seq<Event>) {
    forall i: nat {:trigger Parent(i)} :: 0 < i < |q| ==> !EventLater(q[Parent(i)], q[i])
  }

  /** The front of a heap is later than none of its elements. */
  lemma {:induction false} FrontIsEarliest(q: seq<Event>, i: nat)
    requires IsHeap(q) && i < |q|
    ensures !EventLater(q[0], q[i])
  {
    if i > 0 {
      FrontIsEarliest(q, Parent(i));
      assert !EventLater(q[Parent(i)], q[i]);
    }
  }

  function Swapped(q: seq<Event>, i: nat, j: nat): (r: seq<Event>)
    requires i < |q| && j < |q|
    ensures |r| == |q|
  {
    q[i := q[j]][j := q[i]]
  }

  lemma SwapKeeps(q: seq<Event>, i: nat, j: nat)
    requires i < |q| && j < |q|
    ensures multiset(Swapped(q, i, j)) == multiset(q)
  {
  }

  /** All but position i respect the heap order towards their parent, and the children of i towards
      their grandparent. */
  predicate HeapButUp(q: seq<Event>, i: nat) {
    && (forall j: nat {:trigger Parent(j)} :: 0 < j < |q| && j != i ==> !EventLater(q[Parent(j)], q[j]))
    && (i > 0 ==> forall j: nat {:trigger Parent(j)} :: 0 < j < |q| && Parent(j) == i ==> !EventLater(q[Parent(i)], q[j]))
  }

  lemma UpStep(q: seq<Event>, i: nat)
    requires 0 < i < |q| && HeapButUp(q, i) && EventLater(q[Parent(i)], q[i])
    ensures HeapButUp(Swapped(q, i, Parent(i)), Parent(i))
  {
    var p, r := Parent(i), Swapped(q, i, Parent(i));
    forall j: nat {:trigger Parent(j)} | 0 < j < |r| && j != p ensures !EventLater(r[Parent(j)], r[j]) {
      assert Parent(j) == i || Parent(j) == p || r[Parent(j)] == q[Parent(j)];
      assert j == i || r[j] == q[j];
    }
    if p > 0 {
      forall j: nat {:trigger Parent(j)} | 0 < j < |r| && Parent(j) == p ensures !EventLater(r[Parent(p)], r[j]) {
        assert !EventLater(q[Parent(p)], q[p]);
        assert j == i || !EventLater(q[p], q[j]);
      }
    }
  }

  // ---------- A heap of given elements ----------

  predicate Sorted(q: seq<Event>) {
    forall i, j :: 0 <= i < j < |q| ==> !EventLater(q[i], q[j])
  }

  lemma {:induction false} InsertSorted(e: Event, q: seq<Event>) returns (r: seq<Event>)
    requires Sorted(q)
    ensures Sorted(r) && multiset(r) == multiset(q) + multiset{e}
  {
    if q == [] || !EventLater(e, q[0]) {
      r := [e] + q;
    } else {
      var rest := InsertSorted(e, q[1..]);
      r := [q[0]] + rest;
      assert q == [q[0]] + q[1..];
      forall j | 0 <= j < |rest| ensures !EventLater(q[0], rest[j]) {
        assert rest[j] in multiset(rest);
        assert rest[j] == e || rest[j] in q[1..];
      }
    }
  }

  /** Any elements can be arranged as a heap. */
  lemma {:induction false} HeapOf(q: seq<Event>) returns (r: seq<Event>)
    ensures Sorted(r) && IsHeap(r) && multiset(r) == multiset(q)
  {
    if q == [] {
      r := [];
    } else {
      var n := |q| - 1;
      var rest := HeapOf(q[..n]);
      r := InsertSorted(q[n], rest);
      assert q == q[..n] + [q[n]];
    }
  }

  /** push_heap: the last element has been added to a heap. */
  method PushHeap(q: seq<Event>) returns (r: seq<Event>)
    requires q != [] && IsHeap(q[..|q| - 1])
    ensures IsHeap(r) && multiset(r) == multiset(q)
  {
    r := q;
    var i := |q| - 1;
    assert forall j: nat {:trigger Parent(j)} :: 0 < j < |q| - 1 ==> q[j] == q[..|q| - 1][j] && q[Parent(j)] == q[..|q| - 1][Parent(j)];
    while i > 0 && EventLater(r[Parent(i)], r[i])
      invariant 0 <= i < |r| && multiset(r) == multiset(q) && HeapButUp(r, i)
    {
      UpStep(r, i);
      SwapKeeps(r, i, Parent(i));
      r, i := Swapped(r, i, Parent(i)), Parent(i);
    }
  }

  /** From position `from` on, all but the children of i respect the heap order towards their parent,
      and the children of i towards their grandparent. */
  predicate HeapButDown(q: seq<Event>, from: nat, i: nat) {
    && (forall j: nat {:trigger Parent(j)} :: 0 < j < |q| && Parent(j) >= from && Parent(j) != i ==> !EventLater(q[Parent(j)], q[j]))
    && (i > 0 && Parent(i) >= from ==>
          forall j: nat {:trigger Parent(j)} :: 0 < j < |q| && Parent(j) == i ==> !EventLater(q[Parent(i)], q[j]))
  }

  predicate HeapFrom(q: seq<Event>, from: nat) {
    forall j: nat {:trigger Parent(j)} :: 0 < j < |q| && Parent(j) >= from ==> !EventLater(q[Parent(j)], q[j])
  }

  lemma DownStep(q: seq<Event>, from: nat, i: nat, c: nat)
    requires from <= i && HeapButDown(q, from, i)
    requires 0 < c < |q| && (c - 1) / 2 == i && EventLater(q[i], q[c])
    requires forall j: nat {:trigger Parent(j)} :: 0 < j < |q| && Parent(j) == i ==> !EventLater(q[c], q[j])
    ensures HeapButDown(Swapped(q, i, c), from, c)
  {
    var r := Swapped(q, i, c);
    forall j: nat {:trigger Parent(j)} | 0 < j < |r| && Parent(j) >= from && Parent(j) != c ensures !EventLater(r[Parent(j)], r[j]) {
      assert Parent(j) == i || r[Parent(j)] == q[Parent(j)];
      assert j == i || j == c || r[j] == q[j];
    }
    forall j: nat {:trigger Parent(j)} | 0 < j < |r| && Parent(j) == c ensures !EventLater(r[i], r[j]) {
      assert r[j] == q[j] && !EventLater(q[c], q[j]);
    }
  }

  /** Sifts the element at `at` down into a heap below it. */
  method SiftDown(q: seq<Event>, at: nat) returns (r: seq<Event>)
    requires at <= |q| && HeapFrom(q, at + 1)
    ensures HeapFrom(r, at) && multiset(r) == multiset(q) && |r| == |q|
  {
    r := q;
    var i := at;
    while 2 * i + 1 < |r|
      invariant at <= i && |r| == |q| && multiset(r) == multiset(q) && HeapButDown(r, at, i)
      decreases |r| - i
    {
      var c := 2 * i + 1;
      if c + 1 < |r| && EventLater(r[c], r[c + 1]) {
        c := c + 1;
      }
      assert forall j: nat {:trigger Parent(j)} :: 0 < j < |r| && Parent(j) == i ==> j == 2 * i + 1 || j == 2 * i + 2;
      if !EventLater(r[i], r[c]) {
        return;
      }
      DownStep(r, at, i, c);
      SwapKeeps(r, i, c);
      r, i := Swapped(r, i, c), c;
    }
  }

  /** pop_heap: the front goes to the back, and the others form a heap. */
  method PopHeap(q: seq<Event>) returns (r: seq<Event>)
    requires q != [] && IsHeap(q)
    ensures |r| == |q| && r[|r| - 1] == q[0] && IsHeap(r[..|r| - 1]) && multiset(r) == multiset(q)
  {
    var n := |q| - 1;
    var s := Swapped(q, 0, n);
    SwapKeeps(q, 0, n);
    assert forall j: nat {:trigger Parent(j)} :: 0 < j < n && Parent(j) >= 1 ==> s[j] == q[j] && s[Parent(j)] == q[Parent(j)];
    var rest := SiftDown(s[..n], 0);
    r := rest + [s[n]];
    assert s == s[..n] + [s[n]];
    assert r[..n] == rest;
  }

  /** make_heap: any sequence becomes a heap. */
  method MakeHeap(q: seq<Event>) returns (r: seq<Event>)
    ensures IsHeap(r) && multiset(r) == multiset(q)
  {
    r := q;
    var i := |q| / 2;
    while i > 0
      invariant 0 <= i <= |r| && |r| == |q| && multiset(r) == multiset(q) && HeapFrom(r, i)
    {
      i := i - 1;
      r := SiftDown(r, i);
    }
  }
}
