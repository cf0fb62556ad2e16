/** Python's `sorted`: a stable sort, so its result is determined by the input and the key order. */
module Sorting {

  function InsertBy<T(!new)>(x: T, xs: seq<T>, leq: (T, T) -> bool): (r: seq<T>)
    ensures multiset(r) == multiset(xs) + multiset{x}
  {
    if xs == [] then [x]
    else
      assert xs == [xs[0]] + xs[1..];
      if leq(xs[0], x) then [xs[0]] + InsertBy(x, xs[1..], leq) else [x] + xs
  }

  function SortBy<T(!new)>(xs: seq<T>, leq: (T, T) -> bool): (r: seq<T>)
    ensures multiset(r) == multiset(xs)
    ensures |r| == |xs|
    ensures forall x :: x in r <==> x in xs
  {
    if xs == [] then []
    else
      var front, last := xs[..|xs| - 1], xs[|xs| - 1];
      assert xs == front + [last];
      var r := InsertBy(last, SortBy(front, leq), leq);
      assert |multiset(r)| == |r| && |multiset(xs)| == |xs|;
      assert forall x :: x in r <==> x in multiset(r);
      r
  }

  ghost predicate Sorted<T>(xs: seq<T>, leq: (T, T) -> bool) {
    forall i, j | 0 <= i < j < |xs| :: leq(xs[i], xs[j])
  }

  ghost predicate TotalPreorder<T(!new)>(leq: (T, T) -> bool) {
    && (forall a, b :: leq(a, b) || leq(b, a))
    && (forall a, b, c :: leq(a, b) && leq(b, c) ==> leq(a, c))
  }

  lemma {:induction false} InsertSorted<T(!new)>(x: T, xs: seq<T>, leq: (T, T) -> bool)
    requires TotalPreorder(leq) && Sorted(xs, leq)
    ensures Sorted(InsertBy(x, xs, leq), leq)
  {
    if xs != [] && leq(xs[0], x) {
      var rest := InsertBy(x, xs[1..], leq);
      InsertSorted(x, xs[1..], leq);
      forall y | y in rest
        ensures leq(xs[0], y)
      {
        assert y in multiset(rest);
        assert y == x || y in xs[1..];
      }
    }
  }

  lemma {:induction false} SortIsSorted<T(!new)>(xs: seq<T>, leq: (T, T) -> bool)
    requires TotalPreorder(leq)
    ensures Sorted(SortBy(xs, leq), leq)
  {
    if xs != [] {
      SortIsSorted(xs[..|xs| - 1], leq);
      InsertSorted(xs[|xs| - 1], SortBy(xs[..|xs| - 1], leq), leq);
    }
  }

  lemma {:induction false} InsertPosition<T(!new)>(x: T, xs: seq<T>, leq: (T, T) -> bool) returns (k: nat)
    ensures k <= |xs| && InsertBy(x, xs, leq) == xs[..k] + [x] + xs[k..]
  {
    if xs == [] || !leq(xs[0], x) {
      return 0;
    }
    var n := InsertPosition(x, xs[1..], leq);
    k := n + 1;
    assert xs[..k] == [xs[0]] + xs[1..][..n] && xs[k..] == xs[1..][n..];
  }

  lemma {:induction false} InsertLast<T(!new)>(x: T, xs: seq<T>, leq: (T, T) -> bool)
    requires forall y | y in xs :: leq(y, x)
    ensures InsertBy(x, xs, leq) == xs + [x]
  {
    if xs != [] {
      InsertLast(x, xs[1..], leq);
    }
  }

  /** Sorting what is already in order changes nothing. */
  lemma {:induction false} SortOfSorted<T(!new)>(xs: seq<T>, leq: (T, T) -> bool)
    requires Sorted(xs, leq)
    ensures SortBy(xs, leq) == xs
  {
    if xs != [] {
      SortOfSorted(xs[..|xs| - 1], leq);
      InsertLast(xs[|xs| - 1], xs[..|xs| - 1], leq);
    }
  }
}
