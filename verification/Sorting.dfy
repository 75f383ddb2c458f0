/** slices.SortFunc as its documentation describes it: the comparator must be a strict weak
    order, and equal elements may come out in any order. */
module Sorting {

  ghost predicate Legal<T(!new)>(cmp: (T, T) -> int) {
    && (forall a, b :: cmp(a, b) <= 0 || cmp(b, a) <= 0)
    && (forall a, b, c :: cmp(a, b) <= 0 && cmp(b, c) <= 0 ==> cmp(a, c) <= 0)
  }

  ghost predicate SortedBy<T>(xs: seq<T>, cmp: (T, T) -> int) {
    forall i, j :: 0 <= i < j < |xs| ==> cmp(xs[i], xs[j]) <= 0
  }

  function InsertAt<T>(xs: seq<T>, x: T, i: nat): (ys: seq<T>)
    requires i <= |xs|
    ensures |ys| == |xs| + 1 && ys[i] == x
    ensures forall k :: 0 <= k < i ==> ys[k] == xs[k]
    ensures forall k :: i < k < |ys| ==> ys[k] == xs[k - 1]
  {
    xs[..i] + [x] + xs[i..]
  }

  /** Everything before the place is at most x, everything behind it at least x. */
  ghost predicate FitsAt<T>(xs: seq<T>, x: T, i: nat, cmp: (T, T) -> int)
    requires i <= |xs|
  {
    && (forall k :: 0 <= k < i ==> cmp(xs[k], x) <= 0)
    && (forall k :: i <= k < |xs| ==> cmp(x, xs[k]) <= 0)
  }

  lemma NeighboursFit<T(!new)>(xs: seq<T>, x: T, i: nat, cmp: (T, T) -> int)
    requires Legal(cmp) && SortedBy(xs, cmp) && i <= |xs|
    requires i > 0 ==> cmp(xs[i - 1], x) <= 0
    requires i < |xs| ==> cmp(x, xs[i]) <= 0
    ensures FitsAt(xs, x, i, cmp)
  {
    forall k | 0 <= k < i ensures cmp(xs[k], x) <= 0 {
      if k < i - 1 { assert cmp(xs[k], xs[i - 1]) <= 0; }
    }
    forall k | i <= k < |xs| ensures cmp(x, xs[k]) <= 0 {
      if i < k { assert cmp(xs[i], xs[k]) <= 0; }
    }
  }

  lemma InsertSorted<T>(xs: seq<T>, x: T, i: nat, cmp: (T, T) -> int)
    requires SortedBy(xs, cmp) && i <= |xs| && FitsAt(xs, x, i, cmp)
    ensures SortedBy(InsertAt(xs, x, i), cmp)
  {
  }

  lemma InsertPermutes<T>(xs: seq<T>, x: T, i: nat)
    requires i <= |xs|
    ensures multiset(InsertAt(xs, x, i)) == multiset(xs) + multiset{x}
  {
    assert xs == xs[..i] + xs[i..];
  }

  /** The place of x behind everything that is not larger. */
  method FindPlace<T(!new)>(ys: seq<T>, x: T, cmp: (T, T) -> int) returns (i: nat)
    requires Legal(cmp) && SortedBy(ys, cmp)
    ensures i <= |ys| && FitsAt(ys, x, i, cmp)
  {
    i := |ys|;
    while i > 0 && cmp(ys[i - 1], x) > 0
      invariant 0 <= i <= |ys|
      invariant i < |ys| ==> cmp(x, ys[i]) <= 0
    {
      i := i - 1;
    }
    NeighboursFit(ys, x, i, cmp);
  }

  /** The result is promised to be sorted and a permutation, and nothing about ties. */
  method SortFunc<T(!new)>(xs: seq<T>, cmp: (T, T) -> int) returns (ys: seq<T>)
    requires Legal(cmp)
    ensures multiset(ys) == multiset(xs) && SortedBy(ys, cmp)
  {
    ys := [];
    for n := 0 to |xs|
      invariant multiset(ys) == multiset(xs[..n])
      invariant SortedBy(ys, cmp)
    {
      var i := FindPlace(ys, xs[n], cmp);
      InsertSorted(ys, xs[n], i, cmp);
      InsertPermutes(ys, xs[n], i);
      ys := InsertAt(ys, xs[n], i);
      assert xs[..n + 1] == xs[..n] + [xs[n]];
    }
    assert xs[..|xs|] == xs;
  }

  // ----- repetitions in permutations -----

  lemma CountTwice<T>(xs: seq<T>, i: nat, j: nat)
    requires i < j < |xs| && xs[i] == xs[j]
    ensures multiset(xs)[xs[i]] >= 2
  {
    var front, back := xs[..j], xs[j..];
    assert xs == front + back;
    assert xs[i] == front[i] && xs[j] == back[0];
    assert xs[i] in front && xs[i] in back;
    assert xs[i] in multiset(front) && xs[i] in multiset(back);
  }

  lemma {:induction false} CountOnce<T>(xs: seq<T>, x: T)
    requires forall i, j :: 0 <= i < j < |xs| ==> xs[i] != xs[j]
    ensures multiset(xs)[x] <= 1
  {
    if xs != [] {
      var front := xs[..|xs| - 1];
      CountOnce(front, x);
      assert xs == front + [xs[|xs| - 1]];
      if xs[|xs| - 1] == x { assert x !in front; }
    }
  }

  /** A permutation of a sequence without repetitions has none. */
  lemma PermutationIsDistinct<T>(xs: seq<T>, ys: seq<T>)
    requires multiset(xs) == multiset(ys) && forall i, j :: 0 <= i < j < |ys| ==> ys[i] != ys[j]
    ensures forall i, j :: 0 <= i < j < |xs| ==> xs[i] != xs[j]
    ensures |xs| == |ys| && forall x :: x in xs <==> x in ys
  {
    forall i, j | 0 <= i < j < |xs| ensures xs[i] != xs[j] {
      if xs[i] == xs[j] {
        CountTwice(xs, i, j);
        CountOnce(ys, xs[i]);
      }
    }
    forall x ensures x in xs <==> x in ys {
      assert x in xs <==> x in multiset(xs);
      assert x in ys <==> x in multiset(ys);
    }
    assert |multiset(xs)| == |xs| && |multiset(ys)| == |ys|;
  }
}
