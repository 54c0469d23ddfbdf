/** What the callers of the library sort may rely on: a permutation in order, ties in any order. */
module Sorting {

  /** A total preorder: `leq(a, b)` says that `b` need not come before `a`. */
  ghost predicate Orders<T(!new)>(leq: (T, T) -> bool) {
    && (forall a, b :: leq(a, b) || leq(b, a))
    && (forall a, b, c :: leq(a, b) && leq(b, c) ==> leq(a, c))
  }

  predicate Sorted<T>(xs: seq<T>, leq: (T, T) -> bool) {
    forall i, j :: 0 <= i < j < |xs| ==> leq(xs[i], xs[j])
  }

  ghost predicate Permutes<T>(xs: seq<T>, ys: seq<T>) { multiset(xs) == multiset(ys) }

  lemma Through<T(!new)>(leq: (T, T) -> bool, a: T, b: T, c: T)
    requires Orders(leq) && leq(a, b) && leq(b, c)
    ensures leq(a, c)
  {
  }

  lemma Either<T(!new)>(leq: (T, T) -> bool, a: T, b: T)
    requires Orders(leq)
    ensures leq(a, b) || leq(b, a)
  {
  }

  method Insert<T(!new)>(xs: seq<T>, x: T, leq: (T, T) -> bool) returns (ys: seq<T>)
    requires Orders(leq) && Sorted(xs, leq)
    ensures Sorted(ys, leq) && Permutes(ys, xs + [x])
  {
    hide Orders, Permutes;
    var p := |xs|;
    while p > 0 && !leq(xs[p - 1], x)
      invariant 0 <= p <= |xs|
      invariant forall k :: p <= k < |xs| ==> leq(x, xs[k])
    {
      Either(leq, xs[p - 1], x);
      p := p - 1;
    }
    forall k | 0 <= k < p ensures leq(xs[k], x) {
      if k < p - 1 { Through(leq, xs[k], xs[p - 1], x); }
    }
    assert xs == xs[..p] + xs[p..];
    ys := xs[..p] + [x] + xs[p..];
    InsertSorted(xs[..p], x, xs[p..], leq);
    InsertPermutes(xs[..p], x, xs[p..]);
  }

  lemma InsertPermutes<T>(a: seq<T>, x: T, b: seq<T>)
    ensures Permutes(a + [x] + b, (a + b) + [x])
  {
  }

  lemma InsertSorted<T>(a: seq<T>, x: T, b: seq<T>, leq: (T, T) -> bool)
    requires Sorted(a + b, leq)
    requires (forall k :: 0 <= k < |a| ==> leq(a[k], x)) && (forall k :: 0 <= k < |b| ==> leq(x, b[k]))
    ensures Sorted(a + [x] + b, leq)
  {
    var ys, n := a + [x] + b, |a|;
    forall i, j | 0 <= i < j < |ys| ensures leq(ys[i], ys[j]) {
      if i < n && j > n { assert leq((a + b)[i], (a + b)[j - 1]); }
      else if j < n { assert leq((a + b)[i], (a + b)[j]); }
      else if i > n { assert leq((a + b)[i - 1], (a + b)[j - 1]); }
    }
  }

  method SortBy<T(!new)>(xs: seq<T>, leq: (T, T) -> bool) returns (ys: seq<T>)
    requires Orders(leq)
    ensures Sorted(ys, leq) && Permutes(ys, xs)
  {
    ys := [];
    for i := 0 to |xs|
      invariant Sorted(ys, leq) && Permutes(ys, xs[..i])
    {
      assert xs[..i + 1] == xs[..i] + [xs[i]];
      ghost var was := ys;
      ys := Insert(ys, xs[i], leq);
      assert multiset(was + [xs[i]]) == multiset(xs[..i] + [xs[i]]);
    }
    assert xs[..|xs|] == xs;
  }

  /** Members are the same on both sides of a permutation. */
  lemma SameMembers<T>(xs: seq<T>, ys: seq<T>)
    requires Permutes(xs, ys)
    ensures |xs| == |ys| && forall x :: x in xs <==> x in ys
  {
    assert |multiset(xs)| == |xs| && |multiset(ys)| == |ys|;
    forall x ensures x in xs <==> x in ys {
      assert x in xs <==> x in multiset(xs);
      assert x in ys <==> x in multiset(ys);
    }
  }

  ghost predicate Distinct<T>(xs: seq<T>) {
    forall i, j :: 0 <= i < j < |xs| ==> xs[i] != xs[j]
  }

  /** Distinctness survives a permutation. */
  lemma SameDistinct<T>(xs: seq<T>, ys: seq<T>)
    requires Permutes(xs, ys) && Distinct(xs)
    ensures Distinct(ys)
  {
    forall i, j | 0 <= i < j < |ys| ensures ys[i] != ys[j] {
      if ys[i] == ys[j] {
        Twice(ys, i, j);
        Once(xs, ys[i]);
      }
    }
  }

  lemma Twice<T>(ys: seq<T>, i: int, j: int)
    requires 0 <= i < j < |ys| && ys[i] == ys[j]
    ensures multiset(ys)[ys[i]] >= 2
  {
    assert ys == ys[..i] + [ys[i]] + ys[i + 1..j] + [ys[j]] + ys[j + 1..];
  }

  lemma {:induction false} Once<T>(xs: seq<T>, x: T)
    requires Distinct(xs)
    ensures multiset(xs)[x] <= 1
  {
    if xs != [] {
      var n := |xs| - 1;
      Once(xs[..n], x);
      assert xs == xs[..n] + [xs[n]];
      if xs[n] == x { assert x !in xs[..n]; }
    }
  }
}
