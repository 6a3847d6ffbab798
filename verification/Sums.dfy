/** Sums of reals over sequences, and why the order of the terms does not matter. */
module Sums {
  /** The sum of `f` over `xs`, taken from the left as an accumulating loop takes it. */
  function Sum<T>(xs: seq<T>, f: T -> real): real
  {
    if xs == [] then 0.0 else Sum(xs[..|xs| - 1], f) + f(xs[|xs| - 1])
  }

  lemma NothingSummed<T>(xs: seq<T>, f: T -> real)
    requires xs == []
    ensures Sum(xs, f) == 0.0
  {
  }

  /** One turn of an accumulating loop. */
  lemma SumStep<T>(xs: seq<T>, f: T -> real, i: nat)
    requires i < |xs|
    ensures Sum(xs[..i + 1], f) == Sum(xs[..i], f) + f(xs[i])
  {
    assert xs[..i + 1][..i] == xs[..i];
  }

  lemma {:induction false} SumConcat<T>(a: seq<T>, b: seq<T>, f: T -> real)
    ensures Sum(a + b, f) == Sum(a, f) + Sum(b, f)
  {
    if b == [] {
      assert a + b == a;
    } else {
      assert (a + b)[..|a + b| - 1] == a + b[..|b| - 1];
      SumConcat(a, b[..|b| - 1], f);
    }
  }

  lemma SumOne<T>(x: T, f: T -> real)
    ensures Sum([x], f) == f(x)
  {
  }

  lemma SumWithout<T>(xs: seq<T>, f: T -> real, i: nat)
    requires i < |xs|
    ensures Sum(xs, f) == Sum(xs[..i] + xs[i + 1..], f) + f(xs[i])
  {
    hide Sum;
    var front, back := xs[..i], xs[i + 1..];
    assert xs == (front + [xs[i]]) + back;
    SumConcat(front + [xs[i]], back, f);
    SumConcat(front, [xs[i]], f);
    SumOne(xs[i], f);
    SumConcat(front, back, f);
  }

  lemma PermutedLength<T>(a: seq<T>, b: seq<T>)
    requires multiset(a) == multiset(b)
    ensures |a| == |b|
  {
    assert |multiset(a)| == |a| && |multiset(b)| == |b|;
  }

  lemma MultisetWithout<T>(front: seq<T>, x: T, back: seq<T>)
    ensures multiset(front + [x] + back) == multiset(front + back) + multiset{x}
  {
  }

  /** Taking the same element out of two permutations leaves two permutations. */
  lemma PermutedWithout<T>(a: seq<T>, b: seq<T>, i: nat)
    requires multiset(a) == multiset(b) && a != [] && i < |b| && b[i] == a[|a| - 1]
    ensures multiset(a[..|a| - 1]) == multiset(b[..i] + b[i + 1..])
  {
    var init, front, back := a[..|a| - 1], b[..i], b[i + 1..];
    MultisetWithout(init, b[i], []);
    MultisetWithout(front, b[i], back);
    assert a == init + [b[i]] + [] && b == front + [b[i]] + back && init == init + [];
    Cancel(multiset(init), multiset(front + back), b[i]);
  }

  lemma Cancel<T>(p: multiset<T>, q: multiset<T>, x: T)
    requires p + multiset{x} == q + multiset{x}
    ensures p == q
  {
    assert p == (p + multiset{x}) - multiset{x};
  }

  lemma {:induction false} SumPermuted<T>(a: seq<T>, b: seq<T>, f: T -> real)
    requires multiset(a) == multiset(b)
    ensures Sum(a, f) == Sum(b, f)
    decreases |a|
  {
    PermutedLength(a, b);
    if a != [] {
      var last := a[|a| - 1];
      assert last in multiset(b);
      var i :| 0 <= i < |b| && b[i] == last;
      SumWithout(b, f, i);
      PermutedWithout(a, b, i);
      SumPermuted(a[..|a| - 1], b[..i] + b[i + 1..], f);
    }
  }

  /** Bounds on the terms bound the sum. */
  lemma {:induction false} SumBounds<T>(xs: seq<T>, f: T -> real, lo: T -> real, hi: T -> real)
    requires forall i :: 0 <= i < |xs| ==> lo(xs[i]) <= f(xs[i]) <= hi(xs[i])
    ensures Sum(xs, lo) <= Sum(xs, f) <= Sum(xs, hi)
  {
    if xs != [] {
      var n := |xs| - 1;
      assert lo(xs[n]) <= f(xs[n]) <= hi(xs[n]);
      SumBounds(xs[..n], f, lo, hi);
    }
  }

  lemma Distribute(k: real, a: real, b: real)
    ensures k * (a + b) == k * a + k * b
  {
  }

  /** `x => k * f(x)` */
  function Scaled<T>(k: real, f: T -> real): T -> real { x => k * f(x) }

  lemma {:induction false} SumScaled<T>(xs: seq<T>, k: real, f: T -> real)
    ensures Sum(xs, Scaled(k, f)) == k * Sum(xs, f)
  {
    if xs != [] {
      SumScaled(xs[..|xs| - 1], k, f);
      Distribute(k, Sum(xs[..|xs| - 1], f), f(xs[|xs| - 1]));
    }
  }
}
