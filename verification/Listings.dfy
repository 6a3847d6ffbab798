/** Listing a finite set in a given order, as `ORDER BY` and `slices.Sort` do. */
module Listings {
  ghost predicate StrictOrder<T(!new)>(before: (T, T) -> bool)
  {
    && (forall x :: !before(x, x))
    && (forall x, y, z :: before(x, y) && before(y, z) ==> before(x, z))
  }

  /** `before` compares any two elements of `s`. */
  ghost predicate Orders<T(!new)>(before: (T, T) -> bool, s: set<T>)
  {
    StrictOrder(before) && forall x, y :: x in s && y in s && x != y ==> before(x, y) || before(y, x)
  }

  ghost function Least<T(!new)>(s: set<T>, before: (T, T) -> bool): (x: T)
    requires Orders(before, s) && s != {}
    ensures x in s && forall y :: y in s && y != x ==> before(x, y)
    decreases |s|
  {
    var x :| x in s;
    var rest := s - {x};
    assert forall z :: z in s && z != x ==> z in rest;
    if rest == {} then x
    else
      var y := Least(rest, before);
      if before(y, x) then y else x
  }

  /** The elements of `s`, each once, in order. */
  ghost function Listed<T(!new)>(s: set<T>, before: (T, T) -> bool): (xs: seq<T>)
    requires Orders(before, s)
    ensures |xs| == |s| && forall x :: x in xs <==> x in s
    ensures Sorted(xs, before)
    decreases |s|
  {
    if s == {} then []
    else
      var x := Least(s, before);
      var rest := Listed(s - {x}, before);
      assert forall y :: y in s <==> y == x || y in s - {x};
      assert forall i :: 0 <= i < |rest| ==> rest[i] in s - {x};
      [x] + rest
  }

  ghost predicate Sorted<T>(xs: seq<T>, before: (T, T) -> bool)
  {
    forall i, j :: 0 <= i < j < |xs| ==> before(xs[i], xs[j])
  }

  lemma TailElements<T(!new)>(xs: seq<T>, before: (T, T) -> bool, y: T)
    requires StrictOrder(before) && Sorted(xs, before) && xs != []
    ensures y in xs[1..] <==> y in xs && y != xs[0]
  {
  }

  lemma SameHead<T(!new)>(xs: seq<T>, ys: seq<T>, before: (T, T) -> bool)
    requires StrictOrder(before) && Sorted(xs, before) && Sorted(ys, before)
    requires xs != [] && ys != [] && xs[0] in ys && ys[0] in xs
    ensures xs[0] == ys[0]
  {
  }

  /** Two sorted lists of the same elements are the same list. */
  lemma {:induction false} SortedUnique<T(!new)>(xs: seq<T>, ys: seq<T>, before: (T, T) -> bool)
    requires StrictOrder(before) && Sorted(xs, before) && Sorted(ys, before)
    requires forall x :: x in xs <==> x in ys
    ensures xs == ys
  {
    assert xs == [] || xs[0] in ys;
    assert ys == [] || ys[0] in xs;
    if xs != [] {
      SameHead(xs, ys, before);
      forall y
        ensures y in xs[1..] <==> y in ys[1..]
      {
        TailElements(xs, before, y);
        TailElements(ys, before, y);
      }
      SortedUnique(xs[1..], ys[1..], before);
    }
  }

  method InsertSorted<T(!new)>(xs: seq<T>, x: T, before: (T, T) -> bool) returns (ys: seq<T>)
    requires StrictOrder(before) && Sorted(xs, before)
    requires forall y :: y in xs ==> before(x, y) || before(y, x)
    ensures Sorted(ys, before) && forall y :: y in ys <==> y == x || y in xs
  {
    var i := 0;
    while i < |xs| && before(xs[i], x)
      invariant 0 <= i <= |xs|
      invariant forall k :: 0 <= k < i ==> before(xs[k], x)
    {
      i := i + 1;
    }
    assert i < |xs| ==> xs[i] in xs && before(x, xs[i]);
    InsertedSorted(xs, x, i, before);
    ys := xs[..i] + [x] + xs[i..];
    assert xs == xs[..i] + xs[i..];
  }

  lemma InsertedSorted<T(!new)>(xs: seq<T>, x: T, i: nat, before: (T, T) -> bool)
    requires StrictOrder(before) && Sorted(xs, before) && i <= |xs|
    requires forall k :: 0 <= k < i ==> before(xs[k], x)
    requires i < |xs| ==> before(x, xs[i])
    ensures Sorted(xs[..i] + [x] + xs[i..], before)
  {
  }

  /** Lists a set in order. */
  method List<T(==, !new)>(s: set<T>, before: (T, T) -> bool) returns (xs: seq<T>)
    requires Orders(before, s)
    ensures xs == Listed(s, before)
  {
    xs := [];
    var todo := s;
    while todo != {}
      invariant todo <= s && Sorted(xs, before)
      invariant forall x :: x in xs <==> x in s - todo
      decreases |todo|
    {
      var x :| x in todo;
      xs := InsertSorted(xs, x, before);
      todo := todo - {x};
    }
    SortedUnique(xs, Listed(s, before), before);
  }

  predicate Less(a: nat, b: nat) { a < b }

  /** Ids in ascending order. */
  ghost function Ascending(s: set<nat>): (xs: seq<nat>)
    ensures |xs| == |s| && forall x :: x in xs <==> x in s
    ensures forall i, j :: 0 <= i < j < |xs| ==> xs[i] < xs[j]
  {
    Listed(s, Less)
  }
}
