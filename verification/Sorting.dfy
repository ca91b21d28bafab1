/** ORDER BY, as insertion sort under a strict order on rows, and why its result is the only one. */
module Sorting {

  ghost predicate Transitive<T(!new)>(before: (T, T) -> bool) {
    forall x, y, z :: before(x, y) && before(y, z) ==> before(x, z)
  }

  ghost predicate Asymmetric<T(!new)>(before: (T, T) -> bool) {
    forall x, y :: before(x, y) ==> !before(y, x)
  }

  /** Any two different rows of the table are ordered one way or the other. */
  predicate Separates<T(==)>(before: (T, T) -> bool, xs: seq<T>) {
    forall x, y | x in xs && y in xs && x != y :: before(x, y) || before(y, x)
  }

  predicate Distinct<T(==)>(xs: seq<T>) {
    forall i, j :: 0 <= i < j < |xs| ==> xs[i] != xs[j]
  }

  predicate Ordered<T>(before: (T, T) -> bool, xs: seq<T>) {
    forall i, j :: 0 <= i < j < |xs| ==> before(xs[i], xs[j])
  }

  function Insert<T>(before: (T, T) -> bool, x: T, xs: seq<T>): (r: seq<T>)
    ensures multiset(r) == multiset(xs) + multiset{x}
  {
    if xs == [] || before(x, xs[0]) then [x] + xs
    else
      assert xs == [xs[0]] + xs[1..];
      [xs[0]] + Insert(before, x, xs[1..])
  }

  function Sort<T>(before: (T, T) -> bool, xs: seq<T>): (r: seq<T>)
    ensures multiset(r) == multiset(xs)
    ensures |r| == |xs|
  {
    if xs == [] then []
    else
      assert xs == [xs[0]] + xs[1..];
      var r := Insert(before, xs[0], Sort(before, xs[1..]));
      assert |multiset(r)| == |multiset(xs)|;
      r
  }

  lemma SameElements<T>(xs: seq<T>, ys: seq<T>)
    requires multiset(xs) == multiset(ys)
    ensures forall x :: x in xs <==> x in ys
  {
    forall x ensures x in xs <==> x in ys {
      assert x in xs <==> x in multiset(xs);
      assert x in ys <==> x in multiset(ys);
    }
  }

  lemma SortElements<T>(before: (T, T) -> bool, xs: seq<T>)
    ensures forall x :: x in Sort(before, xs) <==> x in xs
  {
    SameElements(Sort(before, xs), xs);
  }

  lemma OrderedCons<T>(before: (T, T) -> bool, x: T, xs: seq<T>)
    requires Ordered(before, xs) && forall y :: y in xs ==> before(x, y)
    ensures Ordered(before, [x] + xs)
  {
  }

  lemma InsertElements<T>(before: (T, T) -> bool, x: T, xs: seq<T>)
    ensures forall y :: y in Insert(before, x, xs) ==> y in xs || y == x
  {
    forall y | y in Insert(before, x, xs) ensures y in xs || y == x {
      assert y in multiset(Insert(before, x, xs));
    }
  }

  lemma {:induction false} InsertOrdered<T(!new)>(before: (T, T) -> bool, x: T, xs: seq<T>)
    requires Transitive(before) && Ordered(before, xs)
    requires forall y :: y in xs ==> before(x, y) || before(y, x)
    ensures Ordered(before, Insert(before, x, xs))
  {
    if xs == [] {
    } else if before(x, xs[0]) {
      assert forall y :: y in xs[1..] ==> before(xs[0], y);
      assert xs == [xs[0]] + xs[1..];
      OrderedCons(before, x, xs);
    } else {
      assert xs[0] in xs && forall y :: y in xs[1..] ==> y in xs;
      InsertOrdered(before, x, xs[1..]);
      InsertElements(before, x, xs[1..]);
      OrderedCons(before, xs[0], Insert(before, x, xs[1..]));
    }
  }

  lemma {:induction false} SortOrdered<T(!new)>(before: (T, T) -> bool, xs: seq<T>)
    requires Transitive(before) && Separates(before, xs) && Distinct(xs)
    ensures Ordered(before, Sort(before, xs))
  {
    if xs != [] {
      var rest := Sort(before, xs[1..]);
      assert forall y :: y in xs[1..] ==> y in xs;
      SortOrdered(before, xs[1..]);
      SortElements(before, xs[1..]);
      assert forall y :: y in rest ==> y in xs && y != xs[0];
      InsertOrdered(before, xs[0], rest);
    }
  }

  /** Sorting an ordered sequence changes nothing. */
  lemma {:induction false} SortOfOrdered<T(!new)>(before: (T, T) -> bool, xs: seq<T>)
    requires Ordered(before, xs)
    ensures Sort(before, xs) == xs
  {
    if xs != [] {
      assert forall i, j :: 0 <= i < j < |xs[1..]| ==> before(xs[1..][i], xs[1..][j]);
      SortOfOrdered(before, xs[1..]);
    }
  }

  lemma OrderedHeadUnique<T(!new)>(before: (T, T) -> bool, xs: seq<T>, ys: seq<T>)
    requires Asymmetric(before)
    requires Ordered(before, xs) && Ordered(before, ys) && multiset(xs) == multiset(ys)
    requires xs != [] && ys != []
    ensures xs[0] == ys[0]
  {
    SameElements(xs, ys);
    assert xs[0] in ys && ys[0] in xs;
    var i :| 0 <= i < |ys| && ys[i] == xs[0];
    var j :| 0 <= j < |xs| && xs[j] == ys[0];
    assert i > 0 ==> before(ys[0], xs[0]);
    assert j > 0 ==> before(xs[0], ys[0]);
  }

  /** There is only one way to order a table: no other sequence of the same rows is ordered. */
  lemma {:induction false} OrderedUnique<T(!new)>(before: (T, T) -> bool, xs: seq<T>, ys: seq<T>)
    requires Asymmetric(before)
    requires Ordered(before, xs) && Ordered(before, ys) && multiset(xs) == multiset(ys)
    ensures xs == ys
  {
    assert |multiset(xs)| == |xs| && |multiset(ys)| == |ys|;
    if xs != [] {
      OrderedHeadUnique(before, xs, ys);
      assert xs == [xs[0]] + xs[1..] && ys == [ys[0]] + ys[1..];
      assert multiset(xs[1..]) == multiset(xs) - multiset{xs[0]};
      assert multiset(ys[1..]) == multiset(ys) - multiset{ys[0]};
      OrderedUnique(before, xs[1..], ys[1..]);
    }
  }

  function Filter<T(!new)>(keep: T -> bool, xs: seq<T>): (r: seq<T>)
    ensures forall x :: x in r <==> x in xs && keep(x)
    ensures |r| <= |xs|
  {
    if xs == [] then []
    else
      assert xs == [xs[0]] + xs[1..];
      (if keep(xs[0]) then [xs[0]] else []) + Filter(keep, xs[1..])
  }

  lemma {:induction false} FilterAppend<T(!new)>(keep: T -> bool, xs: seq<T>, ys: seq<T>)
    ensures Filter(keep, xs + ys) == Filter(keep, xs) + Filter(keep, ys)
  {
    if xs == [] {
      assert xs + ys == ys;
    } else {
      assert (xs + ys)[0] == xs[0] && (xs + ys)[1..] == xs[1..] + ys;
      FilterAppend(keep, xs[1..], ys);
    }
  }

  /** Rewriting a row that is not kept, to a row that is not kept, does not show through a filter. */
  lemma {:induction false} FilterUpdate<T(!new)>(keep: T -> bool, xs: seq<T>, i: nat, x: T)
    requires i < |xs| && !keep(xs[i]) && !keep(x)
    ensures Filter(keep, xs[i := x]) == Filter(keep, xs)
  {
    var ys := xs[i := x];
    if i == 0 {
      assert ys[1..] == xs[1..];
    } else {
      assert ys[1..] == xs[1..][i - 1 := x];
      FilterUpdate(keep, xs[1..], i - 1, x);
    }
  }

  /** Filters that agree on every row of the table select the same rows. */
  lemma {:induction false} FilterCongruence<T(!new)>(keep: T -> bool, keep': T -> bool, xs: seq<T>)
    requires forall x :: x in xs ==> keep(x) == keep'(x)
    ensures Filter(keep, xs) == Filter(keep', xs)
  {
    if xs != [] {
      assert xs[0] in xs && forall x :: x in xs[1..] ==> x in xs;
      FilterCongruence(keep, keep', xs[1..]);
    }
  }

  lemma {:induction false} FilterDistinct<T(!new)>(keep: T -> bool, xs: seq<T>)
    requires Distinct(xs)
    ensures Distinct(Filter(keep, xs))
  {
    if xs != [] {
      FilterDistinct(keep, xs[1..]);
    }
  }
}
