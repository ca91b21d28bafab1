/** The relational operators of the report queries: joins, grouping keys and distinct counts. */
module Relations {
  import opened Domain
  import opened Sorting

  function Map<A, B>(f: A -> B, xs: seq<A>): (r: seq<B>)
    ensures |r| == |xs|
    ensures forall i :: 0 <= i < |xs| ==> r[i] == f(xs[i])
  {
    seq(|xs|, i requires 0 <= i < |xs| => f(xs[i]))
  }

  function Matching<L, R>(on: (L, R) -> bool, l: L): R -> bool {
    r => on(l, r)
  }

  function Padded<L, R>(l: L, matches: seq<R>): seq<(L, Option<R>)> {
    if matches == [] then [(l, None)] else seq(|matches|, i requires 0 <= i < |matches| => (l, Some(matches[i])))
  }

  /** LEFT JOIN: each left row with each match, or once with nulls. */
  function LeftJoin<L, R(!new)>(on: (L, R) -> bool, ls: seq<L>, rs: seq<R>): seq<(L, Option<R>)> {
    if ls == [] then [] else Padded(ls[0], Filter(Matching(on, ls[0]), rs)) + LeftJoin(on, ls[1..], rs)
  }

  function Paired<L, R>(l: L, matches: seq<R>): seq<(L, R)> {
    seq(|matches|, i requires 0 <= i < |matches| => (l, matches[i]))
  }

  /** INNER JOIN: each left row with each match. */
  function InnerJoin<L, R(!new)>(on: (L, R) -> bool, ls: seq<L>, rs: seq<R>): seq<(L, R)> {
    if ls == [] then [] else Paired(ls[0], Filter(Matching(on, ls[0]), rs)) + InnerJoin(on, ls[1..], rs)
  }

  /** The groups of GROUP BY: every key once. */
  function Groups<K(==, !new)>(keys: seq<K>): (r: seq<K>)
    ensures Distinct(r)
    ensures forall k :: k in r <==> k in keys
  {
    if keys == [] then []
    else
      var rest := Groups(keys[1..]);
      assert keys == [keys[0]] + keys[1..];
      if keys[0] in rest then rest else [keys[0]] + rest
  }

  /** COUNT(DISTINCT ...): nulls do not count. */
  function CountDistinct<K(==)>(values: seq<Option<K>>): nat {
    |set v | v in values && v.Some? :: v.value|
  }

  predicate JoinedRow<L(==), R(==)>(on: (L, R) -> bool, ls: seq<L>, rs: seq<R>, x: (L, Option<R>)) {
    && x.0 in ls
    && match x.1
       case None => forall r | r in rs :: !on(x.0, r)
       case Some(r) => r in rs && on(x.0, r)
  }

  lemma PaddedElements<L, R(!new)>(on: (L, R) -> bool, l: L, rs: seq<R>, x: (L, Option<R>))
    ensures x in Padded(l, Filter(Matching(on, l), rs)) <==> JoinedRow(on, [l], rs, x)
  {
    var matches := Filter(Matching(on, l), rs);
    var p := Padded(l, matches);
    if JoinedRow(on, [l], rs, x) && x.1.Some? {
      assert x.1.value in matches;
      var i :| 0 <= i < |matches| && matches[i] == x.1.value;
      assert p[i] == x;
    }
    if JoinedRow(on, [l], rs, x) && x.1.None? {
      FilterNone(Matching(on, l), rs);
      assert p[0] == x;
    }
    if x in p && matches != [] {
      var i :| 0 <= i < |p| && p[i] == x;
      assert matches[i] in matches;
    }
    if x in p && matches == [] {
      assert forall r | r in rs :: !on(l, r) by {
        forall r | r in rs ensures !on(l, r) {
          assert r in matches <==> Matching(on, l)(r);
        }
      }
    }
  }

  /** The rows of a left join: a left row with a match, or a left row without any and a null. */
  lemma {:induction false} LeftJoinElements<L, R(!new)>(on: (L, R) -> bool, ls: seq<L>, rs: seq<R>, x: (L, Option<R>))
    ensures x in LeftJoin(on, ls, rs) <==> JoinedRow(on, ls, rs, x)
  {
    if ls != [] {
      PaddedElements(on, ls[0], rs, x);
      LeftJoinElements(on, ls[1..], rs, x);
      assert ls == [ls[0]] + ls[1..];
    }
  }

  function Beside<L, R>(referred: L -> R): L -> (L, R) {
    l => (l, referred(l))
  }

  /** Where every left row has exactly one match, the inner join adds that match to each row and nothing else. */
  lemma {:induction false} InnerJoinOfReferences<L, R(!new)>(on: (L, R) -> bool, ls: seq<L>, rs: seq<R>, referred: L -> R)
    requires forall l :: l in ls ==> Filter(Matching(on, l), rs) == [referred(l)]
    ensures InnerJoin(on, ls, rs) == Map(Beside(referred), ls)
  {
    if ls != [] {
      assert ls == [ls[0]] + ls[1..];
      InnerJoinOfReferences(on, ls[1..], rs, referred);
    }
  }

  predicate KeyedBy<A(==), K(==)>(key: A -> K, xs: seq<A>) {
    forall i, j :: 0 <= i < j < |xs| ==> key(xs[i]) != key(xs[j])
  }

  /** Rows with different keys have as many keys as there are rows. */
  lemma {:induction false} KeysCount<A, K>(key: A -> K, xs: seq<A>)
    requires KeyedBy(key, xs)
    ensures |set x | x in xs :: key(x)| == |xs|
  {
    if xs == [] {
      assert (set x | x in xs :: key(x)) == {};
    } else {
      KeysCount(key, xs[1..]);
      assert xs == [xs[0]] + xs[1..];
      assert (set x | x in xs :: key(x)) == (set x | x in xs[1..] :: key(x)) + {key(xs[0])};
      assert key(xs[0]) !in (set x | x in xs[1..] :: key(x));
    }
  }

  /** Rows with different keys are as many as their keys. */
  lemma KeysAre<A(!new), K(!new)>(key: A -> K, xs: seq<A>, keys: set<K>)
    requires KeyedBy(key, xs)
    requires forall k :: k in keys ==> exists x :: x in xs && key(x) == k
    requires forall x :: x in xs ==> key(x) in keys
    ensures |xs| == |keys|
  {
    KeysCount(key, xs);
    assert (set x | x in xs :: key(x)) == keys;
  }

  lemma {:induction false} FilterKeyed<A(!new), K>(keep: A -> bool, key: A -> K, xs: seq<A>)
    requires KeyedBy(key, xs)
    ensures KeyedBy(key, Filter(keep, xs))
  {
    if xs != [] {
      FilterKeyed(keep, key, xs[1..]);
      var rest := Filter(keep, xs[1..]);
      assert forall i :: 0 <= i < |rest| ==> rest[i] in xs[1..];
      assert forall y :: y in xs[1..] ==> key(y) != key(xs[0]);
    }
  }

  /** A key picks out exactly the one row that has it. */
  lemma {:induction false} FilterByKey<A(!new), K>(key: A -> K, xs: seq<A>, keep: A -> bool, x: A)
    requires KeyedBy(key, xs) && x in xs
    requires forall y :: y in xs ==> (keep(y) <==> key(y) == key(x))
    ensures Filter(keep, xs) == [x]
  {
    assert xs == [xs[0]] + xs[1..];
    if x == xs[0] {
      assert forall y :: y in xs[1..] ==> !keep(y);
      FilterNone(keep, xs[1..]);
    } else {
      FilterByKey(key, xs[1..], keep, x);
      var i :| 0 <= i < |xs| && xs[i] == x;
      assert key(xs[0]) != key(xs[i]);
    }
  }

  lemma {:induction false} FilterNone<A(!new)>(keep: A -> bool, xs: seq<A>)
    requires forall x :: x in xs ==> !keep(x)
    ensures Filter(keep, xs) == []
  {
    if Filter(keep, xs) != [] {
      assert Filter(keep, xs)[0] in Filter(keep, xs);
    }
  }

  /** Selecting after a projection selects as many rows as selecting before it. */
  lemma {:induction false} FilterOfMap<A(!new), B(!new)>(f: A -> B, keep: B -> bool, keep': A -> bool, xs: seq<A>)
    requires forall x :: x in xs ==> keep'(x) == keep(f(x))
    ensures |Filter(keep, Map(f, xs))| == |Filter(keep', xs)|
  {
    if xs != [] {
      assert xs == [xs[0]] + xs[1..];
      assert Map(f, xs)[1..] == Map(f, xs[1..]);
      FilterOfMap(f, keep, keep', xs[1..]);
    }
  }

  lemma DistinctSameElements<A>(xs: seq<A>, ys: seq<A>)
    requires Distinct(xs) && Distinct(ys)
    requires forall x :: x in xs <==> x in ys
    ensures multiset(xs) == multiset(ys)
  {
    forall x ensures multiset(xs)[x] == multiset(ys)[x] {
      DistinctCount(xs, x);
      DistinctCount(ys, x);
    }
  }

  lemma {:induction false} DistinctCount<A>(xs: seq<A>, x: A)
    requires Distinct(xs)
    ensures multiset(xs)[x] == if x in xs then 1 else 0
  {
    if xs != [] {
      assert xs == [xs[0]] + xs[1..];
      DistinctCount(xs[1..], x);
    }
  }

  /** Two orderings of the same distinct rows are the same sequence. */
  lemma OrderedSame<A(!new)>(before: (A, A) -> bool, xs: seq<A>, ys: seq<A>)
    requires Asymmetric(before)
    requires Ordered(before, xs) && Ordered(before, ys)
    requires forall x :: x in xs <==> x in ys
    ensures xs == ys
  {
    OrderedDistinct(before, xs);
    OrderedDistinct(before, ys);
    DistinctSameElements(xs, ys);
    OrderedUnique(before, xs, ys);
  }

  lemma OrderedDistinct<A(!new)>(before: (A, A) -> bool, xs: seq<A>)
    requires Asymmetric(before) && Ordered(before, xs)
    ensures Distinct(xs)
  {
  }

  lemma MapElements<A(!new), B>(f: A -> B, xs: seq<A>, y: B)
    ensures y in Map(f, xs) <==> exists x :: x in xs && f(x) == y
  {
    if y in Map(f, xs) {
      var i :| 0 <= i < |xs| && Map(f, xs)[i] == y;
      assert xs[i] in xs;
    }
    if x :| x in xs && f(x) == y {
      var i :| 0 <= i < |xs| && xs[i] == x;
      assert Map(f, xs)[i] == y;
    }
  }

  lemma MapMap<A(!new), B, C>(g: B -> C, f: A -> B, h: A -> C, xs: seq<A>)
    requires forall x :: x in xs ==> g(f(x)) == h(x)
    ensures Map(g, Map(f, xs)) == Map(h, xs)
  {
    forall i | 0 <= i < |xs| ensures Map(g, Map(f, xs))[i] == Map(h, xs)[i] {
      assert xs[i] in xs;
    }
  }

  function Both<A>(p: A -> bool, q: A -> bool): A -> bool {
    x => p(x) && q(x)
  }

  lemma {:induction false} FilterFilter<A(!new)>(p: A -> bool, q: A -> bool, xs: seq<A>)
    ensures Filter(p, Filter(q, xs)) == Filter(Both(q, p), xs)
  {
    if xs != [] {
      FilterFilter(p, q, xs[1..]);
      var rest := Filter(q, xs[1..]);
      if q(xs[0]) {
        assert Filter(q, xs) == [xs[0]] + rest && ([xs[0]] + rest)[1..] == rest;
      } else {
        assert Filter(q, xs) == rest;
      }
    }
  }

  /** Counting by cases. */
  lemma {:induction false} FilterSplit<A(!new)>(whole: A -> bool, p: A -> bool, q: A -> bool, xs: seq<A>)
    requires forall x :: x in xs ==> (whole(x) <==> p(x) || q(x)) && !(p(x) && q(x))
    ensures |Filter(whole, xs)| == |Filter(p, xs)| + |Filter(q, xs)|
  {
    if xs != [] {
      assert xs[0] in xs && forall x :: x in xs[1..] ==> x in xs;
      FilterSplit(whole, p, q, xs[1..]);
    }
  }

  /** The same distinct rows, however listed, are as many. */
  lemma SameNumber<A(!new)>(xs: seq<A>, ys: seq<A>)
    requires Distinct(xs) && Distinct(ys)
    requires forall x :: x in xs <==> x in ys
    ensures |xs| == |ys|
  {
    DistinctSameElements(xs, ys);
    assert |multiset(xs)| == |multiset(ys)|;
  }

  lemma MapSame<A(!new), B>(f: A -> B, g: A -> B, xs: seq<A>)
    requires forall x :: x in xs ==> f(x) == g(x)
    ensures Map(f, xs) == Map(g, xs)
  {
    forall i | 0 <= i < |xs| ensures Map(f, xs)[i] == Map(g, xs)[i] {
      assert xs[i] in xs;
    }
  }

  /** A projection may come before or after a selection. */
  lemma {:induction false} FilterMap<A(!new), B(!new)>(f: A -> B, keep: B -> bool, keep': A -> bool, xs: seq<A>)
    requires forall x :: x in xs ==> keep'(x) == keep(f(x))
    ensures Filter(keep, Map(f, xs)) == Map(f, Filter(keep', xs))
  {
    if xs != [] {
      assert xs == [xs[0]] + xs[1..];
      assert Map(f, xs)[1..] == Map(f, xs[1..]);
      FilterMap(f, keep, keep', xs[1..]);
    }
  }

  /** A projection may come before or after a sort that it keeps the order of. */
  lemma {:induction false} SortMap<A(!new), B(!new)>(f: A -> B, before: (B, B) -> bool, before': (A, A) -> bool, xs: seq<A>)
    requires forall x, y :: before'(x, y) == before(f(x), f(y))
    ensures Sort(before, Map(f, xs)) == Map(f, Sort(before', xs))
  {
    if xs != [] {
      assert Map(f, xs)[1..] == Map(f, xs[1..]);
      SortMap(f, before, before', xs[1..]);
      InsertMap(f, before, before', xs[0], Sort(before', xs[1..]));
    }
  }

  lemma MapCons<A(!new), B(!new)>(f: A -> B, x: A, xs: seq<A>)
    ensures Map(f, [x] + xs) == [f(x)] + Map(f, xs)
    ensures xs != [] ==> Map(f, xs)[0] == f(xs[0]) && Map(f, xs)[1..] == Map(f, xs[1..])
  {
  }

  lemma {:induction false} InsertMap<A(!new), B(!new)>(f: A -> B, before: (B, B) -> bool, before': (A, A) -> bool, x: A, xs: seq<A>)
    requires forall x, y :: before'(x, y) == before(f(x), f(y))
    ensures Insert(before, f(x), Map(f, xs)) == Map(f, Insert(before', x, xs))
  {
    MapCons(f, x, xs);
    hide Map;
    if xs != [] && !before'(x, xs[0]) {
      assert !before(f(x), f(xs[0]));
      MapCons(f, xs[0], Insert(before', x, xs[1..]));
      InsertMap(f, before, before', x, xs[1..]);
    }
  }
}
