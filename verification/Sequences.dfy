/** Standard-library sequence operations the modelled code calls: a stable `sort_by`, `filter`
    and the lexicographic order on strings. */
module Sequences {

  datatype Option<+T> = None | Some(value: T)

  ghost predicate SortedBy<T(!new)>(xs: seq<T>, leq: (T, T) -> bool) {
    forall i, j :: 0 <= i < j < |xs| ==> leq(xs[i], xs[j])
  }

  /** A reflexive, total and transitive comparison: what a sort expects of its comparator. */
  ghost predicate TotalOrder<T(!new)>(leq: (T, T) -> bool) {
    && (forall x, y :: leq(x, y) || leq(y, x))
    && (forall x, y, z :: leq(x, y) && leq(y, z) ==> leq(x, z))
  }

  /** Puts `x`, which stood before `ys`, at its place among the sorted `ys`, ahead of its equals. */
  function Insert<T>(x: T, ys: seq<T>, leq: (T, T) -> bool): (zs: seq<T>)
    ensures multiset(zs) == multiset(ys) + multiset{x}
  {
    if ys == [] then [x]
    else if leq(x, ys[0]) then [x] + ys
    else
      assert ys == [ys[0]] + ys[1..];
      [ys[0]] + Insert(x, ys[1..], leq)
  }

  /** The stable `sort_by` of the source's standard library. */
  function SortBy<T>(xs: seq<T>, leq: (T, T) -> bool): (ys: seq<T>)
    ensures multiset(ys) == multiset(xs)
  {
    if xs == [] then []
    else
      assert xs == [xs[0]] + xs[1..];
      Insert(xs[0], SortBy(xs[1..], leq), leq)
  }

  lemma InsertSorted<T(!new)>(x: T, ys: seq<T>, leq: (T, T) -> bool)
    requires TotalOrder(leq) && SortedBy(ys, leq)
    ensures SortedBy(Insert(x, ys, leq), leq)
  {
    if ys != [] && !leq(x, ys[0]) {
      var tail := Insert(x, ys[1..], leq);
      InsertSorted(x, ys[1..], leq);
      forall z | z in tail ensures leq(ys[0], z) {
        SameElements(tail, ys[1..] + [x]);
      }
    }
  }

  lemma SortBySorted<T(!new)>(xs: seq<T>, leq: (T, T) -> bool)
    requires TotalOrder(leq)
    ensures SortedBy(SortBy(xs, leq), leq)
  {
    if xs != [] {
      SortBySorted(xs[1..], leq);
      InsertSorted(xs[0], SortBy(xs[1..], leq), leq);
    }
  }

  lemma {:induction false} SortedStays<T(!new)>(xs: seq<T>, leq: (T, T) -> bool)
    requires SortedBy(xs, leq)
    ensures SortBy(xs, leq) == xs
  {
    if xs == [] {
    } else {
      SortedStays(xs[1..], leq);
      assert xs == [xs[0]] + xs[1..];
      if |xs| > 1 { assert leq(xs[0], xs[1]); }
    }
  }

  lemma SameElements<T(!new)>(xs: seq<T>, ys: seq<T>)
    requires multiset(xs) == multiset(ys)
    ensures |xs| == |ys|
    ensures forall x :: x in xs <==> x in ys
  {
    assert |multiset(xs)| == |multiset(ys)|;
    forall x ensures x in xs <==> x in ys {
      assert x in xs <==> x in multiset(xs);
      assert x in ys <==> x in multiset(ys);
    }
  }

  /** Elements that satisfy `p`, in order. */
  function Filter<T(!new)>(xs: seq<T>, p: T -> bool): (ys: seq<T>)
    ensures forall x :: x in ys <==> x in xs && p(x)
  {
    if xs == [] then []
    else (if p(xs[0]) then [xs[0]] else []) + Filter(xs[1..], p)
  }

  lemma {:induction false} FilterShrinks<T(!new)>(xs: seq<T>, p: T -> bool)
    ensures |Filter(xs, p)| <= |xs|
  {
    if xs == [] {
    } else {
      FilterShrinks(xs[1..], p);
    }
  }

  lemma {:induction false} FilterKeepsAll<T(!new)>(xs: seq<T>, p: T -> bool)
    requires forall x :: x in xs ==> p(x)
    ensures Filter(xs, p) == xs
  {
    if xs == [] {
    } else {
      assert xs[0] in xs;
      FilterKeepsAll(xs[1..], p);
      assert xs == [xs[0]] + xs[1..];
    }
  }

  lemma FilterNothing<T(!new)>(p: T -> bool)
    ensures Filter([], p) == []
  {}

  lemma FilterCons<T(!new)>(x: T, ys: seq<T>, p: T -> bool)
    ensures Filter([x] + ys, p) == (if p(x) then [x] else []) + Filter(ys, p)
  {
    assert ([x] + ys)[0] == x && ([x] + ys)[1..] == ys;
  }

  lemma {:induction false} FilterConcat<T(!new)>(xs: seq<T>, ys: seq<T>, p: T -> bool)
    ensures Filter(xs + ys, p) == Filter(xs, p) + Filter(ys, p)
  {
    hide Filter;
    if xs == [] {
      FilterNothing(p);
      assert xs + ys == ys;
    } else {
      FilterConcat(xs[1..], ys, p);
      FilterCons(xs[0], xs[1..] + ys, p);
      FilterCons(xs[0], xs[1..], p);
      assert xs == [xs[0]] + xs[1..] && xs + ys == [xs[0]] + (xs[1..] + ys);
    }
  }

  /** Filtering twice is filtering by both. */
  lemma {:induction false} FilterTwice<T(!new)>(xs: seq<T>, p: T -> bool, q: T -> bool, both: T -> bool)
    requires forall x :: both(x) <==> p(x) && q(x)
    ensures Filter(Filter(xs, p), q) == Filter(xs, both)
  {
    if xs == [] {
    } else {
      FilterTwice(xs[1..], p, q, both);
      FilterConcat(if p(xs[0]) then [xs[0]] else [], Filter(xs[1..], p), q);
    }
  }

  /** The comparison cannot tell these elements apart. */
  ghost predicate Tied<T(!new)>(leq: (T, T) -> bool, p: T -> bool) { forall x, y :: p(x) && p(y) ==> leq(x, y) }

  /** Such elements keep their order. */
  lemma {:induction false} SortIsStable<T(!new)>(xs: seq<T>, leq: (T, T) -> bool, p: T -> bool)
    requires Tied(leq, p)
    ensures Filter(SortBy(xs, leq), p) == Filter(xs, p)
  {
    if xs == [] {
    } else {
      SortIsStable(xs[1..], leq, p);
      InsertGoesFirst(xs[0], SortBy(xs[1..], leq), leq, p);
      hide Insert, Tied;
      FilterCons(xs[0], xs[1..], p);
      assert xs == [xs[0]] + xs[1..];
    }
  }

  lemma {:induction false} InsertGoesFirst<T(!new)>(x: T, ys: seq<T>, leq: (T, T) -> bool, p: T -> bool)
    requires Tied(leq, p)
    ensures Filter(Insert(x, ys, leq), p) == (if p(x) then [x] else []) + Filter(ys, p)
  {
    if ys == [] {
      FilterCons(x, [], p);
      assert [x] + [] == [x];
    } else if leq(x, ys[0]) {
      FilterCons(x, ys, p);
    } else {
      var y, rest := ys[0], ys[1..];
      assert ys == [y] + rest && !(p(x) && p(y));
      InsertGoesFirst(x, rest, leq, p);
      InsertPasses(x, ys, leq);
      hide Insert, Tied;
      FilterCons(y, Insert(x, rest, leq), p);
      FilterCons(y, rest, p);
      hide Filter;
    }
  }

  lemma InsertPasses<T>(x: T, ys: seq<T>, leq: (T, T) -> bool)
    requires ys != [] && !leq(x, ys[0])
    ensures Insert(x, ys, leq) == [ys[0]] + Insert(x, ys[1..], leq)
  {}

  /** The last place where `p` holds, and what filtering ends with. */
  lemma {:induction false} LastPlace<T(!new)>(xs: seq<T>, p: T -> bool) returns (i: nat)
    requires exists x :: x in xs && p(x)
    ensures i < |xs| && p(xs[i]) && forall k :: i < k < |xs| ==> !p(xs[k])
    ensures EndsWith(Filter(xs, p), xs[i])
  {
    var n := |xs| - 1;
    var front, last := xs[..n], xs[n];
    assert xs == front + [last];
    FilterEnd(front, last, p);
    hide Filter, EndsWith;
    if p(last) {
      i := n;
    } else {
      i := LastPlace(front, p);
    }
  }

  predicate EndsWith<T(==)>(xs: seq<T>, x: T) { xs != [] && xs[|xs|-1] == x }

  lemma FilterEnd<T(!new)>(front: seq<T>, last: T, p: T -> bool)
    ensures if p(last) then EndsWith(Filter(front + [last], p), last)
      else Filter(front + [last], p) == Filter(front, p)
  {
    hide Filter;
    FilterConcat(front, [last], p);
    FilterCons(last, [], p);
    FilterNothing(p);
    assert [last] + [] == [last];
  }

  /** Where `p` holds. */
  ghost function Places<T(!new)>(xs: seq<T>, p: T -> bool): set<int> { set i | 0 <= i < |xs| && p(xs[i]) }

  lemma PlacesGrow<T(!new)>(xs: seq<T>, p: T -> bool)
    requires xs != []
    ensures |Places(xs, p)| == |Places(xs[..|xs|-1], p)| + if p(xs[|xs|-1]) then 1 else 0
  {
    var n := |xs| - 1;
    assert Places(xs, p) == if p(xs[n]) then Places(xs[..n], p) + {n} else Places(xs[..n], p);
  }

  ghost predicate DistinctBy<T(!new), K(!new)>(xs: seq<T>, key: T -> K) {
    forall i, j :: 0 <= i < j < |xs| ==> key(xs[i]) != key(xs[j])
  }

  lemma {:induction false} CountsAtMostOnce<T(!new), K(!new)>(xs: seq<T>, key: T -> K, x: T)
    requires DistinctBy(xs, key)
    ensures multiset(xs)[x] <= 1
  {
    if xs == [] {
    } else {
      var front, last := xs[..|xs|-1], xs[|xs|-1];
      assert xs == front + [last];
      CountsAtMostOnce(front, key, x);
      if x == last {
        assert x !in front;
        assert x !in multiset(front);
      }
    }
  }

  lemma CountsTwice<T(!new)>(xs: seq<T>, i: nat, j: nat)
    requires i < j < |xs| && xs[i] == xs[j]
    ensures multiset(xs)[xs[i]] >= 2
  {
    var a, b := xs[..j], xs[j..];
    assert xs == a + b;
    assert a[i] in multiset(a) && b[0] in multiset(b);
  }

  /** Keys that are distinct stay distinct under any rearrangement. */
  lemma DistinctUnderPermutation<T(!new), K(!new)>(xs: seq<T>, ys: seq<T>, key: T -> K)
    requires DistinctBy(xs, key) && multiset(xs) == multiset(ys)
    ensures DistinctBy(ys, key)
  {
    SameElements(xs, ys);
    forall i, j | 0 <= i < j < |ys| ensures key(ys[i]) != key(ys[j]) {
      assert ys[i] in xs && ys[j] in xs;
      if ys[i] == ys[j] {
        CountsTwice(ys, i, j);
        CountsAtMostOnce(xs, key, ys[i]);
      }
    }
  }
}
