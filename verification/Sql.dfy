/** The relational operators the repository's queries are made of, over tables as sequences of rows. */
module Sql {
  import opened Results

  // ---- WHERE ----

  function Filter<T(!new)>(xs: seq<T>, keep: T -> bool): (r: seq<T>)
    ensures |r| <= |xs|
    ensures forall x :: x in r <==> x in xs && keep(x)
  {
    if xs == [] then []
    else if keep(xs[0]) then [xs[0]] + Filter(xs[1..], keep)
    else Filter(xs[1..], keep)
  }

  lemma Reassociate<T>(x: T, a: seq<T>, b: seq<T>)
    ensures [x] + (a + b) == ([x] + a) + b
  {
  }

  lemma {:induction false} FilterAppend<T(!new)>(a: seq<T>, b: seq<T>, keep: T -> bool)
    ensures Filter(a + b, keep) == Filter(a, keep) + Filter(b, keep)
  {
    if a == [] {
      assert a + b == b;
    } else {
      FilterAppend(a[1..], b, keep);
      assert (a + b)[0] == a[0] && (a + b)[1..] == a[1..] + b;
      Reassociate(a[0], Filter(a[1..], keep), Filter(b, keep));
    }
  }

  /** Changing only rows that the condition rejects, before and after, does not change the selection. */
  lemma {:induction false} FilterSameWhereKept<T(!new)>(a: seq<T>, b: seq<T>, keep: T -> bool)
    requires |a| == |b|
    requires forall i :: 0 <= i < |a| ==> a[i] == b[i] || (!keep(a[i]) && !keep(b[i]))
    ensures Filter(a, keep) == Filter(b, keep)
  {
    if a != [] {
      FilterSameWhereKept(a[1..], b[1..], keep);
    }
  }

  lemma {:induction false} FilterNone<T(!new)>(xs: seq<T>, keep: T -> bool)
    requires forall i :: 0 <= i < |xs| ==> !keep(xs[i])
    ensures Filter(xs, keep) == []
  {
    if xs != [] {
      FilterNone(xs[1..], keep);
    }
  }

  lemma {:induction false} FilterSameCondition<T(!new)>(xs: seq<T>, p: T -> bool, q: T -> bool)
    requires forall x :: x in xs ==> p(x) == q(x)
    ensures Filter(xs, p) == Filter(xs, q)
  {
    if xs != [] {
      FilterSameCondition(xs[1..], p, q);
    }
  }

  lemma FilterOne<T(!new)>(x: T, keep: T -> bool)
    ensures Filter([x], keep) == if keep(x) then [x] else []
  {
  }

  lemma {:induction false} FilterTwice<T(!new)>(xs: seq<T>, p: T -> bool, q: T -> bool, both: T -> bool)
    requires forall x :: x in xs ==> both(x) == (p(x) && q(x))
    ensures Filter(Filter(xs, p), q) == Filter(xs, both)
  {
    if xs != [] {
      FilterTwice(xs[1..], p, q, both);
      assert xs[0] in xs;
      var rest := Filter(xs[1..], p);
      if p(xs[0]) {
        FilterAppend([xs[0]], rest, q);
        FilterOne(xs[0], q);
      } else {
        assert Filter(xs, p) == rest;
      }
    }
  }

  ghost predicate Sorted<T(!new)>(xs: seq<T>, before: (T, T) -> bool) {
    forall i, j :: 0 <= i < j < |xs| ==> before(xs[i], xs[j])
  }

  /** What holds between any two selected rows, in table order, holds in the selection. */
  lemma {:induction false} FilterPairwise<T(!new)>(xs: seq<T>, keep: T -> bool, rel: (T, T) -> bool)
    requires forall i, j :: 0 <= i < j < |xs| && keep(xs[i]) && keep(xs[j]) ==> rel(xs[i], xs[j])
    ensures Sorted(Filter(xs, keep), rel)
  {
    if xs != [] {
      FilterPairwise(xs[1..], keep, rel);
      var rest := Filter(xs[1..], keep);
      if keep(xs[0]) {
        forall j | 0 <= j < |rest| ensures rel(xs[0], rest[j]) {
          assert rest[j] in rest;
          var k :| 0 <= k < |xs[1..]| && xs[1..][k] == rest[j];
          assert xs[k + 1] == rest[j];
        }
        assert Filter(xs, keep) == [xs[0]] + rest;
      } else {
        assert Filter(xs, keep) == rest;
      }
    }
  }

  ghost function Chosen<T(!new)>(xs: seq<T>, keep: T -> bool): set<T> {
    set x | x in xs && keep(x)
  }

  /** Of rows without repetition a selection has as many as there are rows that meet the condition. */
  lemma {:induction false} FilterCounts<T(!new)>(xs: seq<T>, keep: T -> bool)
    requires forall i, j :: 0 <= i < j < |xs| ==> xs[i] != xs[j]
    ensures |Filter(xs, keep)| == |Chosen(xs, keep)|
  {
    if xs != [] {
      var tail := xs[1..];
      FilterCounts(tail, keep);
      forall i | 0 <= i < |tail| ensures tail[i] != xs[0] {
        assert tail[i] == xs[i + 1];
      }
      assert Chosen(xs, keep) == if keep(xs[0]) then Chosen(tail, keep) + {xs[0]} else Chosen(tail, keep);
    }
  }

  // ---- ORDER BY ----

  lemma SortedConcat<T(!new)>(a: seq<T>, b: seq<T>, before: (T, T) -> bool)
    requires Sorted(a, before) && Sorted(b, before)
    requires forall i, j :: 0 <= i < |a| && 0 <= j < |b| ==> before(a[i], b[j])
    ensures Sorted(a + b, before)
  {
  }

  /** The rows can be put in one and only one order: `before` is a strict order that separates any two positions. */
  ghost predicate Orderable<T(!new)>(xs: seq<T>, before: (T, T) -> bool) {
    && (forall i, j :: 0 <= i < |xs| && 0 <= j < |xs| && i != j ==> before(xs[i], xs[j]) || before(xs[j], xs[i]))
    && (forall x, y, z :: x in xs && y in xs && z in xs && before(x, y) && before(y, z) ==> before(x, z))
  }

  function Insert<T(!new)>(x: T, xs: seq<T>, before: (T, T) -> bool): (r: seq<T>)
    ensures |r| == |xs| + 1
  {
    if xs == [] then [x]
    else if before(x, xs[0]) then [x] + xs
    else [xs[0]] + Insert(x, xs[1..], before)
  }

  function Sort<T(!new)>(xs: seq<T>, before: (T, T) -> bool): (r: seq<T>)
    ensures |r| == |xs|
  {
    if xs == [] then [] else Insert(xs[0], Sort(xs[1..], before), before)
  }

  lemma {:induction false} InsertPermutes<T(!new)>(x: T, xs: seq<T>, before: (T, T) -> bool)
    ensures multiset(Insert(x, xs, before)) == multiset([x] + xs)
  {
    if xs != [] && !before(x, xs[0]) {
      InsertPermutes(x, xs[1..], before);
      assert xs == [xs[0]] + xs[1..];
    }
  }

  lemma {:induction false} SortPermutes<T(!new)>(xs: seq<T>, before: (T, T) -> bool)
    ensures multiset(Sort(xs, before)) == multiset(xs)
  {
    if xs != [] {
      SortPermutes(xs[1..], before);
      InsertPermutes(xs[0], Sort(xs[1..], before), before);
      assert xs == [xs[0]] + xs[1..];
    }
  }

  lemma SameElements<T(!new)>(a: seq<T>, b: seq<T>)
    requires multiset(a) == multiset(b)
    ensures forall x :: x in a <==> x in b
  {
    forall x ensures x in a <==> x in b {
      assert x in a <==> x in multiset(a);
      assert x in b <==> x in multiset(b);
    }
  }

  lemma {:induction false} InsertSorts<T(!new)>(x: T, xs: seq<T>, before: (T, T) -> bool)
    requires Sorted(xs, before)
    requires forall y :: y in xs ==> before(x, y) || before(y, x)
    requires forall u, v, w :: u in [x] + xs && v in [x] + xs && w in [x] + xs && before(u, v) && before(v, w)
                               ==> before(u, w)
    ensures Sorted(Insert(x, xs, before), before)
  {
    if xs != [] && !before(x, xs[0]) {
      InsertSorts(x, xs[1..], before);
      var r := Insert(x, xs[1..], before);
      InsertPermutes(x, xs[1..], before);
      SameElements(r, [x] + xs[1..]);
      forall j | 0 <= j < |r| ensures before(xs[0], r[j]) {
        assert r[j] in r;
        if r[j] != x {
          assert r[j] in xs[1..];
        }
      }
    }
  }

  lemma {:induction false} SortSorts<T(!new)>(xs: seq<T>, before: (T, T) -> bool)
    requires Orderable(xs, before)
    ensures Sorted(Sort(xs, before), before)
  {
    if xs != [] {
      var tail := xs[1..];
      assert Orderable(tail, before) by {
        forall i, j | 0 <= i < |tail| && 0 <= j < |tail| && i != j
          ensures before(tail[i], tail[j]) || before(tail[j], tail[i])
        {
          assert tail[i] == xs[i + 1] && tail[j] == xs[j + 1];
        }
      }
      SortSorts(tail, before);
      SortPermutes(tail, before);
      SameElements(Sort(tail, before), tail);
      forall y | y in tail ensures before(xs[0], y) || before(y, xs[0]) {
        var i :| 0 <= i < |tail| && tail[i] == y;
        assert xs[i + 1] == y;
      }
      InsertSorts(xs[0], Sort(tail, before), before);
    }
  }

  /** Sorting rows that are already in order changes nothing. */
  lemma {:induction false} SortOfSorted<T(!new)>(xs: seq<T>, before: (T, T) -> bool)
    requires Sorted(xs, before)
    ensures Sort(xs, before) == xs
  {
    if xs != [] {
      SortOfSorted(xs[1..], before);
      assert Insert(xs[0], xs[1..], before) == [xs[0]] + xs[1..];
    }
  }

  // ---- LIMIT / OFFSET ----

  function Slice<T(!new)>(xs: seq<T>, limit: nat, offset: nat): (r: seq<T>)
    ensures |r| <= limit
  {
    if offset >= |xs| then []
    else if offset + limit >= |xs| then xs[offset..]
    else xs[offset..offset + limit]
  }

  lemma CutAt<T(!new)>(all: seq<T>, limit: nat, offset: nat)
    requires offset < |all|
    ensures all[offset..] == Slice(all, limit, offset) + (if offset + limit <= |all| then all[offset + limit..] else [])
  {
  }

  /** What a client collects that asks for pages at offsets 0, L, 2L, ... until one comes back empty. */
  function Collect<T(!new)>(page: nat -> seq<T>, all: seq<T>, limit: nat, offset: nat): (r: seq<T>)
    requires limit > 0
    requires forall k: nat :: page(k) == Slice(all, limit, k)
    ensures r == if offset <= |all| then all[offset..] else []
    decreases |all| - offset
  {
    assert page(offset) == Slice(all, limit, offset);
    if page(offset) == [] then []
    else
      CutAt(all, limit, offset);
      page(offset) + Collect(page, all, limit, offset + limit)
  }

  // ---- LEFT JOIN ----

  function Pairings<A(!new), B(!new)>(a: A, bs: seq<B>, on: (A, B) -> bool): (r: seq<(A, Option<B>)>)
    ensures forall p :: p in r <==> p.0 == a && p.1.Some? && p.1.value in bs && on(a, p.1.value)
  {
    if bs == [] then []
    else (if on(a, bs[0]) then [(a, Some(bs[0]))] else []) + Pairings(a, bs[1..], on)
  }

  /** Nested-loop left join: a row without a partner is kept once, paired with NULL. */
  function LeftJoin<A(!new), B(!new)>(xs: seq<A>, ys: seq<B>, on: (A, B) -> bool): seq<(A, Option<B>)> {
    if xs == [] then []
    else
      var hits := Pairings(xs[0], ys, on);
      (if hits == [] then [(xs[0], None)] else hits) + LeftJoin(xs[1..], ys, on)
  }

  ghost predicate Partner<A(!new), B(!new)>(a: A, b: Option<B>, ys: seq<B>, on: (A, B) -> bool) {
    match b
    case Some(v) => v in ys && on(a, v)
    case None => forall v :: v in ys ==> !on(a, v)
  }

  lemma {:induction false} LeftJoinRows<A(!new), B(!new)>(xs: seq<A>, ys: seq<B>, on: (A, B) -> bool, p: (A, Option<B>))
    ensures p in LeftJoin(xs, ys, on) <==> p.0 in xs && Partner(p.0, p.1, ys, on)
  {
    if xs != [] {
      LeftJoinRows(xs[1..], ys, on, p);
      var a := xs[0];
      var hits := Pairings(a, ys, on);
      if hits == [] {
        forall v | v in ys ensures !on(a, v) {
          assert on(a, v) ==> (a, Some(v)) in hits;
        }
      } else {
        assert hits[0] in hits;
      }
    }
  }

  // ---- GROUP BY ----

  /** The distinct keys of the rows. */
  function Keys<T(!new), K(==,!new)>(xs: seq<T>, key: T -> K): (r: seq<K>)
    ensures forall k :: k in r <==> exists x :: x in xs && key(x) == k
    ensures forall i, j :: 0 <= i < j < |r| ==> r[i] != r[j]
  {
    if xs == [] then []
    else
      var rest := Keys(xs[1..], key);
      if key(xs[0]) in rest then rest else [key(xs[0])] + rest
  }

  function Map<T(!new), U(!new)>(xs: seq<T>, f: T -> U): seq<U> {
    seq(|xs|, i requires 0 <= i < |xs| => f(xs[i]))
  }

  // ---- COUNT(DISTINCT) ----

  ghost function Image<T(!new)>(xs: seq<T>, f: T -> int): set<int> {
    set x | x in xs :: f(x)
  }

  /** Values that differ at different positions are as many as the positions. */
  lemma {:induction false} DistinctValues<T(!new)>(xs: seq<T>, f: T -> int)
    requires forall i, j :: 0 <= i < j < |xs| ==> f(xs[i]) != f(xs[j])
    ensures |Image(xs, f)| == |xs|
  {
    if xs != [] {
      var tail := xs[1..];
      DistinctValues(tail, f);
      assert Image(xs, f) == Image(tail, f) + {f(xs[0])};
      forall k | 0 <= k < |tail| ensures f(tail[k]) != f(xs[0]) {
        assert tail[k] == xs[k + 1];
      }
    }
  }
}
