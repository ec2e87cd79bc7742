/**
 * Sequences of ids as the list endpoints return them: the keys of a table
 * in id order, filtered by a query predicate, optionally sorted by the
 * queryset's `ordering` with a stable insertion sort.
 */
module Sequences {

  /** No element occurs twice (the effect of `.distinct()`). */
  ghost predicate Distinct<T(!new)>(xs: seq<T>) {
    forall x :: multiset(xs)[x] <= 1
  }

  /** `le` is a total preorder: every pair is comparable, and it is transitive. */
  ghost predicate TotalPreorder<T(!new)>(le: (T, T) -> bool) {
    && (forall a, b :: le(a, b) || le(b, a))
    && (forall a, b, c :: le(a, b) && le(b, c) ==> le(a, c))
  }

  /** `xs` is in ascending order under `le`. */
  ghost predicate SortedBy<T>(xs: seq<T>, le: (T, T) -> bool) {
    forall i, j :: 0 <= i < j < |xs| ==> le(xs[i], xs[j])
  }

  /** The keys of `m` below `bound`, in ascending order. */
  function SortedKeys<V>(m: map<nat, V>, bound: nat): (r: seq<nat>)
    ensures forall k :: k in r <==> k in m && k < bound
    ensures forall i, j :: 0 <= i < j < |r| ==> r[i] < r[j]
    decreases bound
  {
    if bound == 0 then []
    else
      var prefix := SortedKeys(m, bound - 1);
      if bound - 1 in m then
        assert forall i :: 0 <= i < |prefix| ==> prefix[i] in prefix;
        prefix + [bound - 1]
      else prefix
  }

  /** A strictly ascending sequence has no duplicates. */
  lemma {:induction false} AscendingIsDistinct(xs: seq<nat>)
    requires forall i, j :: 0 <= i < j < |xs| ==> xs[i] < xs[j]
    ensures Distinct(xs)
  {
    if xs != [] {
      var init := xs[..|xs| - 1];
      var last := xs[|xs| - 1];
      AscendingIsDistinct(init);
      assert xs == init + [last];
      assert last !in init by {
        forall i | 0 <= i < |init|
          ensures init[i] != last
        {
          assert xs[i] < xs[|xs| - 1];
        }
      }
      assert multiset(xs) == multiset(init) + multiset{last};
    }
  }

  /** The keys of `m` below `bound` that satisfy `keep`, in ascending order. */
  function SelectKeys<V>(m: map<nat, V>, bound: nat, keep: nat -> bool): (r: seq<nat>)
    ensures forall k :: k in r <==> k in m && k < bound && keep(k)
    ensures Distinct(r)
  {
    var all := SortedKeys(m, bound);
    AscendingIsDistinct(all);
    Filter(all, keep)
  }

  /** Two positions of a sequence without duplicates hold different elements. */
  lemma {:induction false} DistinctElementsDiffer<T(!new)>(xs: seq<T>, i: int, j: int)
    requires Distinct(xs) && 0 <= i < j < |xs|
    ensures xs[i] != xs[j]
  {
    var prefix := xs[..j];
    assert xs == prefix + [xs[j]] + xs[j + 1..];
    assert xs[i] == prefix[i];
    assert multiset(xs)[xs[j]] == multiset(prefix)[xs[j]] + 1 + multiset(xs[j + 1..])[xs[j]];
  }

  /** A set holding two different elements has more than one element. */
  lemma {:induction false} TwoMembers<T>(a: T, b: T, xs: set<T>)
    requires a in xs && b in xs && a != b
    ensures |xs| > 1
  {
    var rest := xs - {a};
    assert xs == rest + {a};
    assert b in rest;
  }

  /** The elements of `xs` satisfying `keep`, in their original order. */
  function Filter<T(!new)>(xs: seq<T>, keep: T -> bool): (r: seq<T>)
    ensures forall x :: x in r <==> x in xs && keep(x)
    ensures multiset(r) <= multiset(xs)
    ensures Distinct(xs) ==> Distinct(r)
  {
    if xs == [] then []
    else
      assert xs == [xs[0]] + xs[1..];
      var rest := Filter(xs[1..], keep);
      if keep(xs[0]) then [xs[0]] + rest else rest
  }

  /** Inserts `x` into the sorted `xs` before the first element it is not above. */
  function Insert<T(!new)>(x: T, xs: seq<T>, le: (T, T) -> bool): (r: seq<T>)
    requires TotalPreorder(le)
    requires SortedBy(xs, le)
    ensures SortedBy(r, le)
    ensures multiset(r) == multiset(xs) + multiset{x}
  {
    if xs == [] then [x]
    else if le(x, xs[0]) then [x] + xs
    else
      assert xs == [xs[0]] + xs[1..];
      var rest := Insert(x, xs[1..], le);
      assert forall y :: y in rest ==> y == x || y in xs[1..] by {
        forall y | y in rest
          ensures y == x || y in xs[1..]
        {
          assert y in multiset(rest);
        }
      }
      assert le(xs[0], x);
      assert forall y :: y in xs[1..] ==> le(xs[0], y) by {
        forall y | y in xs[1..]
          ensures le(xs[0], y)
        {
          var j :| 0 <= j < |xs[1..]| && xs[1..][j] == y;
          assert xs[j + 1] == y;
        }
      }
      assert forall j :: 0 <= j < |rest| ==> le(xs[0], rest[j]) by {
        forall j | 0 <= j < |rest|
          ensures le(xs[0], rest[j])
        {
          assert rest[j] in rest;
        }
      }
      [xs[0]] + rest
  }

  /** Insertion sort: the result is ordered by `le` and is a
      permutation of the input. */
  function Sort<T(!new)>(xs: seq<T>, le: (T, T) -> bool): (r: seq<T>)
    requires TotalPreorder(le)
    ensures SortedBy(r, le)
    ensures multiset(r) == multiset(xs)
  {
    if xs == [] then []
    else
      assert xs == [xs[0]] + xs[1..];
      Insert(xs[0], Sort(xs[1..], le), le)
  }

  /** A permutation of a duplicate-free sequence is duplicate-free and has
      the same elements. */
  lemma PermutationKeepsElements<T(!new)>(xs: seq<T>, ys: seq<T>)
    requires multiset(xs) == multiset(ys)
    ensures forall x :: x in xs <==> x in ys
    ensures Distinct(xs) ==> Distinct(ys)
  {
    forall x
      ensures x in xs <==> x in ys
    {
      assert x in xs <==> x in multiset(xs);
      assert x in ys <==> x in multiset(ys);
    }
  }

  /** The first `n` elements of `xs` (a queryset slice `[:n]`). */
  function Take<T>(xs: seq<T>, n: nat): (r: seq<T>)
    ensures |r| == if |xs| < n then |xs| else n
    ensures r == xs[..|r|]
  {
    if |xs| <= n then xs else xs[..n]
  }

  /** A slice of a sorted sequence keeps its least elements: nothing left
      out sorts before anything taken. */
  lemma {:induction false} TakeIsLeast<T>(xs: seq<T>, n: nat, le: (T, T) -> bool)
    requires SortedBy(xs, le)
    ensures forall u, v :: u in Take(xs, n) && v in xs && v !in Take(xs, n) ==> le(u, v)
  {
    var r := Take(xs, n);
    forall u, v | u in r && v in xs && v !in r
      ensures le(u, v)
    {
      var i :| 0 <= i < |r| && r[i] == u;
      var j :| 0 <= j < |xs| && xs[j] == v;
      forall k | 0 <= k < |r|
        ensures xs[k] != v
      {
        assert xs[k] == r[k];
      }
      assert i < j;
      assert xs[i] == u;
    }
  }
}
