/** The two query shapes the read-side actions use: `where` (a filter that
    keeps order) and `orderBy` on a timestamp (a sort that permutes). */
module Ordering {

  /** `xs.filter(keep)`: the elements of `xs` that satisfy `keep`, in order. */
  function Filter<T>(xs: seq<T>, keep: T -> bool): (r: seq<T>)
    ensures |r| <= |xs|
    ensures forall k :: 0 <= k < |r| ==> r[k] in xs && keep(r[k])
    ensures forall k :: 0 <= k < |xs| ==> (xs[k] in r <==> keep(xs[k]))
  {
    if xs == [] then []
    else if keep(xs[0]) then [xs[0]] + Filter(xs[1..], keep)
    else Filter(xs[1..], keep)
  }

  /** Filtering keeps exactly the multiplicity of every kept element. */
  lemma {:induction false} FilterMultiset<T>(xs: seq<T>, keep: T -> bool, x: T)
    ensures multiset(Filter(xs, keep))[x] == if keep(x) then multiset(xs)[x] else 0
  {
    if xs != [] {
      FilterMultiset(xs[1..], keep, x);
      var rest := Filter(xs[1..], keep);
      assert xs == [xs[0]] + xs[1..];
      assert multiset(xs) == multiset{xs[0]} + multiset(xs[1..]);
      if keep(xs[0]) {
        assert multiset(Filter(xs, keep)) == multiset{xs[0]} + multiset(rest);
      } else {
        assert Filter(xs, keep) == rest;
      }
    }
  }

  /** The number of elements of `xs` that satisfy `keep`. */
  function Count<T>(xs: seq<T>, keep: T -> bool): (n: nat)
    ensures n <= |xs|
    ensures n == 0 <==> forall k :: 0 <= k < |xs| ==> !keep(xs[k])
  {
    if xs == [] then 0 else (if keep(xs[0]) then 1 else 0) + Count(xs[1..], keep)
  }

  /** Counting is the length of the filtered list. */
  lemma {:induction false} CountFilter<T>(xs: seq<T>, keep: T -> bool)
    ensures Count(xs, keep) == |Filter(xs, keep)|
  {
    if xs != [] {
      CountFilter(xs[1..], keep);
    }
  }

  /** Newest first: keys never increase along the sequence. */
  ghost predicate SortedDesc<T>(xs: seq<T>, key: T -> int)
  {
    forall i, j :: 0 <= i < j < |xs| ==> key(xs[i]) >= key(xs[j])
  }

  /** Oldest first: keys never decrease along the sequence. */
  ghost predicate SortedAsc<T>(xs: seq<T>, key: T -> int)
  {
    forall i, j :: 0 <= i < j < |xs| ==> key(xs[i]) <= key(xs[j])
  }

  function InsertDesc<T>(x: T, xs: seq<T>, key: T -> int): (r: seq<T>)
    requires SortedDesc(xs, key)
    ensures SortedDesc(r, key)
    ensures multiset(r) == multiset(xs) + multiset{x}
  {
    if xs == [] then [x]
    else if key(x) >= key(xs[0]) then [x] + xs
    else
      var rest := InsertDesc(x, xs[1..], key);
      HeadBoundsRest(x, xs, key, rest);
      assert xs == [xs[0]] + xs[1..];
      [xs[0]] + rest
  }

  /** The head of a descending list bounds every element of the rest with a
      smaller key inserted. */
  lemma HeadBoundsRest<T>(x: T, xs: seq<T>, key: T -> int, rest: seq<T>)
    requires xs != [] && SortedDesc(xs, key) && key(x) < key(xs[0])
    requires multiset(rest) == multiset(xs[1..]) + multiset{x}
    ensures forall k :: 0 <= k < |rest| ==> key(xs[0]) >= key(rest[k])
  {
    forall k | 0 <= k < |rest| ensures key(xs[0]) >= key(rest[k]) {
      assert rest[k] in multiset(rest);
      if rest[k] != x {
        assert rest[k] in multiset(xs[1..]);
        var m :| 0 <= m < |xs[1..]| && xs[1..][m] == rest[k];
        assert xs[1 + m] == rest[k];
      }
    }
  }

  /** `orderBy: { createdAt: 'desc' }`: a permutation of `xs` whose keys
      never increase. */
  function SortDesc<T>(xs: seq<T>, key: T -> int): (r: seq<T>)
    ensures SortedDesc(r, key)
    ensures multiset(r) == multiset(xs)
  {
    if xs == [] then [] else
      var r := InsertDesc(xs[0], SortDesc(xs[1..], key), key);
      assert xs == [xs[0]] + xs[1..];
      r
  }

  /** `orderBy: { createdAt: 'asc' }`: sorting newest first on the negated key. */
  function SortAsc<T>(xs: seq<T>, key: T -> int): (r: seq<T>)
    ensures SortedAsc(r, key)
    ensures multiset(r) == multiset(xs)
  {
    SortDesc(xs, x => -key(x))
  }

  /** A sort keeps the same elements. */
  lemma SameElements<T>(xs: seq<T>, ys: seq<T>, x: T)
    requires multiset(xs) == multiset(ys)
    ensures x in xs <==> x in ys
  {
    assert x in xs <==> x in multiset(xs);
    assert x in ys <==> x in multiset(ys);
  }

  /** `findMany({ where: keep, orderBy: { key: 'desc' } })` over the rows
      `xs`: every kept row and nothing else, newest first. */
  function QueryDesc<T>(xs: seq<T>, keep: T -> bool, key: T -> int): (r: seq<T>)
    ensures forall k :: 0 <= k < |r| ==> r[k] in xs && keep(r[k])
    ensures forall k :: 0 <= k < |xs| && keep(xs[k]) ==> xs[k] in r
    ensures multiset(r) == multiset(Filter(xs, keep))
    ensures SortedDesc(r, key)
  {
    var kept := Filter(xs, keep);
    var r := SortDesc(kept, key);
    forall k | 0 <= k < |r| ensures r[k] in kept {
      SameElements(r, kept, r[k]);
    }
    forall k | 0 <= k < |kept| ensures kept[k] in r {
      SameElements(r, kept, kept[k]);
    }
    r
  }

  /** The same query with `orderBy: { key: 'asc' }`: oldest first. */
  function QueryAsc<T>(xs: seq<T>, keep: T -> bool, key: T -> int): (r: seq<T>)
    ensures forall k :: 0 <= k < |r| ==> r[k] in xs && keep(r[k])
    ensures forall k :: 0 <= k < |xs| && keep(xs[k]) ==> xs[k] in r
    ensures multiset(r) == multiset(Filter(xs, keep))
    ensures SortedAsc(r, key)
  {
    var r := QueryDesc(xs, keep, x => -key(x));
    r
  }
}
