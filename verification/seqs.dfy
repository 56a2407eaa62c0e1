/**
 * Sequence helpers shared by the keyword extractor: first-occurrence
 * deduplication, Python slicing, counting, order-keeping filters and a
 * stable sort by a descending count.
 */
module Seqs {

  /** No element occurs twice. */
  predicate Distinct<T(==)>(xs: seq<T>) {
    forall i, j :: 0 <= i < j < |xs| ==> xs[i] != xs[j]
  }

  /** Index of the first occurrence of `x` in `xs`. */
  function IndexOf<T(==)>(xs: seq<T>, x: T): (i: nat)
    requires x in xs
    ensures i < |xs| && xs[i] == x
    ensures forall j :: 0 <= j < i ==> xs[j] != x
  {
    if xs[0] == x then 0 else 1 + IndexOf(xs[1..], x)
  }

  /** The first occurrence is the only position with nothing equal before it. */
  lemma IndexOfUnique<T>(xs: seq<T>, x: T, i: nat)
    requires i < |xs| && xs[i] == x
    requires forall j :: 0 <= j < i ==> xs[j] != x
    ensures IndexOf(xs, x) == i
  {
  }

  /** Number of occurrences of `x` in `xs` (a `collections.Counter` entry). */
  function Count<T(==)>(xs: seq<T>, x: T): nat {
    multiset(xs)[x]
  }

  // ---------------------------------------------------------------------
  // First-occurrence deduplication (the `seen`-set idiom)
  // ---------------------------------------------------------------------

  /**
   * Keeps the first occurrence of every element, in order: the Python loop
   * that appends `x` when `x not in seen` and then adds it to `seen`.
   */
  function Dedup<T(==)>(xs: seq<T>): seq<T>
    decreases |xs|
  {
    if xs == [] then []
    else
      var d := Dedup(xs[..|xs| - 1]);
      if xs[|xs| - 1] in d then d else d + [xs[|xs| - 1]]
  }

  /** One more element either is already kept or is appended. */
  lemma DedupSnoc<T>(xs: seq<T>, x: T)
    ensures Dedup(xs + [x]) == if x in Dedup(xs) then Dedup(xs) else Dedup(xs) + [x]
  {
    assert (xs + [x])[..|xs|] == xs;
  }

  /** Deduplication keeps exactly the elements of its input. */
  lemma {:induction false} DedupElems<T>(xs: seq<T>)
    ensures forall x :: x in Dedup(xs) <==> x in xs
    decreases |xs|
  {
    if xs != [] {
      var init := xs[..|xs| - 1];
      DedupElems(init);
      assert xs == init + [xs[|xs| - 1]];
    }
  }

  /** Deduplication leaves no element twice. */
  lemma {:induction false} DedupDistinct<T>(xs: seq<T>)
    ensures Distinct(Dedup(xs))
    decreases |xs|
  {
    if xs != [] {
      DedupDistinct(xs[..|xs| - 1]);
    }
  }

  /** Deduplication lists the elements in the order of their first occurrence. */
  lemma {:induction false} DedupOrder<T>(xs: seq<T>)
    ensures forall x :: x in Dedup(xs) ==> x in xs
    ensures forall i, j :: 0 <= i < j < |Dedup(xs)| ==> IndexOf(xs, Dedup(xs)[i]) < IndexOf(xs, Dedup(xs)[j])
    decreases |xs|
  {
    DedupElems(xs);
    if xs != [] {
      var init, last := xs[..|xs| - 1], xs[|xs| - 1];
      assert xs == init + [last];
      DedupOrder(init);
      DedupOrderStep(init, last);
    }
  }

  /** Appending one element keeps the first-occurrence order of the deduplication. */
  lemma DedupOrderStep<T>(init: seq<T>, last: T)
    requires forall x :: x in Dedup(init) ==> x in init
    requires forall i, j :: 0 <= i < j < |Dedup(init)| ==> IndexOf(init, Dedup(init)[i]) < IndexOf(init, Dedup(init)[j])
    ensures forall i, j :: 0 <= i < j < |Dedup(init + [last])| ==>
      IndexOf(init + [last], Dedup(init + [last])[i]) < IndexOf(init + [last], Dedup(init + [last])[j])
  {
    var xs := init + [last];
    var d := Dedup(init);
    DedupSnoc(init, last);
    assert init == xs[..|init|];
    forall x | x in d
      ensures IndexOf(xs, x) == IndexOf(init, x)
    {
      PrefixIndexOf(init, xs, x);
    }
    if last !in d {
      DedupElems(init);
      PrefixIndexOfMissing(init, xs, last);
      var d2 := d + [last];
      forall i, j | 0 <= i < j < |d2|
        ensures IndexOf(xs, d2[i]) < IndexOf(xs, d2[j])
      {
        if j == |d| {
          assert d2[i] == d[i];
        } else {
          assert d2[i] == d[i] && d2[j] == d[j];
        }
      }
    }
  }

  /** The first index of an element of a prefix is the same in the whole sequence. */
  lemma PrefixIndexOf<T>(p: seq<T>, xs: seq<T>, x: T)
    requires |p| <= |xs| && p == xs[..|p|] && x in p
    ensures IndexOf(xs, x) == IndexOf(p, x)
  {
    var i := IndexOf(p, x);
    assert forall j :: 0 <= j < i ==> xs[j] == p[j];
    IndexOfUnique(xs, x, i);
  }

  /** An element missing from a prefix first occurs after it. */
  lemma PrefixIndexOfMissing<T>(p: seq<T>, xs: seq<T>, x: T)
    requires |p| < |xs| && p == xs[..|p|] && x !in p && xs[|p|] == x
    ensures IndexOf(xs, x) == |p|
  {
    assert forall j :: 0 <= j < |p| ==> xs[j] == p[j];
    IndexOfUnique(xs, x, |p|);
  }

  /** The deduplication of a prefix is a prefix of the deduplication. */
  lemma {:induction false} DedupPrefix<T>(xs: seq<T>, ys: seq<T>)
    ensures |Dedup(xs)| <= |Dedup(xs + ys)|
    ensures Dedup(xs + ys)[..|Dedup(xs)|] == Dedup(xs)
    decreases |ys|
  {
    if ys == [] {
      assert xs + ys == xs;
    } else {
      var init := ys[..|ys| - 1];
      DedupPrefix(xs, init);
      assert xs + ys == (xs + init) + [ys[|ys| - 1]];
      DedupSnoc(xs + init, ys[|ys| - 1]);
    }
  }

  /** A duplicate-free sequence is its own deduplication. */
  lemma {:induction false} DedupOfDistinct<T>(xs: seq<T>)
    requires Distinct(xs)
    ensures Dedup(xs) == xs
    decreases |xs|
  {
    if xs != [] {
      var init := xs[..|xs| - 1];
      DedupOfDistinct(init);
      assert forall k :: 0 <= k < |init| ==> init[k] == xs[k];
    }
  }

  // ---------------------------------------------------------------------
  // Python slicing
  // ---------------------------------------------------------------------

  /**
   * Python `xs[:n]` for any integer `n`: a negative bound counts from the
   * end, and bounds beyond either end are clamped.
   */
  function SliceTo<T>(xs: seq<T>, n: int): (r: seq<T>)
    ensures 0 <= n ==> r == xs[..if n <= |xs| then n else |xs|]
    ensures n < 0 ==> r == xs[..if -n <= |xs| then |xs| + n else 0]
  {
    if n >= 0 then (if n <= |xs| then xs[..n] else xs)
    else if -n <= |xs| then xs[..|xs| + n]
    else []
  }

  /** The first `n` elements, or all of them when there are fewer (`n` >= 0). */
  function Take<T>(xs: seq<T>, n: nat): (r: seq<T>)
    ensures |r| == if n <= |xs| then n else |xs|
    ensures r == xs[..|r|]
  {
    if n <= |xs| then xs[..n] else xs
  }

  // ---------------------------------------------------------------------
  // Order-keeping filters
  // ---------------------------------------------------------------------

  /** The elements of `xs` that satisfy `keep`, in order (a list comprehension). */
  function Filter<T>(xs: seq<T>, keep: T -> bool): (r: seq<T>)
    ensures |r| <= |xs|
    decreases |xs|
  {
    if xs == [] then []
    else if keep(xs[0]) then [xs[0]] + Filter(xs[1..], keep)
    else Filter(xs[1..], keep)
  }

  /** `f` applied to every element, in order (a list comprehension). */
  function Map<A, B>(f: A -> B, xs: seq<A>): (r: seq<B>)
    ensures |r| == |xs|
    ensures forall i :: 0 <= i < |xs| ==> r[i] == f(xs[i])
  {
    seq(|xs|, i requires 0 <= i < |xs| => f(xs[i]))
  }

  /** An element survives filtering iff it is in the input and kept. */
  lemma {:induction false} FilterElems<T>(xs: seq<T>, keep: T -> bool)
    ensures forall x :: x in Filter(xs, keep) <==> x in xs && keep(x)
    decreases |xs|
  {
    if xs != [] {
      FilterElems(xs[1..], keep);
      assert xs == [xs[0]] + xs[1..];
    }
  }

  /**
   * Filtering keeps the relative order of the survivors: any relation that
   * holds between every earlier and later pair of the input still holds.
   */
  lemma {:induction false} FilterKeepsPairs<T>(xs: seq<T>, keep: T -> bool, before: (T, T) -> bool)
    requires forall i, j :: 0 <= i < j < |xs| ==> before(xs[i], xs[j])
    ensures forall i, j :: 0 <= i < j < |Filter(xs, keep)| ==> before(Filter(xs, keep)[i], Filter(xs, keep)[j])
    decreases |xs|
  {
    if xs != [] {
      var rest := Filter(xs[1..], keep);
      FilterKeepsPairs(xs[1..], keep, before);
      FilterElems(xs[1..], keep);
      if keep(xs[0]) {
        var r := Filter(xs, keep);
        assert r == [xs[0]] + rest;
        forall j | 0 < j < |r|
          ensures before(r[0], r[j])
        {
          assert r[j] == rest[j - 1];
          assert rest[j - 1] in rest;
          var k := IndexOf(xs[1..], r[j]);
          assert xs[k + 1] == r[j];
        }
      }
    }
  }

  /** A filter keeps a duplicate-free sequence duplicate-free. */
  lemma FilterDistinct<T>(xs: seq<T>, keep: T -> bool)
    requires Distinct(xs)
    ensures Distinct(Filter(xs, keep))
  {
    FilterKeepsPairs(xs, keep, (a: T, b: T) => a != b);
  }

  // ---------------------------------------------------------------------
  // Stable sort by descending count
  // ---------------------------------------------------------------------

  /** An element with its sort key and its original position. */
  datatype Ranked<T> = Ranked(item: T, key: int, rank: nat)

  /** `a` may come before `b`: a higher key, or an equal key and an earlier position. */
  predicate Precedes<T>(a: Ranked<T>, b: Ranked<T>) {
    a.key > b.key || (a.key == b.key && a.rank <= b.rank)
  }

  predicate SortedDesc<T>(xs: seq<Ranked<T>>) {
    forall i, j :: 0 <= i < j < |xs| ==> Precedes(xs[i], xs[j])
  }

  /** Inserts `x` in front of the first element it may precede. */
  function Insert<T>(x: Ranked<T>, xs: seq<Ranked<T>>): (r: seq<Ranked<T>>)
    requires SortedDesc(xs)
    ensures SortedDesc(r)
    ensures multiset(r) == multiset(xs) + multiset{x}
    decreases |xs|
  {
    if xs == [] || Precedes(x, xs[0]) then
      InsertFront(x, xs);
      [x] + xs
    else
      var t := Insert(x, xs[1..]);
      assert xs == [xs[0]] + xs[1..];
      InsertBehind(xs[0], t, multiset(xs[1..]) + multiset{x});
      [xs[0]] + t
  }

  lemma InsertFront<T>(x: Ranked<T>, xs: seq<Ranked<T>>)
    requires SortedDesc(xs)
    requires xs == [] || Precedes(x, xs[0])
    ensures SortedDesc([x] + xs)
  {
    var r := [x] + xs;
    forall i, j | 0 <= i < j < |r|
      ensures Precedes(r[i], r[j])
    {
      if i == 0 && j > 1 {
        assert Precedes(xs[0], xs[j - 1]);
      }
    }
  }

  lemma InsertBehind<T>(y: Ranked<T>, t: seq<Ranked<T>>, m: multiset<Ranked<T>>)
    requires SortedDesc(t)
    requires multiset(t) == m
    requires forall z :: z in m ==> Precedes(y, z)
    ensures SortedDesc([y] + t)
  {
    var r := [y] + t;
    forall i, j | 0 <= i < j < |r|
      ensures Precedes(r[i], r[j])
    {
      if i == 0 {
        assert t[j - 1] in multiset(t);
      }
    }
  }

  /** Stable insertion sort: higher keys first, equal keys in their original order. */
  function SortDesc<T>(xs: seq<Ranked<T>>): (r: seq<Ranked<T>>)
    ensures SortedDesc(r)
    ensures multiset(r) == multiset(xs)
    decreases |xs|
  {
    if xs == [] then []
    else
      assert xs == [xs[0]] + xs[1..];
      Insert(xs[0], SortDesc(xs[1..]))
  }

  /** Sorting keeps exactly the elements it is given. */
  lemma SortDescElems<T>(xs: seq<Ranked<T>>)
    ensures forall e :: e in SortDesc(xs) <==> e in xs
  {
    var r := SortDesc(xs);
    forall e
      ensures e in r <==> e in xs
    {
      assert e in r <==> e in multiset(r);
      assert e in xs <==> e in multiset(xs);
    }
  }

  /** A duplicate-free sequence holds each element once. */
  lemma {:induction false} DistinctCountsOne<T>(xs: seq<T>)
    requires Distinct(xs)
    ensures forall x :: multiset(xs)[x] <= 1
    decreases |xs|
  {
    if xs != [] {
      var init := xs[..|xs| - 1];
      DistinctCountsOne(init);
      assert xs == init + [xs[|xs| - 1]];
      assert forall k :: 0 <= k < |init| ==> init[k] == xs[k];
      assert xs[|xs| - 1] !in init;
    }
  }

  /** A sequence that holds each element at most once is duplicate-free. */
  lemma CountsOneDistinct<T>(xs: seq<T>)
    requires forall x :: multiset(xs)[x] <= 1
    ensures Distinct(xs)
  {
    forall i, j | 0 <= i < j < |xs|
      ensures xs[i] != xs[j]
    {
      RepeatCounted(xs, i, j);
    }
  }

  /** An element found at two positions is counted at least twice. */
  lemma RepeatCounted<T>(xs: seq<T>, i: nat, j: nat)
    requires i < j < |xs|
    ensures xs[i] == xs[j] ==> multiset(xs)[xs[i]] >= 2
  {
    assert xs == xs[..j] + xs[j..];
    assert xs[..j][i] == xs[i];
    assert xs[j..][0] == xs[j];
    assert multiset(xs) == multiset(xs[..j]) + multiset(xs[j..]);
    assert xs[i] in multiset(xs[..j]) && xs[j] in multiset(xs[j..]);
  }

  /** Sorting a duplicate-free sequence leaves it duplicate-free. */
  lemma SortDescDistinct<T>(xs: seq<Ranked<T>>)
    requires Distinct(xs)
    ensures Distinct(SortDesc(xs))
  {
    DistinctCountsOne(xs);
    CountsOneDistinct(SortDesc(xs));
  }

  /** The items of a ranked sequence, in order. */
  function Items<T>(xs: seq<Ranked<T>>): (r: seq<T>)
    ensures |r| == |xs|
    ensures forall i :: 0 <= i < |xs| ==> r[i] == xs[i].item
  {
    seq(|xs|, i requires 0 <= i < |xs| => xs[i].item)
  }
}
