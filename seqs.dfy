/**
 * Sequence operations the source takes from JavaScript's Array: `filter`
 * (order-preserving selection) and order-preserving subsequences; and the
 * store's `.order(column)`, as a sort by an integer key.
 */
module Seqs {

  /** JavaScript's `xs.filter(keep)`. */
  function Filter<T>(xs: seq<T>, keep: T -> bool): (r: seq<T>)
    ensures |r| <= |xs|
    decreases |xs|
  {
    if xs == [] then [] else (if keep(xs[0]) then [xs[0]] else []) + Filter(xs[1..], keep)
  }

  /** `a` is `b` with some elements left out, the rest in their order. */
  predicate IsSubsequence<T(==)>(a: seq<T>, b: seq<T>)
    decreases |b|
  {
    if a == [] then true
    else if b == [] then false
    else if a[0] == b[0] then IsSubsequence(a[1..], b[1..])
    else IsSubsequence(a, b[1..])
  }

  /** Concatenation regroups freely. */
  lemma AppendAssoc<T>(a: seq<T>, b: seq<T>, c: seq<T>)
    ensures (a + b) + c == a + (b + c)
  {
  }

  /** Exactly the elements that satisfy `keep` survive filtering. */
  lemma {:induction false} FilterMembership<T>(xs: seq<T>, keep: T -> bool, x: T)
    ensures x in Filter(xs, keep) <==> x in xs && keep(x)
    decreases |xs|
  {
    if xs != [] {
      FilterMembership(xs[1..], keep, x);
      assert xs == [xs[0]] + xs[1..];
    }
  }

  lemma FilterMembers<T>(xs: seq<T>, keep: T -> bool)
    ensures forall x :: x in Filter(xs, keep) <==> x in xs && keep(x)
  {
    forall x
      ensures x in Filter(xs, keep) <==> x in xs && keep(x)
    {
      FilterMembership(xs, keep, x);
    }
  }

  lemma {:induction false} FilterIsSubsequence<T>(xs: seq<T>, keep: T -> bool)
    ensures IsSubsequence(Filter(xs, keep), xs)
    decreases |xs|
  {
    if xs != [] {
      FilterIsSubsequence(xs[1..], keep);
      var r := Filter(xs, keep);
      if keep(xs[0]) {
        assert r[0] == xs[0] && r[1..] == Filter(xs[1..], keep);
      } else {
        assert r == Filter(xs[1..], keep);
        if r != [] && r[0] == xs[0] {
          // xs[0] would have been kept
          FilterMembership(xs[1..], keep, r[0]);
          assert false;
        }
      }
    }
  }

  /** Filtering keeps everything exactly when every element satisfies `keep`. */
  lemma {:induction false} FilterKeepsAll<T>(xs: seq<T>, keep: T -> bool)
    ensures Filter(xs, keep) == xs <==> forall i :: 0 <= i < |xs| ==> keep(xs[i])
    decreases |xs|
  {
    if xs != [] {
      FilterKeepsAll(xs[1..], keep);
      if !keep(xs[0]) {
        assert |Filter(xs, keep)| < |xs|;
      } else {
        assert forall i :: 1 <= i < |xs| ==> xs[i] == xs[1..][i - 1];
      }
    }
  }

  lemma {:induction false} FilterAppend<T>(a: seq<T>, b: seq<T>, keep: T -> bool)
    ensures Filter(a + b, keep) == Filter(a, keep) + Filter(b, keep)
    decreases |a|
  {
    if a == [] {
      assert a + b == b;
    } else {
      var ab := a + b;
      assert ab[0] == a[0];
      assert ab[1..] == a[1..] + b;
      FilterAppend(a[1..], b, keep);
      var head := if keep(a[0]) then [a[0]] else [];
      assert Filter(ab, keep) == head + Filter(a[1..] + b, keep);
      assert Filter(a, keep) == head + Filter(a[1..], keep);
    }
  }

  /** Filtering with two tests that agree everywhere selects the same elements. */
  lemma {:induction false} FilterCongruent<T>(xs: seq<T>, keep: T -> bool, keep': T -> bool)
    requires forall x :: keep(x) == keep'(x)
    ensures Filter(xs, keep) == Filter(xs, keep')
    decreases |xs|
  {
    if xs != [] {
      FilterCongruent(xs[1..], keep, keep');
    }
  }

  /** A test that keeps no element filters everything out. */
  lemma {:induction false} FilterNone<T>(xs: seq<T>, keep: T -> bool)
    requires forall j :: 0 <= j < |xs| ==> !keep(xs[j])
    ensures Filter(xs, keep) == []
    decreases |xs|
  {
    if xs != [] {
      assert !keep(xs[0]);
      assert forall j :: 0 <= j < |xs[1..]| ==> xs[1..][j] == xs[j + 1];
      FilterNone(xs[1..], keep);
    }
  }

  /** A test that keeps exactly the element at `k` filters out all but that one. */
  lemma {:induction false} FilterSingle<T>(xs: seq<T>, keep: T -> bool, k: int)
    requires 0 <= k < |xs| && keep(xs[k])
    requires forall j :: 0 <= j < |xs| && j != k ==> !keep(xs[j])
    ensures Filter(xs, keep) == [xs[k]]
    decreases |xs|
  {
    assert forall j :: 0 <= j < |xs[1..]| ==> xs[1..][j] == xs[j + 1];
    if k == 0 {
      FilterNone(xs[1..], keep);
    } else {
      assert !keep(xs[0]);
      FilterSingle(xs[1..], keep, k - 1);
    }
  }

  /** A test that keeps two elements leaves at least two. */
  lemma {:induction false} FilterTwo<T>(xs: seq<T>, keep: T -> bool, i: int, j: int)
    requires 0 <= i < j < |xs| && keep(xs[i]) && keep(xs[j])
    ensures |Filter(xs, keep)| >= 2
    decreases |xs|
  {
    if i == 0 {
      assert xs[1..][j - 1] == xs[j];
      FilterMembership(xs[1..], keep, xs[j]);
    } else {
      assert xs[1..][i - 1] == xs[i] && xs[1..][j - 1] == xs[j];
      FilterTwo(xs[1..], keep, i - 1, j - 1);
    }
  }

  /** The elements a test keeps and those it drops together make up the whole list. */
  lemma {:induction false} FilterSplits<T>(xs: seq<T>, keep: T -> bool, drop: T -> bool)
    requires forall x :: drop(x) == !keep(x)
    ensures multiset(Filter(xs, keep)) + multiset(Filter(xs, drop)) == multiset(xs)
    ensures |Filter(xs, keep)| + |Filter(xs, drop)| == |xs|
    decreases |xs|
  {
    if xs != [] {
      FilterSplits(xs[1..], keep, drop);
      assert xs == [xs[0]] + xs[1..];
    }
  }

  /** Every element's key is at most the next one's. */
  predicate SortedBy<T>(xs: seq<T>, key: T -> int)
  {
    forall i, j :: 0 <= i < j < |xs| ==> key(xs[i]) <= key(xs[j])
  }

  /** Places `x` before the first element whose key is not smaller. */
  function InsertBy<T>(x: T, xs: seq<T>, key: T -> int): (r: seq<T>)
    ensures |r| == |xs| + 1
    decreases |xs|
  {
    if xs == [] || key(x) <= key(xs[0]) then [x] + xs else [xs[0]] + InsertBy(x, xs[1..], key)
  }

  /**
   * `.order(column)` on a query: the rows sorted by `key`. Rows with equal
   * keys stay in table order.
   */
  function SortBy<T>(xs: seq<T>, key: T -> int): (r: seq<T>)
    ensures |r| == |xs|
    decreases |xs|
  {
    if xs == [] then [] else InsertBy(xs[0], SortBy(xs[1..], key), key)
  }

  lemma {:induction false} InsertByPermutes<T>(x: T, xs: seq<T>, key: T -> int)
    ensures multiset(InsertBy(x, xs, key)) == multiset(xs) + multiset{x}
    decreases |xs|
  {
    if xs != [] && key(x) > key(xs[0]) {
      InsertByPermutes(x, xs[1..], key);
      assert xs == [xs[0]] + xs[1..];
    }
  }

  lemma {:induction false} InsertBySorted<T>(x: T, xs: seq<T>, key: T -> int)
    requires SortedBy(xs, key)
    ensures SortedBy(InsertBy(x, xs, key), key)
    decreases |xs|
  {
    if xs != [] && key(x) > key(xs[0]) {
      InsertBySorted(x, xs[1..], key);
      var rest := InsertBy(x, xs[1..], key);
      InsertByKeys(x, xs[1..], key, key(xs[0]));
      assert InsertBy(x, xs, key) == [xs[0]] + rest;
    }
  }

  /** A lower bound on `x` and on every key of `xs` bounds every key after insertion. */
  lemma {:induction false} InsertByKeys<T>(x: T, xs: seq<T>, key: T -> int, lo: int)
    requires lo <= key(x)
    requires forall i :: 0 <= i < |xs| ==> lo <= key(xs[i])
    ensures forall i :: 0 <= i < |xs| + 1 ==> lo <= key(InsertBy(x, xs, key)[i])
    decreases |xs|
  {
    if xs != [] && key(x) > key(xs[0]) {
      InsertByKeys(x, xs[1..], key, lo);
      var r := InsertBy(x, xs, key);
      assert r == [xs[0]] + InsertBy(x, xs[1..], key);
      forall i | 0 <= i < |xs| + 1
        ensures lo <= key(r[i])
      {
        if i > 0 {
          assert r[i] == InsertBy(x, xs[1..], key)[i - 1];
        }
      }
    }
  }

  /** Sorting rearranges the rows and loses none. */
  lemma {:induction false} SortByPermutes<T>(xs: seq<T>, key: T -> int)
    ensures multiset(SortBy(xs, key)) == multiset(xs)
    decreases |xs|
  {
    if xs != [] {
      SortByPermutes(xs[1..], key);
      InsertByPermutes(xs[0], SortBy(xs[1..], key), key);
      assert xs == [xs[0]] + xs[1..];
    }
  }

  /** Sorting orders the rows by key. */
  lemma {:induction false} SortBySorted<T>(xs: seq<T>, key: T -> int)
    ensures SortedBy(SortBy(xs, key), key)
    decreases |xs|
  {
    if xs != [] {
      SortBySorted(xs[1..], key);
      InsertBySorted(xs[0], SortBy(xs[1..], key), key);
    }
  }

  /** Sorting keeps exactly the rows it was given. */
  lemma SortByMembership<T>(xs: seq<T>, key: T -> int, x: T)
    ensures x in SortBy(xs, key) <==> x in xs
  {
    SortByPermutes(xs, key);
    assert x in SortBy(xs, key) <==> x in multiset(SortBy(xs, key));
    assert x in xs <==> x in multiset(xs);
  }
}
