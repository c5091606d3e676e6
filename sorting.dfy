/** Sorting as Python's `sorted` and `np.sort` do it, over a strict total
    order passed as a function, and the orders the script sorts by:
    integers, strings (code point by code point) and `(count, handle)`
    tuples (component by component). */
module Sorting {
  import opened Seqs

  ghost predicate StrictTotalOrder<T(!new)>(less: (T, T) -> bool)
  {
    && (forall a :: !less(a, a))
    && (forall a, b, c :: less(a, b) && less(b, c) ==> less(a, c))
    && (forall a, b :: a != b ==> less(a, b) || less(b, a))
  }

  /** Ascending: no later element is below an earlier one. */
  predicate Sorted<T>(s: seq<T>, less: (T, T) -> bool)
  {
    forall i, j :: 0 <= i < j < |s| ==> !less(s[j], s[i])
  }

  function Insert<T>(x: T, s: seq<T>, less: (T, T) -> bool): (r: seq<T>)
    ensures multiset(r) == multiset{x} + multiset(s)
  {
    if s == [] || !less(s[0], x) then [x] + s
    else
      assert s == [s[0]] + s[1..];
      [s[0]] + Insert(x, s[1..], less)
  }

  /** Ascending sort; the result is a permutation of the input. */
  function Sort<T>(s: seq<T>, less: (T, T) -> bool): (r: seq<T>)
    ensures multiset(r) == multiset(s) && |r| == |s|
  {
    if s == [] then []
    else
      assert s == [s[0]] + s[1..];
      var r := Insert(s[0], Sort(s[1..], less), less);
      assert |r| == |multiset(r)|;
      r
  }

  lemma {:induction false} InsertSorted<T(!new)>(x: T, s: seq<T>, less: (T, T) -> bool)
    requires StrictTotalOrder(less) && Sorted(s, less)
    ensures Sorted(Insert(x, s, less), less)
    decreases |s|
  {
    if s != [] && less(s[0], x) {
      InsertSorted(x, s[1..], less);
      var r := Insert(x, s[1..], less);
      forall k | 0 <= k < |r| ensures !less(r[k], s[0]) {
        assert r[k] in multiset(r);
        assert r[k] == x || r[k] in multiset(s[1..]);
        if r[k] != x {
          var m :| 0 <= m < |s[1..]| && s[1..][m] == r[k];
          assert s[m + 1] == r[k];
        }
      }
    }
  }

  /** Sort really sorts, given a strict total order. */
  lemma {:induction false} SortSorted<T(!new)>(s: seq<T>, less: (T, T) -> bool)
    requires StrictTotalOrder(less)
    ensures Sorted(Sort(s, less), less)
    decreases |s|
  {
    if s != [] {
      SortSorted(s[1..], less);
      InsertSorted(s[0], Sort(s[1..], less), less);
    }
  }

  /** Two sorted permutations of each other start with the same element. */
  lemma SortedSameHead<T(!new)>(a: seq<T>, b: seq<T>, less: (T, T) -> bool)
    requires StrictTotalOrder(less)
    requires Sorted(a, less) && Sorted(b, less) && multiset(a) == multiset(b) && a != []
    ensures b != [] && a[0] == b[0]
  {
    assert a[0] in multiset(b);
    var i :| 0 <= i < |b| && b[i] == a[0];
    assert b[0] in multiset(a);
    var j :| 0 <= j < |a| && a[j] == b[0];
    assert !less(a[0], b[0]) by {
      if i > 0 {
        assert !less(b[i], b[0]);
      }
    }
    assert !less(b[0], a[0]) by {
      if j > 0 {
        assert !less(a[j], a[0]);
      }
    }
  }

  /** Under a strict total order there is only one sorted arrangement of a
      multiset, so a sorted result does not depend on the input order. */
  lemma {:induction false} SortedUnique<T(!new)>(a: seq<T>, b: seq<T>, less: (T, T) -> bool)
    requires StrictTotalOrder(less)
    requires Sorted(a, less) && Sorted(b, less) && multiset(a) == multiset(b)
    ensures a == b
    decreases |a|
  {
    if a == [] {
      assert |b| == |multiset(b)| == 0;
    } else {
      SortedSameHead(a, b, less);
      PermRemove(a, b, 0);
      assert b[..0] + b[1..] == b[1..];
      assert Sorted(a[1..], less) && Sorted(b[1..], less);
      SortedUnique(a[1..], b[1..], less);
      assert a == [a[0]] + a[1..] && b == [b[0]] + b[1..];
    }
  }

  /** The sorted permutation of a sequence is the sorted one among its permutations. */
  lemma SortIsTheSortedPermutation<T(!new)>(s: seq<T>, t: seq<T>, less: (T, T) -> bool)
    requires StrictTotalOrder(less) && Sorted(t, less) && multiset(t) == multiset(s)
    ensures Sort(s, less) == t
  {
    SortSorted(s, less);
    SortedUnique(Sort(s, less), t, less);
  }

  /** Integers, and counts, in numeric order. */
  function IntLess(a: int, b: int): bool
  {
    a < b
  }

  lemma IntLessIsTotal()
    ensures StrictTotalOrder(IntLess)
  {
  }

  /** Python's `<` on `str`: lexicographic by code point, a proper prefix first. */
  function StrLess(a: string, b: string): bool
  {
    if a == [] then b != []
    else if b == [] then false
    else if a[0] != b[0] then a[0] < b[0]
    else StrLess(a[1..], b[1..])
  }

  lemma {:induction false} StrLessIrreflexive(a: string)
    ensures !StrLess(a, a)
    decreases |a|
  {
    if a != [] {
      StrLessIrreflexive(a[1..]);
    }
  }

  lemma {:induction false} StrLessTransitive(a: string, b: string, c: string)
    requires StrLess(a, b) && StrLess(b, c)
    ensures StrLess(a, c)
    decreases |a|
  {
    if a != [] && b != [] && c != [] && a[0] == b[0] && b[0] == c[0] {
      StrLessTransitive(a[1..], b[1..], c[1..]);
    }
  }

  lemma {:induction false} StrLessTotal(a: string, b: string)
    requires a != b
    ensures StrLess(a, b) || StrLess(b, a)
    decreases |a|
  {
    if a != [] && b != [] && a[0] == b[0] {
      assert a == [a[0]] + a[1..] && b == [b[0]] + b[1..];
      StrLessTotal(a[1..], b[1..]);
    }
  }

  lemma StrLessIsTotal()
    ensures StrictTotalOrder(StrLess)
  {
    forall a ensures !StrLess(a, a) {
      StrLessIrreflexive(a);
    }
    forall a, b, c | StrLess(a, b) && StrLess(b, c) ensures StrLess(a, c) {
      StrLessTransitive(a, b, c);
    }
    forall a, b | a != b ensures StrLess(a, b) || StrLess(b, a) {
      StrLessTotal(a, b);
    }
  }

  /** Python's `<` on a `(count, handle)` tuple. */
  function PairLess(p: (int, string), q: (int, string)): bool
  {
    p.0 < q.0 || (p.0 == q.0 && StrLess(p.1, q.1))
  }

  lemma PairLessIsTotal()
    ensures StrictTotalOrder(PairLess)
  {
    StrLessIsTotal();
  }

  /** `groupby(days).size().to_numpy()`: group sizes by ascending day. */
  function GroupBySize(days: seq<int>): seq<int>
  {
    Sizes(days, Sort(Distinct(days), IntLess))
  }

  /** The group sizes add up to the number of rows. */
  lemma GroupBySizeSum(days: seq<int>)
    ensures |GroupBySize(days)| == |Distinct(days)|
    ensures Sum(GroupBySize(days)) == |days|
  {
    var keys := Sort(Distinct(days), IntLess);
    assert multiset(keys) == multiset(Distinct(days));
    NoDupsPerm(Distinct(days), keys);
    forall i | 0 <= i < |days| ensures days[i] in keys {
      assert days[i] in Distinct(days);
      assert days[i] in multiset(Distinct(days));
    }
    SizesSum(days, keys);
  }

  /** The sorted group keys of a non-increasing sequence are its distinct values reversed. */
  lemma SortedKeysOfNonIncreasing(days: seq<int>)
    requires NonIncreasing(days)
    ensures Sort(Distinct(days), IntLess) == Reverse(Distinct(days))
  {
    var d := Distinct(days);
    DistinctOfNonIncreasing(days);
    IntLessIsTotal();
    ReversePerm(d);
    SortIsTheSortedPermutation(d, Reverse(d), IntLess);
  }
}
