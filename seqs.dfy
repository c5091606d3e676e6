/** Sequence helpers for the pandas operations the script relies on:
    `drop_duplicates`, `groupby(...).size()`, `[::-1]` and sums. */
module Seqs {

  function Sum(s: seq<int>): int
  {
    if s == [] then 0 else s[0] + Sum(s[1..])
  }

  function Reverse<T>(s: seq<T>): seq<T>
  {
    seq(|s|, i requires 0 <= i < |s| => s[|s| - 1 - i])
  }

  function Map<T, U>(f: T -> U, s: seq<T>): seq<U>
  {
    seq(|s|, i requires 0 <= i < |s| => f(s[i]))
  }

  /** `np.arange(n)` shifted to start at `from`. */
  function Range(from: int, n: nat): seq<int>
  {
    seq(n, i requires 0 <= i < n => from + i)
  }

  /** Subtracting the same origin from every element, as in `x - x[0]`. */
  function Shift(s: seq<int>, origin: int): seq<int>
  {
    seq(|s|, i requires 0 <= i < |s| => s[i] - origin)
  }

  predicate NoDups<T(==)>(s: seq<T>)
  {
    forall i, j :: 0 <= i < j < |s| ==> s[i] != s[j]
  }

  predicate NonIncreasing(s: seq<int>)
  {
    forall i, j :: 0 <= i < j < |s| ==> s[i] >= s[j]
  }

  predicate StrictlyDecreasing(s: seq<int>)
  {
    forall i, j :: 0 <= i < j < |s| ==> s[i] > s[j]
  }

  /** `drop_duplicates()`: the first occurrence of every value, in order of appearance. */
  function Distinct<T(==,!new)>(s: seq<T>): (r: seq<T>)
    ensures NoDups(r)
    ensures forall x {:trigger x in r} :: x in r <==> x in s
    ensures |r| <= |s|
  {
    if s == [] then []
    else
      var d := Distinct(s[..|s| - 1]);
      var last := s[|s| - 1];
      assert forall x :: x in s <==> x in s[..|s| - 1] || x == last;
      if last in d then d else d + [last]
  }

  /** The position of the first occurrence of `x` in `s`, or `|s|` when
      there is none. */
  function FirstIndex<T(==)>(s: seq<T>, x: T): (k: nat)
    ensures k <= |s| && (k < |s| ==> s[k] == x)
    ensures forall m :: 0 <= m < k ==> s[m] != x
  {
    if s == [] then 0 else if s[0] == x then 0 else FirstIndex(s[1..], x) + 1
  }

  /** `drop_duplicates` keeps first occurrences in order of appearance: each
      kept value first occurs before the next kept value does. */
  lemma {:induction false} DistinctInOrder<T(!new)>(s: seq<T>)
    ensures forall i, j :: 0 <= i < j < |Distinct(s)| ==>
              FirstIndex(s, Distinct(s)[i]) < FirstIndex(s, Distinct(s)[j])
    decreases |s|
  {
    if s != [] {
      var init := s[..|s| - 1];
      var d := Distinct(init);
      var r := Distinct(s);
      DistinctInOrder(init);
      forall x | x in init ensures FirstIndex(s, x) == FirstIndex(init, x) {
        FirstIndexOfPrefix(init, s, x);
      }
      forall i, j | 0 <= i < j < |r| ensures FirstIndex(s, r[i]) < FirstIndex(s, r[j]) {
        assert r[i] == d[i] && r[i] in d && r[i] in init;
        if j < |d| {
          assert r[j] == d[j] && r[j] in d && r[j] in init;
        } else {
          assert r[j] == s[|s| - 1] && r[j] !in init;
        }
      }
    }
  }

  /** A value of a prefix first occurs at the same place in the whole. */
  lemma FirstIndexOfPrefix<T>(init: seq<T>, s: seq<T>, x: T)
    requires x in init && |init| <= |s| && init == s[..|init|]
    ensures FirstIndex(s, x) == FirstIndex(init, x)
  {
    assert s[FirstIndex(init, x)] == x;
  }

  /** The size of each group, `groupby(...).size()`, listed in the order of `keys`. */
  function Sizes<T(==)>(s: seq<T>, keys: seq<T>): (r: seq<int>)
    ensures |r| == |keys|
  {
    seq(|keys|, i requires 0 <= i < |keys| => multiset(s)[keys[i]])
  }

  lemma {:induction false} SumConcat(a: seq<int>, b: seq<int>)
    ensures Sum(a + b) == Sum(a) + Sum(b)
    decreases |a|
  {
    if a == [] {
      assert a + b == b;
    } else {
      assert (a + b)[0] == a[0];
      assert (a + b)[1..] == a[1..] + b;
      SumConcat(a[1..], b);
    }
  }

  /** Removing matching elements from two permutations of each other leaves permutations. */
  lemma PermRemove<T>(a: seq<T>, b: seq<T>, k: int)
    requires multiset(a) == multiset(b) && a != [] && 0 <= k < |b| && b[k] == a[0]
    ensures multiset(a[1..]) == multiset(b[..k] + b[k + 1..])
  {
    assert a == [a[0]] + a[1..];
    assert b == b[..k] + [b[k]] + b[k + 1..];
    calc {
      multiset(a[1..]);
      multiset(a) - multiset{a[0]};
      multiset(b) - multiset{b[k]};
      multiset(b[..k]) + multiset(b[k + 1..]);
      multiset(b[..k] + b[k + 1..]);
    }
  }

  /** A sum does not depend on the order of its terms. */
  lemma {:induction false} SumPerm(a: seq<int>, b: seq<int>)
    requires multiset(a) == multiset(b)
    ensures Sum(a) == Sum(b)
    decreases |a|
  {
    if a == [] {
      assert |b| == |multiset(b)| == 0;
    } else {
      assert a[0] in multiset(b);
      var k :| 0 <= k < |b| && b[k] == a[0];
      var rest := b[..k] + b[k + 1..];
      PermRemove(a, b, k);
      SumPerm(a[1..], rest);
      assert b == b[..k] + ([b[k]] + b[k + 1..]);
      SumConcat(b[..k], [b[k]] + b[k + 1..]);
      SumConcat(b[..k], b[k + 1..]);
    }
  }

  lemma {:induction false} ReversePerm<T>(s: seq<T>)
    ensures multiset(Reverse(s)) == multiset(s)
    decreases |s|
  {
    if s != [] {
      ReversePerm(s[1..]);
      assert Reverse(s) == Reverse(s[1..]) + [s[0]];
      assert s == [s[0]] + s[1..];
    }
  }

  /** Applying the same function to two permutations of each other gives permutations. */
  lemma {:induction false} MapPerm<T, U>(f: T -> U, a: seq<T>, b: seq<T>)
    requires multiset(a) == multiset(b)
    ensures multiset(Map(f, a)) == multiset(Map(f, b))
    decreases |a|
  {
    if a == [] {
      assert |b| == |multiset(b)| == 0;
    } else {
      assert a[0] in multiset(b);
      var k :| 0 <= k < |b| && b[k] == a[0];
      var rest := b[..k] + b[k + 1..];
      PermRemove(a, b, k);
      MapPerm(f, a[1..], rest);
      assert b == b[..k] + [b[k]] + b[k + 1..];
      assert Map(f, a) == [f(a[0])] + Map(f, a[1..]);
      assert Map(f, b) == Map(f, b[..k]) + [f(b[k])] + Map(f, b[k + 1..]);
      assert Map(f, rest) == Map(f, b[..k]) + Map(f, b[k + 1..]);
    }
  }

  lemma {:induction false} NoDupsCount<T>(s: seq<T>, x: T)
    requires NoDups(s)
    ensures multiset(s)[x] <= 1
    decreases |s|
  {
    if s != [] {
      assert s == [s[0]] + s[1..];
      NoDupsCount(s[1..], x);
      if s[0] == x {
        assert x !in s[1..];
      }
    }
  }

  /** Being free of duplicates survives any permutation. */
  lemma NoDupsPerm<T>(a: seq<T>, b: seq<T>)
    requires NoDups(a) && multiset(a) == multiset(b)
    ensures NoDups(b)
  {
    forall i, j | 0 <= i < j < |b|
      ensures b[i] != b[j]
    {
      NoDupsCount(a, b[i]);
      TwoOccurrences(b, i, j);
    }
  }

  lemma TwoOccurrences<T>(s: seq<T>, i: int, j: int)
    requires 0 <= i < j < |s|
    ensures s[i] == s[j] ==> multiset(s)[s[i]] >= 2
  {
    assert s == s[..j] + [s[j]] + s[j + 1..];
    assert s[i] in multiset(s[..j]);
    assert multiset(s) == multiset(s[..j]) + multiset{s[j]} + multiset(s[j + 1..]);
  }

  /** Adding one element to the grouped data adds one to exactly the group it falls in. */
  lemma {:induction false} SizesCons<T>(x: T, s: seq<T>, keys: seq<T>)
    requires NoDups(keys)
    ensures Sum(Sizes([x] + s, keys)) == (if x in keys then 1 else 0) + Sum(Sizes(s, keys))
    decreases |keys|
  {
    if keys != [] {
      assert Sizes([x] + s, keys)[1..] == Sizes([x] + s, keys[1..]);
      assert Sizes(s, keys)[1..] == Sizes(s, keys[1..]);
      assert multiset([x] + s)[keys[0]] == multiset(s)[keys[0]] + (if x == keys[0] then 1 else 0);
      SizesCons(x, s, keys[1..]);
      assert x in keys <==> x == keys[0] || x in keys[1..];
    }
  }

  lemma {:induction false} SizesOfEmpty<T>(keys: seq<T>)
    ensures Sum(Sizes([], keys)) == 0
    decreases |keys|
  {
    if keys != [] {
      assert Sizes([], keys)[1..] == Sizes([], keys[1..]);
      SizesOfEmpty(keys[1..]);
    }
  }

  /** Group sizes over distinct keys that cover every element add up to the
      number of elements: grouping neither loses nor duplicates rows. */
  lemma {:induction false} SizesSum<T>(s: seq<T>, keys: seq<T>)
    requires NoDups(keys)
    requires forall x :: x in s ==> x in keys
    ensures Sum(Sizes(s, keys)) == |s|
    decreases |s|
  {
    if s == [] {
      SizesOfEmpty(keys);
    } else {
      assert s == [s[0]] + s[1..];
      SizesCons(s[0], s[1..], keys);
      SizesSum(s[1..], keys);
    }
  }

  /** The first occurrences of a non-increasing sequence are strictly decreasing. */
  lemma {:induction false} DistinctOfNonIncreasing(s: seq<int>)
    requires NonIncreasing(s)
    ensures StrictlyDecreasing(Distinct(s))
    decreases |s|
  {
    if s != [] {
      var init := s[..|s| - 1];
      assert NonIncreasing(init);
      DistinctOfNonIncreasing(init);
      var d := Distinct(init);
      var last := s[|s| - 1];
      forall x | x in d ensures last <= x {
        assert x in init;
        var k :| 0 <= k < |init| && init[k] == x;
        assert s[k] == x;
      }
      if last !in d {
        var r := d + [last];
        assert Distinct(s) == r;
        forall i, j | 0 <= i < j < |r| ensures r[i] > r[j] {
          if j == |d| {
            assert r[i] == d[i] && d[i] in d;
          }
        }
      }
    }
  }

  /** `drop_duplicates` on one value followed by two copies of another. */
  lemma DistinctOfPair<T(!new)>(a: T, b: T)
    requires a != b
    ensures Distinct([a, b, b]) == [a, b]
  {
    assert [a, b, b][..2] == [a, b];
    assert [a, b][..1] == [a];
    assert [a][..0] == [];
    assert Distinct([a]) == [a];
    assert Distinct([a, b]) == [a, b];
  }

  /** Reversed first occurrences: still free of duplicates, still the same values. */
  lemma ReverseDistinct<T(!new)>(s: seq<T>)
    ensures NoDups(Reverse(Distinct(s)))
    ensures forall x {:trigger x in Reverse(Distinct(s))} :: x in Reverse(Distinct(s)) <==> x in s
  {
    var d := Distinct(s);
    ReversePerm(d);
    NoDupsPerm(d, Reverse(d));
    forall x ensures x in Reverse(d) <==> x in d {
      assert x in Reverse(d) <==> x in multiset(Reverse(d));
    }
  }

  /** Reversing the first occurrences keeps every value of the sequence. */
  lemma InReverseDistinct<T(!new)>(days: seq<T>, i: int)
    requires 0 <= i < |days|
    ensures days[i] in Reverse(Distinct(days))
  {
    ReverseDistinct(days);
    assert days[i] in days;
    assert days[i] in Distinct(days);
  }
}
