/** `InteractionPieChart.plot`: the partner of every reply that opens with a
    mention, the `interacting_with` column built from it, and the ranking of
    partners by number of such replies. */
module Interactions {
  import opened Base
  import opened Seqs
  import opened Sorting
  import opened Tweets
  import opened Frames

  /** The characters Python's `str.split()` splits on. */
  predicate IsSpace(c: char)
  {
    || c == ' ' || '\t' <= c <= '\r' || '\U{1C}' <= c <= '\U{1F}'
    || c == '\U{85}' || c == '\U{A0}' || c == '\U{1680}' || '\U{2000}' <= c <= '\U{200A}'
    || c == '\U{2028}' || c == '\U{2029}' || c == '\U{202F}' || c == '\U{205F}' || c == '\U{3000}'
  }

  predicate NoSpace(w: string)
  {
    forall i :: 0 <= i < |w| ==> !IsSpace(w[i])
  }

  /** `s` without its leading whitespace. */
  function SkipSpace(s: string): (r: string)
    ensures |r| <= |s| && r == s[|s| - |r|..]
    ensures r == [] || !IsSpace(r[0])
    ensures forall i :: 0 <= i < |s| - |r| ==> IsSpace(s[i])
  {
    if s != [] && IsSpace(s[0]) then SkipSpace(s[1..]) else s
  }

  /** The longest prefix of `s` without whitespace. */
  function WordAt(s: string): (w: string)
    ensures |w| <= |s| && w == s[..|w|]
    ensures NoSpace(w)
    ensures |w| == |s| || IsSpace(s[|w|])
  {
    if s == [] || IsSpace(s[0]) then [] else [s[0]] + WordAt(s[1..])
  }

  /** `str.split()`: the maximal runs of non-whitespace characters, in order. */
  function Words(s: string): seq<string>
    decreases |s|
  {
    var t := SkipSpace(s);
    if t == [] then []
    else
      var w := WordAt(t);
      [w] + Words(t[|w|..])
  }

  /** Every word `str.split()` yields is non-empty and free of whitespace. */
  lemma {:induction false} WordsAreWords(s: string)
    ensures forall k :: 0 <= k < |Words(s)| ==> Words(s)[k] != [] && NoSpace(Words(s)[k])
    decreases |s|
  {
    var t := SkipSpace(s);
    if t != [] {
      var w := WordAt(t);
      WordsAreWords(t[|w|..]);
      var rest := Words(t[|w|..]);
      assert Words(s) == [w] + rest;
      forall k | 0 <= k < |Words(s)|
        ensures Words(s)[k] != [] && NoSpace(Words(s)[k])
      {
        if k > 0 {
          assert Words(s)[k] == rest[k - 1];
        }
      }
    }
  }

  /** `.str.split().str.get(0).str.slice(start=1)`: the first word without its
      first character, missing when the text has no word. */
  function Partner(text: string): Option<string>
  {
    var ws := Words(text);
    if ws == [] then None else Some(ws[0][1..])
  }

  /** A text that opens with `@` yields the run of characters after the `@`
      up to the first whitespace or the end of the text. */
  lemma PartnerOfMention(text: string)
    requires text != [] && text[0] == '@'
    ensures Partner(text).Some?
    ensures var h := Partner(text).value;
      && |h| < |text| && h == text[1..|h| + 1]
      && NoSpace(h)
      && (|h| + 1 == |text| || IsSpace(text[|h| + 1]))
  {
    assert !IsSpace('@');
    assert SkipSpace(text) == text;
  }

  /** The rows the source takes a partner from: replies whose text starts with `@`. */
  predicate Selected(p: Post)
  {
    p.repliedTo.Some? && p.text != [] && p.text[0] == '@'
  }

  /** The `interacting_with` column: the partner on selected rows, missing elsewhere. */
  function InteractionColumn(posts: seq<Post>): (col: seq<Option<string>>)
    ensures |col| == |posts|
  {
    seq(|posts|, i requires 0 <= i < |posts| => if Selected(posts[i]) then Partner(posts[i].text) else None)
  }

  /** A row has a partner exactly when it is selected. */
  lemma InteractionColumnSelects(posts: seq<Post>)
    ensures forall i :: 0 <= i < |posts| ==> (InteractionColumn(posts)[i].Some? <==> Selected(posts[i]))
  {
    forall i | 0 <= i < |posts| && Selected(posts[i])
      ensures InteractionColumn(posts)[i].Some?
    {
      PartnerOfMention(posts[i].text);
    }
  }

  /** The values present in a column, in row order (what `groupby` sees). */
  function Present(col: seq<Option<string>>): (hs: seq<string>)
    ensures |hs| <= |col|
  {
    if col == [] then []
    else (if col[0].Some? then [col[0].value] else []) + Present(col[1..])
  }

  /** The partner handles, one per selected post, in row order. */
  function Handles(posts: seq<Post>): seq<string>
  {
    Present(InteractionColumn(posts))
  }

  /** There is one handle per selected post. */
  lemma {:induction false} HandlesCount(posts: seq<Post>)
    ensures |Handles(posts)| == |FilterSelected(posts)|
  {
    if posts != [] {
      assert InteractionColumn(posts)[1..] == InteractionColumn(posts[1..]);
      HandlesCount(posts[1..]);
      if Selected(posts[0]) {
        PartnerOfMention(posts[0].text);
      }
    }
  }

  /** The selected posts, in row order. */
  function FilterSelected(posts: seq<Post>): seq<Post>
  {
    if posts == [] then []
    else (if Selected(posts[0]) then [posts[0]] else []) + FilterSelected(posts[1..])
  }

  /** One entry of `userInteractionSeries`: a partner and its count. */
  datatype Entry = Entry(handle: string, count: int)

  function Second(p: (int, string)): string { p.1 }
  function First(p: (int, string)): int { p.0 }

  /** `groupby(interactions).size()`: the distinct handles in ascending order. */
  function Keys(hs: seq<string>): seq<string>
  {
    Sort(Distinct(hs), StrLess)
  }

  /** `zip(vals, users)`: each key paired with its count. */
  function CountedKeys(hs: seq<string>): (pairs: seq<(int, string)>)
    ensures |pairs| == |Keys(hs)|
  {
    var keys := Keys(hs);
    seq(|keys|, i requires 0 <= i < |keys| => (multiset(hs)[keys[i]], keys[i]))
  }

  /** `users = [x for _, x in sorted(zip(vals, users))][::-1]` and
      `vals = np.sort(vals)[::-1]`, zipped into `pd.Series(vals, index = users)`.
      The handles and the counts are reordered separately. */
  function Ranking(hs: seq<string>): (r: seq<Entry>)
    ensures |r| == |Distinct(hs)|
  {
    var keys := Keys(hs);
    var users := Reverse(Map(Second, Sort(CountedKeys(hs), PairLess)));
    var counts := Reverse(Sort(Sizes(hs, keys), IntLess));
    seq(|users|, i requires 0 <= i < |users| => Entry(users[i], counts[i]))
  }

  function RankedHandles(r: seq<Entry>): seq<string>
  {
    seq(|r|, i requires 0 <= i < |r| => r[i].handle)
  }

  function RankedCounts(r: seq<Entry>): seq<int>
  {
    seq(|r|, i requires 0 <= i < |r| => r[i].count)
  }

  /** `plt.pie(vals[:15], labels=users[:15])`. */
  function PieSlices(r: seq<Entry>): seq<Entry>
  {
    if |r| <= 15 then r else r[..15]
  }

  /** The (count, handle) pairs in ascending order, as `sorted` leaves them. */
  function SortedPairs(hs: seq<string>): seq<(int, string)>
  {
    Sort(CountedKeys(hs), PairLess)
  }

  lemma KeysFacts(hs: seq<string>)
    ensures NoDups(Keys(hs)) && multiset(Keys(hs)) == multiset(Distinct(hs))
    ensures forall i :: 0 <= i < |hs| ==> hs[i] in Keys(hs)
  {
    StrLessIsTotal();
    NoDupsPerm(Distinct(hs), Keys(hs));
    forall i | 0 <= i < |hs| ensures hs[i] in Keys(hs) {
      assert hs[i] in Distinct(hs);
      assert hs[i] in multiset(Distinct(hs));
    }
  }

  /** Every sorted pair carries the count of its own handle, and the pairs
      are strictly increasing. */
  lemma SortedPairsFacts(hs: seq<string>)
    ensures |SortedPairs(hs)| == |Keys(hs)|
    ensures forall k :: 0 <= k < |SortedPairs(hs)| ==>
              SortedPairs(hs)[k].0 == multiset(hs)[SortedPairs(hs)[k].1]
    ensures forall a, b :: 0 <= a < b < |SortedPairs(hs)| ==> PairLess(SortedPairs(hs)[a], SortedPairs(hs)[b])
  {
    var pairs := CountedKeys(hs);
    var sp := SortedPairs(hs);
    PairLessIsTotal();
    SortSorted(pairs, PairLess);
    KeysFacts(hs);
    forall k | 0 <= k < |sp| ensures sp[k].0 == multiset(hs)[sp[k].1] {
      assert sp[k] in multiset(sp);
      assert sp[k] in pairs;
    }
    assert NoDups(pairs) by {
      forall i, j | 0 <= i < j < |pairs| ensures pairs[i] != pairs[j] {
        assert pairs[i].1 == Keys(hs)[i] && pairs[j].1 == Keys(hs)[j];
      }
    }
    NoDupsPerm(pairs, sp);
    forall a, b | 0 <= a < b < |sp| ensures PairLess(sp[a], sp[b]) {
      assert sp[a] != sp[b];
    }
  }

  lemma CountsOfPairs(hs: seq<string>)
    ensures Map(First, CountedKeys(hs)) == Sizes(hs, Keys(hs))
  {
    var a := Map(First, CountedKeys(hs));
    var b := Sizes(hs, Keys(hs));
    assert |a| == |b|;
    forall i | 0 <= i < |a| ensures a[i] == b[i] {
    }
  }

  lemma SortedPairCountsAscending(hs: seq<string>)
    ensures Sorted(Map(First, SortedPairs(hs)), IntLess)
  {
    var sp := SortedPairs(hs);
    var firsts := Map(First, sp);
    PairLessIsTotal();
    SortSorted(CountedKeys(hs), PairLess);
    forall i, j | 0 <= i < j < |firsts| ensures !IntLess(firsts[j], firsts[i]) {
      assert !PairLess(sp[j], sp[i]);
      assert firsts[i] == sp[i].0 && firsts[j] == sp[j].0;
    }
  }

  /** The counts sorted on their own are the counts of the sorted pairs:
      there is only one ascending arrangement of a multiset of counts. */
  lemma SortedCountsAgree(hs: seq<string>)
    ensures Sort(Sizes(hs, Keys(hs)), IntLess) == Map(First, SortedPairs(hs))
  {
    CountsOfPairs(hs);
    MapPerm(First, SortedPairs(hs), CountedKeys(hs));
    SortedPairCountsAscending(hs);
    IntLessIsTotal();
    SortIsTheSortedPermutation(Sizes(hs, Keys(hs)), Map(First, SortedPairs(hs)), IntLess);
  }

  /** Entry `i` of the ranking is the `i`-th largest (count, handle) pair. */
  lemma RankingFromPairs(hs: seq<string>)
    ensures var r := Ranking(hs); var sp := SortedPairs(hs);
      |r| == |sp| &&
      forall i :: 0 <= i < |r| ==> r[i] == Entry(sp[|sp| - 1 - i].1, sp[|sp| - 1 - i].0)
  {
    RankingUnfold(hs);
    SortedCountsAgree(hs);
    ZipReversed(SortedPairs(hs), Ranking(hs));
  }

  /** The ranking pairs the reversed handles with the reversed sorted counts. */
  lemma RankingUnfold(hs: seq<string>)
    ensures |Ranking(hs)| == |SortedPairs(hs)|
    ensures forall i :: 0 <= i < |Ranking(hs)| ==>
      Ranking(hs)[i] == Entry(Reverse(Map(Second, SortedPairs(hs)))[i], Reverse(Sort(Sizes(hs, Keys(hs)), IntLess))[i])
  {
  }

  lemma ZipReversed(sp: seq<(int, string)>, r: seq<Entry>)
    requires |r| == |sp|
    requires forall i :: 0 <= i < |r| ==> r[i] == Entry(Reverse(Map(Second, sp))[i], Reverse(Map(First, sp))[i])
    ensures forall i :: 0 <= i < |r| ==> r[i] == Entry(sp[|sp| - 1 - i].1, sp[|sp| - 1 - i].0)
  {
    forall i | 0 <= i < |r| ensures r[i] == Entry(sp[|sp| - 1 - i].1, sp[|sp| - 1 - i].0) {
      assert Reverse(Map(Second, sp))[i] == Second(sp[|sp| - 1 - i]);
      assert Reverse(Map(First, sp))[i] == First(sp[|sp| - 1 - i]);
    }
  }

  /** Each handle of the ranking is paired with its own number of replies,
      although handles and counts are sorted separately. */
  lemma RankingCounts(hs: seq<string>)
    ensures forall i :: 0 <= i < |Ranking(hs)| ==> Ranking(hs)[i].count == multiset(hs)[Ranking(hs)[i].handle]
  {
    RankingFromPairs(hs);
    SortedPairsFacts(hs);
  }

  /** Counts never increase along the ranking; equal counts are ordered by
      descending handle, not by first appearance. */
  lemma RankingOrder(hs: seq<string>)
    ensures forall i, j :: 0 <= i < j < |Ranking(hs)| ==>
      || Ranking(hs)[i].count > Ranking(hs)[j].count
      || (Ranking(hs)[i].count == Ranking(hs)[j].count && StrLess(Ranking(hs)[j].handle, Ranking(hs)[i].handle))
  {
    RankingFromPairs(hs);
    SortedPairsFacts(hs);
    var r := Ranking(hs);
    var sp := SortedPairs(hs);
    forall i, j | 0 <= i < j < |r|
      ensures r[i].count > r[j].count || (r[i].count == r[j].count && StrLess(r[j].handle, r[i].handle))
    {
      assert PairLess(sp[|sp| - 1 - j], sp[|sp| - 1 - i]);
    }
  }

  /** Every partner appears in the ranking exactly once, and nothing else does. */
  lemma RankingHandles(hs: seq<string>)
    ensures NoDups(RankedHandles(Ranking(hs)))
    ensures multiset(RankedHandles(Ranking(hs))) == multiset(Distinct(hs))
  {
    var sp := SortedPairs(hs);
    var pairs := CountedKeys(hs);
    KeysFacts(hs);
    assert Map(Second, pairs) == Keys(hs);
    MapPerm(Second, sp, pairs);
    ReversePerm(Map(Second, sp));
    assert RankedHandles(Ranking(hs)) == Reverse(Map(Second, sp));
    NoDupsPerm(Distinct(hs), RankedHandles(Ranking(hs)));
  }

  /** The counts add up to the number of handles. */
  lemma RankingSum(hs: seq<string>)
    ensures Sum(RankedCounts(Ranking(hs))) == |hs|
  {
    var sizes := Sizes(hs, Keys(hs));
    KeysFacts(hs);
    SizesSum(hs, Keys(hs));
    assert RankedCounts(Ranking(hs)) == Reverse(Sort(sizes, IntLess));
    ReversePerm(Sort(sizes, IntLess));
    SumPerm(Reverse(Sort(sizes, IntLess)), sizes);
  }

  /** The counts add up to the number of replies that open with a mention. */
  lemma RankingSumSelected(posts: seq<Post>)
    ensures Sum(RankedCounts(Ranking(Handles(posts)))) == |FilterSelected(posts)|
  {
    RankingSum(Handles(posts));
    HandlesCount(posts);
  }

  /** The pie shows at most 15 partners: the first of the ranking, none of
      which has fewer replies than a partner left out. */
  lemma PieSlicesLargest(hs: seq<string>)
    ensures var r := Ranking(hs); var pie := PieSlices(r);
      && |pie| == (if |r| <= 15 then |r| else 15)
      && pie == r[..|pie|]
      && forall i, j :: 0 <= i < |pie| <= j < |r| ==> r[j].count <= pie[i].count
  {
    RankingOrder(hs);
  }

  /** Two sequences without duplicates and with the same elements are
      permutations of each other. */
  lemma NoDupsSameElements<T>(a: seq<T>, b: seq<T>)
    requires NoDups(a) && NoDups(b)
    requires forall x :: x in a <==> x in b
    ensures multiset(a) == multiset(b)
  {
    forall x ensures multiset(a)[x] == multiset(b)[x] {
      NoDupsCount(a, x);
      NoDupsCount(b, x);
      assert x in a <==> x in multiset(a);
      assert x in b <==> x in multiset(b);
    }
  }

  /** The ranking depends only on how often each handle occurs, not on the
      order of the rows. */
  lemma RankingOrderIndependent(a: seq<string>, b: seq<string>)
    requires multiset(a) == multiset(b)
    ensures Ranking(a) == Ranking(b)
  {
    forall x ensures x in Distinct(a) <==> x in Distinct(b) {
      assert x in a <==> x in multiset(a);
      assert x in b <==> x in multiset(b);
    }
    NoDupsSameElements(Distinct(a), Distinct(b));
    StrLessIsTotal();
    SortSorted(Distinct(a), StrLess);
    SortIsTheSortedPermutation(Distinct(b), Keys(a), StrLess);
    assert Keys(a) == Keys(b);
    assert CountedKeys(a) == CountedKeys(b);
    assert Sizes(a, Keys(a)) == Sizes(b, Keys(b));
  }

  /** `InteractionPieChart`: adds the `interacting_with` column to the shared
      frame and keeps the ranking for the interaction plot. */
  class InteractionPieChart {
    const frame: Frame
    /** `self.userInteractionSeries`, which exists once `plot` has run. */
    var userInteractionSeries: Option<seq<Entry>>

    constructor (frame: Frame)
      ensures this.frame == frame && userInteractionSeries == None
    {
      this.frame := frame;
      userInteractionSeries := None;
    }

    /** `plot`: returns the slices the pie is drawn from. A frame built from
        no posts has no `replied_to` column, so `plot` raises before it
        changes anything. */
    method Plot() returns (slices: Result<seq<Entry>>)
      modifies this, frame
      ensures frame.posts == old(frame.posts)
      ensures old(frame.posts) == [] ==>
        && slices == Err(KeyError)
        && frame.interactingWith == old(frame.interactingWith)
        && userInteractionSeries == old(userInteractionSeries)
      ensures old(frame.posts) != [] ==>
        && frame.interactingWith == Some(InteractionColumn(frame.posts))
        && userInteractionSeries == Some(Ranking(Handles(frame.posts)))
        && slices == Ok(PieSlices(userInteractionSeries.value))
        && frame.Valid()
    {
      if frame.posts == [] {
        return Err(KeyError);
      }
      var column := InteractionColumn(frame.posts);
      frame.SetInteractingWith(column);
      var ranking := Ranking(Present(column));
      userInteractionSeries := Some(ranking);
      slices := Ok(PieSlices(ranking));
    }
  }
}
