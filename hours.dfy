/** `TweetTimeHist.plot`: a bar chart of the plain posts (neither a reply to
    a partner, nor a retweet, nor a quote post) by hour of the day.

    The bars are placed at the distinct hours in order of appearance, but
    `groupby(x).size()` lists the counts by ascending hour.
    `TweetTimeHistAsWritten` models that pairing; `HourHistogram` gives every
    bar its own hour's count. */
module Hours {
  import opened Base
  import opened Seqs
  import opened Sorting
  import opened Tweets
  import opened Interactions

  /** `plt.bar(xs, heights)`. */
  datatype Histogram = Histogram(xs: seq<int>, heights: seq<int>)

  /** The row mask: `interacting_with`, `quoted` and `retweeted` all missing. */
  predicate IsPlain(p: Post, partner: Option<string>)
  {
    partner.None? && p.quoted.None? && p.retweeted.None?
  }

  /** `tweets["created_at"].dt.hour`: the hours of the rows the mask keeps, in row order. */
  function PlainHours(posts: seq<Post>, column: seq<Option<string>>): (hours: seq<int>)
    requires |column| == |posts|
    ensures |hours| <= |posts|
  {
    if posts == [] then []
    else (if IsPlain(posts[0], column[0]) then [posts[0].hour] else []) + PlainHours(posts[1..], column[1..])
  }

  /** The histogram as the source draws it. A frame without the
      `interacting_with` column makes `df["interacting_with"]` raise, and so
      does `df["quoted"]` on a frame built from no posts. */
  function TweetTimeHistAsWritten(posts: seq<Post>, column: Option<seq<Option<string>>>): Result<Histogram>
    requires column.Some? ==> |column.value| == |posts|
  {
    if column.None? || posts == [] then Err(KeyError)
    else
      var hours := PlainHours(posts, column.value);
      Ok(Histogram(Distinct(hours), GroupBySize(hours)))
  }

  /** The histogram with every bar at an hour carrying that hour's count. */
  function HourHistogram(posts: seq<Post>, column: Option<seq<Option<string>>>): Result<Histogram>
    requires column.Some? ==> |column.value| == |posts|
  {
    if column.None? || posts == [] then Err(KeyError)
    else
      var hours := PlainHours(posts, column.value);
      Ok(Histogram(Distinct(hours), Sizes(hours, Distinct(hours))))
  }

  /** A row's hour is counted exactly when the row is plain. */
  lemma {:induction false} PlainHoursMembers(posts: seq<Post>, column: seq<Option<string>>)
    requires |column| == |posts|
    ensures forall i :: 0 <= i < |posts| && IsPlain(posts[i], column[i]) ==> posts[i].hour in PlainHours(posts, column)
    ensures forall h :: h in PlainHours(posts, column) ==>
              exists i :: 0 <= i < |posts| && IsPlain(posts[i], column[i]) && posts[i].hour == h
    decreases |posts|
  {
    if posts != [] {
      PlainHoursMembers(posts[1..], column[1..]);
      forall i | 0 < i < |posts| && IsPlain(posts[i], column[i])
        ensures posts[i].hour in PlainHours(posts, column)
      {
        assert posts[1..][i - 1] == posts[i] && column[1..][i - 1] == column[i];
      }
      forall h | h in PlainHours(posts, column)
        ensures exists i :: 0 <= i < |posts| && IsPlain(posts[i], column[i]) && posts[i].hour == h
      {
        if !(IsPlain(posts[0], column[0]) && posts[0].hour == h) {
          assert h in PlainHours(posts[1..], column[1..]);
          var k :| 0 <= k < |posts[1..]| && IsPlain(posts[1..][k], column[1..][k]) && posts[1..][k].hour == h;
          assert posts[k + 1] == posts[1..][k] && column[k + 1] == column[1..][k];
        }
      }
    }
  }

  /** On the column the pie chart adds, a row is plain exactly when it is
      not a reply that mentions its partner first, nor a retweet, nor a
      quote post: a reply whose text does not start with '@' counts as plain. */
  lemma PlainUnderPieColumn(posts: seq<Post>, i: int)
    requires 0 <= i < |posts|
    ensures IsPlain(posts[i], InteractionColumn(posts)[i])
            <==> !Selected(posts[i]) && posts[i].quoted.None? && posts[i].retweeted.None?
  {
    InteractionColumnSelects(posts);
  }

  /** The corrected bars: one per distinct plain hour, each with the number
      of plain rows at that hour; a frame without the column, or without
      rows, fails. */
  lemma HourHistogramBars(posts: seq<Post>, column: Option<seq<Option<string>>>)
    requires column.Some? ==> |column.value| == |posts|
    ensures HourHistogram(posts, column).Ok? <==> column.Some? && posts != []
    ensures HourHistogram(posts, column).Err? ==> HourHistogram(posts, column).error == KeyError
    ensures column.Some? && posts != [] ==>
      var hours := PlainHours(posts, column.value);
      var bars := HourHistogram(posts, column).value;
      && NoDups(bars.xs)
      && |bars.heights| == |bars.xs|
      && forall k :: 0 <= k < |bars.xs| ==>
           bars.heights[k] == multiset(hours)[bars.xs[k]] && bars.heights[k] > 0
  {
    if column.Some? && posts != [] {
      var hours := PlainHours(posts, column.value);
      var bars := HourHistogram(posts, column).value;
      forall k | 0 <= k < |bars.xs|
        ensures bars.heights[k] == multiset(hours)[bars.xs[k]] && bars.heights[k] > 0
      {
        assert bars.xs[k] in Distinct(hours);
        assert bars.xs[k] in hours;
      }
    }
  }

  /** Every plain row has a bar at its hour, and the bars add up to the
      number of plain rows. */
  lemma HourHistogramTotal(posts: seq<Post>, column: seq<Option<string>>)
    requires |column| == |posts|
    ensures posts != [] ==>
      var bars := HourHistogram(posts, Some(column)).value;
      && (forall i :: 0 <= i < |posts| && IsPlain(posts[i], column[i]) ==> posts[i].hour in bars.xs)
      && Sum(bars.heights) == |PlainHours(posts, column)|
  {
    var hours := PlainHours(posts, column);
    PlainHoursMembers(posts, column);
    forall i | 0 <= i < |posts| && IsPlain(posts[i], column[i])
      ensures posts[i].hour in Distinct(hours)
    {
      assert posts[i].hour in hours;
    }
    SizesSum(hours, Distinct(hours));
  }

  /** The source draws the same bars with the same heights, but in a
      different order: its heights are a permutation of the corrected ones. */
  lemma AsWrittenHeightsPermuted(posts: seq<Post>, column: Option<seq<Option<string>>>)
    requires column.Some? ==> |column.value| == |posts|
    ensures TweetTimeHistAsWritten(posts, column).Ok? <==> HourHistogram(posts, column).Ok?
    ensures HourHistogram(posts, column).Ok? ==>
      var asWritten := TweetTimeHistAsWritten(posts, column).value;
      var bars := HourHistogram(posts, column).value;
      && asWritten.xs == bars.xs
      && multiset(asWritten.heights) == multiset(bars.heights)
  {
    if column.Some? && posts != [] {
      var hours := PlainHours(posts, column.value);
      var keys := Sort(Distinct(hours), IntLess);
      var count := (h: int) => multiset(hours)[h];
      assert Sizes(hours, keys) == Map(count, keys);
      assert Sizes(hours, Distinct(hours)) == Map(count, Distinct(hours));
      MapPerm(count, keys, Distinct(hours));
    }
  }

  function PostAtHour(hour: int): Post
  {
    Post("", 0, hour, "", None, None, None, map[], map[])
  }

  /** Three plain posts at 14:00, 9:00 and 9:00. The source draws the bar at
      hour 14 with height 2 and the bar at hour 9 with height 1. */
  lemma TweetTimeHistMisaligned()
    ensures var posts := [PostAtHour(14), PostAtHour(9), PostAtHour(9)];
      var column := Some([None, None, None]);
      && TweetTimeHistAsWritten(posts, column) == Ok(Histogram([14, 9], [2, 1]))
      && HourHistogram(posts, column) == Ok(Histogram([14, 9], [1, 2]))
  {
    var posts := [PostAtHour(14), PostAtHour(9), PostAtHour(9)];
    var column: seq<Option<string>> := [None, None, None];
    assert PlainHours(posts[2..], column[2..]) == [9];
    assert PlainHours(posts[1..], column[1..]) == [9, 9];
    assert PlainHours(posts, column) == [14, 9, 9];
    ExampleBars();
  }

  /** The bars of the hours in `TweetTimeHistMisaligned`, counted both ways. */
  lemma ExampleBars()
    ensures Distinct([14, 9, 9]) == [14, 9]
    ensures GroupBySize([14, 9, 9]) == [2, 1]
    ensures Sizes([14, 9, 9], [14, 9]) == [1, 2]
  {
    var hours := [14, 9, 9];
    DistinctOfPair(14, 9);
    ExampleSort();
    assert multiset(hours)[9] == 2 && multiset(hours)[14] == 1;
    assert Sizes(hours, [9, 14]) == [2, 1];
  }

  lemma ExampleSort()
    ensures Sort([14, 9], IntLess) == [9, 14]
  {
    IntLessIsTotal();
    assert Sorted([9, 14], IntLess);
    assert multiset([9, 14]) == multiset([14, 9]);
    SortIsTheSortedPermutation([14, 9], [9, 14], IntLess);
  }
}
