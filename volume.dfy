/** `TweetsPlot.plot`: posts per day of the year, and replies, retweets and
    quote posts per day, on a day axis shifted so that it starts at 0.

    pandas' `groupby(x).size()` lists the groups by ascending key, while
    `drop_duplicates()` keeps the order of appearance. The source pairs the
    two: `TweetsPlotAsWritten` models that, `VolumeSeries` pairs every day
    with its own count. */
module Volume {
  import opened Base
  import opened Seqs
  import opened Sorting
  import opened Tweets

  /** One plotted line: `plt.plot(xs, ys)`. */
  datatype Line = Line(xs: seq<int>, ys: seq<int>)

  /** The four lines of the figure: Total, Replies / Interactions, RT's, QRT's. */
  datatype VolumeChart = VolumeChart(total: Line, replies: Line, retweets: Line, quotes: Line)

  function Days(posts: seq<Post>): seq<int>
  {
    seq(|posts|, i requires 0 <= i < |posts| => posts[i].day)
  }

  /** The days of the posts a mask keeps, in frame order: `df[mask]["created_at"].dt.dayofyear`. */
  function DaysWhere(posts: seq<Post>, keep: Post -> bool): seq<int>
  {
    if posts == [] then []
    else (if keep(posts[0]) then [posts[0].day] else []) + DaysWhere(posts[1..], keep)
  }

  predicate IsReply(p: Post) { p.repliedTo.Some? }
  predicate IsRetweet(p: Post) { p.retweeted.Some? }
  predicate IsQuote(p: Post) { p.quoted.Some? }

  /** The origin of the day axis: the first of the distinct days in reversed order of appearance. */
  function Origin(posts: seq<Post>): int
    requires posts != []
  {
    InReverseDistinct(Days(posts), 0);
    Reverse(Distinct(Days(posts)))[0]
  }

  /** A line as the source draws it: the distinct days in reversed order of
      appearance on the x axis, the group sizes by descending day on the y axis. */
  function AsWrittenLine(days: seq<int>, origin: int): Line
  {
    Line(Shift(Reverse(Distinct(days)), origin), Reverse(GroupBySize(days)))
  }

  /** The chart as the source computes it. A frame built from no posts has
      no columns, so `df["created_at"]` raises; the reply counts are plotted
      against their positions. */
  function TweetsPlotAsWritten(posts: seq<Post>): Result<VolumeChart>
  {
    if posts == [] then Err(KeyError)
    else
      var origin := Origin(posts);
      var replies := Reverse(GroupBySize(DaysWhere(posts, IsReply)));
      Ok(VolumeChart(
        AsWrittenLine(Days(posts), origin),
        Line(Range(0, |replies|), replies),
        AsWrittenLine(DaysWhere(posts, IsRetweet), origin),
        AsWrittenLine(DaysWhere(posts, IsQuote), origin)))
  }

  /** A line whose points are the distinct days in reversed order of
      appearance, each with the number of posts on that day. */
  function DayLine(days: seq<int>, origin: int): Line
  {
    var axis := Reverse(Distinct(days));
    Line(Shift(axis, origin), Sizes(days, axis))
  }

  /** The chart with every day paired with its own count (`groupby(x, sort=False)`).
      The reply line keeps the source's implicit x values 0, 1, 2, ... */
  function VolumeSeries(posts: seq<Post>): Result<VolumeChart>
  {
    if posts == [] then Err(KeyError)
    else
      var days := Days(posts);
      var origin := Origin(posts);
      var replyDays := DaysWhere(posts, IsReply);
      var replies := Sizes(replyDays, Reverse(Distinct(replyDays)));
      Ok(VolumeChart(
        DayLine(days, origin),
        Line(Range(0, |replies|), replies),
        DayLine(DaysWhere(posts, IsRetweet), origin),
        DayLine(DaysWhere(posts, IsQuote), origin)))
  }

  /** Every point of `line` is a day of `days` (measured from `origin`) with
      at least one post, and carries the number of posts on that day. */
  ghost predicate CountsDays(line: Line, days: seq<int>, origin: int)
  {
    && |line.xs| == |line.ys|
    && forall i :: 0 <= i < |line.ys| ==>
         line.ys[i] == multiset(days)[origin + line.xs[i]] && line.ys[i] > 0
  }

  lemma DayLinePoints(days: seq<int>, origin: int)
    ensures CountsDays(DayLine(days, origin), days, origin)
  {
    var axis := Reverse(Distinct(days));
    ReverseDistinct(days);
    var line := DayLine(days, origin);
    forall i | 0 <= i < |line.ys|
      ensures line.ys[i] == multiset(days)[origin + line.xs[i]] && line.ys[i] > 0
    {
      assert origin + line.xs[i] == axis[i];
      assert axis[i] in Reverse(Distinct(days));
      assert axis[i] in days;
    }
  }

  /** Every day that occurs has a point on its day line, and the counts add
      up to the number of posts. */
  lemma DayLineCovers(days: seq<int>, origin: int)
    ensures forall i :: 0 <= i < |days| ==> days[i] - origin in DayLine(days, origin).xs
    ensures Sum(DayLine(days, origin).ys) == |days|
  {
    forall i | 0 <= i < |days| ensures days[i] - origin in DayLine(days, origin).xs {
      InReverseDistinct(days, i);
      var axis := Reverse(Distinct(days));
      var k :| 0 <= k < |axis| && axis[k] == days[i];
      assert DayLine(days, origin).xs[k] == days[i] - origin;
    }
    ReverseDistinct(days);
    SizesSum(days, Reverse(Distinct(days)));
  }

  lemma VolumeSeriesUnfold(posts: seq<Post>)
    requires posts != []
    ensures VolumeSeries(posts).Ok?
    ensures VolumeSeries(posts).value.total == DayLine(Days(posts), Origin(posts))
    ensures VolumeSeries(posts).value.retweets == DayLine(DaysWhere(posts, IsRetweet), Origin(posts))
    ensures VolumeSeries(posts).value.quotes == DayLine(DaysWhere(posts, IsQuote), Origin(posts))
    ensures VolumeSeries(posts).value.replies.ys
            == Sizes(DaysWhere(posts, IsReply), Reverse(Distinct(DaysWhere(posts, IsReply))))
  {
  }

  /** The corrected chart is defined exactly when there is a post; its axis
      starts at 0 and its totals add up to the number of posts. */
  lemma VolumeSeriesTotals(posts: seq<Post>)
    ensures VolumeSeries(posts).Ok? <==> posts != []
    ensures VolumeSeries(posts).Err? ==> VolumeSeries(posts).error == KeyError
    ensures posts != [] ==>
      && VolumeSeries(posts).value.total.xs[0] == 0
      && Sum(VolumeSeries(posts).value.total.ys) == |posts|
  {
    if posts != [] {
      VolumeSeriesUnfold(posts);
      OriginStartsAxis(posts);
      DayLineCovers(Days(posts), Origin(posts));
    }
  }

  /** The total line's axis starts at its origin. */
  lemma OriginStartsAxis(posts: seq<Post>)
    requires posts != []
    ensures |DayLine(Days(posts), Origin(posts)).xs| > 0 && DayLine(Days(posts), Origin(posts)).xs[0] == 0
  {
    InReverseDistinct(Days(posts), 0);
  }

  /** Each point of the corrected total line carries the number of posts on its day. */
  lemma VolumeSeriesTotalCounts(posts: seq<Post>)
    requires posts != []
    ensures CountsDays(VolumeSeries(posts).value.total, Days(posts), Origin(posts))
  {
    VolumeSeriesUnfold(posts);
    DayLinePoints(Days(posts), Origin(posts));
  }

  /** Each point of the corrected retweet line carries the number of retweets
      on its day, measured from the origin of the totals. */
  lemma VolumeSeriesRetweets(posts: seq<Post>)
    requires posts != []
    ensures CountsDays(VolumeSeries(posts).value.retweets, DaysWhere(posts, IsRetweet), Origin(posts))
  {
    VolumeSeriesUnfold(posts);
    DayLinePoints(DaysWhere(posts, IsRetweet), Origin(posts));
  }

  /** Each point of the corrected quote line carries the number of quote
      posts on its day, measured from the origin of the totals. */
  lemma VolumeSeriesQuotes(posts: seq<Post>)
    requires posts != []
    ensures CountsDays(VolumeSeries(posts).value.quotes, DaysWhere(posts, IsQuote), Origin(posts))
  {
    VolumeSeriesUnfold(posts);
    DayLinePoints(DaysWhere(posts, IsQuote), Origin(posts));
  }

  /** The reply counts add up to the number of replies. */
  lemma VolumeSeriesReplies(posts: seq<Post>)
    requires posts != []
    ensures Sum(VolumeSeries(posts).value.replies.ys) == |DaysWhere(posts, IsReply)|
  {
    VolumeSeriesUnfold(posts);
    var replyDays := DaysWhere(posts, IsReply);
    ReverseDistinct(replyDays);
    SizesSum(replyDays, Reverse(Distinct(replyDays)));
  }

  /** On a frame that lists the newest post first, the corrected axis is in
      chronological order. */
  lemma VolumeSeriesChronological(posts: seq<Post>)
    requires posts != [] && NonIncreasing(Days(posts))
    ensures var xs := VolumeSeries(posts).value.total.xs;
      forall i, j :: 0 <= i < j < |xs| ==> 0 <= xs[i] < xs[j]
  {
    DistinctOfNonIncreasing(Days(posts));
    InReverseDistinct(Days(posts), 0);
    VolumeSeriesUnfold(posts);
    AscendingFromOrigin(Distinct(Days(posts)));
  }

  /** Strictly decreasing values, reversed and measured from the first of
      them, are strictly increasing from 0. */
  lemma AscendingFromOrigin(d: seq<int>)
    requires d != [] && StrictlyDecreasing(d)
    ensures var xs := Shift(Reverse(d), Reverse(d)[0]);
      forall i, j :: 0 <= i < j < |xs| ==> 0 <= xs[i] < xs[j]
  {
    var r := Reverse(d);
    forall i, j | 0 <= i < j < |r| ensures r[0] <= r[i] < r[j] {
      assert r[0] == d[|d| - 1] && r[i] == d[|d| - 1 - i] && r[j] == d[|d| - 1 - j];
    }
  }

  /** A line drawn as the source draws it has as many x values as y values,
      and its counts still add up to the number of posts. */
  lemma AsWrittenLineShape(days: seq<int>, origin: int)
    ensures |AsWrittenLine(days, origin).xs| == |AsWrittenLine(days, origin).ys|
    ensures Sum(AsWrittenLine(days, origin).ys) == |days|
  {
    GroupBySizeSum(days);
    ReversePerm(GroupBySize(days));
    SumPerm(Reverse(GroupBySize(days)), GroupBySize(days));
  }

  /** The source's chart is defined exactly when there is a post; its axis
      starts at 0 and its totals add up to the number of posts. */
  lemma TweetsPlotTotals(posts: seq<Post>)
    ensures TweetsPlotAsWritten(posts).Ok? <==> posts != []
    ensures TweetsPlotAsWritten(posts).Err? ==> TweetsPlotAsWritten(posts).error == KeyError
    ensures posts != [] ==>
      var total := TweetsPlotAsWritten(posts).value.total;
      && |total.xs| == |total.ys|
      && total.xs[0] == 0
      && Sum(total.ys) == |posts|
  {
    if posts != [] {
      var days := Days(posts);
      assert |days| == |posts|;
      InReverseDistinct(days, 0);
      AsWrittenLineShape(days, Origin(posts));
    }
  }

  /** On a newest-first frame a line drawn as the source draws it holds the
      correct counts in reverse, against the correct axis. */
  lemma AsWrittenLineReversed(days: seq<int>, origin: int)
    requires NonIncreasing(days)
    ensures AsWrittenLine(days, origin).xs == DayLine(days, origin).xs
    ensures AsWrittenLine(days, origin).ys == Reverse(DayLine(days, origin).ys)
  {
    SortedKeysOfNonIncreasing(days);
  }

  lemma AsWrittenOfNewestFirst(days: seq<int>, origin: int, xs: seq<int>, ys: seq<int>)
    requires NonIncreasing(days) && DayLine(days, origin) == Line(xs, ys)
    ensures AsWrittenLine(days, origin) == Line(xs, Reverse(ys))
  {
    AsWrittenLineReversed(days, origin);
  }

  /** Filtering a newest-first frame keeps it newest-first. */
  lemma {:induction false} DaysWhereNonIncreasing(posts: seq<Post>, keep: Post -> bool)
    requires NonIncreasing(Days(posts))
    ensures NonIncreasing(DaysWhere(posts, keep))
    ensures forall i :: 0 <= i < |DaysWhere(posts, keep)| ==> DaysWhere(posts, keep)[i] <= posts[0].day
  {
    if posts != [] {
      var tail := DaysWhere(posts[1..], keep);
      assert Days(posts[1..]) == Days(posts)[1..];
      DaysWhereNonIncreasing(posts[1..], keep);
      forall k | 0 <= k < |tail| ensures tail[k] <= posts[0].day {
        assert Days(posts)[0] >= Days(posts)[1];
      }
      var r := DaysWhere(posts, keep);
      if keep(posts[0]) {
        assert r == [posts[0].day] + tail;
        forall i, j | 0 <= i < j < |r| ensures r[i] >= r[j] {
          assert r[j] == tail[j - 1];
        }
      } else {
        assert r == tail;
      }
    }
  }

  /** On a newest-first frame the source's total, retweet and quote lines are
      the corrected ones with their counts in reverse order. */
  lemma TweetsPlotTimeReversed(posts: seq<Post>)
    requires posts != [] && NonIncreasing(Days(posts))
    ensures var asWritten := TweetsPlotAsWritten(posts).value;
      var corrected := VolumeSeries(posts).value;
      && asWritten.total.xs == corrected.total.xs
      && asWritten.total.ys == Reverse(corrected.total.ys)
      && asWritten.retweets.xs == corrected.retweets.xs
      && asWritten.retweets.ys == Reverse(corrected.retweets.ys)
      && asWritten.quotes.xs == corrected.quotes.xs
      && asWritten.quotes.ys == Reverse(corrected.quotes.ys)
  {
    VolumeSeriesUnfold(posts);
    AsWrittenLineReversed(Days(posts), Origin(posts));
    DaysWhereNonIncreasing(posts, IsRetweet);
    AsWrittenLineReversed(DaysWhere(posts, IsRetweet), Origin(posts));
    DaysWhereNonIncreasing(posts, IsQuote);
    AsWrittenLineReversed(DaysWhere(posts, IsQuote), Origin(posts));
  }

  function PostOnDay(day: int): Post
  {
    Post("", day, 0, "", None, None, None, map[], map[])
  }

  /** Three posts, newest first: one on day 101, two on day 100. The source
      plots 1 post at x = 0 (day 100) and 2 at x = 1 (day 101). */
  lemma TweetsPlotMisaligned()
    ensures var posts := [PostOnDay(101), PostOnDay(100), PostOnDay(100)];
      && TweetsPlotAsWritten(posts).value.total == Line([0, 1], [1, 2])
      && VolumeSeries(posts).value.total == Line([0, 1], [2, 1])
  {
    var posts := [PostOnDay(101), PostOnDay(100), PostOnDay(100)];
    var days := [101, 100, 100];
    assert Days(posts) == days;
    ExampleAxis();
    ExampleDayLine();
    ExampleAsWritten();
    assert Origin(posts) == 100;
    VolumeSeriesUnfold(posts);
  }

  /** The day lines of the frame in `TweetsPlotMisaligned`, drawn both ways. */
  lemma ExampleAsWritten()
    ensures AsWrittenLine([101, 100, 100], 100) == Line([0, 1], [1, 2])
  {
    ExampleDayLine();
    assert NonIncreasing([101, 100, 100]);
    assert Reverse([2, 1]) == [1, 2];
    AsWrittenOfNewestFirst([101, 100, 100], 100, [0, 1], [2, 1]);
  }

  lemma ExampleAxis()
    ensures Reverse(Distinct([101, 100, 100])) == [100, 101]
  {
    DistinctOfPair(101, 100);
    assert Reverse([101, 100]) == [100, 101];
  }

  lemma ExampleDayLine()
    ensures DayLine([101, 100, 100], 100) == Line([0, 1], [2, 1])
  {
    var days := [101, 100, 100];
    ExampleAxis();
    assert multiset(days)[100] == 2 && multiset(days)[101] == 1;
    assert Sizes(days, [100, 101]) == [2, 1];
    assert Shift([100, 101], 100) == [0, 1];
  }
}
