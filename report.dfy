/** `main()`: normalises the two exports, builds one frame and draws the four
    figures from it in order: the daily volume, the pie of reply partners
    (which adds the `interacting_with` column to the frame), the lines of
    the top partners, and the hour histogram. The first error ends the run. */
module Driver {
  import opened Base
  import opened Seqs
  import opened Tweets
  import opened Frames
  import opened Volume
  import opened Interactions
  import opened PartnerLines
  import opened InteractionPlots
  import opened Hours

  /** What the four figures are drawn from. */
  datatype Figures = Figures(volume: VolumeChart, slices: seq<Entry>, lines: seq<PartnerLine>, hours: Histogram)

  /** The whole run on the parsed exports, `_3` first. */
  function Run(data3: seq<RawTweet>, data2: seq<RawTweet>): Result<Figures>
  {
    match NormalizeAll(data3 + data2)
    case Err(e) => Err(e)
    case Ok(posts) => Draw(posts)
  }

  /** The four plots, in order, on the normalised posts, as the source draws
      them. The pie chart cannot fail once the volume chart has succeeded. */
  function Draw(posts: seq<Post>): Result<Figures>
  {
    match TweetsPlotAsWritten(posts)
    case Err(e) => Err(e)
    case Ok(volume) =>
      var column := InteractionColumn(posts);
      var ranking := Ranking(Handles(posts));
      match InteractionLines(posts, Some(column), Some(ranking))
      case Err(e) => Err(e)
      case Ok(lines) =>
        match TweetTimeHistAsWritten(posts, Some(column))
        case Err(e) => Err(e)
        case Ok(hours) => Ok(Figures(volume, PieSlices(ranking), lines, hours))
  }

  /** The same run with the volume chart and the histogram drawn as
      intended: every count at its own day or hour. */
  function DrawCorrected(posts: seq<Post>): Result<Figures>
  {
    match VolumeSeries(posts)
    case Err(e) => Err(e)
    case Ok(volume) =>
      var column := InteractionColumn(posts);
      var ranking := Ranking(Handles(posts));
      match InteractionLines(posts, Some(column), Some(ranking))
      case Err(e) => Err(e)
      case Ok(lines) =>
        match HourHistogram(posts, Some(column))
        case Err(e) => Err(e)
        case Ok(hours) => Ok(Figures(volume, PieSlices(ranking), lines, hours))
  }

  /** The days of the parsed posts, in input order. */
  function RawDays(raw: seq<RawTweet>): seq<int>
  {
    seq(|raw|, i requires 0 <= i < |raw| => raw[i].day)
  }

  /** `main()` with the plots as objects sharing one frame. */
  method Report(data3: seq<RawTweet>, data2: seq<RawTweet>) returns (r: Result<Figures>)
    ensures r == Run(data3, data2)
  {
    var normalized := Normalize(data3, data2);
    if normalized.Err? {
      return Err(normalized.error);
    }
    var frame := new Frame(normalized.value);
    var volume := TweetsPlotAsWritten(frame.posts);
    if volume.Err? {
      return Err(volume.error);
    }
    var pie := new InteractionPieChart(frame);
    var slices := pie.Plot();
    var plot := new InteractionPlot(frame, pie.userInteractionSeries);
    var lines := plot.Plot();
    if lines.Err? {
      return Err(lines.error);
    }
    var hours := TweetTimeHistAsWritten(frame.posts, frame.interactingWith);
    r := Ok(Figures(volume.value, slices.value, lines.value, hours.value));
  }

  /** A post without `public_metrics` stops the run in normalisation; a
      frame built from no posts has no columns and stops it at the volume
      plot. */
  lemma RunFailures(data3: seq<RawTweet>, data2: seq<RawTweet>)
    ensures (exists i :: 0 <= i < |data3 + data2| && (data3 + data2)[i].publicMetrics.None?)
            ==> Run(data3, data2) == Err(AttributeError)
    ensures data3 + data2 == [] ==> Run(data3, data2) == Err(KeyError)
  {
  }

  /** Every line belongs to a partner ranked among the first five. */
  predicate TopRanked(ranking: seq<Entry>, lines: seq<PartnerLine>)
  {
    forall k :: 0 <= k < |lines| ==>
      RankOf(ranking, lines[k].name).Some? && RankOf(ranking, lines[k].name).value < 5
  }

  /** On newest-first exports whose posts all carry their metrics the run
      succeeds, and only partners ranked in the top five get a line. */
  lemma RunSucceeds(data3: seq<RawTweet>, data2: seq<RawTweet>)
    requires data3 + data2 != []
    requires forall i :: 0 <= i < |data3 + data2| ==> (data3 + data2)[i].publicMetrics.Some?
    requires NonIncreasing(RawDays(data3 + data2))
    ensures Run(data3, data2).Ok?
    ensures var posts := NormalizeAll(data3 + data2).value;
      var ranking := Ranking(Handles(posts));
      var lines := Run(data3, data2).value.lines;
      TopRanked(ranking, lines)
  {
    var posts := NormalizeAll(data3 + data2).value;
    assert Days(posts) == RawDays(data3 + data2);
    DrawSucceeds(posts);
  }

  /** The plots of a non-empty newest-first frame all succeed. */
  lemma DrawSucceeds(posts: seq<Post>)
    requires posts != [] && NonIncreasing(Days(posts))
    ensures Draw(posts).Ok?
    ensures var ranking := Ranking(Handles(posts));
      var lines := Draw(posts).value.lines;
      TopRanked(ranking, lines)
  {
    WindowOfNewestFirst(posts);
    var oldest := posts[|posts| - 1].day;
    var size := posts[0].day - oldest + 1;
    DrawNewestFirst(posts, oldest, size);
    TopFiveLines(posts, Draw(posts).value.lines, oldest, size);
  }

  lemma DrawNewestFirst(posts: seq<Post>, oldest: int, size: nat)
    requires NonIncreasing(Days(posts)) && IsWindow(posts, oldest, size)
    ensures Draw(posts).Ok?
    ensures Draw(posts).value.lines
            == DenseLines(posts, InteractionColumn(posts),
                          PlottedNames(Keys(Handles(posts)), Some(Ranking(Handles(posts)))), oldest, size)
  {
    var column := InteractionColumn(posts);
    var lines := DenseLines(posts, column, PlottedNames(Keys(Handles(posts)), Some(Ranking(Handles(posts)))), oldest, size);
    InteractionLinesNewestFirst(posts, Some(Ranking(Handles(posts))), oldest, size);
    TweetsPlotTotals(posts);
    DrawOf(posts, TweetsPlotAsWritten(posts).value, lines, TweetTimeHistAsWritten(posts, Some(column)).value);
  }

  /** The figures once each plot has succeeded. */
  lemma DrawOf(posts: seq<Post>, volume: VolumeChart, lines: seq<PartnerLine>, hours: Histogram)
    requires TweetsPlotAsWritten(posts) == Ok(volume)
    requires InteractionLines(posts, Some(InteractionColumn(posts)), Some(Ranking(Handles(posts)))) == Ok(lines)
    requires TweetTimeHistAsWritten(posts, Some(InteractionColumn(posts))) == Ok(hours)
    ensures Draw(posts) == Ok(Figures(volume, PieSlices(Ranking(Handles(posts))), lines, hours))
  {
  }

  /** The corrected run fails exactly when the run as written does, with the
      same error; it draws the same pie slices and partner lines, the same
      hour bars with their heights permuted, and a volume chart over the same
      axis. */
  lemma DrawCorrectedAgrees(posts: seq<Post>)
    ensures Draw(posts).Ok? <==> DrawCorrected(posts).Ok?
    ensures Draw(posts).Err? ==> DrawCorrected(posts).error == Draw(posts).error
    ensures Draw(posts).Ok? ==>
      var asWritten := Draw(posts).value;
      var corrected := DrawCorrected(posts).value;
      && asWritten.slices == corrected.slices
      && asWritten.lines == corrected.lines
      && asWritten.hours.xs == corrected.hours.xs
      && multiset(asWritten.hours.heights) == multiset(corrected.hours.heights)
      && asWritten.volume.total.xs == corrected.volume.total.xs
  {
    if posts != [] {
      var column := InteractionColumn(posts);
      AsWrittenHeightsPermuted(posts, Some(column));
      HourHistogramBars(posts, Some(column));
      TotalAxesAgree(posts);
    }
  }

  /** Both volume charts put the totals on the same axis. */
  lemma TotalAxesAgree(posts: seq<Post>)
    requires posts != []
    ensures TweetsPlotAsWritten(posts).Ok? && VolumeSeries(posts).Ok?
    ensures TweetsPlotAsWritten(posts).value.total.xs == VolumeSeries(posts).value.total.xs
  {
    VolumeSeriesUnfold(posts);
  }

  /** With the pie chart's ranking, every partner line drawn belongs to one
      of the five top-ranked partners. */
  lemma TopFiveLines(posts: seq<Post>, lines: seq<PartnerLine>, oldest: int, size: nat)
    requires lines == DenseLines(posts, InteractionColumn(posts),
                                 PlottedNames(Keys(Handles(posts)), Some(Ranking(Handles(posts)))), oldest, size)
    ensures TopRanked(Ranking(Handles(posts)), lines)
  {
    var ranking := Ranking(Handles(posts));
    var names := PlottedNames(Keys(Handles(posts)), Some(ranking));
    if ranking != [] {
      PlottedNamesTopFive(Keys(Handles(posts)), ranking);
      forall k | 0 <= k < |lines|
        ensures RankOf(ranking, lines[k].name).Some? && RankOf(ranking, lines[k].name).value < 5
      {
        assert lines[k].name == names[k];
      }
    } else {
      KeysFacts(Handles(posts));
      assert Keys(Handles(posts)) == [];
    }
  }
}
