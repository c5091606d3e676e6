/** `InteractionPlot.plot`: one line per reply partner over the whole date
    range, zero on the days without a reply to that partner, restricted to
    the five highest-ranked partners when a ranking is given. */
module PartnerLines {
  import opened Base
  import opened Seqs
  import opened Sorting
  import opened Tweets
  import opened Interactions
  import opened Volume

  /** `plt.plot(x, y, label=name)` for one partner. */
  datatype PartnerLine = PartnerLine(name: string, xs: seq<int>, ys: seq<int>)

  /** `np.zeros(n)`. */
  function Zeros(n: nat): (z: seq<int>)
    ensures |z| == n && forall k :: 0 <= k < n ==> z[k] == 0
  {
    seq(n, _ => 0)
  }

  /** numpy's reading of an index into an axis of length `n`: a negative
      index counts from the end. */
  function Position(i: int, n: int): int
  {
    if i < 0 then i + n else i
  }

  /** `y[idx] = vals` with `idx` and `vals` zipped into `points`: an index in
      `[-|y|, |y|)` names a position, any other index raises. Later points
      overwrite earlier ones. */
  function Scatter(y: seq<int>, points: seq<(int, int)>): (r: Result<seq<int>>)
    ensures r.Ok? <==> forall k :: 0 <= k < |points| ==> -|y| <= points[k].0 < |y|
    ensures r.Err? ==> r.error == IndexError
    ensures r.Ok? ==> |r.value| == |y|
  {
    if points == [] then Ok(y)
    else
      var last := points[|points| - 1];
      var r := Scatter(y, points[..|points| - 1]);
      if r.Err? then r
      else if -|y| <= last.0 < |y| then Ok(r.value[Position(last.0, |y|) := last.1])
      else Err(IndexError)
  }

  /** The points of one partner's series:
      `dates.drop_duplicates().to_numpy() - oldest_date` zipped with
      `group.groupby(dates).size().to_numpy()[::-1]`. */
  function Points(dates: seq<int>, oldest: int): (ps: seq<(int, int)>)
    ensures |ps| == |Distinct(dates)|
  {
    var days := Distinct(dates);
    var sizes := Reverse(GroupBySize(dates));
    seq(|days|, k requires 0 <= k < |days| => (days[k] - oldest, sizes[k]))
  }

  /** `y = np.zeros(dateRange + 1)` and the assignment into it; a negative
      length raises. */
  function DenseSeries(dates: seq<int>, oldest: int, size: int): (r: Result<seq<int>>)
    ensures r.Ok? ==> |r.value| == size
  {
    if size < 0 then Err(ValueError) else Scatter(Zeros(size), Points(dates, oldest))
  }

  /** The counts of a partner's replies on each day of the window
      `[oldest, oldest + size)`, zero on days without one. */
  function DayCounts(dates: seq<int>, oldest: int, size: nat): seq<int>
  {
    Sizes(dates, Range(oldest, size))
  }

  /** On newest-first rows the distinct days come in descending order, which
      is the order of the reversed group sizes: each point pairs a day with
      its own count. */
  lemma PointNewestFirst(dates: seq<int>, oldest: int, k: int)
    requires NonIncreasing(dates)
    requires 0 <= k < |Distinct(dates)|
    ensures Points(dates, oldest)[k] == (Distinct(dates)[k] - oldest, multiset(dates)[Distinct(dates)[k]])
  {
    PointAt(dates, oldest, k);
    SortedKeysOfNonIncreasing(dates);
    ReversedSizesAt(dates, Distinct(dates), k);
  }

  lemma PointAt(dates: seq<int>, oldest: int, k: int)
    requires 0 <= k < |Distinct(dates)|
    ensures Points(dates, oldest)[k] == (Distinct(dates)[k] - oldest, Reverse(GroupBySize(dates))[k])
  {
  }

  /** Counting by reversed keys and reversing the counts back lines each
      count up with its own key. */
  lemma ReversedSizesAt(s: seq<int>, keys: seq<int>, k: int)
    requires 0 <= k < |keys|
    ensures Reverse(Sizes(s, Reverse(keys)))[k] == multiset(s)[keys[k]]
  {
    assert Reverse(keys)[|keys| - 1 - k] == keys[k];
  }

  /** The series after the first `j` points have been assigned. */
  function Filled(placed: seq<int>, dates: seq<int>, oldest: int, size: nat): seq<int>
  {
    seq(size, k requires 0 <= k < size => if oldest + k in placed then multiset(dates)[oldest + k] else 0)
  }

  predicate InWindow(dates: seq<int>, oldest: int, size: int)
  {
    forall i :: 0 <= i < |dates| ==> oldest <= dates[i] < oldest + size
  }

  /** Placing one more day sets its position and no other. */
  lemma FilledStep(placed: seq<int>, j: int, dates: seq<int>, oldest: int, size: nat)
    requires 0 < j <= |placed| && 0 <= placed[j - 1] - oldest < size
    ensures Filled(placed[..j], dates, oldest, size)
            == Filled(placed[..j - 1], dates, oldest, size)[placed[j - 1] - oldest := multiset(dates)[placed[j - 1]]]
  {
    var x := placed[j - 1];
    var a := Filled(placed[..j], dates, oldest, size);
    var b := Filled(placed[..j - 1], dates, oldest, size)[x - oldest := multiset(dates)[x]];
    assert placed[..j] == placed[..j - 1] + [x];
    forall k | 0 <= k < size ensures a[k] == b[k] {
      assert oldest + k in placed[..j] <==> oldest + k in placed[..j - 1] || oldest + k == x;
    }
  }

  /** Assigning one more point in range updates one position of the series so far. */
  lemma ScatterStep(y: seq<int>, points: seq<(int, int)>, j: int, z: seq<int>)
    requires 0 < j <= |points| && Scatter(y, points[..j - 1]) == Ok(z) && -|y| <= points[j - 1].0 < |y|
    ensures Scatter(y, points[..j]) == Ok(z[Position(points[j - 1].0, |y|) := points[j - 1].1])
  {
    assert points[..j][..j - 1] == points[..j - 1];
  }

  /** A day that occurs lies in the window. */
  lemma DistinctInWindow(dates: seq<int>, oldest: int, size: int, k: int)
    requires InWindow(dates, oldest, size) && 0 <= k < |Distinct(dates)|
    ensures 0 <= Distinct(dates)[k] - oldest < size
  {
    assert Distinct(dates)[k] in Distinct(dates);
    var i :| 0 <= i < |dates| && dates[i] == Distinct(dates)[k];
  }

  lemma {:induction false} ScatterPrefix(dates: seq<int>, oldest: int, size: nat, j: nat)
    requires NonIncreasing(dates) && InWindow(dates, oldest, size)
    requires j <= |Distinct(dates)|
    ensures Scatter(Zeros(size), Points(dates, oldest)[..j]) == Ok(Filled(Distinct(dates)[..j], dates, oldest, size))
  {
    var d := Distinct(dates);
    var ps := Points(dates, oldest);
    if j == 0 {
      assert ps[..0] == [];
      assert Filled(d[..0], dates, oldest, size) == Zeros(size);
    } else {
      ScatterPrefix(dates, oldest, size, j - 1);
      PointNewestFirst(dates, oldest, j - 1);
      DistinctInWindow(dates, oldest, size, j - 1);
      FilledStep(d, j, dates, oldest, size);
      ScatterStep(Zeros(size), ps, j, Filled(d[..j - 1], dates, oldest, size));
    }
  }

  /** Once every distinct day is placed, the series holds every day's count. */
  lemma FilledAll(dates: seq<int>, oldest: int, size: nat)
    ensures Filled(Distinct(dates), dates, oldest, size) == DayCounts(dates, oldest, size)
  {
    var d := Distinct(dates);
    var filled := Filled(d, dates, oldest, size);
    var counts := DayCounts(dates, oldest, size);
    assert |filled| == |counts|;
    forall k | 0 <= k < size ensures filled[k] == counts[k] {
      assert counts[k] == multiset(dates)[oldest + k];
      if oldest + k !in d {
        assert oldest + k !in dates;
        assert oldest + k !in multiset(dates);
      }
    }
  }

  /** On newest-first rows whose days all fall in the window, the assignment
      puts every count at its own day: the series is the per-day count of the
      partner's replies, zero elsewhere. */
  lemma DenseSeriesNewestFirst(dates: seq<int>, oldest: int, size: nat)
    requires NonIncreasing(dates) && InWindow(dates, oldest, size)
    ensures DenseSeries(dates, oldest, size) == Ok(DayCounts(dates, oldest, size))
  {
    var d := Distinct(dates);
    var ps := Points(dates, oldest);
    ScatterPrefix(dates, oldest, size, |d|);
    assert d[..|d|] == d;
    assert ps[..|d|] == ps;
    FilledAll(dates, oldest, size);
  }

  /** A day-count series is as long as the window, and, when every day falls
      in the window, its counts add up to the number of replies. */
  lemma DayCountsSum(dates: seq<int>, oldest: int, size: nat)
    requires InWindow(dates, oldest, size)
    ensures |DayCounts(dates, oldest, size)| == size
    ensures Sum(DayCounts(dates, oldest, size)) == |dates|
  {
    var window := Range(oldest, size);
    assert NoDups(window);
    forall x | x in dates ensures x in window {
      var i :| 0 <= i < |dates| && dates[i] == x;
      assert window[x - oldest] == x;
    }
    SizesSum(dates, window);
  }

  /** `np.zeros(dateRange + 1)` and `y[...] = dgroup`, assigned one point at a
      time into a fresh array. */
  method FillDense(dates: seq<int>, oldest: int, size: int) returns (r: Result<seq<int>>)
    ensures r == DenseSeries(dates, oldest, size)
  {
    if size < 0 {
      return Err(ValueError);
    }
    var y := new int[size](_ => 0);
    var points := Points(dates, oldest);
    var k := 0;
    assert y[..] == Zeros(size);
    while k < |points|
      invariant 0 <= k <= |points|
      invariant Scatter(Zeros(size), points[..k]) == Ok(y[..])
    {
      var p := points[k];
      if !(-size <= p.0 < size) {
        assert points[k] == p;
        return Err(IndexError);
      }
      ScatterStep(Zeros(size), points, k + 1, y[..]);
      y[Position(p.0, size)] := p.1;
      k := k + 1;
    }
    assert points[..k] == points;
    r := Ok(y[..]);
  }

  /** `group["created_at"].dt.dayofyear`: the days of the rows whose partner
      is `name`, in row order. */
  function GroupDays(posts: seq<Post>, column: seq<Option<string>>, name: string): (dates: seq<int>)
    requires |column| == |posts|
    ensures |dates| <= |posts|
  {
    if posts == [] then []
    else (if column[0] == Some(name) then [posts[0].day] else []) + GroupDays(posts[1..], column[1..], name)
  }

  /** A partner's group has one row per occurrence of its handle. */
  lemma {:induction false} GroupDaysCount(posts: seq<Post>, column: seq<Option<string>>, name: string)
    requires |column| == |posts|
    ensures |GroupDays(posts, column, name)| == multiset(Present(column))[name]
  {
    if posts != [] {
      GroupDaysCount(posts[1..], column[1..], name);
      var head := if column[0].Some? then [column[0].value] else [];
      assert Present(column) == head + Present(column[1..]);
      assert multiset(Present(column)) == multiset(head) + multiset(Present(column[1..]));
    }
  }

  /** On newest-first rows a group is newest-first too, and its days lie
      between the last row's day and the first row's day. */
  lemma {:induction false} GroupDaysNewestFirst(posts: seq<Post>, column: seq<Option<string>>, name: string)
    requires |column| == |posts| && posts != [] && NonIncreasing(Days(posts))
    ensures NonIncreasing(GroupDays(posts, column, name))
    ensures forall i :: 0 <= i < |GroupDays(posts, column, name)| ==>
              posts[|posts| - 1].day <= GroupDays(posts, column, name)[i] <= posts[0].day
  {
    var g := GroupDays(posts, column, name);
    var tail := GroupDays(posts[1..], column[1..], name);
    assert Days(posts)[|posts| - 1] == posts[|posts| - 1].day;
    if |posts| > 1 {
      assert Days(posts[1..]) == Days(posts)[1..];
      GroupDaysNewestFirst(posts[1..], column[1..], name);
      assert Days(posts)[0] >= Days(posts)[1];
      assert posts[1..][|posts| - 2] == posts[|posts| - 1];
    } else {
      assert tail == [];
    }
    if column[0] == Some(name) {
      assert g == [posts[0].day] + tail;
      forall i, j | 0 <= i < j < |g| ensures g[i] >= g[j] {
        assert g[j] == tail[j - 1];
      }
    } else {
      assert g == tail;
    }
  }

  /** `userInteractionSeries.index.get_loc(name)`: the position of `name`,
      missing when no entry has it. */
  function RankOf(ranking: seq<Entry>, name: string): (r: Option<nat>)
    ensures r.Some? ==> r.value < |ranking| && ranking[r.value].handle == name
                        && forall k :: 0 <= k < r.value ==> ranking[k].handle != name
    ensures r.None? ==> forall k :: 0 <= k < |ranking| ==> ranking[k].handle != name
  {
    if ranking == [] then None
    else if ranking[0].handle == name then Some(0)
    else
      match RankOf(ranking[1..], name)
      case None => None
      case Some(k) => Some(k + 1)
  }

  /** A partner is drawn when there is no ranking, when it is empty, or when
      the partner is among its first five. */
  predicate Plotted(ranking: Option<seq<Entry>>, name: string)
  {
    || ranking.None? || ranking.value == []
    || (RankOf(ranking.value, name).Some? && RankOf(ranking.value, name).value < 5)
  }

  /** One turn of `for name, group in grouped`: the dense series is built
      first, then the rank decides whether the line is drawn. */
  function GroupLine(posts: seq<Post>, column: seq<Option<string>>, ranking: Option<seq<Entry>>,
                     name: string, oldest: int, size: int): Result<Option<PartnerLine>>
    requires |column| == |posts|
  {
    match DenseSeries(GroupDays(posts, column, name), oldest, size)
    case Err(e) => Err(e)
    case Ok(y) =>
      var line := PartnerLine(name, Range(0, |y|), y);
      if ranking.Some? && ranking.value != [] then
        match RankOf(ranking.value, name)
        case None => Err(KeyError)
        case Some(rank) => if rank < 5 then Ok(Some(line)) else Ok(None)
      else Ok(Some(line))
  }

  /** The loop over the groups, in ascending order of partner. */
  function PlotGroups(posts: seq<Post>, column: seq<Option<string>>, ranking: Option<seq<Entry>>,
                      names: seq<string>, oldest: int, size: int): Result<seq<PartnerLine>>
    requires |column| == |posts|
  {
    if names == [] then Ok([])
    else
      match PlotGroups(posts, column, ranking, names[..|names| - 1], oldest, size)
      case Err(e) => Err(e)
      case Ok(lines) =>
        match GroupLine(posts, column, ranking, names[|names| - 1], oldest, size)
        case Err(e) => Err(e)
        case Ok(None) => Ok(lines)
        case Ok(Some(line)) => Ok(lines + [line])
  }

  /** `InteractionPlot.plot`: nothing without the `interacting_with` column;
      a frame built from no posts has no `created_at` column; the window runs
      from the last row's day to the first row's day. */
  function InteractionLines(posts: seq<Post>, column: Option<seq<Option<string>>>,
                            ranking: Option<seq<Entry>>): Result<seq<PartnerLine>>
    requires column.Some? ==> |column.value| == |posts|
  {
    if column.None? then Ok([])
    else if posts == [] then Err(KeyError)
    else
      var oldest := posts[|posts| - 1].day;
      var dateRange := posts[0].day - oldest;
      PlotGroups(posts, column.value, ranking, Keys(Present(column.value)), oldest, dateRange + 1)
  }

  /** The partners that get a line, in ascending order. */
  function PlottedNames(names: seq<string>, ranking: Option<seq<Entry>>): (r: seq<string>)
    ensures |r| <= |names|
  {
    if names == [] then []
    else
      var init := PlottedNames(names[..|names| - 1], ranking);
      if Plotted(ranking, names[|names| - 1]) then init + [names[|names| - 1]] else init
  }

  /** A partner gets a line exactly when it has a group and passes the rank
      filter: every group ranked below 5 is drawn, and only those. */
  lemma {:induction false} PlottedNamesMembers(names: seq<string>, ranking: Option<seq<Entry>>)
    ensures forall x :: x in PlottedNames(names, ranking) <==> x in names && Plotted(ranking, x)
  {
    if names != [] {
      var init := names[..|names| - 1];
      PlottedNamesMembers(init, ranking);
      assert names == init + [names[|names| - 1]];
    }
  }

  /** The line a partner should get: every day of the window, with the
      number of replies to that partner on that day. */
  function DenseLine(posts: seq<Post>, column: seq<Option<string>>, name: string, oldest: int, size: nat): PartnerLine
    requires |column| == |posts|
  {
    PartnerLine(name, Range(0, size), DayCounts(GroupDays(posts, column, name), oldest, size))
  }

  function DenseLines(posts: seq<Post>, column: seq<Option<string>>, names: seq<string>, oldest: int, size: nat): (lines: seq<PartnerLine>)
    requires |column| == |posts|
    ensures |lines| == |names|
  {
    seq(|names|, i requires 0 <= i < |names| => DenseLine(posts, column, names[i], oldest, size))
  }

  /** The window of a non-empty frame: from the last row's day to the first row's. */
  predicate IsWindow(posts: seq<Post>, oldest: int, size: int)
  {
    posts != [] && oldest == posts[|posts| - 1].day && size == posts[0].day - oldest + 1
  }

  /** On newest-first rows each group's line is its dense series, kept or
      dropped by its rank. */
  lemma GroupLineNewestFirst(posts: seq<Post>, column: seq<Option<string>>, ranking: Option<seq<Entry>>,
                             name: string, oldest: int, size: nat)
    requires |column| == |posts| && NonIncreasing(Days(posts)) && IsWindow(posts, oldest, size)
    requires ranking.Some? && ranking.value != [] ==> RankOf(ranking.value, name).Some?
    ensures GroupLine(posts, column, ranking, name, oldest, size)
            == Ok(if Plotted(ranking, name) then Some(DenseLine(posts, column, name, oldest, size)) else None)
  {
    var dates := GroupDays(posts, column, name);
    GroupDaysNewestFirst(posts, column, name);
    WindowOfNewestFirst(posts);
    DenseSeriesNewestFirst(dates, oldest, size);
  }

  /** Every name has an entry in a non-empty ranking. */
  predicate AllRanked(ranking: Option<seq<Entry>>, names: seq<string>)
  {
    ranking.Some? && ranking.value != [] ==>
      forall i :: 0 <= i < |names| ==> RankOf(ranking.value, names[i]).Some?
  }

  /** On newest-first rows the loop draws exactly the plotted partners, in
      order, each with its dense series. */
  lemma {:induction false} PlotGroupsNewestFirst(posts: seq<Post>, column: seq<Option<string>>,
                                                 ranking: Option<seq<Entry>>, names: seq<string>, oldest: int, size: nat)
    requires |column| == |posts| && NonIncreasing(Days(posts)) && IsWindow(posts, oldest, size)
    requires AllRanked(ranking, names)
    ensures PlotGroups(posts, column, ranking, names, oldest, size)
            == Ok(DenseLines(posts, column, PlottedNames(names, ranking), oldest, size))
  {
    if names != [] {
      var init := names[..|names| - 1];
      var last := names[|names| - 1];
      AllRankedParts(ranking, names);
      PlotGroupsNewestFirst(posts, column, ranking, init, oldest, size);
      GroupLineNewestFirst(posts, column, ranking, last, oldest, size);
      DenseLinesSnoc(posts, column, PlottedNames(init, ranking), last, oldest, size);
    }
  }

  lemma AllRankedParts(ranking: Option<seq<Entry>>, names: seq<string>)
    requires names != [] && AllRanked(ranking, names)
    ensures AllRanked(ranking, names[..|names| - 1])
    ensures ranking.Some? && ranking.value != [] ==> RankOf(ranking.value, names[|names| - 1]).Some?
  {
    if ranking.Some? && ranking.value != [] {
      var init := names[..|names| - 1];
      forall i | 0 <= i < |init| ensures RankOf(ranking.value, init[i]).Some? {
        assert init[i] == names[i];
      }
    }
  }

  lemma DenseLinesSnoc(posts: seq<Post>, column: seq<Option<string>>, names: seq<string>, name: string, oldest: int, size: nat)
    requires |column| == |posts|
    ensures DenseLines(posts, column, names + [name], oldest, size)
            == DenseLines(posts, column, names, oldest, size) + [DenseLine(posts, column, name, oldest, size)]
  {
    var a := DenseLines(posts, column, names + [name], oldest, size);
    var b := DenseLines(posts, column, names, oldest, size) + [DenseLine(posts, column, name, oldest, size)];
    forall i | 0 <= i < |a| ensures a[i] == b[i] {
      if i < |names| {
        assert (names + [name])[i] == names[i];
      }
    }
  }

  /** Without a ranking, or with an empty one, every partner is drawn. */
  lemma {:induction false} PlottedNamesAll(names: seq<string>, ranking: Option<seq<Entry>>)
    requires ranking.None? || ranking.value == []
    ensures PlottedNames(names, ranking) == names
  {
    if names != [] {
      PlottedNamesAll(names[..|names| - 1], ranking);
      assert names[..|names| - 1] + [names[|names| - 1]] == names;
    }
  }

  /** With the pie chart's ranking at most five partners are drawn, the
      five highest-ranked ones. */
  lemma {:induction false} PlottedNamesTopFive(names: seq<string>, ranking: seq<Entry>)
    requires ranking != []
    ensures forall i :: 0 <= i < |PlottedNames(names, Some(ranking))| ==>
              RankOf(ranking, PlottedNames(names, Some(ranking))[i]).Some?
              && RankOf(ranking, PlottedNames(names, Some(ranking))[i]).value < 5
  {
    if names != [] {
      PlottedNamesTopFive(names[..|names| - 1], ranking);
    }
  }

  /** Every partner of the column has an entry in the pie chart's ranking,
      so `get_loc` finds it. */
  lemma RankedPartner(posts: seq<Post>, name: string)
    requires name in Keys(Handles(posts))
    ensures RankOf(Ranking(Handles(posts)), name).Some?
  {
    KeyIsRanked(Handles(posts), name);
    RankOfRanked(Ranking(Handles(posts)), name);
  }

  lemma KeyIsRanked(hs: seq<string>, name: string)
    requires name in Keys(hs)
    ensures name in RankedHandles(Ranking(hs))
  {
    KeysFacts(hs);
    RankingHandles(hs);
    assert name in multiset(Keys(hs));
    assert name in multiset(RankedHandles(Ranking(hs)));
  }

  lemma RankOfRanked(r: seq<Entry>, name: string)
    requires name in RankedHandles(r)
    ensures RankOf(r, name).Some?
  {
    var k :| 0 <= k < |r| && RankedHandles(r)[k] == name;
    assert r[k].handle == name;
  }

  /** The plot of the frame as the pie chart leaves it, on newest-first rows:
      one line per plotted partner, in ascending order of handle, each over
      the whole window with that partner's count on every day. */
  lemma InteractionLinesNewestFirst(posts: seq<Post>, ranking: Option<seq<Entry>>, oldest: int, size: int)
    requires NonIncreasing(Days(posts)) && IsWindow(posts, oldest, size)
    requires ranking == None || ranking == Some(Ranking(Handles(posts)))
    ensures size >= 1
    ensures size >= 1 && InteractionLines(posts, Some(InteractionColumn(posts)), ranking)
            == Ok(DenseLines(posts, InteractionColumn(posts), PlottedNames(Keys(Handles(posts)), ranking), oldest, size))
  {
    WindowOfNewestFirst(posts);
    PartnersRanked(posts, ranking);
    LinesOfColumn(posts, ranking, oldest, size);
    PlotGroupsNewestFirst(posts, InteractionColumn(posts), ranking, Keys(Handles(posts)), oldest, size);
  }

  /** The loop runs over the partners of the column, across the window. */
  lemma LinesOfColumn(posts: seq<Post>, ranking: Option<seq<Entry>>, oldest: int, size: int)
    requires IsWindow(posts, oldest, size)
    ensures InteractionLines(posts, Some(InteractionColumn(posts)), ranking)
            == PlotGroups(posts, InteractionColumn(posts), ranking, Keys(Handles(posts)), oldest, size)
  {
  }

  /** A newest-first frame's first row is no older than its last. */
  lemma WindowOfNewestFirst(posts: seq<Post>)
    requires posts != [] && NonIncreasing(Days(posts))
    ensures posts[0].day >= posts[|posts| - 1].day
  {
    if |posts| > 1 {
      assert Days(posts)[0] >= Days(posts)[|posts| - 1];
    }
  }

  /** Every partner of the column has a rank in the pie chart's ranking. */
  lemma PartnersRanked(posts: seq<Post>, ranking: Option<seq<Entry>>)
    requires ranking == None || ranking == Some(Ranking(Handles(posts)))
    ensures AllRanked(ranking, Keys(Handles(posts)))
  {
    var names := Keys(Handles(posts));
    if ranking.Some? && ranking.value != [] {
      forall i | 0 <= i < |names| ensures RankOf(ranking.value, names[i]).Some? {
        assert names[i] in names;
        RankedPartner(posts, names[i]);
      }
    }
  }

  /** A partner's line adds up to its count in the pie chart's ranking. */
  lemma PartnerLineTotal(posts: seq<Post>, k: int)
    requires posts != [] && NonIncreasing(Days(posts))
    requires 0 <= k < |Ranking(Handles(posts))|
    ensures var entry := Ranking(Handles(posts))[k];
      var oldest := posts[|posts| - 1].day;
      var size := posts[0].day - oldest + 1;
      size >= 1 && Sum(DenseLine(posts, InteractionColumn(posts), entry.handle, oldest, size).ys) == entry.count
  {
    var hs := Handles(posts);
    var entry := Ranking(hs)[k];
    var column := InteractionColumn(posts);
    var oldest := posts[|posts| - 1].day;
    var size := posts[0].day - oldest + 1;
    WindowOfNewestFirst(posts);
    var dates := GroupDays(posts, column, entry.handle);
    GroupDaysNewestFirst(posts, column, entry.handle);
    DayCountsSum(dates, oldest, size);
    GroupDaysCount(posts, column, entry.handle);
    RankingCounts(hs);
  }

  /** Once one group fails, the whole loop fails the same way. */
  lemma {:induction false} PlotGroupsPrefixErr(posts: seq<Post>, column: seq<Option<string>>, ranking: Option<seq<Entry>>,
                                               names: seq<string>, n: int, oldest: int, size: int)
    requires |column| == |posts| && 0 <= n <= |names|
    requires PlotGroups(posts, column, ranking, names[..n], oldest, size).Err?
    ensures PlotGroups(posts, column, ranking, names, oldest, size) == PlotGroups(posts, column, ranking, names[..n], oldest, size)
    decreases |names| - n
  {
    if n < |names| {
      assert names[..n + 1][..n] == names[..n];
      PlotGroupsPrefixErr(posts, column, ranking, names, n + 1, oldest, size);
    } else {
      assert names[..n] == names;
    }
  }

  /** One more turn of the loop adds the group's line, if it has one. */
  lemma PlotGroupsSnoc(posts: seq<Post>, column: seq<Option<string>>, ranking: Option<seq<Entry>>,
                       names: seq<string>, i: int, oldest: int, size: int, lines: seq<PartnerLine>)
    requires |column| == |posts| && 0 <= i < |names|
    requires PlotGroups(posts, column, ranking, names[..i], oldest, size) == Ok(lines)
    ensures PlotGroups(posts, column, ranking, names[..i + 1], oldest, size)
            == match GroupLine(posts, column, ranking, names[i], oldest, size)
               case Err(e) => Err(e)
               case Ok(None) => Ok(lines)
               case Ok(Some(line)) => Ok(lines + [line])
  {
    assert names[..i + 1][..i] == names[..i];
  }

  /** One group: its dense series, then the rank lookup. */
  method PlotGroup(posts: seq<Post>, column: seq<Option<string>>, ranking: Option<seq<Entry>>,
                   name: string, oldest: int, size: int) returns (g: Result<Option<PartnerLine>>)
    requires |column| == |posts|
    ensures g == GroupLine(posts, column, ranking, name, oldest, size)
  {
    var y := FillDense(GroupDays(posts, column, name), oldest, size);
    if y.Err? {
      return Err(y.error);
    }
    var line := PartnerLine(name, Range(0, |y.value|), y.value);
    if ranking.Some? && ranking.value != [] {
      var rank := RankOf(ranking.value, name);
      if rank.None? {
        return Err(KeyError);
      }
      if rank.value >= 5 {
        return Ok(None);
      }
    }
    g := Ok(Some(line));
  }

  /** `for name, group in grouped`: the groups in ascending order of partner. */
  method PlotAll(posts: seq<Post>, column: seq<Option<string>>, ranking: Option<seq<Entry>>,
                 names: seq<string>, oldest: int, size: int) returns (r: Result<seq<PartnerLine>>)
    requires |column| == |posts|
    ensures r == PlotGroups(posts, column, ranking, names, oldest, size)
  {
    var lines: seq<PartnerLine> := [];
    var i := 0;
    while i < |names|
      invariant 0 <= i <= |names|
      invariant PlotGroups(posts, column, ranking, names[..i], oldest, size) == Ok(lines)
    {
      var g := PlotGroup(posts, column, ranking, names[i], oldest, size);
      PlotGroupsSnoc(posts, column, ranking, names, i, oldest, size, lines);
      if g.Err? {
        PlotGroupsPrefixErr(posts, column, ranking, names, i + 1, oldest, size);
        return Err(g.error);
      }
      if g.value.Some? {
        lines := lines + [g.value.value];
      }
      i := i + 1;
    }
    assert names[..i] == names;
    r := Ok(lines);
  }

}
