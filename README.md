# tllookup: post-history aggregation, modelled in Dafny

`main.py` reads two exported post histories, normalises every post into a
row of one shared data frame, and draws four figures from that frame:

- the number of posts per day, with replies, retweets and quote posts;
- a pie of reply partners;
- one line per top partner over the whole date range;
- a histogram of plain posts by hour of the day.

This project models the reshaping and counting behind those figures. It
leaves out the drawing itself.

The model is laid out as follows:

- `tweets.dfy` (`Tweets`): the normalisation loop of `main()`.
  - The loop is a method (`Normalize`, and `NormalizeTweet` for one post).
  - Both are proved equal to a function (`NormalizeAll`) that states the
    outcome post by post.
- `frame.dfy` (`Frames`): the shared frame.
  - It is a class whose `interacting_with` column is added in place.
- `volume.dfy` (`Volume`): `TweetsPlot.plot`.
  - `TweetsPlotAsWritten` computes the chart as the source does.
  - `VolumeSeries` pairs every day with its own count.
- `interactions.dfy` (`Interactions`): `InteractionPieChart.plot`.
  - Partner extraction with Python's `str.split()`.
  - The `(count, handle)` ranking.
  - The pie object, which adds the column to the frame.
- `partners.dfy` (`PartnerLines`) and `plot.dfy` (`InteractionPlots`):
  `InteractionPlot.plot`.
  - The `np.zeros` / fancy-index assignment is a loop over an `array`.
  - The rank filter.
  - The loop over the groups.
- `hours.dfy` (`Hours`): `TweetTimeHist.plot`.
- `report.dfy` (`Driver`): `main()`, running the plots in order on one frame.
- `seqs.dfy` (`Seqs`) and `sorting.dfy` (`Sorting`): the pandas and Python
  building blocks.
  - `drop_duplicates` keeps the order of appearance.
  - `groupby(...).size()` lists groups by ascending key.
  - `sorted` and `np.sort` are modelled by an insertion sort over a strict
    total order.
  - Python's ordering of strings and tuples.

Timestamps enter the model already converted to a day of the year and an
hour. A failing pandas, numpy or Python operation becomes an `Err` carrying
the exception's kind:

- `IndexError` for a fancy-index assignment outside the array;
- `KeyError` for a missing column. A frame built from no posts has no
  columns at all, so every plot's first column access raises it;
- `ValueError` for `np.zeros` of a negative length;
- `AttributeError` for `None.items()`.

Three behaviours of the code are easy to misread:

- **Ranking ties.** The code sorts `(count, handle)` tuples and reverses
  them, so ties go by descending handle, not by first appearance.
- **Plain posts.** The histogram's filter tests `interacting_with`, not
  `replied_to`. A reply whose text does not start with `@` therefore counts
  as plain.
- **Misaligned counts.** The volume chart's and the histogram's counts are
  not paired with their own days and hours. See Findings.

`Driver.Run` and `Driver.Report` model `main()` as written, with both
misaligned charts. `Driver.DrawCorrected` is the same run with the two
charts corrected.

## Model

| member | source | states |
|---|---|---|
| Tweets.LastTargetIsLast | main.py:216-224 | A relation field is missing exactly when no reference has that type; otherwise it holds the id of the last reference of that type, since later assignments overwrite earlier ones |
| Tweets.OtherTargets | main.py:223-224 | A reference of any other type creates a field of that name holding the id of the last reference of that type; every such type gets its field |
| Tweets.NormalizeAll | main.py:215-228 | Normalisation succeeds exactly when every post has `public_metrics`, and otherwise fails with AttributeError; one normalised post per input post, in input order |
| Tweets.NormalizeAllStep | main.py:215-228 | One more post either fails with AttributeError (no `public_metrics`) or appends exactly its normalised row |
| Tweets.NormalizeAllPrefixErr | main.py:215-228 | Once a prefix of the posts fails to normalise, the whole array fails with the same error |
| Tweets.NormalizeAllOrder | main.py:214 | The frame has one row per post of the two exports; the `_3` export comes first and every post keeps its own position |
| Tweets.NoRefsNoTargets | main.py:216-228 | A post without references gets all three relation fields missing and no other reference field; its metrics are copied unchanged and its id, day, hour and text are kept |
| Tweets.NormalizeTweet | main.py:216-228 | The loop body for one post: each reference sets the field its type names, the metrics are copied one by one; it fails with AttributeError when metrics are missing |
| Tweets.Normalize | main.py:214-228 | The whole loop over the joined array equals the specification function, with `len(_3) + len(_2)` rows on success |
| Frames.Frame.constructor | main.py:231 | The frame holds the posts in order and has no `interacting_with` column |
| Frames.Frame.SetInteractingWith | main.py:104 | Adding the column leaves the rows alone and keeps one column entry per row |
| Seqs.Distinct | main.py:72-79 | `drop_duplicates`: no duplicates, the same elements, no longer than the input |
| Seqs.DistinctInOrder | main.py:72-79 | `drop_duplicates` keeps first occurrences in order of appearance: each kept value first occurs before the next one does |
| Seqs.SizesSum | main.py:68-184 | Counting each row under a list of distinct keys that covers every row adds up to the number of rows |
| Sorting.Sort | main.py:110-111 | The sorted sequence is a permutation of the input |
| Sorting.SortSorted | main.py:110-111 | Under a strict total order the result is in ascending order |
| Sorting.SortIsTheSortedPermutation | main.py:110-111 | Any ascending permutation of the input is the sort's result, so the sort is determined by the multiset alone |
| Sorting.StrLessIsTotal | main.py:110 | Python's code-point-wise string order is a strict total order |
| Sorting.PairLessIsTotal | main.py:110 | Python's order on `(count, handle)` tuples is a strict total order |
| Sorting.GroupBySizeSum | main.py:68-184 | `groupby(...).size()` yields one count per distinct key, adding up to the number of rows |
| Sorting.SortedKeysOfNonIncreasing | main.py:68-79 | On newest-first days, the ascending group keys are the distinct days in reversed order of appearance |
| Volume.TweetsPlotTotals | main.py:65-84 | As written: the chart fails with KeyError exactly on a frame without rows; otherwise the total line has as many x values as counts, its axis starts at 0 and its counts add up to the number of posts |
| Volume.AsWrittenLineShape | main.py:68-79 | As written: each line's two columns have equal length and its counts add up to the number of posts it covers |
| Volume.AsWrittenLineReversed | main.py:68-79 | On newest-first days the source's x values are the right ones, but its counts are the per-day counts in reverse |
| Volume.DaysWhereNonIncreasing | main.py:69-77 | Filtering newest-first rows keeps them newest first and no later than the first row |
| Volume.TweetsPlotTimeReversed | main.py:68-87 | On newest-first rows the Total, RT's and QRT's lines as written carry the corrected counts in reverse order |
| Volume.TweetsPlotMisaligned | main.py:68-84 | Posts on days 101, 100, 100: the source plots 1 at x = 0 and 2 at x = 1, where day 100 (x = 0) has 2 posts |
| Volume.DayLinePoints | main.py:67-82 | Every point of a day line is a day with posts, measured from the origin, and carries that day's number of posts |
| Volume.DayLineCovers | main.py:67-82 | Every day with a post has a point, and the counts add up to the number of posts |
| Volume.VolumeSeriesTotals | main.py:65-84 | Corrected chart: fails with KeyError exactly on a frame without rows; the day axis starts at 0; the totals add up to the number of posts |
| Volume.VolumeSeriesTotalCounts | main.py:67-84 | Corrected chart: each point of the Total line carries the number of posts on its own day |
| Volume.VolumeSeriesRetweets | main.py:71-86 | Corrected chart: each point of the RT's line carries the number of retweets on its own day, on the shared origin |
| Volume.VolumeSeriesQuotes | main.py:75-87 | Corrected chart: each point of the QRT's line carries the number of quote posts on its own day, on the shared origin |
| Volume.VolumeSeriesReplies | main.py:69-85 | The reply counts add up to the number of replies |
| Volume.VolumeSeriesChronological | main.py:79-82 | On newest-first rows the day axis runs from 0 strictly upwards, oldest to newest |
| Interactions.SkipSpace | main.py:103 | `str.split()` skips a run of whitespace: what it drops is whitespace, and what remains does not start with it |
| Interactions.WordAt | main.py:103 | A token is the longest whitespace-free prefix |
| Interactions.WordsAreWords | main.py:103 | `str.split()` yields non-empty, whitespace-free tokens |
| Interactions.PartnerOfMention | main.py:103 | For text starting with '@' the handle is the first token minus its first character: the text after the '@' up to the first whitespace or the end |
| Interactions.InteractionColumnSelects | main.py:103-104 | A row has a partner exactly when it is a reply whose text starts with '@' |
| Interactions.HandlesCount | main.py:103-105 | One handle per selected post |
| Interactions.KeysFacts | main.py:105-107 | The group keys are the distinct handles, each once, covering every handle |
| Interactions.SortedPairsFacts | main.py:110 | The sorted `(count, handle)` pairs pair each key with its own count and are strictly ascending |
| Interactions.SortedCountsAgree | main.py:110-111 | Sorting the counts on their own gives the counts of the sorted pairs, so `vals` and `users` stay aligned |
| Interactions.RankingFromPairs | main.py:110-113 | The series is the sorted pairs reversed |
| Interactions.RankingCounts | main.py:105-113 | Every handle in the ranking is paired with its own number of interactions |
| Interactions.RankingOrder | main.py:110-111 | Counts never increase down the ranking, and equal counts go by descending handle |
| Interactions.RankingHandles | main.py:107-110 | The ranking lists every partner exactly once |
| Interactions.RankingSum | main.py:105-111 | The counts add up to the number of handles |
| Interactions.RankingSumSelected | main.py:103-111 | The counts add up to the number of replies that start with '@' |
| Interactions.PieSlicesLargest | main.py:115 | The pie takes at most 15 entries, the leading ones, and none left out has a larger count |
| Interactions.RankingOrderIndependent | main.py:105-111 | The ranking depends only on how often each handle occurs, not on row order |
| Interactions.InteractionPieChart.constructor | main.py:90-92 | The pie holds the shared frame and has no series yet |
| Interactions.InteractionPieChart.Plot | main.py:98-115 | On a frame without rows, fails with KeyError and changes nothing; otherwise adds the partner column to the shared frame without touching the rows, stores the full ranking, and returns its first 15 entries |
| PartnerLines.Zeros | main.py:151 | `np.zeros(n)`: n entries, all zero |
| PartnerLines.Scatter | main.py:152 | Fancy-index assignment succeeds exactly when every index lies in `[-n, n)`, and otherwise fails with IndexError; it keeps the length |
| PartnerLines.DenseSeries | main.py:149-152 | A built series has `dateRange + 1` entries |
| PartnerLines.PointNewestFirst | main.py:144-152 | On newest-first dates, the k-th assigned point is the k-th distinct day paired with its own count |
| PartnerLines.ScatterPrefix | main.py:152 | Assigning the first j points fills exactly the first j distinct days with their counts |
| PartnerLines.DenseSeriesNewestFirst | main.py:143-152 | On newest-first dates inside the window, the dense series is each day's interaction count, with zero on days without interactions |
| PartnerLines.DayCountsSum | main.py:143-152 | The dense series has `dateRange + 1` entries adding up to the group's size |
| PartnerLines.FillDense | main.py:149-152 | The allocation and indexed assignment on an array compute the dense series, and its errors |
| PartnerLines.GroupDays | main.py:131-143 | A group has no more days than the frame has rows |
| PartnerLines.GroupDaysCount | main.py:131-143 | A partner's group has one date per row naming that partner |
| PartnerLines.GroupDaysNewestFirst | main.py:131-143 | A group of newest-first rows is newest first and lies between the oldest and newest day of the frame |
| PartnerLines.RankOf | main.py:155 | `get_loc` gives the first position holding the handle, or nothing when the handle is absent |
| PartnerLines.PlottedNamesMembers | main.py:154-158 | A partner is plotted exactly when it has a group and passes the rank filter: every group ranked below 5 is drawn, and only those |
| PartnerLines.DenseLines | main.py:139-165 | One line per plotted partner |
| PartnerLines.GroupLineNewestFirst | main.py:139-165 | On newest-first rows one turn of the loop draws the partner's dense line exactly when the partner passes the rank filter |
| PartnerLines.PlotGroupsNewestFirst | main.py:139-165 | On newest-first rows the loop draws the dense lines of exactly the partners that pass the rank filter, in ascending handle order |
| PartnerLines.PlottedNamesAll | main.py:154 | Without a ranking, or with an empty one, every partner is plotted |
| PartnerLines.PlottedNamesTopFive | main.py:154-158 | With a non-empty ranking, only partners ranked below 5 are plotted |
| PartnerLines.RankedPartner | main.py:155 | With the pie's ranking, `get_loc` finds every grouped partner |
| PartnerLines.PartnersRanked | main.py:155 | With the pie's ranking, or with none, every partner the loop visits has a rank, so the loop never raises KeyError |
| PartnerLines.InteractionLinesNewestFirst | main.py:128-165 | On newest-first rows, with no ranking or the pie's: the window is at least one day, and the plot succeeds with one dense line per plotted partner |
| PartnerLines.PartnerLineTotal | main.py:105-152 | A ranked partner's dense line adds up to that partner's count in the ranking |
| PartnerLines.PlotGroupsPrefixErr | main.py:139-152 | An error in one group ends the whole loop with that error |
| PartnerLines.PlotGroupsSnoc | main.py:139-165 | One more turn of the loop adds the group's line, skips it, or fails |
| PartnerLines.PlotGroup | main.py:143-158 | The body of the loop for one group computes the group's line |
| PartnerLines.PlotAll | main.py:139-165 | The loop over the groups computes the lines of the specification function |
| InteractionPlots.DrawLines | main.py:126-139 | Without the column nothing is drawn; a frame without rows fails with KeyError; otherwise the loop runs over the window from the last row's day to the first row's day |
| InteractionPlots.DrawWindow | main.py:134-139 | `oldest` is the last row's day and the window spans `dateRange + 1` days |
| InteractionPlots.InteractionPlot.constructor | main.py:118-120 | The plot keeps the frame and the ranking it was given |
| InteractionPlots.InteractionPlot.Plot | main.py:122-166 | Draws the lines of the frame's rows and column under the ranking it was given |
| Hours.PlainHours | main.py:177-183 | No more hours than rows; which hours are kept is stated by `Hours.PlainHoursMembers` |
| Hours.PlainHoursMembers | main.py:177-183 | A row's hour is counted exactly when its `interacting_with`, `quoted` and `retweeted` are all missing |
| Hours.PlainUnderPieColumn | main.py:103-181 | With the pie's column, a row is plain exactly when it is not a reply starting with '@', not a retweet and not a quote post; so replies without '@' count as plain |
| Hours.HourHistogramBars | main.py:177-186 | Corrected histogram: fails with KeyError exactly without the column or without rows; otherwise one bar per distinct plain hour, each carrying that hour's count, which is positive |
| Hours.HourHistogramTotal | main.py:177-184 | Every plain row has a bar at its hour, and the bars add up to the number of plain rows |
| Hours.AsWrittenHeightsPermuted | main.py:183-186 | The source fails exactly when the corrected histogram does, draws bars at the same hours, and draws heights that are a permutation of the corrected ones |
| Hours.TweetTimeHistMisaligned | main.py:183-186 | Plain posts at hours 14, 9, 9: the source draws height 2 at hour 14 and 1 at hour 9; the corrected bars are 1 and 2 |
| Driver.Report | main.py:214-248 | `main()` with the plot objects sharing one frame computes the figures as the source draws them, misaligned volume chart and histogram included, or its first error |
| Driver.DrawCorrectedAgrees | main.py:238-248 | The corrected run fails exactly when the run as written does, with the same error; it has the same slices, partner lines, hour bars and total axis, and its hour heights are a permutation of the source's |
| Driver.RunFailures | main.py:214-239 | A post without `public_metrics` ends the run with AttributeError; empty exports end it with KeyError at the volume plot |
| Driver.RunSucceeds | main.py:214-248 | Newest-first exports whose posts all carry metrics run to the end, and only partners ranked in the top five get a line |
| Driver.DrawSucceeds | main.py:238-248 | On a non-empty newest-first frame the four plots succeed and the partner lines are top-five partners only |
| Driver.DrawNewestFirst | main.py:238-248 | On a non-empty newest-first frame the partner lines are the dense lines of the plotted partners |
| Driver.TopFiveLines | main.py:154-245 | With the pie's ranking every drawn partner line belongs to a partner ranked below 5 |

## Left out

- Reading and parsing the export files (main.py:32-39). The two exports
  enter as parsed sequences of posts.
- Time zones. `created_at` enters as the day of the year and the hour in
  the plotting time zone. The conversion (main.py:65) is not modelled, and
  neither is the wrap of the day of the year at a year boundary.
- All drawing: figures, lines, pie, bars and legends. The model returns the
  values each call would be given.
- The colour gradient and `cFac` (main.py:19-24, 161-163). They are floating
  point, and their result is never used.
- `LanguageObservation` (main.py:188-202). It samples randomly, tokenises
  with nltk, and is not called.
- `src/index.ts`, the network client that produces the exports. It is not
  part of this model.
- A post is a record with fixed fields. A reference type or metric name
  that collides with another column, such as `id` or `text`, is not
  modelled: it would overwrite that column in the source.
- The source mutates each post dictionary in place. The model builds a
  new `Post` value per post, so aliasing of the dictionaries is not
  captured.
- A handle that appears more than once in a ranking never occurs, since the
  ranking lists each partner once. `PartnerLines.RankOf` takes the first
  position, where pandas' `get_loc` would return a mask.
- `np.zeros` holds floats. The model's dense series hold integers, which
  represent the same whole numbers.
- Where several assigned indices of `y[...] = dgroup` coincide, the model
  lets the later value win.
- The "Replies / Interactions" line is plotted against its positions
  0, 1, 2, ..., as the source does. `Volume.VolumeSeries` keeps that, and no
  day alignment is claimed for it.
- PartnerLines.InteractionLinesNewestFirst: assumes the export lists posts
  newest first (`NonIncreasing(Days(posts))`), as the source does. On other
  orders the model computes what numpy would do, including IndexError, but
  no theorem describes the result.
- PartnerLines.PartnerLineTotal: assumes newest-first rows, for the same
  reason.
- Driver.RunSucceeds: assumes newest-first rows, for the same reason.
- Volume.VolumeSeriesChronological: assumes newest-first rows, for the
  same reason.

## Findings

| source | as written | input that shows it | evidently intended | confidence | as-written member | corrected member |
|---|---|---|---|---|---|---|
| main.py:68-87 | Counts come from `groupby(x).size()`, ascending by day, then reversed to descending. The x axis is `drop_duplicates()` of the days, in appearance order, then reversed. On newest-first rows the axis runs oldest to newest while the counts run newest to oldest | Three posts, newest first, on days 101, 100, 100. Total is drawn as (0, 1) and (1, 2) | Each day carries its own count: (0, 2) and (1, 1) | not executed | Volume.TweetsPlotMisaligned | Volume.VolumeSeriesTotalCounts |
| main.py:184-186 | Bar heights come from `groupby(x).size()`, ascending by hour. Bar positions come from `drop_duplicates()`, in order of appearance | Plain posts at hours 14, 9, 9. The bar at 14 gets height 2 and the bar at 9 gets height 1 | Each hour's bar has that hour's count: 14 gets 1 and 9 gets 2 | not executed | Hours.TweetTimeHistMisaligned | Hours.HourHistogramBars |
