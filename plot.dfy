/** `InteractionPlot`: the per-partner line chart drawn from the shared
    frame, after the pie chart has added its column. */
module InteractionPlots {
  import opened Base
  import opened Tweets
  import opened Frames
  import opened Interactions
  import opened PartnerLines

  /** The body of `plot` on the frame's rows and column. */
  method DrawLines(posts: seq<Post>, column: Option<seq<Option<string>>>, ranking: Option<seq<Entry>>)
    returns (r: Result<seq<PartnerLine>>)
    requires column.Some? ==> |column.value| == |posts|
    ensures r == InteractionLines(posts, column, ranking)
  {
    if column.None? {
      return Ok([]);
    }
    if posts == [] {
      return Err(KeyError);
    }
    r := DrawWindow(posts, column.value, ranking);
    WindowOfFrame(posts, column.value, ranking);
  }

  /** `oldest = df["created_at"].values[-1]`, `dateRange = values[0] - oldest`,
      then one line per group over `dateRange + 1` days. */
  method DrawWindow(posts: seq<Post>, column: seq<Option<string>>, ranking: Option<seq<Entry>>)
    returns (r: Result<seq<PartnerLine>>)
    requires |column| == |posts| && posts != []
    ensures r == PlotGroups(posts, column, ranking, Keys(Present(column)),
                            posts[|posts| - 1].day, posts[0].day - posts[|posts| - 1].day + 1)
  {
    r := PlotAll(posts, column, ranking, Keys(Present(column)),
                 posts[|posts| - 1].day, posts[0].day - posts[|posts| - 1].day + 1);
  }

  lemma WindowOfFrame(posts: seq<Post>, column: seq<Option<string>>, ranking: Option<seq<Entry>>)
    requires |column| == |posts| && posts != []
    ensures InteractionLines(posts, Some(column), ranking)
            == PlotGroups(posts, column, ranking, Keys(Present(column)),
                          posts[|posts| - 1].day, posts[0].day - posts[|posts| - 1].day + 1)
  {
  }

  /** `InteractionPlot`: draws from the shared frame, using the ranking the
      pie chart kept, when it was given one. */
  class InteractionPlot {
    const frame: Frame
    const userInteractionSeries: Option<seq<Entry>>

    constructor (frame: Frame, userInteractionSeries: Option<seq<Entry>>)
      ensures this.frame == frame && this.userInteractionSeries == userInteractionSeries
    {
      this.frame := frame;
      this.userInteractionSeries := userInteractionSeries;
    }

    /** `plot`: returns the lines it draws. */
    method Plot() returns (r: Result<seq<PartnerLine>>)
      requires frame.Valid()
      ensures r == InteractionLines(frame.posts, frame.interactingWith, userInteractionSeries)
    {
      r := DrawLines(frame.posts, frame.interactingWith, userInteractionSeries);
    }
  }
}
