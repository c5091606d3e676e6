/** The shared data frame. The plots read its rows; the pie chart adds the
    `interacting_with` column in place, and the later plots see it. */
module Frames {
  import opened Base
  import opened Tweets

  class Frame {
    /** One row per normalised post, in input order. */
    var posts: seq<Post>
    /** The `interacting_with` column, absent until the pie chart adds it;
        a missing value (`NaN`) is `None`. */
    var interactingWith: Option<seq<Option<string>>>

    /** Every column has one entry per row. */
    ghost predicate Valid()
      reads this
    {
      interactingWith.Some? ==> |interactingWith.value| == |posts|
    }

    /** `pd.DataFrame(dataArr)`. */
    constructor (posts: seq<Post>)
      ensures this.posts == posts && interactingWith == None
      ensures Valid()
    {
      this.posts := posts;
      interactingWith := None;
    }

    /** `df[name] = column`: adds or replaces the column, leaves the rows alone. */
    method SetInteractingWith(column: seq<Option<string>>)
      requires |column| == |posts|
      modifies this
      ensures posts == old(posts) && interactingWith == Some(column)
      ensures Valid()
    {
      interactingWith := Some(column);
    }
  }
}
