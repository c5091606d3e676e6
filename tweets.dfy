/** The normalisation loop of `main()`: every post of the two exports gets
    its `replied_to`, `retweeted` and `quoted` fields from
    `referenced_tweets`, and its `public_metrics` lifted to the top level. */
module Tweets {
  import opened Base

  /** One entry of `referenced_tweets`: its `type` and the `id` it points at. */
  datatype Ref = Ref(kind: string, id: string)

  /** A post as parsed from an export file. `created_at` is already converted
      to the day of the year and the hour in the plotting time zone. A key
      missing from the JSON object is `None`. */
  datatype RawTweet = RawTweet(
    id: string,
    day: int,
    hour: int,
    text: string,
    referencedTweets: Option<seq<Ref>>,
    publicMetrics: Option<map<string, int>>)

  /** A normalised post, one row of the data frame. `referenced_tweets` and
      `public_metrics` are gone; the three relation fields always exist;
      a reference of any other `type` becomes a field of that name, kept in
      `otherRefs`; every metric is a field of its own, kept in `metrics`. */
  datatype Post = Post(
    id: string,
    day: int,
    hour: int,
    text: string,
    repliedTo: Option<string>,
    retweeted: Option<string>,
    quoted: Option<string>,
    otherRefs: map<string, string>,
    metrics: map<string, int>)

  const RepliedToKind: string := "replied_to"
  const RetweetedKind: string := "retweeted"
  const QuotedKind: string := "quoted"

  predicate IsRelationKind(kind: string)
  {
    kind == RepliedToKind || kind == RetweetedKind || kind == QuotedKind
  }

  /** `referenced_tweets` when it is present, the empty list otherwise
      (`if referenced_tweets:` treats a missing and an empty list alike). */
  function RefsOf(t: RawTweet): seq<Ref>
  {
    if t.referencedTweets.Some? then t.referencedTweets.value else []
  }

  /** The id of the last reference of the given type: assigning
      `tweet[ref["type"]]` in list order leaves the last one standing. */
  function LastTarget(refs: seq<Ref>, kind: string): Option<string>
  {
    if refs == [] then None
    else if refs[|refs| - 1].kind == kind then Some(refs[|refs| - 1].id)
    else LastTarget(refs[..|refs| - 1], kind)
  }

  /** The field is missing exactly when no reference has the type; otherwise
      it holds the id of a reference of that type with none of it after. */
  lemma {:induction false} LastTargetIsLast(refs: seq<Ref>, kind: string)
    ensures LastTarget(refs, kind).None? <==> forall i :: 0 <= i < |refs| ==> refs[i].kind != kind
    ensures LastTarget(refs, kind).Some? ==>
              exists i :: 0 <= i < |refs| && refs[i].kind == kind && refs[i].id == LastTarget(refs, kind).value
                          && forall j :: i < j < |refs| ==> refs[j].kind != kind
    decreases |refs|
  {
    if refs != [] && refs[|refs| - 1].kind != kind {
      var front := refs[..|refs| - 1];
      LastTargetIsLast(front, kind);
      assert forall i :: 0 <= i < |front| ==> front[i] == refs[i];
      if LastTarget(front, kind).Some? {
        var i :| 0 <= i < |front| && front[i].kind == kind && front[i].id == LastTarget(front, kind).value
                 && forall j :: i < j < |front| ==> front[j].kind != kind;
        assert refs[i].kind == kind && refs[i].id == LastTarget(refs, kind).value;
      }
    }
  }

  /** The fields that references of any type other than the three relations create. */
  function OtherTargets(refs: seq<Ref>): (m: map<string, string>)
    ensures forall k :: k in m ==> !IsRelationKind(k) && LastTarget(refs, k) == Some(m[k])
    ensures forall i :: 0 <= i < |refs| && !IsRelationKind(refs[i].kind) ==> refs[i].kind in m
  {
    if refs == [] then map[]
    else
      var m := OtherTargets(refs[..|refs| - 1]);
      var last := refs[|refs| - 1];
      if IsRelationKind(last.kind) then m else m[last.kind := last.id]
  }

  /** The normalised form of a post whose `public_metrics` are `metrics`. */
  function Normalized(t: RawTweet, metrics: map<string, int>): Post
  {
    var refs := RefsOf(t);
    Post(t.id, t.day, t.hour, t.text,
         LastTarget(refs, RepliedToKind), LastTarget(refs, RetweetedKind), LastTarget(refs, QuotedKind),
         OtherTargets(refs), metrics)
  }

  /** The whole normalisation: one post per input post, in input order; a
      post without `public_metrics` makes `None.items()` raise. */
  function NormalizeAll(raw: seq<RawTweet>): (r: Result<seq<Post>>)
    ensures r.Ok? <==> forall i :: 0 <= i < |raw| ==> raw[i].publicMetrics.Some?
    ensures r.Err? ==> r.error == AttributeError
    ensures r.Ok? ==> |r.value| == |raw|
                      && forall i :: 0 <= i < |raw| ==> r.value[i] == Normalized(raw[i], raw[i].publicMetrics.value)
  {
    if raw == [] then Ok([])
    else
      var last := raw[|raw| - 1];
      var front := raw[..|raw| - 1];
      assert forall i :: 0 <= i < |front| ==> front[i] == raw[i];
      match NormalizeAll(front)
      case Err(e) => Err(e)
      case Ok(init) =>
        if last.publicMetrics.None? then Err(AttributeError)
        else
          var posts := init + [Normalized(last, last.publicMetrics.value)];
          assert forall i :: 0 <= i < |init| ==> posts[i] == init[i];
          Ok(posts)
  }

  lemma LastTargetStep(refs: seq<Ref>, j: int, kind: string)
    requires 0 <= j < |refs|
    ensures LastTarget(refs[..j + 1], kind)
            == if refs[j].kind == kind then Some(refs[j].id) else LastTarget(refs[..j], kind)
  {
    assert refs[..j + 1][..j] == refs[..j];
  }

  lemma OtherTargetsStep(refs: seq<Ref>, j: int)
    requires 0 <= j < |refs|
    ensures OtherTargets(refs[..j + 1])
            == if IsRelationKind(refs[j].kind) then OtherTargets(refs[..j])
               else OtherTargets(refs[..j])[refs[j].kind := refs[j].id]
  {
    assert refs[..j + 1][..j] == refs[..j];
  }

  /** One more post: normalised and appended, or the error it raises. */
  lemma NormalizeAllStep(raw: seq<RawTweet>, i: int, posts: seq<Post>)
    requires 0 <= i < |raw| && NormalizeAll(raw[..i]) == Ok(posts)
    ensures NormalizeAll(raw[..i + 1])
            == if raw[i].publicMetrics.None? then Err(AttributeError)
               else Ok(posts + [Normalized(raw[i], raw[i].publicMetrics.value)])
  {
    assert raw[..i + 1][..i] == raw[..i];
  }

  /** Once a prefix fails, the whole sequence fails the same way. */
  lemma {:induction false} NormalizeAllPrefixErr(raw: seq<RawTweet>, n: int)
    requires 0 <= n <= |raw| && NormalizeAll(raw[..n]).Err?
    ensures NormalizeAll(raw) == NormalizeAll(raw[..n])
    decreases |raw| - n
  {
    if n < |raw| {
      assert raw[..n + 1][..n] == raw[..n];
      NormalizeAllPrefixErr(raw, n + 1);
    } else {
      assert raw[..n] == raw;
    }
  }

  /** The joined array keeps the `_3` export first: the post at position
      `i` of either export is normalised at its own place. */
  lemma NormalizeAllOrder(data3: seq<RawTweet>, data2: seq<RawTweet>)
    requires NormalizeAll(data3 + data2).Ok?
    ensures var posts := NormalizeAll(data3 + data2).value;
      && |posts| == |data3| + |data2|
      && (forall i :: 0 <= i < |data3| ==> data3[i].publicMetrics.Some?)
      && (forall j :: 0 <= j < |data2| ==> data2[j].publicMetrics.Some?)
      && (forall i :: 0 <= i < |data3| ==> posts[i] == Normalized(data3[i], data3[i].publicMetrics.value))
      && (forall j :: 0 <= j < |data2| ==>
            posts[|data3| + j] == Normalized(data2[j], data2[j].publicMetrics.value))
  {
    var raw := data3 + data2;
    assert forall i :: 0 <= i < |data3| ==> raw[i] == data3[i];
    assert forall j :: 0 <= j < |data2| ==> raw[|data3| + j] == data2[j];
  }

  /** A post without references gets the three fields, all missing, and no other. */
  lemma NoRefsNoTargets(t: RawTweet, metrics: map<string, int>)
    requires t.referencedTweets.None? || t.referencedTweets == Some([])
    ensures var p := Normalized(t, metrics);
      && p.repliedTo.None? && p.retweeted.None? && p.quoted.None?
      && p.otherRefs == map[]
      && p.metrics == metrics
      && p.id == t.id && p.day == t.day && p.hour == t.hour && p.text == t.text
  {
  }

  /** The body of the loop in `main()` for one post: the three fields start
      as `None`, each reference sets the field its type names, the metrics
      are copied one by one. */
  method NormalizeTweet(t: RawTweet) returns (r: Result<Post>)
    ensures t.publicMetrics.None? ==> r == Err(AttributeError)
    ensures t.publicMetrics.Some? ==> r == Ok(Normalized(t, t.publicMetrics.value))
  {
    var repliedTo: Option<string> := None;
    var retweeted: Option<string> := None;
    var quoted: Option<string> := None;
    var others: map<string, string> := map[];
    var refs := RefsOf(t);
    var j := 0;
    while j < |refs|
      invariant 0 <= j <= |refs|
      invariant repliedTo == LastTarget(refs[..j], RepliedToKind)
      invariant retweeted == LastTarget(refs[..j], RetweetedKind)
      invariant quoted == LastTarget(refs[..j], QuotedKind)
      invariant others == OtherTargets(refs[..j])
    {
      var ref := refs[j];
      LastTargetStep(refs, j, RepliedToKind);
      LastTargetStep(refs, j, RetweetedKind);
      LastTargetStep(refs, j, QuotedKind);
      OtherTargetsStep(refs, j);
      if ref.kind == RepliedToKind {
        repliedTo := Some(ref.id);
      } else if ref.kind == RetweetedKind {
        retweeted := Some(ref.id);
      } else if ref.kind == QuotedKind {
        quoted := Some(ref.id);
      } else {
        others := others[ref.kind := ref.id];
      }
      j := j + 1;
    }
    assert refs[..|refs|] == refs;
    if t.publicMetrics.None? {
      return Err(AttributeError);
    }
    var publicMetrics := t.publicMetrics.value;
    var metrics: map<string, int> := map[];
    var pending := publicMetrics.Keys;
    while pending != {}
      invariant pending <= publicMetrics.Keys
      invariant metrics.Keys == publicMetrics.Keys - pending
      invariant forall k :: k in metrics ==> metrics[k] == publicMetrics[k]
      decreases pending
    {
      var key :| key in pending;
      metrics := metrics[key := publicMetrics[key]];
      pending := pending - {key};
    }
    assert metrics == publicMetrics;
    r := Ok(Post(t.id, t.day, t.hour, t.text, repliedTo, retweeted, quoted, others, metrics));
  }

  /** `dataArr = dataPlus.data["data"] + data.data["data"]` followed by the
      normalisation loop: the `_3` export comes first. */
  method Normalize(data3: seq<RawTweet>, data2: seq<RawTweet>) returns (r: Result<seq<Post>>)
    ensures r == NormalizeAll(data3 + data2)
    ensures r.Ok? ==> |r.value| == |data3| + |data2|
  {
    var dataArr := data3 + data2;
    var posts: seq<Post> := [];
    var i := 0;
    while i < |dataArr|
      invariant 0 <= i <= |dataArr|
      invariant NormalizeAll(dataArr[..i]) == Ok(posts)
    {
      var p := NormalizeTweet(dataArr[i]);
      NormalizeAllStep(dataArr, i, posts);
      if p.Err? {
        NormalizeAllPrefixErr(dataArr, i + 1);
        return Err(p.error);
      }
      posts := posts + [p.value];
      i := i + 1;
    }
    assert dataArr[..|dataArr|] == dataArr;
    r := Ok(posts);
  }
}
