/** Engagement filter and batched classification (reddit/post_filter_agent.py).
    The classifier is a parameter; asyncio concurrency is modelled as a sequential map,
    since results are paired with posts by position. */
module PostFilter {
  import opened Base
  import opened Seqs
  import opened Records

  // ---------------------------------------------------------------------------
  // filter_by_metrics
  // ---------------------------------------------------------------------------

  const MinScore: int := 20
  const MinComments: int := 5
  /** The upvote ratio is a fraction; it is compared after scaling by 100. */
  const MinUpvotePercent: real := 70.0

  /** A missing metric counts as 0, so a post that passes has all three. */
  predicate MeetsMetrics(p: Post)
    ensures MeetsMetrics(p) ==> p.score.Some? && p.numComments.Some? && p.upvoteRatio.Some?
  {
    && p.score.GetOr(0) >= MinScore
    && p.numComments.GetOr(0) >= MinComments
    && p.upvoteRatio.GetOr(0.0) * 100.0 >= MinUpvotePercent
  }

  /** `filter_by_metrics(posts)`: the posts that pass, in their order and with their
      number of occurrences. */
  function FilterByMetrics(posts: seq<Post>): (r: seq<Post>)
    ensures IsSubsequence(r, posts)
    ensures forall p :: multiset(r)[p] == if MeetsMetrics(p) then multiset(posts)[p] else 0
    ensures forall p :: p in r <==> p in posts && MeetsMetrics(p)
  {
    if |posts| == 0 then []
    else
      assert posts == [posts[0]] + posts[1..];
      var rest := FilterByMetrics(posts[1..]);
      if MeetsMetrics(posts[0]) then
        assert ([posts[0]] + rest)[1..] == rest;
        [posts[0]] + rest
      else rest
  }

  /** All three bounds are inclusive; one unit below any of them rejects the post,
      and so does a missing metric. */
  lemma MetricsBoundary(p: Post)
    ensures p.score == Some(20) && p.numComments == Some(5) && p.upvoteRatio == Some(0.7)
            ==> MeetsMetrics(p)
    ensures p.score == Some(19) || p.numComments == Some(4) || p.upvoteRatio == Some(0.69)
            ==> !MeetsMetrics(p)
    ensures p.score.None? || p.numComments.None? || p.upvoteRatio.None? ==> !MeetsMetrics(p)
  {
  }

  // ---------------------------------------------------------------------------
  // Batching
  // ---------------------------------------------------------------------------

  /** `[s[i:i + n] for i in range(0, len(s), n)]`. */
  function Chunk<T>(s: seq<T>, n: int): (r: seq<seq<T>>)
    requires n >= 1
    ensures Flatten(r) == s
    ensures forall i :: 0 <= i < |r| ==> 0 < |r[i]| <= n
    ensures forall i :: 0 <= i < |r| - 1 ==> |r[i]| == n
    decreases |s|
  {
    if |s| == 0 then []
    else if |s| <= n then
      assert Flatten([s]) == s + Flatten([s][1..]);
      [s]
    else
      var rest := Chunk(s[n..], n);
      assert Flatten([s[..n]] + rest) == s[..n] + Flatten(rest);
      assert s[..n] + s[n..] == s;
      [s[..n]] + rest
  }

  // ---------------------------------------------------------------------------
  // process_batch and filter_posts
  // ---------------------------------------------------------------------------

  /** What the gathered task for one post produced: the classifier's boolean,
      a value that is not a boolean, or an exception. */
  datatype Verdict = Flag(informative: bool) | NotABool | Raised

  /** `"selftext" in post and post["selftext"]`. */
  predicate HasText(p: Post) {
    p.selftext.Some? && p.selftext.value != ""
  }

  /** The flag a post gets when its batch completes: only a post with text is classified,
      and only a boolean `True` marks it informative. */
  predicate Informative(p: Post, classify: string -> Verdict) {
    HasText(p) && classify(p.selftext.value) == Flag(true)
  }

  function Mark(p: Post, flag: bool): Post {
    p.(isInformative := Some(flag))
  }

  /** `q` is `p` with an `is_informative` flag set and nothing else changed. */
  predicate Annotates(q: Post, p: Post) {
    q.isInformative.Some? && q == Mark(p, q.isInformative.value)
  }

  /** The texts of the posts that get a classifier call, in order. */
  function TextsToClassify(batch: seq<Post>): seq<string> {
    if |batch| == 0 then []
    else if HasText(batch[0]) then [batch[0].selftext.value] + TextsToClassify(batch[1..])
    else TextsToClassify(batch[1..])
  }

  lemma {:induction false} TextsToClassifySnoc(batch: seq<Post>, p: Post)
    ensures TextsToClassify(batch + [p])
            == TextsToClassify(batch) + (if HasText(p) then [p.selftext.value] else [])
    decreases |batch|
  {
    if |batch| == 0 {
      assert TextsToClassify([p][1..]) == [];
    } else {
      assert (batch + [p])[1..] == batch[1..] + [p];
      TextsToClassifySnoc(batch[1..], p);
    }
  }

  /** A batch as `process_batch` returns it: every post flagged, not informative when the
      batch-level handler fires and by its own verdict otherwise. */
  function MarkBatch(batch: seq<Post>, classify: string -> Verdict, fails: bool): (r: seq<Post>)
    ensures |r| == |batch|
  {
    seq(|batch|, i requires 0 <= i < |batch| => Mark(batch[i], !fails && Informative(batch[i], classify)))
  }

  /** `process_batch(posts)`. `batchFails` stands for an exception escaping the per-post
      loop, after which every post of the batch is marked not informative. `calls` lists
      the texts the classifier is asked about. */
  method ProcessBatch(batch: seq<Post>, classify: string -> Verdict, batchFails: bool)
    returns (out: seq<Post>, calls: seq<string>)
    ensures |out| == |batch|
    ensures forall i :: 0 <= i < |out| ==> Annotates(out[i], batch[i])
    ensures batchFails ==> forall i :: 0 <= i < |out| ==> out[i].isInformative == Some(false)
    ensures !batchFails ==> forall i :: 0 <= i < |out| ==>
              out[i].isInformative == Some(Informative(batch[i], classify))
    ensures forall i :: 0 <= i < |out| && !HasText(batch[i]) ==> out[i].isInformative == Some(false)
    ensures out == MarkBatch(batch, classify, batchFails)
    ensures calls == TextsToClassify(batch)
  {
    out, calls := [], [];
    var i := 0;
    while i < |batch|
      invariant 0 <= i <= |batch|
      invariant |out| == i
      invariant forall j :: 0 <= j < i ==> out[j] == Mark(batch[j], !batchFails && Informative(batch[j], classify))
      invariant calls == TextsToClassify(batch[..i])
    {
      var flag := false;
      if HasText(batch[i]) {
        var verdict := classify(batch[i].selftext.value);
        calls := calls + [batch[i].selftext.value];
        flag := verdict == Flag(true);
      }
      TextsToClassifySnoc(batch[..i], batch[i]);
      assert batch[..i + 1] == batch[..i] + [batch[i]];
      out := out + [Mark(batch[i], !batchFails && flag)];
      i := i + 1;
    }
    assert batch[..i] == batch;
  }

  /** The relation between an input post and its output under the classifier:
      the same post with a flag, and the flag is false or the classifier's verdict
      (exactly the verdict when `exact`). */
  predicate Classified(q: Post, p: Post, classify: string -> Verdict, exact: bool) {
    && Annotates(q, p)
    && (q.isInformative == Some(Informative(p, classify)) || (!exact && q.isInformative == Some(false)))
  }

  /** Classifying two lists one after the other classifies their concatenation. */
  lemma ClassifiedAppend(acc: seq<Post>, xs: seq<Post>, out: seq<Post>, ys: seq<Post>,
                         classify: string -> Verdict, exact: bool)
    requires |acc| == |xs| && |out| == |ys|
    requires forall i :: 0 <= i < |acc| ==> Classified(acc[i], xs[i], classify, exact)
    requires forall i :: 0 <= i < |out| ==> Classified(out[i], ys[i], classify, exact)
    ensures forall i :: 0 <= i < |acc + out| ==> Classified((acc + out)[i], (xs + ys)[i], classify, exact)
  {
  }

  /** What each batch turns into, as a function a list of batches can be mapped with. */
  function BatchMarker(classify: string -> Verdict, batchFails: seq<Post> -> bool): seq<Post> -> seq<Post> {
    b => MarkBatch(b, classify, batchFails(b))
  }

  /** `filter_posts(posts, batch_size)`. `batchFails` decides, per batch, whether the
      batch-level handler fires; `gatherFails` whether the outer handler does. Without the
      outer handler, the result is the batches' results concatenated, each batch's result
      depending on that batch alone (`BatchedAt` reads it position by position). */
  method FilterPosts(posts: seq<Post>, batchSize: int, classify: string -> Verdict,
                     batchFails: seq<Post> -> bool, gatherFails: bool)
    returns (r: Result<seq<Post>>)
    ensures |posts| == 0 ==> r == Ok([])
    ensures |posts| > 0 && batchSize == 0 ==> r == Err(InvalidArgument)
    ensures |posts| > 0 && batchSize < 0 ==> r == Ok([])
    ensures |posts| > 0 && batchSize >= 1 ==> r.Ok? && |r.value| == |posts|
    ensures |posts| > 0 && batchSize >= 1 ==> forall i :: 0 <= i < |posts| ==>
              Classified(r.value[i], posts[i], classify, false)
    ensures |posts| > 0 && batchSize >= 1 && gatherFails ==>
              forall i :: 0 <= i < |posts| ==> r.value[i] == Mark(posts[i], false)
    ensures |posts| > 0 && batchSize >= 1 && !gatherFails ==>
              r.value == Flatten(Map(Chunk(posts, batchSize), BatchMarker(classify, batchFails)))
    ensures |posts| > 0 && batchSize >= 1 && !gatherFails
            && (forall k :: 0 <= k < |Chunk(posts, batchSize)| ==> !batchFails(Chunk(posts, batchSize)[k])) ==>
              forall i :: 0 <= i < |posts| ==> Classified(r.value[i], posts[i], classify, true)
  {
    if |posts| == 0 {
      return Ok([]);
    }
    if batchSize == 0 {
      return Err(InvalidArgument);     // range() with a zero step
    }
    if batchSize < 0 {
      return Ok([]);                   // range() with a negative step is empty
    }
    if gatherFails {
      var marked := seq(|posts|, i requires 0 <= i < |posts| => Mark(posts[i], false));
      return Ok(marked);
    }
    var batches := Chunk(posts, batchSize);
    var acc := ProcessBatches(batches, classify, batchFails);
    r := Ok(acc);
  }

  /** The batches processed one after the other and their results concatenated. */
  method ProcessBatches(batches: seq<seq<Post>>, classify: string -> Verdict, batchFails: seq<Post> -> bool)
    returns (acc: seq<Post>)
    ensures acc == Flatten(Map(batches, BatchMarker(classify, batchFails)))
    ensures |acc| == |Flatten(batches)|
    ensures forall i :: 0 <= i < |acc| ==> Classified(acc[i], Flatten(batches)[i], classify, false)
    ensures (forall k :: 0 <= k < |batches| ==> !batchFails(batches[k])) ==>
              forall i :: 0 <= i < |acc| ==> Classified(acc[i], Flatten(batches)[i], classify, true)
  {
    ghost var noBatchFails := forall k :: 0 <= k < |batches| ==> !batchFails(batches[k]);
    ghost var marker := BatchMarker(classify, batchFails);
    acc := [];
    var k := 0;
    while k < |batches|
      invariant 0 <= k <= |batches|
      invariant acc == Flatten(Map(batches[..k], marker))
      invariant |acc| == |Flatten(batches[..k])|
      invariant forall i :: 0 <= i < |acc| ==> Classified(acc[i], Flatten(batches[..k])[i], classify, noBatchFails)
    {
      var out, _ := ProcessBatch(batches[k], classify, batchFails(batches[k]));
      assert forall i :: 0 <= i < |out| ==> Classified(out[i], batches[k][i], classify, noBatchFails);
      FlattenSnoc(batches, k);
      ClassifiedAppend(acc, Flatten(batches[..k]), out, batches[k], classify, noBatchFails);
      FlattenMapSnoc(batches, k, marker);
      acc := acc + out;
      k := k + 1;
    }
    assert batches[..k] == batches;
  }

  /** Post `j` of batch `k` is post `k * n + j`, and in the concatenated results it is
      flagged by its own verdict unless its own batch failed: a failing batch affects no
      other batch. */
  lemma BatchedAt(posts: seq<Post>, n: int, classify: string -> Verdict, batchFails: seq<Post> -> bool,
                  k: int, j: int)
    requires n >= 1 && 0 <= k < |Chunk(posts, n)| && 0 <= j < |Chunk(posts, n)[k]|
    ensures 0 <= k * n + j < |posts|
    ensures Chunk(posts, n)[k][j] == posts[k * n + j]
    ensures 0 <= k * n + j < |Flatten(Map(Chunk(posts, n), BatchMarker(classify, batchFails)))|
    ensures Flatten(Map(Chunk(posts, n), BatchMarker(classify, batchFails)))[k * n + j]
            == Mark(posts[k * n + j], !batchFails(Chunk(posts, n)[k]) && Informative(posts[k * n + j], classify))
  {
    var batches := Chunk(posts, n);
    var marker := BatchMarker(classify, batchFails);
    var ms := Map(batches, marker);
    forall i | 0 <= i < |batches|
      ensures ms[i] == MarkBatch(batches[i], classify, batchFails(batches[i]))
    {
      MapAt(batches, marker, i);
    }
    FlattenAt(batches, n, k, j);
    FlattenAt(ms, n, k, j);
  }

  /** `get_informative_posts(posts, batch_size)`: the argument check comes first, then the
      engagement filter, then classification of what passed it. */
  method GetInformativePosts(posts: seq<Post>, batchSize: int, classify: string -> Verdict,
                             batchFails: seq<Post> -> bool, gatherFails: bool)
    returns (r: Result<seq<Post>>)
    ensures batchSize < 1 <==> r == Err(InvalidArgument)
    ensures batchSize >= 1 ==> r.Ok?
    ensures batchSize >= 1 && |posts| == 0 ==> r == Ok([])
    ensures r.Ok? ==> |r.value| == |FilterByMetrics(posts)|
    ensures r.Ok? ==> forall i :: 0 <= i < |r.value| ==>
              Classified(r.value[i], FilterByMetrics(posts)[i], classify, false)
    ensures r.Ok? ==> forall i :: 0 <= i < |r.value| ==> MeetsMetrics(r.value[i])
  {
    if batchSize < 1 {
      return Err(InvalidArgument);
    }
    if |posts| == 0 {
      return Ok([]);
    }
    var passed := FilterByMetrics(posts);
    r := FilterPosts(passed, batchSize, classify, batchFails, gatherFails);
    assert forall i :: 0 <= i < |passed| ==> passed[i] in passed;
  }
}
