/** The Reddit side as the pipeline sees it through PRAW: comment forests whose nodes are
    comments or "load more comments" markers, posts, and subreddit listings. Which calls
    fail is part of the data, so the model stays a pure function of it. */
module Forum {
  import opened Seqs

  /** A node of a comment forest. `refreshFails` says whether `comment.refresh()` raises
      for this comment; `replies` is the reply forest the client reports for it. */
  datatype Node =
    | SourceComment(
        id: string,
        author: string,
        body: string,
        score: int,
        createdUtc: real,
        refreshFails: bool,
        replies: seq<Node>)
    | MoreComments

  /** A submission. `replaceMoreFails` says whether `comments.replace_more(limit=0)` raises;
      `comments` is its top-level forest. */
  datatype SourcePost = SourcePost(
    id: string,
    title: string,
    url: string,
    score: int,
    createdUtc: real,
    author: string,
    numComments: int,
    permalink: string,
    selftext: string,
    replaceMoreFails: bool,
    comments: seq<Node>)

  /** What iterating `subreddit.top(...)` yields: some posts, then either the end of the
      listing or an exception. */
  datatype Listing = Listing(posts: seq<SourcePost>, fails: bool)

  /** `replace_more(limit=0)`: the top-level forest without its "load more" markers.
      Comments keep their order and their number of occurrences. */
  function DropMarkers(nodes: seq<Node>): (r: seq<Node>)
    ensures IsSubsequence(r, nodes)
    ensures forall n :: multiset(r)[n] == if n.SourceComment? then multiset(nodes)[n] else 0
    ensures forall i :: 0 <= i < |r| ==> r[i].SourceComment? && r[i] in nodes
    ensures forall n :: n in nodes && n.SourceComment? ==> n in r
    ensures |r| <= |nodes|
  {
    if |nodes| == 0 then []
    else
      assert nodes == [nodes[0]] + nodes[1..];
      var rest := DropMarkers(nodes[1..]);
      if nodes[0].MoreComments? then rest
      else
        assert ([nodes[0]] + rest)[1..] == rest;
        [nodes[0]] + rest
  }
}
