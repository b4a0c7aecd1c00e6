/** Comment-tree acquisition with truncation (reddit/reddit_scraper.py). The PRAW calls
    are replaced by an abstract forum (module Forum) and a `top` listing function;
    `api_requests` is threaded through as a request count. */
module Scraper {
  import opened Base
  import opened Seqs
  import opened Records
  import opened Forum

  // ---------------------------------------------------------------------------
  // Configuration
  // ---------------------------------------------------------------------------

  datatype Config = Config(
    postsLimit: int,
    commentsLimit: int,
    repliesLimit: int,
    commentDepth: int,
    timeFilter: string)

  /** The configuration used when the file cannot be loaded. */
  const DefaultConfig := Config(5, 5, 5, 5, "day")

  /** The parsed configuration file: its `scraping` and `subreddits` keys, each possibly absent. */
  datatype ConfigFile = ConfigFile(scraping: Option<Config>, subreddits: Option<seq<string>>)

  datatype Settings = Settings(config: Config, subreddits: seq<string>)

  /** The configuration part of `RedditScraper.__init__`: `None` stands for a file that
      cannot be opened or parsed. Any failure falls back to the defaults and no subreddits. */
  function LoadSettings(file: Option<ConfigFile>): (s: Settings)
    ensures file.None? || file.value.scraping.None? || file.value.subreddits.None? ==>
            s.config == Config(5, 5, 5, 5, "day") && s.subreddits == []
    ensures file.Some? && file.value.scraping.Some? && file.value.subreddits.Some? ==>
            s.config == file.value.scraping.value && s.subreddits == file.value.subreddits.value
  {
    match file
    case None => Settings(DefaultConfig, [])
    case Some(f) =>
      if f.scraping.Some? && f.subreddits.Some? then Settings(f.scraping.value, f.subreddits.value)
      else Settings(DefaultConfig, [])
  }

  /** `RedditScraper.__init__`: authentication is checked before the configuration is read. */
  function NewScraper(authenticated: bool, file: Option<ConfigFile>): (r: Result<Settings>)
    ensures !authenticated <==> r == Err(AuthenticationFailed)
    ensures authenticated ==> r == Ok(LoadSettings(file))
  {
    if !authenticated then Err(AuthenticationFailed) else Ok(LoadSettings(file))
  }

  // ---------------------------------------------------------------------------
  // Collecting replies
  // ---------------------------------------------------------------------------

  /** A collected value with the number of API requests spent collecting it. */
  datatype Fetched<T> = Fetched(value: T, requests: nat)

  /** The record built from a source comment, with the replies collected for it. */
  function ToComment(n: Node, replies: seq<Comment>): Comment
    requires n.SourceComment?
  {
    Comment(n.id, n.author, n.body, n.score, n.createdUtc, Present(replies))
  }

  /** `get_comment_replies(comment, depth)`: nothing and no request when the depth budget
      is spent; otherwise one `refresh` request, and on success the first `limit` replies
      (Python slice semantics) each with its own replies collected one level shallower. */
  function GetCommentReplies(c: Node, depth: int, limit: int): (r: Fetched<seq<Comment>>)
    requires c.SourceComment?
    ensures depth <= 0 ==> r == Fetched([], 0)
    ensures depth > 0 ==> r.requests >= 1
    ensures depth > 0 && c.refreshFails ==> r == Fetched([], 1)
    ensures |r.value| <= |PyPrefix(c.replies, limit)|
    decreases c, 1
  {
    if depth <= 0 then Fetched([], 0)
    else if c.refreshFails then Fetched([], 1)
    else
      var f := CollectReplies(c.replies, |PyPrefix(c.replies, limit)|, depth - 1, limit);
      Fetched(f.value.GetOr([]), 1 + f.requests)
  }

  /** The loop over the first `count` replies. `None` means an exception escaped the loop:
      a "load more" marker has no author, so reading it raises. Siblings visited before the
      marker have already spent their requests. */
  function CollectReplies(nodes: seq<Node>, count: nat, depth: int, limit: int)
    : (r: Fetched<Option<seq<Comment>>>)
    requires count <= |nodes|
    ensures r.value.Some? ==> |r.value.value| == count
    decreases nodes, 0
  {
    if count == 0 then Fetched(Some([]), 0)
    else if nodes[0].MoreComments? then Fetched(None, 0)
    else
      var sub := GetCommentReplies(nodes[0], depth, limit);
      var rest := CollectReplies(nodes[1..], count - 1, depth, limit);
      var value := if rest.value.Some? then Some([ToComment(nodes[0], sub.value)] + rest.value.value) else None;
      Fetched(value, sub.requests + rest.requests)
  }

  /** The loop succeeds exactly when none of the visited nodes is a marker, and then every
      sibling's entry is built from its own source node alone: a sibling whose refresh
      fails gets no replies while the others keep theirs. */
  lemma {:induction false} CollectRepliesSiblings(nodes: seq<Node>, count: nat, depth: int, limit: int)
    requires count <= |nodes|
    ensures CollectReplies(nodes, count, depth, limit).value.Some? <==>
            forall i :: 0 <= i < count ==> nodes[i].SourceComment?
    ensures CollectReplies(nodes, count, depth, limit).value.Some? ==>
            forall i :: 0 <= i < count ==> (
              && nodes[i].SourceComment?
              && CollectReplies(nodes, count, depth, limit).value.value[i]
                   == ToComment(nodes[i], GetCommentReplies(nodes[i], depth, limit).value))
    decreases count
  {
    if count > 0 && nodes[0].SourceComment? {
      CollectRepliesSiblings(nodes[1..], count - 1, depth, limit);
      assert forall i :: 0 < i < count ==> nodes[1..][i - 1] == nodes[i];
    }
  }

  // ---------------------------------------------------------------------------
  // Request counts
  // ---------------------------------------------------------------------------

  /** The `refresh` requests spent collecting the reply list `cs` under `depth`, read off the
      collected tree: one for the parent when the depth allows a refresh, then those spent
      on every entry's own replies one level down. */
  function Refreshes(cs: seq<Comment>, depth: int): nat
    decreases if depth <= 0 then 0 else depth, 0, 0
  {
    if depth <= 0 then 0 else 1 + RefreshesAll(cs, depth - 1)
  }

  /** The requests spent collecting the replies of every entry of `cs` under `depth`. */
  function RefreshesAll(cs: seq<Comment>, depth: int): nat
    decreases if depth <= 0 then 0 else depth, 1, |cs|
  {
    if |cs| == 0 then 0 else Refreshes(Children(cs[0]), depth) + RefreshesAll(cs[1..], depth)
  }

  /** No "load more" marker lies in any reply slice that collecting the replies of `c`
      visits, so no collected list was emptied after its siblings had spent requests. */
  ghost predicate NoMarkersVisited(c: Node, depth: int, limit: int)
    requires c.SourceComment?
    decreases c
  {
    || depth <= 0
    || c.refreshFails
    || forall i :: 0 <= i < |PyPrefix(c.replies, limit)| ==>
         c.replies[i].SourceComment? && NoMarkersVisited(c.replies[i], depth - 1, limit)
  }

  /** The same for every top-level comment `get_top_comments` keeps. */
  ghost predicate NoMarkersFetched(p: SourcePost, cfg: Config, limit: Option<int>) {
    var kept := PyPrefix(DropMarkers(p.comments), limit.GetOr(cfg.commentsLimit));
    || p.replaceMoreFails
    || forall i :: 0 <= i < |kept| ==>
         kept[i].SourceComment? && NoMarkersVisited(kept[i], cfg.commentDepth, cfg.repliesLimit)
  }

  /** The requests spent on a list of post records: one `replace_more` per post, plus the
      refreshes of its comments' replies. */
  function PostsRequests(posts: seq<Post>, depth: int): nat {
    if |posts| == 0 then 0
    else 1 + RefreshesAll(CommentsOf(posts[0]), depth) + PostsRequests(posts[1..], depth)
  }

  /** The requests of fetching each listed subreddit once, repeated names included. */
  function FetchRequests(subreddits: seq<string>, cfg: Config, top: (string, int, string) -> Listing): nat {
    if |subreddits| == 0 then 0
    else GetTopPosts(subreddits[0], None, cfg, top).requests + FetchRequests(subreddits[1..], cfg, top)
  }

  /** When no visited slice holds a marker, `get_comment_replies` spends exactly one
      request per refresh: the count is read off the collected tree alone. */
  lemma {:induction false} RepliesRequestsExact(c: Node, depth: int, limit: int)
    requires c.SourceComment?
    ensures NoMarkersVisited(c, depth, limit) ==>
              GetCommentReplies(c, depth, limit).requests == Refreshes(GetCommentReplies(c, depth, limit).value, depth)
    decreases c, 1
  {
    if depth > 0 && !c.refreshFails && NoMarkersVisited(c, depth, limit) {
      CollectRequestsExact(c.replies, |PyPrefix(c.replies, limit)|, depth - 1, limit);
    }
  }

  /** The loop over marker-free siblings completes, having spent exactly the refreshes of
      the replies it collected. */
  lemma {:induction false} CollectRequestsExact(nodes: seq<Node>, count: nat, depth: int, limit: int)
    requires count <= |nodes|
    ensures (forall i :: 0 <= i < count ==> nodes[i].SourceComment? && NoMarkersVisited(nodes[i], depth, limit)) ==>
              && CollectReplies(nodes, count, depth, limit).value.Some?
              && CollectReplies(nodes, count, depth, limit).requests
                 == RefreshesAll(CollectReplies(nodes, count, depth, limit).value.value, depth)
    decreases nodes, 0
  {
    if count > 0 && forall i :: 0 <= i < count ==> nodes[i].SourceComment? && NoMarkersVisited(nodes[i], depth, limit) {
      RepliesRequestsExact(nodes[0], depth, limit);
      assert forall i :: 0 <= i < count - 1 ==> nodes[1..][i] == nodes[i + 1];
      CollectRequestsExact(nodes[1..], count - 1, depth, limit);
      var rest := CollectReplies(nodes[1..], count - 1, depth, limit).value.value;
      assert CollectReplies(nodes, count, depth, limit).value.value[1..] == rest;
    }
  }

  /** `get_top_comments` spends one `replace_more` request plus the refreshes of the
      replies it collected, when no visited slice holds a marker. */
  lemma TopCommentsRequests(p: SourcePost, cfg: Config, limit: Option<int>)
    ensures NoMarkersFetched(p, cfg, limit) ==>
              GetTopComments(p, cfg, limit).requests == 1 + RefreshesAll(GetTopComments(p, cfg, limit).value, cfg.commentDepth)
  {
    if !p.replaceMoreFails && NoMarkersFetched(p, cfg, limit) {
      var kept := PyPrefix(DropMarkers(p.comments), limit.GetOr(cfg.commentsLimit));
      CollectRequestsExact(kept, |kept|, cfg.commentDepth, cfg.repliesLimit);
    }
  }

  /** The posts of a listing cost exactly what their records show. */
  lemma {:induction false} CollectPostsRequests(posts: seq<SourcePost>, cfg: Config)
    ensures (forall i :: 0 <= i < |posts| ==> NoMarkersFetched(posts[i], cfg, None)) ==>
              CollectPosts(posts, cfg).requests == PostsRequests(CollectPosts(posts, cfg).value, cfg.commentDepth)
    decreases |posts|
  {
    if |posts| > 0 && forall i :: 0 <= i < |posts| ==> NoMarkersFetched(posts[i], cfg, None) {
      TopCommentsRequests(posts[0], cfg, None);
      assert forall i :: 0 <= i < |posts| - 1 ==> posts[1..][i] == posts[i + 1];
      CollectPostsRequests(posts[1..], cfg);
      assert CollectPosts(posts, cfg).value[1..] == CollectPosts(posts[1..], cfg).value;
    }
  }

  /** `get_top_posts` spends one request for the listing plus exactly what its post
      records show. When the listing fails part-way, the posts yielded before the failure
      have still spent their requests, although none is returned. */
  lemma TopPostsRequests(name: string, limit: Option<int>, cfg: Config, top: (string, int, string) -> Listing)
    ensures var listing := top(name, limit.GetOr(cfg.postsLimit), cfg.timeFilter);
            var r := GetTopPosts(name, limit, cfg, top);
            (forall i :: 0 <= i < |listing.posts| ==> NoMarkersFetched(listing.posts[i], cfg, None)) ==>
              && (!listing.fails ==> r.requests == 1 + PostsRequests(r.value, cfg.commentDepth))
              && (listing.fails ==>
                    r.requests == 1 + PostsRequests(CollectPosts(listing.posts, cfg).value, cfg.commentDepth))
  {
    var listing := top(name, limit.GetOr(cfg.postsLimit), cfg.timeFilter);
    CollectPostsRequests(listing.posts, cfg);
  }

  // ---------------------------------------------------------------------------
  // The shape of what is collected
  // ---------------------------------------------------------------------------

  /** `cs` is a truncation of the replies of source comment `c` under `limit` and `depth`:
      empty when the budget is spent, when the refresh fails or when the slice reaches a
      "load more" marker; otherwise the first entries of the source replies, in order, as
      many as the slice keeps, each with the source's fields and its own replies truncated
      one level shallower. */
  ghost predicate TruncatedReplies(cs: seq<Comment>, c: Node, limit: int, depth: int)
    requires c.SourceComment?
    decreases c
  {
    && (depth <= 0 ==> cs == [])
    && (depth > 0 && c.refreshFails ==> cs == [])
    && (depth > 0 && (exists i :: 0 <= i < |PyPrefix(c.replies, limit)| && c.replies[i].MoreComments?) ==> cs == [])
    && (depth > 0 && !c.refreshFails
        && (forall i :: 0 <= i < |PyPrefix(c.replies, limit)| ==> c.replies[i].SourceComment?) ==>
          |cs| == |PyPrefix(c.replies, limit)|)
    && (cs == [] || (
        && |cs| == |PyPrefix(c.replies, limit)|
        && forall i :: 0 <= i < |cs| ==>
             && c.replies[i].SourceComment?
             && cs[i].id == c.replies[i].id
             && cs[i].author == c.replies[i].author
             && cs[i].body == c.replies[i].body
             && cs[i].score == c.replies[i].score
             && cs[i].createdUtc == c.replies[i].createdUtc
             && cs[i].replies.Present?
             && TruncatedReplies(cs[i].replies.items, c.replies[i], limit, depth - 1)))
  }

  /** Every reply list `get_comment_replies` collects is such a truncation. */
  lemma {:induction false} RepliesAreTruncation(c: Node, depth: int, limit: int)
    requires c.SourceComment?
    ensures TruncatedReplies(GetCommentReplies(c, depth, limit).value, c, limit, depth)
    decreases c, 1
  {
    if depth > 0 && !c.refreshFails {
      var count := |PyPrefix(c.replies, limit)|;
      var f := CollectReplies(c.replies, count, depth - 1, limit);
      CollectRepliesSiblings(c.replies, count, depth - 1, limit);
      if f.value.Some? {
        SiblingsTruncated(c, depth, limit);
        TruncationOfSiblings(f.value.value, c, limit, depth);
      }
    }
  }

  /** The induction step of the proof above: every visited sibling's replies are truncations. */
  lemma {:induction false} SiblingsTruncated(c: Node, depth: int, limit: int)
    requires c.SourceComment? && depth > 0
    requires forall i :: 0 <= i < |PyPrefix(c.replies, limit)| ==> c.replies[i].SourceComment?
    ensures forall i :: 0 <= i < |PyPrefix(c.replies, limit)| ==>
              TruncatedReplies(GetCommentReplies(c.replies[i], depth - 1, limit).value, c.replies[i], limit, depth - 1)
    decreases c, 0
  {
    forall i | 0 <= i < |PyPrefix(c.replies, limit)|
      ensures TruncatedReplies(GetCommentReplies(c.replies[i], depth - 1, limit).value, c.replies[i], limit, depth - 1)
    {
      RepliesAreTruncation(c.replies[i], depth - 1, limit);
    }
  }

  /** The step of the proof above: siblings built from their own truncations make one. */
  lemma TruncationOfSiblings(cs: seq<Comment>, c: Node, limit: int, depth: int)
    requires c.SourceComment? && depth > 0 && !c.refreshFails
    requires |cs| == |PyPrefix(c.replies, limit)|
    requires forall i :: 0 <= i < |cs| ==> (
               && c.replies[i].SourceComment?
               && cs[i] == ToComment(c.replies[i], GetCommentReplies(c.replies[i], depth - 1, limit).value)
               && TruncatedReplies(GetCommentReplies(c.replies[i], depth - 1, limit).value, c.replies[i], limit, depth - 1))
    requires CollectReplies(c.replies, |cs|, depth - 1, limit).value == Some(cs)
    ensures GetCommentReplies(c, depth, limit).value == cs
    ensures TruncatedReplies(cs, c, limit, depth)
  {
  }

  /** How many levels of comments a reply list holds. */
  function Height(cs: seq<Comment>): nat {
    if |cs| == 0 then 0
    else
      var below := match cs[0].replies case Absent => 0 case Present(rs) => Height(rs);
      var rest := Height(cs[1..]);
      if 1 + below >= rest then 1 + below else rest
  }

  /** A level list's height is one more than that of its deepest entry's replies. */
  lemma {:induction false} HeightBound(cs: seq<Comment>, bound: nat)
    requires |cs| > 0 ==> bound >= 1
    requires forall i :: 0 <= i < |cs| ==> cs[i].replies.Present? && Height(cs[i].replies.items) < bound
    ensures Height(cs) <= bound
    decreases |cs|
  {
    if |cs| > 0 {
      HeightBound(cs[1..], bound);
    }
  }

  /** A truncation under depth `d` is at most `d` levels deep. */
  lemma {:induction false} TruncationHeight(cs: seq<Comment>, c: Node, limit: int, depth: int)
    requires c.SourceComment?
    requires TruncatedReplies(cs, c, limit, depth)
    ensures Height(cs) <= if depth <= 0 then 0 else depth
    decreases c
  {
    if cs != [] {
      forall i | 0 <= i < |cs|
        ensures cs[i].replies.Present? && Height(cs[i].replies.items) < depth
      {
        TruncationHeight(cs[i].replies.items, c.replies[i], limit, depth - 1);
      }
      HeightBound(cs, depth);
    }
  }

  /** Replies under a top-level comment nest at most `comment_depth` levels deep. */
  lemma RepliesDepthBounded(c: Node, depth: int, limit: int)
    requires c.SourceComment?
    ensures Height(GetCommentReplies(c, depth, limit).value) <= if depth <= 0 then 0 else depth
  {
    RepliesAreTruncation(c, depth, limit);
    TruncationHeight(GetCommentReplies(c, depth, limit).value, c, limit, depth);
  }

  /** No reply list anywhere in `cs`, `cs` included, has more than `b` entries. */
  ghost predicate BreadthAtMost(cs: seq<Comment>, b: nat)
    decreases cs
  {
    && |cs| <= b
    && forall i :: 0 <= i < |cs| ==>
         match cs[i].replies
         case Absent => true
         case Present(rs) => BreadthAtMost(rs, b)
  }

  /** With a non-negative `replies_limit`, no collected node has more than that many replies. */
  lemma {:induction false} RepliesBreadthBounded(c: Node, depth: int, limit: nat)
    requires c.SourceComment?
    ensures BreadthAtMost(GetCommentReplies(c, depth, limit).value, limit)
  {
    RepliesAreTruncation(c, depth, limit);
    TruncationBreadth(GetCommentReplies(c, depth, limit).value, c, limit, depth);
  }

  lemma {:induction false} TruncationBreadth(cs: seq<Comment>, c: Node, limit: nat, depth: int)
    requires c.SourceComment?
    requires TruncatedReplies(cs, c, limit, depth)
    ensures BreadthAtMost(cs, limit)
    decreases c
  {
    if cs != [] {
      forall i | 0 <= i < |cs|
        ensures BreadthAtMost(cs[i].replies.items, limit)
      {
        TruncationBreadth(cs[i].replies.items, c.replies[i], limit, depth - 1);
      }
    }
  }

  /** The most requests a reply collection under `depth` and a non-negative `limit` can make. */
  function RequestBound(depth: int, limit: nat): nat
    decreases if depth <= 0 then 0 else depth
  {
    if depth <= 0 then 0 else 1 + limit * RequestBound(depth - 1, limit)
  }

  lemma MulBound(count: nat, limit: nat, b: nat)
    requires count <= limit
    ensures count * b <= limit * b
  {
  }

  /** However the source tree is shaped, collecting replies makes a bounded number of requests. */
  lemma {:induction false} RepliesRequestsBounded(c: Node, depth: int, limit: nat)
    requires c.SourceComment?
    ensures GetCommentReplies(c, depth, limit).requests <= RequestBound(depth, limit)
    decreases c, 1
  {
    if depth > 0 && !c.refreshFails {
      var count := |PyPrefix(c.replies, limit)|;
      CollectRequestsBounded(c.replies, count, depth - 1, limit);
      MulBound(count, limit, RequestBound(depth - 1, limit));
    }
  }

  lemma {:induction false} CollectRequestsBounded(nodes: seq<Node>, count: nat, depth: int, limit: nat)
    requires count <= |nodes|
    ensures CollectReplies(nodes, count, depth, limit).requests <= count * RequestBound(depth, limit)
    decreases nodes, 0
  {
    if count > 0 && nodes[0].SourceComment? {
      RepliesRequestsBounded(nodes[0], depth, limit);
      CollectRequestsBounded(nodes[1..], count - 1, depth, limit);
      assert count * RequestBound(depth, limit) == RequestBound(depth, limit) + (count - 1) * RequestBound(depth, limit);
    }
  }

  // ---------------------------------------------------------------------------
  // Top comments, top posts, all subreddits
  // ---------------------------------------------------------------------------

  /** `get_top_comments(post, limit)`: one `replace_more` request; on failure no comments,
      otherwise the first `limit` top-level comments (the configured `comments_limit` when
      no limit is given), each with replies collected to `comment_depth`. */
  function GetTopComments(p: SourcePost, cfg: Config, limit: Option<int>): (r: Fetched<seq<Comment>>)
    ensures r.requests >= 1
    ensures p.replaceMoreFails ==> r == Fetched([], 1)
    ensures !p.replaceMoreFails ==>
              |r.value| == |PyPrefix(DropMarkers(p.comments), limit.GetOr(cfg.commentsLimit))|
  {
    if p.replaceMoreFails then Fetched([], 1)
    else
      var top := DropMarkers(p.comments);
      var kept := PyPrefix(top, limit.GetOr(cfg.commentsLimit));
      CollectRepliesSiblings(kept, |kept|, cfg.commentDepth, cfg.repliesLimit);
      var f := CollectReplies(kept, |kept|, cfg.commentDepth, cfg.repliesLimit);
      Fetched(f.value.value, 1 + f.requests)
  }

  /** Top-level comments are the first entries of the marker-free forest, in order, each
      with its replies collected to `comment_depth`. */
  lemma TopCommentsArePrefix(p: SourcePost, cfg: Config, limit: Option<int>)
    requires !p.replaceMoreFails
    ensures var top := DropMarkers(p.comments);
            var r := GetTopComments(p, cfg, limit).value;
            forall i :: 0 <= i < |r| ==> (
              && top[i].SourceComment?
              && r[i] == ToComment(top[i], GetCommentReplies(top[i], cfg.commentDepth, cfg.repliesLimit).value))
  {
    var top := DropMarkers(p.comments);
    var kept := PyPrefix(top, limit.GetOr(cfg.commentsLimit));
    KeptCollected(top, limit.GetOr(cfg.commentsLimit), cfg.commentDepth, cfg.repliesLimit);
    assert GetTopComments(p, cfg, limit).value
        == CollectReplies(kept, |kept|, cfg.commentDepth, cfg.repliesLimit).value.value;
  }

  /** Collecting the first `n` of a marker-free list builds entry i from source comment i. */
  lemma KeptCollected(top: seq<Node>, n: int, depth: int, limit: int)
    requires forall i :: 0 <= i < |top| ==> top[i].SourceComment?
    ensures var kept := PyPrefix(top, n);
            var f := CollectReplies(kept, |kept|, depth, limit);
            && f.value.Some?
            && forall i :: 0 <= i < |kept| ==>
                 f.value.value[i] == ToComment(top[i], GetCommentReplies(top[i], depth, limit).value)
  {
    var kept := PyPrefix(top, n);
    CollectRepliesSiblings(kept, |kept|, depth, limit);
    assert forall i :: 0 <= i < |kept| ==> kept[i] == top[i];
  }

  /** The post record built from a submission and its collected comments. The scraper does
      not read `upvote_ratio`. */
  function ToPost(sp: SourcePost, comments: seq<Comment>): Post {
    Post(sp.id, sp.title, sp.url, sp.author, sp.createdUtc, sp.permalink,
         Some(sp.score), Some(sp.numComments), None, Some(sp.selftext), Some(comments), None)
  }

  /** The posts yielded before the listing ended or failed, each with its comments. */
  function CollectPosts(posts: seq<SourcePost>, cfg: Config): (r: Fetched<seq<Post>>)
    ensures |r.value| == |posts|
    ensures forall i :: 0 <= i < |posts| ==> r.value[i] == ToPost(posts[i], GetTopComments(posts[i], cfg, None).value)
    ensures r.requests >= |posts|
  {
    if |posts| == 0 then Fetched([], 0)
    else
      var c := GetTopComments(posts[0], cfg, None);
      var rest := CollectPosts(posts[1..], cfg);
      Fetched([ToPost(posts[0], c.value)] + rest.value, c.requests + rest.requests)
  }

  /** `get_top_posts(name, limit)`: one request for the listing, then the posts with their
      comments; an exception while iterating the listing loses all of them. */
  function GetTopPosts(name: string, limit: Option<int>, cfg: Config,
                       top: (string, int, string) -> Listing): (r: Fetched<seq<Post>>)
    ensures r.requests >= 1
    ensures top(name, limit.GetOr(cfg.postsLimit), cfg.timeFilter).fails ==> r.value == []
    ensures !top(name, limit.GetOr(cfg.postsLimit), cfg.timeFilter).fails ==>
              |r.value| == |top(name, limit.GetOr(cfg.postsLimit), cfg.timeFilter).posts|
    ensures var listing := top(name, limit.GetOr(cfg.postsLimit), cfg.timeFilter);
            !listing.fails ==> forall i :: 0 <= i < |r.value| ==>
              r.value[i] == ToPost(listing.posts[i], GetTopComments(listing.posts[i], cfg, None).value)
    ensures r.requests >= 1 + |top(name, limit.GetOr(cfg.postsLimit), cfg.timeFilter).posts|
  {
    var listing := top(name, limit.GetOr(cfg.postsLimit), cfg.timeFilter);
    var collected := CollectPosts(listing.posts, cfg);
    Fetched(if listing.fails then [] else collected.value, 1 + collected.requests)
  }

  /** The scrape loop over `subreddits`, accumulating into `results`. */
  function ScrapeLoop(subreddits: seq<string>, cfg: Config, top: (string, int, string) -> Listing,
                      results: Results): Fetched<Results>
  {
    if |subreddits| == 0 then Fetched(results, 0)
    else
      var posts := GetTopPosts(subreddits[0], None, cfg, top);
      var rest := ScrapeLoop(subreddits[1..], cfg, top, Put(results, subreddits[0], posts.value));
      Fetched(rest.value, posts.requests + rest.requests)
  }

  /** `scrape_all_subreddits()`. */
  function ScrapeAllSubreddits(s: Settings, top: (string, int, string) -> Listing): (r: Fetched<Results>)
    ensures DistinctKeys(r.value)
    ensures forall k :: HasKey(r.value, k) <==> k in s.subreddits
  {
    ScrapeLoopSpec(s.subreddits, s.config, top, []);
    ScrapeLoop(s.subreddits, s.config, top, [])
  }

  /** What the loop leaves behind: the old keys plus one key per subreddit, each subreddit
      mapped to its fetched posts, every other key untouched, and one or more requests per
      subreddit. */
  lemma {:induction false} ScrapeLoopSpec(subreddits: seq<string>, cfg: Config,
                                          top: (string, int, string) -> Listing, results: Results)
    requires DistinctKeys(results)
    ensures var r := ScrapeLoop(subreddits, cfg, top, results);
      && DistinctKeys(r.value)
      && (forall k :: HasKey(r.value, k) <==> HasKey(results, k) || k in subreddits)
      && (forall k :: k in subreddits ==> Get(r.value, k) == Some(GetTopPosts(k, None, cfg, top).value))
      && (forall k :: k !in subreddits ==> Get(r.value, k) == Get(results, k))
      && r.requests >= |subreddits|
      && r.requests == FetchRequests(subreddits, cfg, top)
    decreases |subreddits|
  {
    if |subreddits| > 0 {
      var s := subreddits[0];
      var posts := GetTopPosts(s, None, cfg, top).value;
      var next := Put(results, s, posts);
      PutDistinct(results, s, posts);
      ScrapeLoopSpec(subreddits[1..], cfg, top, next);
      forall k
        ensures HasKey(next, k) <==> HasKey(results, k) || k == s
        ensures Get(next, k) == if k == s then Some(posts) else Get(results, k)
      {
        PutGet(results, s, posts, k);
      }
      assert forall k :: k in subreddits <==> k == s || k in subreddits[1..];
    }
  }

  /** The scrape has exactly one key per configured subreddit; each maps to the posts its
      fetch returned, which are none when the listing failed. */
  lemma ScrapeAllSpec(s: Settings, top: (string, int, string) -> Listing)
    ensures var r := ScrapeAllSubreddits(s, top).value;
      && DistinctKeys(r)
      && (forall k :: HasKey(r, k) <==> k in s.subreddits)
      && (forall k :: k in s.subreddits ==> Get(r, k) == Some(GetTopPosts(k, None, s.config, top).value))
      && (forall k :: k in s.subreddits && top(k, s.config.postsLimit, s.config.timeFilter).fails ==>
            Get(r, k) == Some([]))
    ensures ScrapeAllSubreddits(s, top).requests >= |s.subreddits|
    ensures ScrapeAllSubreddits(s, top).requests == FetchRequests(s.subreddits, s.config, top)
  {
    ScrapeLoopSpec(s.subreddits, s.config, top, []);
  }
}
