/** Statistics and text renderings of scraped data (reddit/formatter.py). */
module Formatter {
  import opened Base
  import opened Text
  import opened Seqs
  import opened Records

  // ---------------------------------------------------------------------------
  // Reply counting and the pre-order view of a comment tree
  // ---------------------------------------------------------------------------

  /** `count_replies`: the number of replies directly under `c` plus, recursively, theirs. */
  function CountReplies(c: Comment): (r: nat)
    ensures c.replies.Absent? ==> r == 0
    ensures c.replies.Present? ==> r >= |c.replies.items|
  {
    match c.replies
    case Absent => 0
    case Present(rs) => |rs| + CountRepliesAll(rs)
  }

  function CountRepliesAll(cs: seq<Comment>): nat {
    if |cs| == 0 then 0 else CountReplies(cs[0]) + CountRepliesAll(cs[1..])
  }

  /** Every node of the tree under `c` with its nesting level, parent before children,
      children in list order. `c` itself is at `level`. */
  function PreOrder(c: Comment, level: nat): seq<(nat, Comment)> {
    match c.replies
    case Absent => [(level, c)]
    case Present(rs) => [(level, c)] + PreOrderAll(rs, level + 1)
  }

  function PreOrderAll(cs: seq<Comment>, level: nat): seq<(nat, Comment)> {
    if |cs| == 0 then [] else PreOrder(cs[0], level) + PreOrderAll(cs[1..], level)
  }

  /** `count_replies(c)` is the number of strict descendants of `c`. */
  lemma {:induction false} CountRepliesIsDescendants(c: Comment, level: nat)
    ensures |PreOrder(c, level)| == 1 + CountReplies(c)
    decreases c, 1
  {
    match c.replies
    case Absent =>
    case Present(rs) => CountRepliesAllIsDescendants(rs, level + 1);
  }

  lemma {:induction false} CountRepliesAllIsDescendants(cs: seq<Comment>, level: nat)
    ensures |PreOrderAll(cs, level)| == |cs| + CountRepliesAll(cs)
    decreases cs, 0
  {
    if |cs| > 0 {
      CountRepliesIsDescendants(cs[0], level);
      CountRepliesAllIsDescendants(cs[1..], level);
    }
  }

  // ---------------------------------------------------------------------------
  // format_comment_tree
  // ---------------------------------------------------------------------------

  /** The first line of a node: a blank line, the indent, a branch glyph and the body. */
  function HeadLine(c: Comment, indent: int): string {
    "\n" + Repeat(' ', indent) + "\U{2514}\U{2500} " + c.body
  }

  /** The second line of a node: the indent, three spaces, the score and the author. */
  function ScoreLine(c: Comment, indent: int): string {
    Repeat(' ', indent) + "   Score: " + IntToString(c.score) + " | Author: " + c.author
  }

  /** `format_comment_tree(comment, indent)`: the node's two lines, then each reply
      rendered four spaces deeper, all joined by newlines. The rendering opens with the
      node's own head line, and so with a blank line. */
  function FormatCommentTree(c: Comment, indent: int): (r: string)
    ensures |HeadLine(c, indent)| <= |r| && r[..|HeadLine(c, indent)|] == HeadLine(c, indent)
    ensures r[0] == '\n'
  {
    match c.replies
    case Absent => Join("\n", [HeadLine(c, indent), ScoreLine(c, indent)])
    case Present(rs) => Join("\n", [HeadLine(c, indent), ScoreLine(c, indent)] + FormatReplies(rs, indent + 4))
  }

  function FormatReplies(cs: seq<Comment>, indent: int): (r: seq<string>)
    ensures |r| == |cs|
  {
    if |cs| == 0 then [] else [FormatCommentTree(cs[0], indent)] + FormatReplies(cs[1..], indent)
  }

  /** Indentation of a node at nesting level `level` under the default indent of 2. */
  function IndentAt(level: nat): int {
    2 + 4 * level
  }

  /** The two lines a node at `level` contributes to the rendering. */
  function NodeLines(node: (nat, Comment)): seq<string> {
    [HeadLine(node.1, IndentAt(node.0)), ScoreLine(node.1, IndentAt(node.0))]
  }

  function LinesOf(nodes: seq<(nat, Comment)>): (r: seq<string>)
    ensures |r| == 2 * |nodes|
  {
    if |nodes| == 0 then [] else NodeLines(nodes[0]) + LinesOf(nodes[1..])
  }

  lemma {:induction false} LinesOfAppend(a: seq<(nat, Comment)>, b: seq<(nat, Comment)>)
    ensures LinesOf(a + b) == LinesOf(a) + LinesOf(b)
    decreases |a|
  {
    if |a| == 0 {
      assert a + b == b;
    } else {
      assert (a + b)[1..] == a[1..] + b;
      LinesOfAppend(a[1..], b);
    }
  }

  lemma {:induction false} PreOrderAllNonEmpty(cs: seq<Comment>, level: nat)
    requires |cs| > 0
    ensures |PreOrderAll(cs, level)| > 0
  {
    assert |PreOrder(cs[0], level)| > 0;
  }

  /** The rendering of a tree whose root sits at `level` is the pre-order list of its
      nodes, each as two lines indented by 2 + 4 * (its level), joined by newlines. */
  lemma {:induction false} FormatCommentTreeIsPreOrder(c: Comment, level: nat)
    ensures FormatCommentTree(c, IndentAt(level)) == Join("\n", LinesOf(PreOrder(c, level)))
    decreases c, 2
  {
    var own := [HeadLine(c, IndentAt(level)), ScoreLine(c, IndentAt(level))];
    assert LinesOf([(level, c)]) == own;
    match c.replies
    case Absent =>
    case Present(rs) =>
      if |rs| > 0 {
        TreeWithRepliesIsPreOrder(c, level);
      } else {
        assert PreOrderAll(rs, level + 1) == [];
        assert PreOrder(c, level) == [(level, c)];
        assert FormatReplies(rs, IndentAt(level) + 4) == [];
        assert own + [] == own;
      }
  }

  /** The two lines a node renders at indentation `indent`. */
  function OwnLines(c: Comment, indent: int): seq<string> {
    [HeadLine(c, indent), ScoreLine(c, indent)]
  }

  /** The case of a node with at least one reply. */
  lemma {:induction false} TreeWithRepliesIsPreOrder(c: Comment, level: nat)
    requires c.replies.Present? && |c.replies.items| > 0
    ensures FormatCommentTree(c, IndentAt(level)) == Join("\n", LinesOf(PreOrder(c, level)))
    decreases c, 1
  {
    var rs := c.replies.items;
    var own := OwnLines(c, IndentAt(level));
    var replies := FormatReplies(rs, IndentAt(level + 1));
    var sub := PreOrderAll(rs, level + 1);
    TreeRendersOwnThenReplies(c, level);
    RepliesOneLevelDeeper(rs, level);
    TreeLinesOwnThenDescendants(c, level);
    FormatRepliesIsPreOrder(rs, level + 1);
    JoinAppend("\n", own, replies);
    PreOrderAllNonEmpty(rs, level + 1);
    JoinAppend("\n", own, LinesOf(sub));
  }

  /** A node with replies renders its own lines then its replies'. */
  lemma TreeRendersOwnThenReplies(c: Comment, level: nat)
    requires c.replies.Present?
    ensures FormatCommentTree(c, IndentAt(level))
              == Join("\n", OwnLines(c, IndentAt(level)) + FormatReplies(c.replies.items, IndentAt(level) + 4))
  {
  }

  /** Replies are indented four spaces more, which is one level deeper. */
  lemma RepliesOneLevelDeeper(rs: seq<Comment>, level: nat)
    ensures FormatReplies(rs, IndentAt(level) + 4) == FormatReplies(rs, IndentAt(level + 1))
  {
    assert IndentAt(level) + 4 == IndentAt(level + 1);
  }

  /** A node's pre-order lines are its own then its descendants'. */
  lemma TreeLinesOwnThenDescendants(c: Comment, level: nat)
    requires c.replies.Present?
    ensures LinesOf(PreOrder(c, level)) == OwnLines(c, IndentAt(level)) + LinesOf(PreOrderAll(c.replies.items, level + 1))
  {
    LinesOfAppend([(level, c)], PreOrderAll(c.replies.items, level + 1));
    assert LinesOf([(level, c)]) == OwnLines(c, IndentAt(level));
  }

  lemma {:induction false} FormatRepliesIsPreOrder(cs: seq<Comment>, level: nat)
    requires |cs| > 0
    ensures Join("\n", FormatReplies(cs, IndentAt(level))) == Join("\n", LinesOf(PreOrderAll(cs, level)))
    decreases cs, 0
  {
    var first := FormatCommentTree(cs[0], IndentAt(level));
    FormatCommentTreeIsPreOrder(cs[0], level);
    LinesOfAppend(PreOrder(cs[0], level), PreOrderAll(cs[1..], level));
    if |cs| == 1 {
      assert PreOrderAll(cs, level) == PreOrder(cs[0], level) + [];
      assert PreOrderAll(cs, level) == PreOrder(cs[0], level);
    } else {
      FormatRepliesIsPreOrder(cs[1..], level);
      JoinAppend("\n", [first], FormatReplies(cs[1..], IndentAt(level)));
      PreOrderAllNonEmpty(cs[1..], level);
      JoinAppend("\n", LinesOf(PreOrder(cs[0], level)), LinesOf(PreOrderAll(cs[1..], level)));
    }
  }

  // ---------------------------------------------------------------------------
  // count_data_stats
  // ---------------------------------------------------------------------------

  datatype Stats = Stats(posts: nat, comments: nat, replies: nat)

  function AddStats(a: Stats, b: Stats): Stats {
    Stats(a.posts + b.posts, a.comments + b.comments, a.replies + b.replies)
  }

  /** The counts one subreddit's post list contributes. */
  function PostsStats(posts: seq<Post>): (r: Stats)
    ensures r.posts == |posts|
  {
    if |posts| == 0 then Stats(0, 0, 0)
    else
      var cs := CommentsOf(posts[0]);
      AddStats(Stats(1, |cs|, CountRepliesAll(cs)), PostsStats(posts[1..]))
  }

  /** `count_data_stats(results)`: one post counted per post of every subreddit. */
  function CountDataStats(results: Results): (r: Stats)
    ensures r.posts == |AllPosts(results)|
  {
    if |results| == 0 then Stats(0, 0, 0)
    else AddStats(PostsStats(results[0].1), CountDataStats(results[1..]))
  }

  /** Every post of the scrape paired with its subreddit, subreddit order then post order. */
  function AllPosts(results: Results): seq<(string, Post)> {
    if |results| == 0 then []
    else Tag(results[0].0, results[0].1) + AllPosts(results[1..])
  }

  function Tag(name: string, posts: seq<Post>): (r: seq<(string, Post)>)
    ensures |r| == |posts|
    ensures forall i :: 0 <= i < |r| ==> r[i] == (name, posts[i])
  {
    if |posts| == 0 then [] else [(name, posts[0])] + Tag(name, posts[1..])
  }

  /** Sum of reply counts over all top-level comments of all posts. */
  function AllReplies(entries: seq<(string, Post)>): nat {
    if |entries| == 0 then 0 else CountRepliesAll(CommentsOf(entries[0].1)) + AllReplies(entries[1..])
  }

  function AllComments(entries: seq<(string, Post)>): nat {
    if |entries| == 0 then 0 else |CommentsOf(entries[0].1)| + AllComments(entries[1..])
  }

  lemma {:induction false} PostsStatsOfTag(name: string, posts: seq<Post>)
    ensures PostsStats(posts) == Stats(|posts|, AllComments(Tag(name, posts)), AllReplies(Tag(name, posts)))
    decreases |posts|
  {
    if |posts| > 0 {
      PostsStatsOfTag(name, posts[1..]);
      assert Tag(name, posts)[1..] == Tag(name, posts[1..]);
    }
  }

  lemma {:induction false} AllCountsAppend(a: seq<(string, Post)>, b: seq<(string, Post)>)
    ensures AllComments(a + b) == AllComments(a) + AllComments(b)
    ensures AllReplies(a + b) == AllReplies(a) + AllReplies(b)
    decreases |a|
  {
    if |a| == 0 {
      assert a + b == b;
    } else {
      assert (a + b)[1..] == a[1..] + b;
      AllCountsAppend(a[1..], b);
    }
  }

  /** The statistics count every post once, the top-level comments of every post
      (none when the key is missing) and every reply below them. */
  lemma {:induction false} CountDataStatsSums(results: Results)
    ensures CountDataStats(results).posts == |AllPosts(results)|
    ensures CountDataStats(results).comments == AllComments(AllPosts(results))
    ensures CountDataStats(results).replies == AllReplies(AllPosts(results))
    decreases |results|
  {
    if |results| > 0 {
      CountDataStatsSums(results[1..]);
      PostsStatsOfTag(results[0].0, results[0].1);
      AllCountsAppend(Tag(results[0].0, results[0].1), AllPosts(results[1..]));
    }
  }

  /** Two posts, each with two top-level comments that have one leaf reply each,
      count as 2 posts, 4 comments and 4 replies. */
  lemma StatsExample(name: string, leaf: Comment, top: Comment, post: Post)
    requires leaf.replies == Present([])
    requires top.replies == Present([leaf])
    requires post.comments == Some([top, top])
    ensures CountDataStats([(name, [post, post])]) == Stats(2, 4, 4)
  {
    TwoRepliesPerPost(leaf, top, post);
    assert [post, post][1..] == [post];
    assert PostsStats([post, post]) == AddStats(Stats(1, 2, 2), PostsStats([post]));
    var results: Results := [(name, [post, post])];
    assert results[1..] == [];
    assert CountDataStats(results) == AddStats(PostsStats([post, post]), CountDataStats([]));
  }

  lemma TwoRepliesPerPost(leaf: Comment, top: Comment, post: Post)
    requires leaf.replies == Present([])
    requires top.replies == Present([leaf])
    requires post.comments == Some([top, top])
    ensures |CommentsOf(post)| == 2 && CountRepliesAll(CommentsOf(post)) == 2
    ensures PostsStats([post]) == Stats(1, 2, 2)
  {
    assert [leaf][1..] == [];
    assert CountReplies(leaf) == 0;
    assert CountRepliesAll([leaf]) == 0;
    assert CountReplies(top) == 1;
    assert [top, top][1..] == [top];
    assert [top][1..] == [];
    assert CountRepliesAll([top, top]) == 2;
    assert [post][1..] == [];
  }

  // ---------------------------------------------------------------------------
  // format_json_data
  // ---------------------------------------------------------------------------

  /** One record of the JSON corpus. */
  datatype JsonPost = JsonPost(
    postId: string,
    postContent: string,
    postUrl: string,
    score: int,
    author: string,
    createdUtc: real,
    numComments: int,
    subreddit: string,
    comments: string)

  /** The keys `format_json_data` reads with `post[...]` beyond those every record has. */
  predicate JsonReady(p: Post) {
    p.selftext.Some? && p.score.Some? && p.numComments.Some?
  }

  /** `post['selftext'] if post['selftext'] else post['title']`. */
  function ContentOf(p: Post): string
    requires p.selftext.Some?
  {
    if p.selftext.value != "" then p.selftext.value else p.title
  }

  /** The rendered comment threads of a post: each top-level tree at indent 2, newline-joined. */
  function CommentsText(p: Post): string {
    Join("\n", FormatReplies(CommentsOf(p), 2))
  }

  function FormatJsonPost(subreddit: string, p: Post): (r: Result<JsonPost>)
    ensures r.Ok? <==> JsonReady(p)
  {
    if p.selftext.None? then Err(MissingKey("selftext"))
    else if p.score.None? then Err(MissingKey("score"))
    else if p.numComments.None? then Err(MissingKey("num_comments"))
    else Ok(JsonPost(p.id, ContentOf(p), p.url, p.score.value, p.author, p.createdUtc,
                     p.numComments.value, subreddit, CommentsText(p)))
  }

  function FormatJsonPosts(subreddit: string, posts: seq<Post>): (r: Result<seq<JsonPost>>)
    ensures r.Ok? ==> |r.value| == |posts|
  {
    if |posts| == 0 then Ok([])
    else
      var head :- FormatJsonPost(subreddit, posts[0]);
      var rest :- FormatJsonPosts(subreddit, posts[1..]);
      Ok([head] + rest)
  }

  /** `format_json_data(results)`: one record per post of every subreddit. */
  function FormatJsonData(results: Results): (r: Result<seq<JsonPost>>)
    ensures r.Ok? ==> |r.value| == |AllPosts(results)|
  {
    if |results| == 0 then Ok([])
    else
      var head :- FormatJsonPosts(results[0].0, results[0].1);
      var rest :- FormatJsonData(results[1..]);
      Ok(head + rest)
  }

  /** What the record for post `p` of subreddit `name` holds. */
  predicate Describes(j: JsonPost, name: string, p: Post)
    requires JsonReady(p)
  {
    && j.postId == p.id
    && j.postContent == (if p.selftext.value != "" then p.selftext.value else p.title)
    && j.postUrl == p.url
    && j.score == p.score.value
    && j.author == p.author
    && j.createdUtc == p.createdUtc
    && j.numComments == p.numComments.value
    && j.subreddit == name
    && j.comments == CommentsText(p)
  }

  predicate AllJsonReady(entries: seq<(string, Post)>) {
    forall i :: 0 <= i < |entries| ==> JsonReady(entries[i].1)
  }

  /** The records describe the posts one for one, in order. */
  predicate DescribesAll(js: seq<JsonPost>, entries: seq<(string, Post)>) {
    && |js| == |entries|
    && forall i :: 0 <= i < |js| ==> JsonReady(entries[i].1) && Describes(js[i], entries[i].0, entries[i].1)
  }

  lemma {:induction false} DescribesAllAppend(a: seq<JsonPost>, ea: seq<(string, Post)>,
                                              b: seq<JsonPost>, eb: seq<(string, Post)>)
    requires DescribesAll(a, ea) && DescribesAll(b, eb)
    ensures DescribesAll(a + b, ea + eb)
  {
    forall i | 0 <= i < |a + b|
      ensures JsonReady((ea + eb)[i].1) && Describes((a + b)[i], (ea + eb)[i].0, (ea + eb)[i].1)
    {
      if i >= |a| {
        assert (a + b)[i] == b[i - |a|] && (ea + eb)[i] == eb[i - |a|];
      }
    }
  }

  lemma {:induction false} FormatJsonPostsSpec(name: string, posts: seq<Post>)
    ensures FormatJsonPosts(name, posts).Ok? <==> AllJsonReady(Tag(name, posts))
    ensures FormatJsonPosts(name, posts).Ok? ==> DescribesAll(FormatJsonPosts(name, posts).value, Tag(name, posts))
    decreases |posts|
  {
    if |posts| > 0 {
      FormatJsonPostsSpec(name, posts[1..]);
      var tag := Tag(name, posts);
      assert tag == [(name, posts[0])] + Tag(name, posts[1..]);
      if FormatJsonPosts(name, posts).Ok? {
        DescribesAllAppend([FormatJsonPost(name, posts[0]).value], [(name, posts[0])],
                           FormatJsonPosts(name, posts[1..]).value, Tag(name, posts[1..]));
      }
      if AllJsonReady(tag) {
        assert JsonReady(tag[0].1);
        assert AllJsonReady(Tag(name, posts[1..])) by {
          forall i | 0 <= i < |posts| - 1
            ensures JsonReady(Tag(name, posts[1..])[i].1)
          {
            assert tag[i + 1] == Tag(name, posts[1..])[i];
          }
        }
      }
    }
  }

  /** `format_json_data` succeeds exactly when every post carries `selftext`, `score` and
      `num_comments`, and then emits one record per post, subreddit order then post order,
      whose `subreddit` is the dictionary key and whose `post_content` is the self text
      when non-empty and the title otherwise. */
  lemma {:induction false} FormatJsonDataSpec(results: Results)
    ensures FormatJsonData(results).Ok? <==> AllJsonReady(AllPosts(results))
    ensures FormatJsonData(results).Ok? ==> DescribesAll(FormatJsonData(results).value, AllPosts(results))
    decreases |results|
  {
    if |results| > 0 {
      var name := results[0].0;
      var head := Tag(name, results[0].1);
      var tail := AllPosts(results[1..]);
      FormatJsonPostsSpec(name, results[0].1);
      FormatJsonDataSpec(results[1..]);
      if FormatJsonData(results).Ok? {
        DescribesAllAppend(FormatJsonPosts(name, results[0].1).value, head,
                           FormatJsonData(results[1..]).value, tail);
      }
      if AllJsonReady(head + tail) {
        assert AllJsonReady(head) by {
          forall i | 0 <= i < |head| ensures JsonReady(head[i].1) {
            assert (head + tail)[i] == head[i];
          }
        }
        assert AllJsonReady(tail) by {
          forall i | 0 <= i < |tail| ensures JsonReady(tail[i].1) {
            assert (head + tail)[|head| + i] == tail[i];
          }
        }
      }
    }
  }

  /** The record list is as long as the `posts` statistic. */
  lemma FormatJsonDataCountsPosts(results: Results)
    requires FormatJsonData(results).Ok?
    ensures |FormatJsonData(results).value| == CountDataStats(results).posts
  {
    FormatJsonDataSpec(results);
    CountDataStatsSums(results);
  }

  // ---------------------------------------------------------------------------
  // format_reddit_data (the string it returns; the printed header is logging)
  // ---------------------------------------------------------------------------

  /** `"-" * 80`. */
  function Rule(): string {
    Repeat('-', 80)
  }

  /** The keys `format_reddit_data` reads with `post[...]` beyond those every record has. */
  predicate Printable(p: Post) {
    p.score.Some? && p.numComments.Some? && p.comments.Some?
  }

  /** The lines of the `number`-th post of a subreddit. */
  function PostLines(number: int, p: Post): seq<string>
    requires Printable(p)
  {
    ["\n" + IntToString(number) + ". " + p.title,
     "Score: " + IntToString(p.score.value) + " | Comments: " + IntToString(p.numComments.value),
     "URL: " + p.url,
     "\nComment thread:"]
    + FormatReplies(p.comments.value, 2)
    + [Rule()]
  }

  function CheckPrintable(p: Post): (r: Result<()>)
    ensures r.Ok? <==> Printable(p)
  {
    if p.score.None? then Err(MissingKey("score"))
    else if p.numComments.None? then Err(MissingKey("num_comments"))
    else if p.comments.None? then Err(MissingKey("comments"))
    else Ok(())
  }

  /** The lines of `posts`, numbered from `number` on (`enumerate(posts, 1)` starts at 1). */
  function PostsLines(posts: seq<Post>, number: int): Result<seq<string>> {
    if |posts| == 0 then Ok([])
    else
      var _ :- CheckPrintable(posts[0]);
      var rest :- PostsLines(posts[1..], number + 1);
      Ok(PostLines(number, posts[0]) + rest)
  }

  function SubredditLines(name: string, posts: seq<Post>): Result<seq<string>> {
    var body :- PostsLines(posts, 1);
    Ok(["\nTop posts from r/" + name + ":", Rule()] + body)
  }

  /** Every post of every subreddit has the keys the report reads. */
  predicate AllPrintable(results: Results) {
    forall i, j :: 0 <= i < |results| && 0 <= j < |results[i].1| ==> Printable(results[i].1[j])
  }

  function AllLines(results: Results): (r: Result<seq<string>>)
    ensures r.Ok? <==> AllPrintable(results)
  {
    if |results| == 0 then Ok([])
    else
      PostsLinesOk(results[0].1, 1);
      assert forall i :: 0 <= i < |results[1..]| ==> results[1..][i] == results[i + 1];
      var head :- SubredditLines(results[0].0, results[0].1);
      var rest :- AllLines(results[1..]);
      Ok(head + rest)
  }

  /** `format_reddit_data(results, api_requests)`: the lines joined by newlines. It fails
      exactly when some post lacks `score`, `num_comments` or `comments`. */
  function FormatRedditData(results: Results): (r: Result<string>)
    ensures r.Ok? <==> AllPrintable(results)
  {
    var lines :- AllLines(results);
    Ok(Join("\n", lines))
  }

  /** The blocks of lines of `posts`, the first numbered `number`, each next one more. */
  function NumberedBlocks(posts: seq<Post>, number: int): (r: seq<seq<string>>)
    requires forall i :: 0 <= i < |posts| ==> Printable(posts[i])
  {
    Numbered(posts, number, PostLines)
  }

  /** Block `j` (0-based) of a list numbered from `number` is that of post number `number + j`. */
  lemma NumberedBlocksAt(posts: seq<Post>, number: int, j: int)
    requires forall i :: 0 <= i < |posts| ==> Printable(posts[i])
    requires 0 <= j < |posts|
    ensures |NumberedBlocks(posts, number)| == |posts|
    ensures NumberedBlocks(posts, number)[j] == PostLines(number + j, posts[j])
  {
    NumberedAt(posts, number, PostLines, j);
  }

  /** The post lines fail exactly when some post lacks `score`, `num_comments` or `comments`. */
  lemma {:induction false} PostsLinesOk(posts: seq<Post>, number: int)
    ensures PostsLines(posts, number).Ok? <==> forall i :: 0 <= i < |posts| ==> Printable(posts[i])
    decreases |posts|
  {
    if |posts| > 0 {
      PostsLinesOk(posts[1..], number + 1);
      assert forall i :: 0 <= i < |posts[1..]| ==> posts[1..][i] == posts[i + 1];
    }
  }

  /** The report lists a subreddit's posts in order, block after block (see
      `NumberedBlocksAt` for the numbering). */
  lemma {:induction false} PostsLinesNumbered(posts: seq<Post>, number: int)
    requires forall i :: 0 <= i < |posts| ==> Printable(posts[i])
    ensures PostsLines(posts, number) == Ok(Flatten(NumberedBlocks(posts, number)))
    decreases |posts|
  {
    if |posts| > 0 {
      var tail := posts[1..];
      assert forall i :: 0 <= i < |tail| ==> tail[i] == posts[i + 1];
      PostsLinesNumbered(tail, number + 1);
      PostsLinesCons(posts, number);
      var blocks := NumberedBlocks(posts, number);
      assert blocks[1..] == NumberedBlocks(tail, number + 1);
    }
  }

  lemma PostsLinesCons(posts: seq<Post>, number: int)
    requires |posts| > 0 && Printable(posts[0]) && PostsLines(posts[1..], number + 1).Ok?
    ensures PostsLines(posts, number) == Ok(PostLines(number, posts[0]) + PostsLines(posts[1..], number + 1).value)
  {
    assert CheckPrintable(posts[0]).Ok?;
  }

  /** Within each subreddit the posts are numbered from 1. */
  lemma SubredditNumberedFromOne(name: string, posts: seq<Post>)
    requires forall i :: 0 <= i < |posts| ==> Printable(posts[i])
    ensures SubredditLines(name, posts)
      == Ok(["\nTop posts from r/" + name + ":", Rule()] + Flatten(NumberedBlocks(posts, 1)))
  {
    PostsLinesNumbered(posts, 1);
  }
}
