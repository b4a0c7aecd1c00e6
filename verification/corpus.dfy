/** The post corpus and theme list as loaded from JSON (reddit/utils.py). */
module Corpus {
  import opened Base
  import opened Text
  import opened Seqs

  /** A loaded post: the five keys `Post.__init__` reads. */
  datatype CorpusPost = CorpusPost(
    postId: string,
    content: string,
    comments: string,
    subreddit: string,
    score: int)

  /** One JSON record of the corpus file, each of the five keys possibly absent. */
  datatype CorpusRecord = CorpusRecord(
    postId: Option<string>,
    postContent: Option<string>,
    comments: Option<string>,
    subreddit: Option<string>,
    score: Option<int>)

  predicate Complete(rec: CorpusRecord) {
    rec.postId.Some? && rec.postContent.Some? && rec.comments.Some? && rec.subreddit.Some? && rec.score.Some?
  }

  /** `Post(record)`: reads `post_id`, `post_content`, `comments`, `subreddit`, `score`
      in that order and raises on the first one missing. */
  function MakePost(rec: CorpusRecord): (r: Result<CorpusPost>)
    ensures r.Ok? <==> Complete(rec)
    ensures r.Ok? ==> r.value == CorpusPost(rec.postId.value, rec.postContent.value, rec.comments.value,
                                            rec.subreddit.value, rec.score.value)
    ensures rec.postId.None? ==> r == Err(MissingKey("post_id"))
  {
    if rec.postId.None? then Err(MissingKey("post_id"))
    else if rec.postContent.None? then Err(MissingKey("post_content"))
    else if rec.comments.None? then Err(MissingKey("comments"))
    else if rec.subreddit.None? then Err(MissingKey("subreddit"))
    else if rec.score.None? then Err(MissingKey("score"))
    else Ok(CorpusPost(rec.postId.value, rec.postContent.value, rec.comments.value,
                       rec.subreddit.value, rec.score.value))
  }

  /** `Posts._load_posts`: one post per record, in file order; any incomplete record
      makes the whole load raise. */
  function LoadPosts(records: seq<CorpusRecord>): (r: Result<seq<CorpusPost>>)
    ensures r.Ok? <==> forall i :: 0 <= i < |records| ==> Complete(records[i])
    ensures r.Ok? ==> |r.value| == |records|
    ensures r.Ok? ==> forall i :: 0 <= i < |records| ==> r.value[i] == MakePost(records[i]).value
  {
    if |records| == 0 then Ok([])
    else
      var head :- MakePost(records[0]);
      var rest :- LoadPosts(records[1..]);
      assert forall i :: 0 < i < |records| ==> records[1..][i - 1] == records[i];
      Ok([head] + rest)
  }

  /** The text before the first newline. */
  function FirstLine(s: string): (r: string)
    ensures '\n' !in r
  {
    if |s| == 0 || s[0] == '\n' then "" else [s[0]] + FirstLine(s[1..])
  }

  /** The text after the last newline. */
  function LastLine(s: string): (r: string)
    ensures '\n' !in r
    decreases |s|
  {
    if |s| == 0 || s[|s| - 1] == '\n' then "" else LastLine(s[..|s| - 1]) + [s[|s| - 1]]
  }

  lemma {:induction false} FirstLineOf(a: string, b: string)
    ensures '\n' !in a ==> FirstLine(a + "\n" + b) == a
    decreases |a|
  {
    if '\n' in a {
    } else if |a| > 0 {
      assert (a + "\n" + b)[1..] == a[1..] + "\n" + b;
      FirstLineOf(a[1..], b);
    } else {
      assert (a + "\n" + b)[0] == '\n';
    }
  }

  lemma {:induction false} LastLineOf(a: string, b: string)
    requires '\n' !in b
    ensures LastLine(a + "\n" + b) == b
    decreases |b|
  {
    var s := a + "\n" + b;
    if |b| > 0 {
      assert s[..|s| - 1] == a + "\n" + b[..|b| - 1];
      LastLineOf(a, b[..|b| - 1]);
      assert b[..|b| - 1] + [b[|b| - 1]] == b;
    } else {
      assert s[|s| - 1] == '\n';
    }
  }

  /** The five labelled lines of `Post.stringify()`, in order. */
  function StringifyLines(p: CorpusPost): (r: seq<string>)
    ensures |r| == 5
  {
    [ "Post: " + p.postId,
      "Content: " + p.content,
      "Comments: " + p.comments,
      "Subreddit: " + p.subreddit,
      "Score: " + IntToString(p.score) ]
  }

  /** `Post.stringify()`: the five labelled lines joined by newlines. */
  function Stringify(p: CorpusPost): (r: string)
    ensures |r| >= 6 && r[..6] == "Post: "
  {
    var lines := StringifyLines(p);
    assert Join("\n", lines) == lines[0] + "\n" + Join("\n", lines[1..]);
    Join("\n", lines)
  }

  /** The first line of a rendering names the post, as long as its id has no newline. */
  lemma StringifyFirstLine(p: CorpusPost)
    requires '\n' !in p.postId
    ensures FirstLine(Stringify(p)) == "Post: " + p.postId
  {
    var lines := StringifyLines(p);
    assert Stringify(p) == lines[0] + "\n" + Join("\n", lines[1..]);
    FirstLineOf(lines[0], Join("\n", lines[1..]));
  }

  /** The last line of a rendering carries the score. */
  lemma StringifyLastLine(p: CorpusPost)
    ensures LastLine(Stringify(p)) == "Score: " + IntToString(p.score)
  {
    var lines := StringifyLines(p);
    assert lines == lines[..4] + [lines[4]];
    JoinAppend("\n", lines[..4], [lines[4]]);
    LastLineOf(Join("\n", lines[..4]), lines[4]);
  }

  /** The separator between posts in the gathered corpus text. */
  const Separator := "\n---\n"

  /** `DailyPosts.gather_posts()`. */
  function GatherPosts(posts: seq<CorpusPost>): (r: string)
    ensures |posts| == 0 ==> r == ""
    ensures |posts| == 1 ==> r == Stringify(posts[0])
    ensures |posts| > 0 ==> |r| >= 6 && r[..6] == "Post: "
  {
    var parts := Map(posts, Stringify);
    if |posts| == 0 then Join(Separator, parts)
    else
      MapAt(posts, Stringify, 0);
      assert |parts| > 1 ==> Join(Separator, parts) == parts[0] + Separator + Join(Separator, parts[1..]);
      Join(Separator, parts)
  }

  /** `Posts.__repr__()`. */
  function PostsRepr(posts: seq<CorpusPost>): string {
    Join("\n---\n", seq(|posts|, i requires 0 <= i < |posts| => Stringify(posts[i])))
  }

  /** Gathering splits at any point into the two halves joined by the separator. */
  lemma GatherPostsAppend(a: seq<CorpusPost>, b: seq<CorpusPost>)
    requires |a| > 0 && |b| > 0
    ensures GatherPosts(a + b) == GatherPosts(a) + Separator + GatherPosts(b)
  {
    MapAppend(a, b, Stringify);
    JoinAppend(Separator, Map(a, Stringify), Map(b, Stringify));
  }

  /** `Posts.__repr__` and `DailyPosts.gather_posts` produce the same text. */
  lemma ReprIsGather(a: seq<CorpusPost>)
    ensures PostsRepr(a) == GatherPosts(a)
  {
    forall j | 0 <= j < |a| {
      MapAt(a, Stringify, j);
    }
    assert seq(|a|, i requires 0 <= i < |a| => Stringify(a[i])) == Map(a, Stringify);
  }

  // ---------------------------------------------------------------------------
  // TopicRecommendations
  // ---------------------------------------------------------------------------

  /** One theme of the recommendations file. */
  datatype Theme = Theme(theme: string, postIds: seq<string>)

  /** `TopicRecommendations._load_themes`: `data["themes"]`, `None` when the key is absent. */
  function LoadThemes(data: Option<seq<Theme>>): (r: Result<seq<Theme>>)
    ensures data.None? <==> r == Err(MissingKey("themes"))
    ensures data.Some? ==> r == Ok(data.value)
  {
    match data
    case None => Err(MissingKey("themes"))
    case Some(themes) => Ok(themes)
  }

  /** Theme `i` is the first one called `name`. */
  predicate FirstNamed(themes: seq<Theme>, name: string, i: int) {
    && 0 <= i < |themes|
    && themes[i].theme == name
    && forall j :: 0 <= j < i ==> themes[j].theme != name
  }

  /** `get_post_ids_for_theme(name)`: the ids of the first theme with that name, or none. */
  function GetPostIdsForTheme(themes: seq<Theme>, name: string): (r: seq<string>)
    ensures (forall i :: 0 <= i < |themes| ==> themes[i].theme != name) ==> r == []
    ensures forall i :: FirstNamed(themes, name, i) ==> r == themes[i].postIds
  {
    if |themes| == 0 then []
    else if themes[0].theme == name then themes[0].postIds
    else
      assert forall i :: 0 < i < |themes| ==> themes[1..][i - 1] == themes[i];
      GetPostIdsForTheme(themes[1..], name)
  }
}
