/** The second copy of `Post`, `Posts` and `DailyPosts` (reddit/posts.py). It is written
    out on its own here and shown to agree with the corpus module's version. */
module LegacyPosts {
  import opened Base
  import opened Text
  import Corpus

  /** `Post.stringify()` and `Post.__repr__()`: the same rendering as the corpus module's. */
  function Stringify(p: Corpus.CorpusPost): (r: string)
    ensures r == Corpus.Stringify(p)
  {
    Join("\n", ["Post: " + p.postId, "Content: " + p.content, "Comments: " + p.comments,
                "Subreddit: " + p.subreddit, "Score: " + IntToString(p.score)])
  }

  /** `Post(record)`, reading the same five keys in the same order: the same post, or the
      same missing key, as the corpus module's constructor. */
  function MakePost(rec: Corpus.CorpusRecord): (r: Result<Corpus.CorpusPost>)
    ensures r == Corpus.MakePost(rec)
  {
    var id :- if rec.postId.Some? then Ok(rec.postId.value) else Err(MissingKey("post_id"));
    var content :- if rec.postContent.Some? then Ok(rec.postContent.value) else Err(MissingKey("post_content"));
    var comments :- if rec.comments.Some? then Ok(rec.comments.value) else Err(MissingKey("comments"));
    var subreddit :- if rec.subreddit.Some? then Ok(rec.subreddit.value) else Err(MissingKey("subreddit"));
    var score :- if rec.score.Some? then Ok(rec.score.value) else Err(MissingKey("score"));
    Ok(Corpus.CorpusPost(id, content, comments, subreddit, score))
  }

  /** `Posts._load_posts`: the same result as the corpus module's loader for every file. */
  function LoadPosts(records: seq<Corpus.CorpusRecord>): (r: Result<seq<Corpus.CorpusPost>>)
    ensures r == Corpus.LoadPosts(records)
  {
    if |records| == 0 then Ok([])
    else
      var head :- MakePost(records[0]);
      var rest :- LoadPosts(records[1..]);
      Ok([head] + rest)
  }

  /** `Posts.__repr__()`. */
  function Repr(posts: seq<Corpus.CorpusPost>): string {
    if |posts| == 0 then ""
    else if |posts| == 1 then Stringify(posts[0])
    else Stringify(posts[0]) + "\n---\n" + Repr(posts[1..])
  }

  /** `DailyPosts.gather_posts()`: the same text as the corpus module's for every corpus. */
  function GatherPosts(posts: seq<Corpus.CorpusPost>): (r: string)
    ensures r == Corpus.GatherPosts(posts)
  {
    ReprGathers(posts);
    Repr(posts)
  }

  /** The duplicate `__repr__`, built by recursion on the list, gathers the corpus as the
      corpus module does. */
  lemma {:induction false} ReprGathers(posts: seq<Corpus.CorpusPost>)
    ensures Repr(posts) == Corpus.GatherPosts(posts)
    decreases |posts|
  {
    if |posts| > 0 {
      var head := [posts[0]];
      if |posts| > 1 {
        var tail := posts[1..];
        ReprGathers(tail);
        assert posts == head + tail;
        Corpus.GatherPostsAppend(head, tail);
        ReprCons(posts);
      }
    }
  }

  lemma ReprCons(posts: seq<Corpus.CorpusPost>)
    requires |posts| > 1
    ensures Repr(posts) == Stringify(posts[0]) + "\n---\n" + Repr(posts[1..])
  {
  }

  /** `Posts.__repr__()` equals the corpus module's rendering by comprehension. */
  lemma ReprAgrees(posts: seq<Corpus.CorpusPost>)
    ensures Repr(posts) == Corpus.PostsRepr(posts)
  {
    ReprGathers(posts);
    Corpus.ReprIsGather(posts);
  }
}
