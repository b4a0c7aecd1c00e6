/** How the stages fit together: what the scraper produces is what the formatter, the
    engagement filter and the corpus loader receive. */
module Pipeline {
  import opened Base
  import opened Seqs
  import opened Records
  import opened Forum
  import opened Scraper
  import opened Formatter
  import opened PostFilter
  import Corpus

  /** The shape of every post the scraper builds: all fields the formatter reads are
      present, and the upvote ratio is not. */
  predicate ScrapedShape(p: Post) {
    JsonReady(p) && Printable(p) && p.upvoteRatio.None?
  }

  predicate AllShaped(results: Results) {
    forall i :: 0 <= i < |results| ==> forall j :: 0 <= j < |results[i].1| ==> ScrapedShape(results[i].1[j])
  }

  lemma TopPostsShaped(name: string, cfg: Config, top: (string, int, string) -> Listing)
    ensures forall j :: 0 <= j < |GetTopPosts(name, None, cfg, top).value| ==>
              ScrapedShape(GetTopPosts(name, None, cfg, top).value[j])
  {
  }

  lemma {:induction false} ScrapeLoopShaped(subreddits: seq<string>, cfg: Config,
                                            top: (string, int, string) -> Listing, results: Results)
    requires AllShaped(results)
    ensures AllShaped(ScrapeLoop(subreddits, cfg, top, results).value)
    decreases |subreddits|
  {
    if |subreddits| > 0 {
      var posts := GetTopPosts(subreddits[0], None, cfg, top).value;
      TopPostsShaped(subreddits[0], cfg, top);
      var next := Put(results, subreddits[0], posts);
      PutItems(results, subreddits[0], posts);
      forall i | 0 <= i < |next|
        ensures forall j :: 0 <= j < |next[i].1| ==> ScrapedShape(next[i].1[j])
      {
        if next[i] != (subreddits[0], posts) {
          var k :| 0 <= k < |results| && results[k] == next[i];
        }
      }
      ScrapeLoopShaped(subreddits[1..], cfg, top, next);
    }
  }

  /** Every scraped post has the scraper's shape. */
  lemma ScrapeShaped(s: Settings, top: (string, int, string) -> Listing)
    ensures AllShaped(ScrapeAllSubreddits(s, top).value)
  {
    ScrapeLoopShaped(s.subreddits, s.config, top, []);
  }

  lemma {:induction false} AllPostsShaped(results: Results)
    requires AllShaped(results)
    ensures forall i :: 0 <= i < |AllPosts(results)| ==> ScrapedShape(AllPosts(results)[i].1)
    decreases |results|
  {
    if |results| > 0 {
      AllPostsShaped(results[1..]);
      var head: seq<(string, Post)> := Tag(results[0].0, results[0].1);
      var tail: seq<(string, Post)> := AllPosts(results[1..]);
      assert AllPosts(results) == head + tail;
      forall i | 0 <= i < |AllPosts(results)|
        ensures ScrapedShape(AllPosts(results)[i].1)
      {
        if i >= |head| {
          assert AllPosts(results)[i] == tail[i - |head|];
        }
      }
    }
  }

  lemma {:induction false} AllLinesOk(results: Results)
    requires AllShaped(results)
    ensures AllLines(results).Ok?
    decreases |results|
  {
    if |results| > 0 {
      PostsLinesOk(results[0].1, 1);
      AllLinesOk(results[1..]);
    }
  }

  /** Both renderings of a scrape succeed: no post the scraper builds lacks a key the
      formatter reads, and the JSON export has one record per scraped post. */
  lemma ScrapeFormats(s: Settings, top: (string, int, string) -> Listing)
    ensures var results := ScrapeAllSubreddits(s, top).value;
            && FormatJsonData(results).Ok?
            && |FormatJsonData(results).value| == CountDataStats(results).posts
            && FormatRedditData(results).Ok?
  {
    var results := ScrapeAllSubreddits(s, top).value;
    ScrapeShaped(s, top);
    AllPostsShaped(results);
    FormatJsonDataSpec(results);
    FormatJsonDataCountsPosts(results);
    AllLinesOk(results);
  }

  /** No scraped post passes the engagement filter: the scraper never records an upvote
      ratio, and a missing ratio counts as 0. */
  lemma ScrapedPostsFailMetrics(posts: seq<Post>)
    requires forall i :: 0 <= i < |posts| ==> ScrapedShape(posts[i])
    ensures FilterByMetrics(posts) == []
  {
    var r := FilterByMetrics(posts);
    assert forall p :: p in r ==> p in posts && MeetsMetrics(p);
  }

  /** Filtering the posts of any scraped subreddit keeps none of them. */
  method FilterScraped(s: Settings, top: (string, int, string) -> Listing, name: string,
                       batchSize: int, classify: string -> Verdict, batchFails: seq<Post> -> bool, gatherFails: bool)
    returns (r: Result<seq<Post>>)
    ensures batchSize < 1 <==> r == Err(InvalidArgument)
    ensures r.Ok? ==> r.value == []
  {
    var results := ScrapeAllSubreddits(s, top).value;
    var posts := Get(results, name).GetOr([]);
    ScrapeShaped(s, top);
    if HasKey(results, name) {
      var k :| 0 <= k < |results| && results[k] == (name, posts);
    }
    ScrapedPostsFailMetrics(posts);
    r := GetInformativePosts(posts, batchSize, classify, batchFails, gatherFails);
  }

  /** The record `utils.Post` reads back from one JSON export entry. */
  function ToRecord(j: JsonPost): Corpus.CorpusRecord {
    Corpus.CorpusRecord(Some(j.postId), Some(j.postContent), Some(j.comments), Some(j.subreddit), Some(j.score))
  }

  /** Every JSON export is a loadable corpus: each record has all five keys the loader
      reads, and each loaded post carries its record's id, content, comments, subreddit
      and score. */
  lemma ExportLoads(js: seq<JsonPost>)
    ensures var records := seq(|js|, i requires 0 <= i < |js| => ToRecord(js[i]));
            && Corpus.LoadPosts(records).Ok?
            && |Corpus.LoadPosts(records).value| == |js|
            && forall i :: 0 <= i < |js| ==>
                 Corpus.LoadPosts(records).value[i]
                   == Corpus.CorpusPost(js[i].postId, js[i].postContent, js[i].comments, js[i].subreddit, js[i].score)
  {
  }
}
