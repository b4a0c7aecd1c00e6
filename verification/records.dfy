/** The scraped data as the pipeline passes it around: posts carrying comment trees,
    grouped by subreddit. Keys the code reads with `.get(key, default)` are optional;
    keys every scraped record carries are plain fields. */
module Records {
  import opened Base
  import opened Seqs

  /** One collected comment; `replies` may be missing from a record loaded from JSON. */
  datatype Comment = Comment(
    id: string,
    author: string,
    body: string,
    score: int,
    createdUtc: real,
    replies: Replies)

  /** The `replies` key of a comment record: absent, or a list of child comments. */
  datatype Replies = Absent | Present(items: seq<Comment>)

  /** `comment.get('replies', [])`. */
  function Children(c: Comment): seq<Comment> {
    match c.replies
    case Absent => []
    case Present(rs) => rs
  }

  /** One post record. `upvoteRatio` and `isInformative` are only present on records that
      came from elsewhere or went through the classifier. */
  datatype Post = Post(
    id: string,
    title: string,
    url: string,
    author: string,
    createdUtc: real,
    permalink: string,
    score: Option<int>,
    numComments: Option<int>,
    upvoteRatio: Option<real>,
    selftext: Option<string>,
    comments: Option<seq<Comment>>,
    isInformative: Option<bool>)

  /** `post.get('comments', [])`. */
  function CommentsOf(p: Post): seq<Comment> {
    p.comments.GetOr([])
  }

  /** The scrape result: subreddit name to its posts, in insertion order. */
  type Results = Assoc<string, seq<Post>>
}
